// Severity levels and small shared datatypes.

module LogLevels {

  datatype Option<+T> = None | Some(value: T)

  /** Severities in the order of the enumeration: later means more severe. */
  datatype LogLevel = Trace | Debug | Info | Warn | Error | Critical
  {
    function Rank(): nat {
      match this
      case Trace => 0
      case Debug => 1
      case Info => 2
      case Warn => 3
      case Error => 4
      case Critical => 5
    }

    predicate Below(other: LogLevel) {
      Rank() < other.Rank()
    }
  }

  /** The order of severity. */
  lemma SeverityOrder()
    ensures Trace.Below(Debug) && Debug.Below(Info) && Info.Below(Warn) && Warn.Below(Error) && Error.Below(Critical)
    ensures forall a: LogLevel, b: LogLevel :: a.Below(b) ==> !b.Below(a)
    ensures forall a: LogLevel, b: LogLevel :: a != b ==> a.Below(b) || b.Below(a)
  {
  }

  function ToString(level: LogLevel): string {
    match level
    case Trace => "TRACE"
    case Debug => "DEBUG"
    case Info => "INFO"
    case Warn => "WARN"
    case Error => "ERROR"
    case Critical => "CRITICAL"
  }
}

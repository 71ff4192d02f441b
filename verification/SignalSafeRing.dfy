// The ring buffer of the signal-safe sink, used by one thread.

module SignalSafeRing {
  import opened LogLevels
  import opened Modular

  const MAX_BUFFER_SIZE: nat := 1048576

  function LevelText(level: LogLevel): string {
    match level
    case Trace => "[TRACE] "
    case Debug => "[DEBUG] "
    case Info => "[INFO] "
    case Warn => "[WARN] "
    case Error => "[ERROR] "
    case Critical => "[CRITICAL] "
  }

  // ---------- A plain byte queue ----------

  /** `handed` is everything passed on for writing, `pending` what waits in the buffer. */
  datatype Queue = Queue(handed: string, pending: string, dropped: nat)

  function Drain(q: Queue, open: bool): Queue {
    if open then Queue(q.handed + q.pending, "", q.dropped) else q
  }

  function Put(q: Queue, capacity: nat, open: bool, chunk: string): Queue {
    if chunk == "" then q
    else if |q.pending| + |chunk| <= capacity then q.(pending := q.pending + chunk)
    else
      var r := Drain(q, open);
      if |r.pending| + |chunk| <= capacity then r.(pending := r.pending + chunk) else r.(dropped := r.dropped + 1)
  }

  function Logged(q: Queue, capacity: nat, open: bool, level: LogLevel, message: string): Queue {
    if !open then q
    else
      var r := Put(Put(Put(q, capacity, open, LevelText(level)), capacity, open, message), capacity, open, "\n");
      if |r.pending| > capacity / 2 then Drain(r, open) else r
  }

  // ---------- The ring ----------

  function Flat(segments: seq<string>): string {
    if segments == [] then "" else Flat(segments[..|segments| - 1]) + segments[|segments| - 1]
  }

  /** The bytes at positions `lo..hi`, wherever they wrap. */
  function Window(cells: seq<char>, capacity: nat, lo: nat, hi: nat): (w: string)
    requires lo <= hi <= lo + capacity && capacity <= |cells|
    ensures |w| == hi - lo
    ensures forall i :: 0 <= i < hi - lo ==> w[i] == cells[(lo + i) % capacity]
  {
    seq(hi - lo, i requires 0 <= i < hi - lo => cells[(lo + i) % capacity])
  }

  class SignalSafeSink {
    const capacity: nat
    const is_open: bool
    const buffer: array<char>
    var write_pos: nat
    var read_pos: nat
    var dropped_count: nat
    var flush_in_progress: bool
    /** The segments passed to safe_write, in order. */
    var handed: seq<string>

    ghost predicate Valid()
      reads this
    {
      && capacity <= MAX_BUFFER_SIZE == buffer.Length
      && read_pos <= write_pos <= read_pos + capacity
      && !flush_in_progress
    }

    ghost function Model(): Queue
      requires capacity <= buffer.Length && read_pos <= write_pos <= read_pos + capacity
      reads this, buffer
    {
      Queue(Flat(handed), Window(buffer[..], capacity, read_pos, write_pos), dropped_count)
    }

    constructor (opens: bool, buffer_size: nat)
      ensures Valid() && fresh(buffer) && is_open == opens
      ensures capacity == if buffer_size <= MAX_BUFFER_SIZE then buffer_size else MAX_BUFFER_SIZE
      ensures Model() == Queue("", "", 0)
    {
      is_open := opens;
      capacity := if buffer_size <= MAX_BUFFER_SIZE then buffer_size else MAX_BUFFER_SIZE;
      buffer := new char[MAX_BUFFER_SIZE](_ => '\0');
      write_pos, read_pos, dropped_count, flush_in_progress, handed := 0, 0, 0, false, [];
    }

    method Log(level: LogLevel, message: string, spurious: nat)
      requires Valid()
      modifies this, buffer
      ensures Valid() && Model() == Logged(old(Model()), capacity, is_open, level, message)
    {
      if !is_open {
        return;
      }
      WriteToBuffer(LevelText(level), spurious);
      WriteToBuffer(message, spurious);
      WriteToBuffer("\n", spurious);
      var current_size := write_pos - read_pos;
      if current_size > capacity / 2 {
        FlushBuffer();
      }
    }

    method Flush()
      requires Valid()
      modifies this`read_pos, this`handed
      ensures Valid() && Model() == Drain(old(Model()), is_open)
      ensures |handed| <= |old(handed)| + 2
    {
      FlushBuffer();
    }

    method WriteToBuffer(data: string, spurious: nat)
      requires Valid()
      modifies this, buffer
      ensures Valid() && Model() == Put(old(Model()), capacity, is_open, data)
    {
      if data == "" {
        return;
      }
      var ok, start := Reserve(|data|, spurious);
      if ok {
        ghost var before := Window(buffer[..], capacity, read_pos, start);
        CopyIn(start, data);
        assert Model().pending == before + data;
      }
    }

    /** The reservation loop; `spurious` exchanges fail before one succeeds. */
    method Reserve(len: nat, spurious: nat) returns (ok: bool, start: nat)
      requires Valid() && len > 0
      modifies this
      ensures Valid()
      ensures var fits := old(write_pos) - old(read_pos) + len <= capacity;
              var drained := Drain(old(Model()), is_open && !fits);
              && ok == (|drained.pending| + len <= capacity)
              && Flat(handed) == drained.handed
              && start == old(write_pos)
              && read_pos == (if is_open && !fits then old(write_pos) else old(read_pos))
              && write_pos == (if ok then start + len else start)
              && dropped_count == (if ok then old(dropped_count) else old(dropped_count) + 1)
    {
      var failures := spurious;
      start := write_pos;
      while true
        invariant Valid() && write_pos == start == old(write_pos) && dropped_count == old(dropped_count)
        invariant (read_pos == old(read_pos) && handed == old(handed))
               || (old(write_pos) - old(read_pos) + len > capacity && is_open && read_pos == write_pos
                   && Flat(handed) == old(Model()).handed + old(Model()).pending)
        decreases failures
      {
        var available := capacity - (write_pos - read_pos);
        if len > available {
          if !flush_in_progress {
            flush_in_progress := true;
            FlushBuffer();
            flush_in_progress := false;
          }
          available := capacity - (write_pos - read_pos);
          if len > available {
            dropped_count := dropped_count + 1;
            return false, start;
          }
        }
        if failures == 0 {
          write_pos := start + len;
          return true, start;
        }
        failures := failures - 1;
      }
    }

    method CopyIn(start: nat, data: string)
      requires Valid() && read_pos <= start && start + |data| == write_pos
      modifies buffer
      ensures Window(buffer[..], capacity, read_pos, start) == old(Window(buffer[..], capacity, read_pos, start))
      ensures Window(buffer[..], capacity, start, write_pos) == data
    {
      for i := 0 to |data|
        invariant forall k: nat :: read_pos <= k < start ==> buffer[k % capacity] == old(buffer[k % capacity])
        invariant forall k: nat :: start <= k < start + i ==> buffer[k % capacity] == data[k - start]
      {
        var idx := (start + i) % capacity;
        forall k: nat | read_pos <= k < start + i
          ensures k % capacity != idx
        {
          DistinctResidues(k, start + i, capacity);
        }
        buffer[idx] := data[i];
      }
    }

    /** Hands all pending bytes to safe_write, in at most two segments. */
    method FlushBuffer()
      requires capacity <= MAX_BUFFER_SIZE == buffer.Length && read_pos <= write_pos <= read_pos + capacity
      modifies this`read_pos, this`handed
      ensures read_pos == if is_open then write_pos else old(read_pos)
      ensures Model() == Drain(old(Model()), is_open)
      ensures |handed| <= |old(handed)| + 2
    {
      if !is_open {
        return;
      }
      if write_pos == read_pos {
        return;
      }
      var read := read_pos;
      while read < write_pos
        invariant old(read_pos) <= read <= write_pos
        invariant Flat(handed) == Flat(old(handed)) + Window(buffer[..], capacity, old(read_pos), read)
        invariant read < write_pos ==>
                    handed == old(handed) || (|handed| == |old(handed)| + 1 && read % capacity == 0)
        invariant |handed| <= |old(handed)| + 2
      {
        var idx := read % capacity;
        var bytes_to_write := if write_pos - read <= capacity - idx then write_pos - read else capacity - idx;
        UpToMultiple(read, capacity);
        SegmentIsWindow(buffer[..], capacity, old(read_pos), read, bytes_to_write);
        HandOver(handed, buffer[idx..idx + bytes_to_write]);
        handed := handed + [buffer[idx..idx + bytes_to_write]];
        read := read + bytes_to_write;
      }
      read_pos := read;
    }
  }

  lemma HandOver(handed: seq<string>, segment: string)
    ensures Flat(handed + [segment]) == Flat(handed) + segment
  {
    assert (handed + [segment])[..|handed|] == handed;
  }

  lemma SegmentIsWindow(cells: seq<char>, capacity: nat, lo: nat, read: nat, n: nat)
    requires 0 < capacity <= |cells| && lo <= read && read + n <= lo + capacity && read % capacity + n <= capacity
    ensures Window(cells, capacity, lo, read) + cells[read % capacity..read % capacity + n]
         == Window(cells, capacity, lo, read + n)
  {
    var segment := cells[read % capacity..read % capacity + n];
    var window := Window(cells, capacity, read, read + n);
    forall i | 0 <= i < n
      ensures segment[i] == window[i]
    {
      AddWithin(read, i, capacity);
    }
    assert segment == window;
  }

  // ---------- Runs ----------

  datatype Op = LogOp(level: LogLevel, message: string) | FlushOp

  function Apply(q: Queue, capacity: nat, open: bool, op: Op): Queue {
    match op
    case LogOp(level, message) => Logged(q, capacity, open, level, message)
    case FlushOp => Drain(q, open)
  }

  function Run(capacity: nat, open: bool, ops: seq<Op>): Queue {
    if ops == [] then Queue("", "", 0)
    else Apply(Run(capacity, open, ops[..|ops| - 1]), capacity, open, ops[|ops| - 1])
  }

  /** The chunks a call offers to the buffer. */
  function ChunksOf(op: Op): seq<string> {
    match op
    case LogOp(level, message) => [LevelText(level), message, "\n"]
    case FlushOp => []
  }

  function Chunks(ops: seq<Op>): seq<string> {
    if ops == [] then [] else Chunks(ops[..|ops| - 1]) + ChunksOf(ops[|ops| - 1])
  }

  /** The chunks that fit the buffer at all, in order. */
  function Fitting(capacity: nat, chunks: seq<string>): string {
    if chunks == [] then ""
    else Fitting(capacity, chunks[..|chunks| - 1]) + if |chunks[|chunks| - 1]| <= capacity then chunks[|chunks| - 1] else ""
  }

  function TooLong(capacity: nat, chunks: seq<string>): nat {
    if chunks == [] then 0
    else TooLong(capacity, chunks[..|chunks| - 1]) + if |chunks[|chunks| - 1]| <= capacity then 0 else 1
  }

  /** The queue holds exactly the fitting chunks, and has counted the others. */
  ghost predicate Accounts(q: Queue, capacity: nat, chunks: seq<string>) {
    && q.handed + q.pending == Fitting(capacity, chunks)
    && q.dropped == TooLong(capacity, chunks)
    && |q.pending| <= capacity
  }

  lemma PutAccounts(q: Queue, capacity: nat, chunks: seq<string>, chunk: string)
    requires Accounts(q, capacity, chunks)
    ensures Accounts(Put(q, capacity, true, chunk), capacity, chunks + [chunk])
  {
    var r := Put(q, capacity, true, chunk);
    assert (chunks + [chunk])[..|chunks|] == chunks;
    assert q.handed + (q.pending + chunk) == q.handed + q.pending + chunk;
    assert q.handed + q.pending + "" == q.handed + q.pending;
  }

  lemma DrainAccounts(q: Queue, capacity: nat, chunks: seq<string>)
    requires Accounts(q, capacity, chunks)
    ensures Accounts(Drain(q, true), capacity, chunks)
  {
    assert q.handed + q.pending + "" == q.handed + q.pending;
  }

  /** One thread, any run of log and flush calls on an open sink: what was handed over for writing
      followed by what is pending is the in-order concatenation of the chunks that fit the buffer,
      a chunk is dropped and counted exactly when it is longer than the capacity, and no log call
      leaves more than half the capacity pending. */
  lemma {:induction false} RingIsQueue(capacity: nat, ops: seq<Op>)
    ensures Accounts(Run(capacity, true, ops), capacity, Chunks(ops))
    ensures ops != [] ==> |Run(capacity, true, ops).pending| <= capacity / 2
  {
    if ops == [] {
    } else {
      var before, op := ops[..|ops| - 1], ops[|ops| - 1];
      RingIsQueue(capacity, before);
      var q, chunks := Run(capacity, true, before), Chunks(before);
      match op
      case FlushOp =>
        DrainAccounts(q, capacity, chunks);
        assert chunks + [] == chunks;
      case LogOp(level, message) =>
        var q1 := Put(q, capacity, true, LevelText(level));
        var q2 := Put(q1, capacity, true, message);
        var q3 := Put(q2, capacity, true, "\n");
        PutAccounts(q, capacity, chunks, LevelText(level));
        PutAccounts(q1, capacity, chunks + [LevelText(level)], message);
        PutAccounts(q2, capacity, chunks + [LevelText(level)] + [message], "\n");
        assert chunks + [LevelText(level)] + [message] + ["\n"] == chunks + [LevelText(level), message, "\n"];
        DrainAccounts(q3, capacity, Chunks(ops));
    }
  }

  /** A sink whose file did not open buffers and writes nothing. */
  lemma {:induction false} ClosedSinkDoesNothing(capacity: nat, ops: seq<Op>)
    ensures Run(capacity, false, ops) == Queue("", "", 0)
  {
    if ops == [] {
    } else {
      ClosedSinkDoesNothing(capacity, ops[..|ops| - 1]);
    }
  }

  // ---------- safe_write ----------

  /** What one write call answers: interrupted, failed, or some bytes taken. */
  datatype Answer = Interrupted | Failed | Took(bytes: nat)

  function Accepted(answer: Answer, remaining: nat): nat {
    match answer
    case Took(n) => if n <= remaining then n else remaining
    case _ => 0
  }

  /** How much of `remaining` bytes is written when the calls are answered like this. */
  function Written(remaining: nat, answers: seq<Answer>): (n: nat)
    ensures n <= remaining
    decreases |answers|
  {
    if remaining == 0 || answers == [] || answers[0].Failed? || answers[0] == Took(0) then 0
    else
      var n := Accepted(answers[0], remaining);
      n + Written(remaining - n, answers[1..])
  }

  /** The write loop; it is cut short where the answers end. */
  method SafeWrite(data: string, answers: seq<Answer>) returns (file: string)
    ensures file == data[..Written(|data|, answers)]
  {
    var written: nat := 0;
    var calls := 0;
    assert answers[0..] == answers;
    while written < |data| && calls < |answers|
      invariant written <= |data| && calls <= |answers|
      invariant written + Written(|data| - written, answers[calls..]) == Written(|data|, answers)
      decreases |answers| - calls
    {
      var answer := answers[calls];
      assert answers[calls..][0] == answer && answers[calls..][1..] == answers[calls + 1..];
      calls := calls + 1;
      if answer.Interrupted? {
        continue;
      }
      if answer.Failed? || answer == Took(0) {
        break;
      }
      written := written + Accepted(answer, |data| - written);
    }
    file := data[..written];
  }

  /** No call fails or takes nothing. */
  predicate Reliable(answers: seq<Answer>) {
    forall i :: 0 <= i < |answers| ==> answers[i].Interrupted? || (answers[i].Took? && answers[i].bytes > 0)
  }

  function TotalTaken(answers: seq<Answer>): nat {
    if answers == [] then 0 else (if answers[0].Took? then answers[0].bytes else 0) + TotalTaken(answers[1..])
  }

  /** Interruptions and short writes lose nothing: the whole segment is written exactly when the
      calls offered to take that much. */
  lemma {:induction false} ShortWritesComplete(remaining: nat, answers: seq<Answer>)
    requires Reliable(answers)
    ensures Written(remaining, answers) == if TotalTaken(answers) < remaining then TotalTaken(answers) else remaining
    decreases |answers|
  {
    if answers == [] {
    } else {
      ShortWritesComplete(remaining - Accepted(answers[0], remaining), answers[1..]);
    }
  }

  /** A failure, or a call that takes nothing, ends the write: what the calls before it took is what
      is written. */
  lemma {:induction false} FailureStops(remaining: nat, before: seq<Answer>, failure: Answer, after: seq<Answer>)
    requires failure.Failed? || failure == Took(0)
    ensures Written(remaining, before + [failure] + after) == Written(remaining, before)
    decreases |before|
  {
    if before == [] {
    } else {
      var rest := before[1..] + [failure] + after;
      assert (before + [failure] + after)[1..] == rest && (before + [failure] + after)[0] == before[0];
      FailureStops(remaining - Accepted(before[0], remaining), before[1..], failure, after);
    }
  }

  /** The file after the handed segments, each written with its own answers. */
  function FileAfter(handed: seq<string>, answers: seq<seq<Answer>>): string
    requires |handed| == |answers|
  {
    if handed == [] then ""
    else
      var k := |handed| - 1;
      FileAfter(handed[..k], answers[..k]) + handed[k][..Written(|handed[k]|, answers[k])]
  }

  /** If every write gets through, the file holds exactly the bytes handed over. */
  lemma {:induction false} CompleteWritesFillFile(handed: seq<string>, answers: seq<seq<Answer>>)
    requires |handed| == |answers|
    requires forall k :: 0 <= k < |handed| ==> Reliable(answers[k]) && TotalTaken(answers[k]) >= |handed[k]|
    ensures FileAfter(handed, answers) == Flat(handed)
  {
    if handed == [] {
    } else {
      var k := |handed| - 1;
      CompleteWritesFillFile(handed[..k], answers[..k]);
      ShortWritesComplete(|handed[k]|, answers[k]);
    }
  }

  // ---------- What one log call hands over ----------

  /** The bytes of a message, if each of its three chunks fits the ring. */
  function Bytes(level: LogLevel, message: string): string {
    (match level
     case Trace => "[TRACE] "
     case Debug => "[DEBUG] "
     case Info => "[INFO] "
     case Warn => "[WARN] "
     case Error => "[ERROR] "
     case Critical => "[CRITICAL] ")
    + message + "\n"
  }

  lemma PutQuietly(q: Queue, capacity: nat, chunk: string)
    requires |q.pending| + |chunk| <= capacity
    ensures Put(q, capacity, true, chunk) == q.(pending := q.pending + chunk)
  {
    assert q.pending + "" == q.pending;
  }

  /** A message that fits beside what waits is only buffered, unless more than half the capacity waits
      then: in that case everything is handed over, in order. */
  lemma LogBuffersOrFlushes(q: Queue, capacity: nat, level: LogLevel, message: string)
    requires |q.pending| + |Bytes(level, message)| <= capacity
    ensures var r := Logged(q, capacity, true, level, message);
            var all := q.pending + Bytes(level, message);
            r == if |all| <= capacity / 2 then Queue(q.handed, all, q.dropped)
                 else Queue(q.handed + all, "", q.dropped)
  {
    var q1 := q.(pending := q.pending + LevelText(level));
    var q2 := q.(pending := q.pending + LevelText(level) + message);
    var q3 := q.(pending := q.pending + LevelText(level) + message + "\n");
    PutQuietly(q, capacity, LevelText(level));
    PutQuietly(q1, capacity, message);
    PutQuietly(q2, capacity, "\n");
    assert q3.pending == q.pending + Bytes(level, message);
  }
}

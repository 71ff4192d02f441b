// The ring buffer of the signal-safe sink, used by any number of writers interleaved with
// flushes that do not overlap one another.

module RingProtocol {
  import opened Modular
  import SignalSafeRing

  /** Where a writer stands inside write_to_buffer. */
  datatype Writer =
    | AtLoad(data: string)
    | GotWrite(data: string, w: nat)
    | Ready(data: string, w: nat, r: nat)
    | Crowded(data: string)
    | GotWriteAgain(data: string, w: nat)
    | Copying(data: string, w: nat, i: nat)

  /** Where the flush in progress stands inside flush_buffer, if there is one. */
  datatype Flusher = Idle | GotTarget(target: nat) | Emitting(target: nat, cursor: nat)

  datatype Reservation = Reservation(start: nat, data: string)
  {
    function End(): nat {
      start + |data|
    }

    predicate Holds(p: nat) {
      start <= p < End()
    }
  }

  /** `reserved` and `supplied` record the successful exchanges and their bytes in order, `emitted`
      the bytes handed to the kernel. `clean` says that so far every flush took its snapshot while
      no reserved bytes were still being copied. */
  datatype State = State(
    capacity: nat, cells: string, write: nat, read: nat, dropped: nat,
    writers: map<nat, Writer>, flusher: Flusher,
    reserved: seq<Reservation>, supplied: string, emitted: string, clean: bool)

  datatype Action =
    | Begin(t: nat, data: string)
    | LoadWrite(t: nat)
    | LoadRead(t: nat)
    | ReloadWrite(t: nat)
    | ReloadRead(t: nat)
    | Exchange(t: nat, spurious: bool)
    | Copy(t: nat)
    | FlushTarget
    | FlushRead
    | FlushEmit
    | FlushEnd

  function Initial(capacity: nat, garbage: string): State {
    State(capacity, garbage, 0, 0, 0, map[], Idle, [], "", "", true)
  }

  function At(s: State, t: nat, w: Writer): State {
    s.(writers := s.writers[t := w])
  }

  function Leave(s: State, t: nat): State {
    s.(writers := s.writers - {t})
  }

  ghost predicate CopyInProgress(s: State) {
    exists t :: t in s.writers && s.writers[t].Copying?
  }

  function Reserve(s: State, t: nat, data: string, w: nat): State {
    At(s, t, Copying(data, w, 0)).(write := w + |data|, reserved := s.reserved + [Reservation(w, data)],
                                   supplied := s.supplied + data)
  }

  function Store(s: State, p: nat, c: char): State
    requires 0 < s.capacity <= |s.cells|
  {
    s.(cells := s.cells[p % s.capacity := c])
  }

  function CopyByte(s: State, t: nat, data: string, w: nat, i: nat): State
    requires 0 < s.capacity <= |s.cells| && i < |data|
  {
    var stored := Store(s, w + i, data[i]);
    if i + 1 == |data| then Leave(stored, t) else At(stored, t, Copying(data, w, i + 1))
  }

  /** One step of writer `t`; an action that is not enabled changes nothing. */
  function WriterStep(s: State, a: Action): State {
    match a
    case Begin(t, data) =>
      if t in s.writers || data == "" then s else At(s, t, AtLoad(data))
    case LoadWrite(t) =>
      if t in s.writers && s.writers[t].AtLoad? then At(s, t, GotWrite(s.writers[t].data, s.write)) else s
    case LoadRead(t) =>
      if t in s.writers && s.writers[t].GotWrite? then
        var data, w := s.writers[t].data, s.writers[t].w;
        if |data| > s.capacity - (w - s.read) then At(s, t, Crowded(data)) else At(s, t, Ready(data, w, s.read))
      else s
    case ReloadWrite(t) =>
      if t in s.writers && s.writers[t].Crowded? then At(s, t, GotWriteAgain(s.writers[t].data, s.write)) else s
    case ReloadRead(t) =>
      if t in s.writers && s.writers[t].GotWriteAgain? then
        var data, w := s.writers[t].data, s.writers[t].w;
        if |data| > s.capacity - (w - s.read) then Leave(s, t).(dropped := s.dropped + 1)
        else At(s, t, Ready(data, w, s.read))
      else s
    case Exchange(t, spurious) =>
      if t in s.writers && s.writers[t].Ready? then
        var data, w := s.writers[t].data, s.writers[t].w;
        if s.write == w && !spurious then Reserve(s, t, data, w) else At(s, t, AtLoad(data))
      else s
    case Copy(t) =>
      if t in s.writers && s.writers[t].Copying? && 0 < s.capacity <= |s.cells| && s.writers[t].i < |s.writers[t].data| then
        CopyByte(s, t, s.writers[t].data, s.writers[t].w, s.writers[t].i)
      else s
    case _ => s
  }

  /** One step of the flush; a new one starts only when none is in progress. */
  ghost function FlushStep(s: State, a: Action): State {
    match a
    case FlushTarget =>
      if s.flusher.Idle? then s.(flusher := GotTarget(s.write), clean := s.clean && !CopyInProgress(s)) else s
    case FlushRead =>
      if s.flusher.GotTarget? then s.(flusher := Emitting(s.flusher.target, s.read)) else s
    case FlushEmit =>
      if s.flusher.Emitting? && s.flusher.cursor < s.flusher.target && 0 < s.capacity <= |s.cells| then
        s.(emitted := s.emitted + [s.cells[s.flusher.cursor % s.capacity]],
           flusher := s.flusher.(cursor := s.flusher.cursor + 1))
      else s
    case FlushEnd =>
      if s.flusher.Emitting? && s.flusher.cursor >= s.flusher.target then s.(read := s.flusher.cursor, flusher := Idle) else s
    case _ => s
  }

  ghost function Step(s: State, a: Action): State {
    if a.FlushTarget? || a.FlushRead? || a.FlushEmit? || a.FlushEnd? then FlushStep(s, a) else WriterStep(s, a)
  }

  ghost function Run(s: State, actions: seq<Action>): State
    decreases |actions|
  {
    if actions == [] then s else Step(Run(s, actions[..|actions| - 1]), actions[|actions| - 1])
  }

  // ---------- Positions ----------

  /** The reservations follow one another without gap or overlap and end at `end`. */
  ghost predicate Tiles(reserved: seq<Reservation>, end: nat) {
    if reserved == [] then end == 0
    else
      var last := reserved[|reserved| - 1];
      last.data != "" && last.End() == end && Tiles(reserved[..|reserved| - 1], last.start)
  }

  /** Every reservation's bytes stand in `supplied` at its positions. */
  ghost predicate Placed(reserved: seq<Reservation>, supplied: string) {
    forall k :: 0 <= k < |reserved| ==>
      reserved[k].End() <= |supplied| && supplied[reserved[k].start..reserved[k].End()] == reserved[k].data
  }

  ghost predicate Positions(s: State) {
    && s.read <= s.write <= s.read + s.capacity
    && |s.cells| == s.capacity && |s.supplied| == s.write
    && Tiles(s.reserved, s.write) && Placed(s.reserved, s.supplied)
  }

  ghost predicate WriterOk(s: State, w: Writer) {
    && w.data != ""
    && match w
       case GotWrite(_, p) => p <= s.write
       case GotWriteAgain(_, p) => p <= s.write
       case Ready(data, p, r) => p <= s.write && r <= s.read && p + |data| <= r + s.capacity
       case Copying(data, p, i) =>
         s.capacity > 0 && i < |data| && p + |data| <= s.write && p + |data| <= |s.supplied| && s.supplied[p..p + |data|] == data
       case _ => true
  }

  ghost predicate FlusherOk(s: State) {
    match s.flusher
    case Idle => |s.emitted| == s.read
    case GotTarget(target) => |s.emitted| == s.read <= target <= s.write
    case Emitting(target, cursor) => s.read <= cursor <= target <= s.write && |s.emitted| == cursor
  }

  ghost predicate Safe(s: State) {
    && Positions(s) && FlusherOk(s)
    && forall t :: t in s.writers ==> WriterOk(s, s.writers[t])
  }

  lemma PlacedMore(reserved: seq<Reservation>, supplied: string, data: string)
    requires Placed(reserved, supplied)
    ensures Placed(reserved + [Reservation(|supplied|, data)], supplied + data)
  {
    var more, text := reserved + [Reservation(|supplied|, data)], supplied + data;
    forall k | 0 <= k < |more|
      ensures more[k].End() <= |text| && text[more[k].start..more[k].End()] == more[k].data
    {
      if k < |reserved| {
        SlicesStay(supplied, data, reserved[k].start, reserved[k].End());
      }
    }
  }

  lemma SlicesStay(s: string, more: string, from: nat, to: nat)
    requires from <= to <= |s|
    ensures (s + more)[from..to] == s[from..to]
  {
  }

  lemma TilesMore(reserved: seq<Reservation>, end: nat, data: string)
    requires Tiles(reserved, end) && data != ""
    ensures Tiles(reserved + [Reservation(end, data)], end + |data|)
  {
    assert (reserved + [Reservation(end, data)])[..|reserved|] == reserved;
  }

  lemma ReserveSafe(s: State, t: nat, data: string, w: nat)
    requires Safe(s) && t in s.writers && s.write == w
    requires s.writers[t].Ready? && s.writers[t].data == data && s.writers[t].w == w
    ensures Safe(Reserve(s, t, data, w))
  {
    var u := Reserve(s, t, data, w);
    assert WriterOk(s, s.writers[t]);
    PlacedMore(s.reserved, s.supplied, data);
    TilesMore(s.reserved, w, data);
    forall x | x in u.writers
      ensures WriterOk(u, u.writers[x])
    {
      if x != t {
        assert WriterOk(s, s.writers[x]);
        if u.writers[x].Copying? {
          SlicesStay(s.supplied, data, u.writers[x].w, u.writers[x].w + |u.writers[x].data|);
        }
      }
    }
  }

  lemma AtSafe(s: State, t: nat, w: Writer)
    requires Safe(s) && WriterOk(s, w)
    ensures Safe(At(s, t, w))
  {
    forall x | x in At(s, t, w).writers
      ensures WriterOk(At(s, t, w), At(s, t, w).writers[x])
    {
      assert x != t ==> WriterOk(s, s.writers[x]);
    }
  }

  lemma StoreSafe(s: State, p: nat, c: char)
    requires Safe(s) && s.capacity > 0
    ensures Safe(Store(s, p, c))
  {
    forall x | x in s.writers
      ensures WriterOk(Store(s, p, c), s.writers[x])
    {
      assert WriterOk(s, s.writers[x]);
    }
  }

  lemma LeaveSafe(s: State, t: nat)
    requires Safe(s)
    ensures Safe(Leave(s, t))
  {
    forall x | x in Leave(s, t).writers
      ensures WriterOk(Leave(s, t), s.writers[x])
    {
      assert WriterOk(s, s.writers[x]);
    }
  }

  lemma CopyByteSafe(s: State, t: nat)
    requires Safe(s) && t in s.writers && s.writers[t].Copying?
    ensures var w := s.writers[t];
            && 0 < s.capacity <= |s.cells| && w.i < |w.data|
            && Safe(CopyByte(s, t, w.data, w.w, w.i))
  {
    var w := s.writers[t];
    assert WriterOk(s, w);
    StoreSafe(s, w.w + w.i, w.data[w.i]);
    CopiedSafe(Store(s, w.w + w.i, w.data[w.i]), t, w);
  }

  lemma CopiedSafe(s: State, t: nat, w: Writer)
    requires Safe(s) && w.Copying? && WriterOk(s, w)
    ensures Safe(if w.i + 1 == |w.data| then Leave(s, t) else At(s, t, Copying(w.data, w.w, w.i + 1)))
  {
    if w.i + 1 == |w.data| {
      LeaveSafe(s, t);
    } else {
      AtSafe(s, t, Copying(w.data, w.w, w.i + 1));
    }
  }

  lemma WriterStepSafe(s: State, a: Action)
    requires Safe(s)
    ensures Safe(WriterStep(s, a))
    ensures s.write <= WriterStep(s, a).write && s.read == WriterStep(s, a).read
  {
    match a
    case Exchange(t, spurious) =>
      if t in s.writers && s.writers[t].Ready? {
        assert WriterOk(s, s.writers[t]);
        if s.write == s.writers[t].w && !spurious {
          ReserveSafe(s, t, s.writers[t].data, s.writers[t].w);
        } else {
          AtSafe(s, t, AtLoad(s.writers[t].data));
        }
      }
    case Copy(t) =>
      if t in s.writers && s.writers[t].Copying? {
        CopyByteSafe(s, t);
      }
    case _ =>
      if !(a.FlushTarget? || a.FlushRead? || a.FlushEmit? || a.FlushEnd?) {
        LoadingSafe(s, a);
      }
  }

  lemma LoadingSafe(s: State, a: Action)
    requires Safe(s) && (a.Begin? || a.LoadWrite? || a.LoadRead? || a.ReloadWrite? || a.ReloadRead?)
    ensures Safe(WriterStep(s, a))
  {
    if a.t in s.writers {
      var w := s.writers[a.t];
      assert WriterOk(s, w);
      if WriterStep(s, a) != s && !(a.ReloadRead? && |w.data| > s.capacity - (w.w - s.read)) {
        AtSafe(s, a.t, WriterStep(s, a).writers[a.t]);
      }
    } else if a.Begin? && a.data != "" {
      AtSafe(s, a.t, AtLoad(a.data));
    }
  }

  lemma FlushStepSafe(s: State, a: Action)
    requires Safe(s)
    ensures Safe(FlushStep(s, a))
    ensures s.write == FlushStep(s, a).write && s.read <= FlushStep(s, a).read
  {
  }

  // ---------- Bytes ----------

  /** Everything below this position is being or has been emitted. */
  ghost function Frontier(s: State): nat {
    match s.flusher
    case Idle => s.read
    case GotTarget(target) => target
    case Emitting(target, _) => target
  }

  /** The next position to emit. */
  ghost function Cursor(s: State): nat {
    if s.flusher.Emitting? then s.flusher.cursor else s.read
  }

  ghost predicate UncopiedBy(s: State, t: nat, p: nat) {
    t in s.writers && s.writers[t].Copying?
    && s.writers[t].w + s.writers[t].i <= p < s.writers[t].w + |s.writers[t].data|
  }

  /** Position `p` is reserved by a writer that has not copied it yet. */
  ghost predicate Uncopied(s: State, p: nat) {
    exists t :: UncopiedBy(s, t, p)
  }

  ghost predicate CellRight(s: State, p: nat) {
    0 < s.capacity == |s.cells| && p < |s.supplied| && s.cells[p % s.capacity] == s.supplied[p]
  }

  /** As long as the run is clean, no copy is behind the frontier, every copied byte not yet
      emitted is in its cell, and the emitted bytes are the supplied ones. */
  ghost predicate Faithful(s: State) {
    && (forall t :: t in s.writers && s.writers[t].Copying? ==> Frontier(s) <= s.writers[t].w)
    && (forall p: nat :: Cursor(s) <= p < s.write && !Uncopied(s, p) ==> CellRight(s, p))
    && s.emitted <= s.supplied
  }

  lemma StoreKeepsOthers(s: State, p: nat, q: nat, c: char)
    requires Positions(s) && s.read <= p < s.write && s.read <= q < s.write
    ensures s.capacity > 0
    ensures p != q && CellRight(s, p) ==> CellRight(Store(s, q, c), p)
    ensures c == s.supplied[q] ==> CellRight(Store(s, q, c), q)
  {
    if p != q {
      OtherCell(s, p, q);
    }
  }

  /** What a copying writer knows about its next byte. */
  lemma NextByte(s: State, t: nat)
    requires Safe(s) && Faithful(s) && t in s.writers && s.writers[t].Copying?
    ensures var w := s.writers[t];
            && w.i < |w.data| && s.read <= w.w + w.i < s.write && s.supplied[w.w + w.i] == w.data[w.i]
            && Cursor(s) <= w.w
  {
    var w := s.writers[t];
    assert WriterOk(s, w) && FlusherOk(s) && Positions(s);
    assert w.data[w.i] == s.supplied[w.w..w.w + |w.data|][w.i];
  }

  /** A copy step keeps the cells of the positions that are outstanding, and fills the next one. */
  lemma StoredCellRight(s: State, t: nat, p: nat)
    requires Safe(s) && Faithful(s) && t in s.writers && s.writers[t].Copying?
    requires var w := s.writers[t];
             && 0 < s.capacity <= |s.cells| && w.i < |w.data|
             && s.read <= p < s.write && (p == w.w + w.i || CellRight(s, p))
    ensures var w := s.writers[t]; CellRight(Store(s, w.w + w.i, w.data[w.i]), p)
  {
    NextByte(s, t);
    var w := s.writers[t];
    StoreKeepsOthers(s, p, w.w + w.i, w.data[w.i]);
  }

  lemma CopiedOrOld(s: State, t: nat, u: State, p: nat)
    requires Safe(s) && t in s.writers && s.writers[t].Copying?
    requires var w := s.writers[t];
             0 < s.capacity <= |s.cells| && w.i < |w.data| && u == CopyByte(s, t, w.data, w.w, w.i)
    requires !Uncopied(u, p) && p != s.writers[t].w + s.writers[t].i
    ensures !Uncopied(s, p)
  {
    OthersStillUncopied(s, u, t, p);
  }

  lemma CopyCellRight(s: State, t: nat, u: State, p: nat)
    requires Safe(s) && Faithful(s) && t in s.writers && s.writers[t].Copying?
    requires var w := s.writers[t];
             0 < s.capacity <= |s.cells| && w.i < |w.data| && u == CopyByte(s, t, w.data, w.w, w.i)
    requires Cursor(u) <= p < u.write && !Uncopied(u, p)
    ensures CellRight(u, p)
  {
    var w := s.writers[t];
    assert FlusherOk(s);
    if p != w.w + w.i {
      CopiedOrOld(s, t, u, p);
    }
    StoredCellRight(s, t, p);
  }

  lemma CopyFaithful(s: State, t: nat)
    requires Safe(s) && Faithful(s) && t in s.writers && s.writers[t].Copying?
    requires var w := s.writers[t]; 0 < s.capacity <= |s.cells| && w.i < |w.data|
    ensures var w := s.writers[t]; Faithful(CopyByte(s, t, w.data, w.w, w.i))
  {
    var w := s.writers[t];
    var u := CopyByte(s, t, w.data, w.w, w.i);
    forall p: nat | Cursor(u) <= p < u.write && !Uncopied(u, p)
      ensures CellRight(u, p)
    {
      CopyCellRight(s, t, u, p);
    }
  }

  lemma OthersStillUncopied(s: State, u: State, t: nat, p: nat)
    requires forall x :: x != t && x in s.writers ==> x in u.writers && u.writers[x] == s.writers[x]
    requires UncopiedBy(s, t, p) ==> UncopiedBy(u, t, p)
    ensures Uncopied(s, p) ==> Uncopied(u, p)
  {
    forall x
      ensures UncopiedBy(s, x, p) ==> UncopiedBy(u, x, p)
    {
    }
  }

  lemma OtherCell(s: State, p: nat, q: nat)
    requires Positions(s) && s.read <= p < s.write && s.read <= q < s.write && p != q
    ensures p % s.capacity != q % s.capacity
  {
    if p < q {
      DistinctResidues(p, q, s.capacity);
    } else {
      DistinctResidues(q, p, s.capacity);
    }
  }

  lemma ReserveFaithful(s: State, t: nat, data: string, w: nat)
    requires Safe(s) && Faithful(s) && t in s.writers && s.write == w
    requires s.writers[t].Ready? && s.writers[t].data == data && s.writers[t].w == w
    ensures Faithful(Reserve(s, t, data, w))
  {
    var u := Reserve(s, t, data, w);
    assert FlusherOk(s) && Positions(s);
    forall p: nat | Cursor(u) <= p < u.write && !Uncopied(u, p)
      ensures CellRight(u, p)
    {
      assert !UncopiedBy(u, t, p);
      OthersStillUncopied(s, u, t, p);
      assert CellRight(s, p);
    }
  }

  /** Steps that neither copy nor reserve leave the copying writers alone. */
  lemma OtherWriterStepFaithful(s: State, u: State)
    requires Faithful(s)
    requires u == s.(writers := u.writers, dropped := u.dropped)
    requires forall x :: x in u.writers && u.writers[x].Copying? ==> x in s.writers && s.writers[x] == u.writers[x]
    requires forall x :: x in s.writers && s.writers[x].Copying? ==> x in u.writers && s.writers[x] == u.writers[x]
    ensures Faithful(u)
  {
    forall p: nat | Cursor(u) <= p < u.write && !Uncopied(u, p)
      ensures CellRight(u, p)
    {
      forall x
        ensures UncopiedBy(s, x, p) ==> UncopiedBy(u, x, p)
      {
      }
      assert CellRight(s, p);
    }
  }

  lemma WriterStepFaithful(s: State, a: Action)
    requires Safe(s) && Faithful(s)
    ensures Faithful(WriterStep(s, a))
  {
    match a
    case Copy(t) =>
      if t in s.writers && s.writers[t].Copying? {
        CopyByteSafe(s, t);
        CopyFaithful(s, t);
      }
    case Exchange(t, spurious) =>
      if t in s.writers && s.writers[t].Ready? {
        if s.write == s.writers[t].w && !spurious {
          ReserveFaithful(s, t, s.writers[t].data, s.writers[t].w);
        } else {
          OtherWriterStepFaithful(s, WriterStep(s, a));
        }
      }
    case _ =>
      LoadingFaithful(s, a);
  }

  lemma LoadingFaithful(s: State, a: Action)
    requires Faithful(s) && !a.Copy? && !a.Exchange?
    ensures Faithful(WriterStep(s, a))
  {
    OtherWriterStepFaithful(s, WriterStep(s, a));
  }

  lemma NextCellRight(s: State)
    requires Safe(s) && Faithful(s) && s.flusher.Emitting? && s.flusher.cursor < s.flusher.target
    ensures CellRight(s, s.flusher.cursor)
  {
    assert FlusherOk(s) && Positions(s);
    assert forall x :: !UncopiedBy(s, x, s.flusher.cursor);
  }

  lemma FlushKeepsUncopied(s: State, a: Action, p: nat)
    ensures Uncopied(FlushStep(s, a), p) <==> Uncopied(s, p)
  {
    assert forall x :: UncopiedBy(FlushStep(s, a), x, p) <==> UncopiedBy(s, x, p);
  }

  lemma FlushKeepsCell(s: State, a: Action, p: nat)
    requires Safe(s) && Faithful(s)
    requires var u := FlushStep(s, a); Cursor(u) <= p < u.write && !Uncopied(u, p)
    ensures CellRight(FlushStep(s, a), p)
  {
    FlushKeepsUncopied(s, a, p);
    assert FlusherOk(s) && CellRight(s, p);
  }

  lemma FlushStepFaithful(s: State, a: Action)
    requires Safe(s) && Faithful(s) && FlushStep(s, a).clean
    ensures Faithful(FlushStep(s, a))
  {
    var u := FlushStep(s, a);
    forall p: nat | Cursor(u) <= p < u.write && !Uncopied(u, p)
      ensures CellRight(u, p)
    {
      FlushKeepsCell(s, a, p);
    }
    assert FlusherOk(s);
    if a.FlushEmit? && s.flusher.Emitting? && s.flusher.cursor < s.flusher.target {
      NextCellRight(s);
    }
  }

  // ---------- Results ----------

  ghost predicate Inv(s: State) {
    Safe(s) && (s.clean ==> Faithful(s))
  }

  /** Every step of the writers and of the one flush under way keeps the invariant. */
  lemma StepInv(s: State, a: Action)
    requires Inv(s)
    ensures Inv(Step(s, a))
    ensures s.write <= Step(s, a).write && s.read <= Step(s, a).read
  {
    if a.FlushTarget? || a.FlushRead? || a.FlushEmit? || a.FlushEnd? {
      FlushStepSafe(s, a);
      if FlushStep(s, a).clean {
        FlushStepFaithful(s, a);
      }
    } else {
      WriterStepSafe(s, a);
      if s.clean {
        WriterStepFaithful(s, a);
      }
    }
  }

  lemma {:induction false} RunInv(garbage: string, actions: seq<Action>)
    ensures Inv(Run(Initial(|garbage|, garbage), actions))
    decreases |actions|
  {
    if actions == [] {
    } else {
      RunInv(garbage, actions[..|actions| - 1]);
      StepInv(Run(Initial(|garbage|, garbage), actions[..|actions| - 1]), actions[|actions| - 1]);
    }
  }

  /** While flushes do not overlap one another, positions only move forward, whatever happens next. */
  lemma {:induction false} PositionsNeverRetreat(garbage: string, actions: seq<Action>, more: seq<Action>)
    ensures var s, u := Run(Initial(|garbage|, garbage), actions), Run(Initial(|garbage|, garbage), actions + more);
            s.read <= u.read && s.write <= u.write
    decreases |more|
  {
    if more == [] {
      assert actions + more == actions;
    } else {
      var before, last := actions + more[..|more| - 1], more[|more| - 1];
      assert actions + more == before + [last];
      PositionsNeverRetreat(garbage, actions, more[..|more| - 1]);
      LastStepAdvances(garbage, before, last);
    }
  }

  lemma LastStepAdvances(garbage: string, before: seq<Action>, last: Action)
    ensures var s, u := Run(Initial(|garbage|, garbage), before), Run(Initial(|garbage|, garbage), before + [last]);
            s.read <= u.read && s.write <= u.write
  {
    assert (before + [last])[..|before|] == before;
    RunInv(garbage, before);
    StepInv(Run(Initial(|garbage|, garbage), before), last);
  }

  lemma {:induction false} TilesOrdered(reserved: seq<Reservation>, end: nat, j: nat, k: nat)
    requires Tiles(reserved, end) && j < |reserved|
    ensures reserved[j].End() <= end
    ensures j < k < |reserved| ==> reserved[j].End() <= reserved[k].start
    decreases |reserved|
  {
    var front, last := reserved[..|reserved| - 1], reserved[|reserved| - 1];
    if j < |front| {
      assert front[j] == reserved[j];
      TilesOrdered(front, last.start, j, k);
      assert k < |front| ==> front[k] == reserved[k];
    }
  }

  lemma {:induction false} TilesCover(reserved: seq<Reservation>, end: nat, p: nat) returns (k: nat)
    requires Tiles(reserved, end) && p < end
    ensures k < |reserved| && reserved[k].Holds(p)
    decreases |reserved|
  {
    k := |reserved| - 1;
    if p < reserved[k].start {
      k := TilesCover(reserved[..k], reserved[k].start, p);
    }
  }

  /** While flushes do not overlap one another: in every reachable state the reserved intervals are
      pairwise disjoint, every position below write_pos lies in one of them, and at most `capacity`
      bytes are outstanding, although each writer tested against a read position that may be out of
      date. */
  lemma ReservationsTile(garbage: string, actions: seq<Action>)
    ensures var s := Run(Initial(|garbage|, garbage), actions);
            && s.read <= s.write <= s.read + |garbage|
            && (forall j, k :: 0 <= j < k < |s.reserved| ==> s.reserved[j].End() <= s.reserved[k].start)
            && (forall k :: 0 <= k < |s.reserved| ==> s.reserved[k].End() <= s.write)
            && (forall p: nat :: p < s.write ==> InSomeReservation(s.reserved, p))
  {
    RunInv(garbage, actions);
    RunCapacity(garbage, actions);
    var s := Run(Initial(|garbage|, garbage), actions);
    forall j, k | 0 <= j < k < |s.reserved|
      ensures s.reserved[j].End() <= s.reserved[k].start
    {
      TilesOrdered(s.reserved, s.write, j, k);
    }
    forall p: nat | p < s.write
      ensures InSomeReservation(s.reserved, p)
    {
      var k := TilesCover(s.reserved, s.write, p);
    }
    forall k | 0 <= k < |s.reserved|
      ensures s.reserved[k].End() <= s.write
    {
      TilesOrdered(s.reserved, s.write, k, k);
    }
  }

  ghost predicate InSomeReservation(reserved: seq<Reservation>, p: nat) {
    exists k :: 0 <= k < |reserved| && reserved[k].Holds(p)
  }

  lemma {:induction false} RunCapacity(garbage: string, actions: seq<Action>)
    ensures Run(Initial(|garbage|, garbage), actions).capacity == |garbage|
    decreases |actions|
  {
    if actions == [] {
    } else {
      RunCapacity(garbage, actions[..|actions| - 1]);
    }
  }

  /** If every flush so far took its snapshot over finished copies only, each emitted byte is the
      byte that the reserver of its position supplied. */
  lemma CleanFlushesEmitSuppliedBytes(garbage: string, actions: seq<Action>, p: nat)
    requires var s := Run(Initial(|garbage|, garbage), actions); s.clean && p < |s.emitted|
    ensures var s := Run(Initial(|garbage|, garbage), actions); EmittedAsReserved(s, p)
  {
    RunInv(garbage, actions);
    EmittedBytes(Run(Initial(|garbage|, garbage), actions), p);
  }

  ghost predicate EmittedAsReserved(s: State, p: nat)
    requires p < |s.emitted|
  {
    exists k :: 0 <= k < |s.reserved| && s.reserved[k].Holds(p)
                && s.emitted[p] == s.reserved[k].data[p - s.reserved[k].start]
  }

  lemma EmittedBytes(s: State, p: nat)
    requires Safe(s) && s.emitted <= s.supplied && p < |s.emitted|
    ensures EmittedAsReserved(s, p)
  {
    var k := TilesCover(s.reserved, s.write, p);
    var r := s.reserved[k];
    assert s.supplied[r.start..r.End()][p - r.start] == s.supplied[p];
  }

  // ---------- When a flush is right ----------

  /** The bytes between the positions fit the ring. */
  predicate Outstanding(s: State) {
    s.read <= s.write <= s.read + s.capacity && |s.cells| == s.capacity
  }

  /** A flush that so far has handed over `n` bytes, with no writer step in between. */
  ghost function FlushRun(s: State, n: nat): State {
    if n == 0 then FlushStep(FlushStep(s, FlushTarget), FlushRead) else FlushStep(FlushRun(s, n - 1), FlushEmit)
  }

  /** The state after the whole of such a flush. */
  ghost function Flushed(s: State): State
    requires s.read <= s.write
  {
    FlushStep(FlushRun(s, s.write - s.read), FlushEnd)
  }

  function FlushActions(n: nat): seq<Action> {
    if n == 0 then [FlushTarget] + [FlushRead] else FlushActions(n - 1) + [FlushEmit]
  }

  lemma RunLast(s: State, front: seq<Action>, last: Action)
    ensures Run(s, front + [last]) == Step(Run(s, front), last)
  {
    assert (front + [last])[..|front|] == front;
  }

  lemma RunFlushLast(s: State, front: seq<Action>, last: Action)
    requires last.FlushTarget? || last.FlushRead? || last.FlushEmit? || last.FlushEnd?
    ensures Run(s, front + [last]) == FlushStep(Run(s, front), last)
  {
    RunLast(s, front, last);
  }

  /** Such a flush is a run of the system. */
  lemma {:induction false} FlushIsRun(s: State, n: nat)
    ensures FlushRun(s, n) == Run(s, FlushActions(n))
    decreases n
  {
    if n == 0 {
      RunFlushLast(s, [FlushTarget], FlushRead);
      RunFlushLast(s, [], FlushTarget);
      assert [] + [FlushTarget] == [FlushTarget];
    } else {
      FlushIsRun(s, n - 1);
      RunFlushLast(s, FlushActions(n - 1), FlushEmit);
    }
  }

  /** The state once an undisturbed flush has handed over `n` bytes. */
  ghost function FlushedSoFar(s: State, n: nat): State
    requires Outstanding(s) && n <= s.write - s.read
  {
    s.(flusher := Emitting(s.write, s.read + n), clean := s.clean && !CopyInProgress(s),
       emitted := s.emitted + SignalSafeRing.Window(s.cells, s.capacity, s.read, s.read + n))
  }

  lemma FlushBegins(s: State)
    requires Outstanding(s) && s.flusher.Idle?
    ensures FlushStep(FlushStep(s, FlushTarget), FlushRead) == FlushedSoFar(s, 0)
  {
    assert s.emitted + SignalSafeRing.Window(s.cells, s.capacity, s.read, s.read) == s.emitted;
  }

  lemma EmitNext(s: State, n: nat)
    requires Outstanding(s) && n < s.write - s.read
    ensures FlushStep(FlushedSoFar(s, n), FlushEmit) == FlushedSoFar(s, n + 1)
  {
    WindowGrows(s.emitted, s.cells, s.capacity, s.read, n);
  }

  lemma WindowGrows(emitted: string, cells: string, capacity: nat, lo: nat, n: nat)
    requires n + 1 <= capacity <= |cells|
    ensures emitted + SignalSafeRing.Window(cells, capacity, lo, lo + n) + [cells[(lo + n) % capacity]]
         == emitted + SignalSafeRing.Window(cells, capacity, lo, lo + n + 1)
  {
  }

  lemma {:induction false} FlushEmits(s: State, n: nat)
    requires Outstanding(s) && s.flusher.Idle? && n <= s.write - s.read
    ensures FlushRun(s, n) == FlushedSoFar(s, n)
    decreases n
  {
    if n == 0 {
      FlushBegins(s);
    } else {
      FlushEmits(s, n - 1);
      EmitNext(s, n - 1);
    }
  }

  lemma FlushedIs(s: State)
    requires Outstanding(s) && s.flusher.Idle?
    ensures Flushed(s)
         == s.(read := s.write, clean := s.clean && !CopyInProgress(s),
               emitted := s.emitted + SignalSafeRing.Window(s.cells, s.capacity, s.read, s.write))
  {
    FlushEmits(s, s.write - s.read);
  }

  ghost predicate AllCellsRight(s: State) {
    forall p: nat :: s.read <= p < s.write ==> CellRight(s, p)
  }

  lemma BytesRightIff(s: State)
    requires Safe(s) && Faithful(s) && s.flusher.Idle?
    ensures s.emitted + SignalSafeRing.Window(s.cells, s.capacity, s.read, s.write) == s.supplied <==> AllCellsRight(s)
  {
    var w := SignalSafeRing.Window(s.cells, s.capacity, s.read, s.write);
    var emitted := s.emitted + w;
    assert FlusherOk(s) && |emitted| == |s.supplied|;
    forall p: nat | s.read <= p < s.write
      ensures emitted[p] == s.cells[p % s.capacity]
    {
      assert emitted[p] == w[p - s.read];
    }
    if emitted == s.supplied {
      assert AllCellsRight(s);
    }
    if AllCellsRight(s) {
      forall p | 0 <= p < |s.supplied|
        ensures emitted[p] == s.supplied[p]
      {
        if s.read <= p {
          assert CellRight(s, p);
        }
      }
    }
  }

  /** A flush emits exactly the supplied bytes if and only if each outstanding cell holds its byte. */
  lemma FlushRightIff(s: State)
    requires Safe(s) && Faithful(s) && s.flusher.Idle?
    ensures Flushed(s).emitted == Flushed(s).supplied <==> AllCellsRight(s)
  {
    FlushedIs(s);
    BytesRightIff(s);
  }

  /** `bytes` differs from the supplied bytes at most where they are not copied yet. */
  ghost predicate CouldBe(s: State, bytes: string) {
    |bytes| == |s.supplied| && forall p: nat :: p < |bytes| && !Uncopied(s, p) ==> bytes[p] == s.supplied[p]
  }

  function RecastWriter(w: Writer, bytes: string): Writer {
    if w.Copying? && w.w + |w.data| <= |bytes| then w.(data := bytes[w.w..w.w + |w.data|]) else w
  }

  function RecastReservation(r: Reservation, bytes: string): Reservation {
    if r.End() <= |bytes| then Reservation(r.start, bytes[r.start..r.End()]) else r
  }

  function RecastReservations(reserved: seq<Reservation>, bytes: string): seq<Reservation> {
    seq(|reserved|, k requires 0 <= k < |reserved| => RecastReservation(reserved[k], bytes))
  }

  /** The state had the writers supplied `bytes`. */
  function Recast(s: State, bytes: string): State {
    s.(supplied := bytes, reserved := RecastReservations(s.reserved, bytes),
       writers := map t | t in s.writers :: RecastWriter(s.writers[t], bytes))
  }

  lemma {:induction false} TilesRecast(reserved: seq<Reservation>, end: nat, bytes: string)
    requires Tiles(reserved, end)
    ensures Tiles(RecastReservations(reserved, bytes), end)
    decreases |reserved|
  {
    if reserved == [] {
    } else {
      var front, last := reserved[..|reserved| - 1], reserved[|reserved| - 1];
      TilesRecast(front, last.start, bytes);
      var recast := RecastReservations(reserved, bytes);
      assert recast[..|recast| - 1] == RecastReservations(front, bytes);
    }
  }

  lemma RecastSafe(s: State, bytes: string)
    requires Safe(s) && |bytes| == |s.supplied|
    ensures Safe(Recast(s, bytes))
  {
    var u := Recast(s, bytes);
    TilesRecast(s.reserved, s.write, bytes);
    assert Positions(u);
    forall t | t in u.writers
      ensures WriterOk(u, u.writers[t])
    {
      assert WriterOk(s, s.writers[t]);
    }
  }

  lemma RecastUncopied(s: State, bytes: string, p: nat)
    requires Safe(s) && |bytes| == |s.supplied|
    ensures Uncopied(Recast(s, bytes), p) <==> Uncopied(s, p)
  {
    forall t
      ensures UncopiedBy(Recast(s, bytes), t, p) <==> UncopiedBy(s, t, p)
    {
      assert t in s.writers ==> WriterOk(s, s.writers[t]);
    }
  }

  /** The recast state is one the invariant allows, with the same cells and progress. */
  lemma RecastKeeps(s: State, bytes: string)
    requires Safe(s) && Faithful(s) && s.flusher.Idle? && CouldBe(s, bytes)
    ensures Safe(Recast(s, bytes)) && Faithful(Recast(s, bytes))
  {
    var u := Recast(s, bytes);
    RecastSafe(s, bytes);
    forall p: nat | p < s.read
      ensures bytes[p] == s.supplied[p]
    {
      assert forall t :: !UncopiedBy(s, t, p);
    }
    forall p: nat | Cursor(u) <= p < u.write && !Uncopied(u, p)
      ensures CellRight(u, p)
    {
      RecastUncopied(s, bytes, p);
      assert CellRight(s, p);
    }
    assert u.emitted <= u.supplied;
  }

  ghost predicate RightWhatever(s: State)
    requires s.read <= s.write
  {
    forall bytes :: CouldBe(s, bytes) ==> Flushed(Recast(s, bytes)).emitted == bytes
  }

  lemma RecastFlush(s: State, bytes: string)
    requires Safe(s) && s.flusher.Idle? && |bytes| == |s.supplied|
    ensures Flushed(Recast(s, bytes)).emitted == Flushed(s).emitted
  {
    RecastSafe(s, bytes);
    FlushedIs(s);
    FlushedIs(Recast(s, bytes));
  }

  lemma CopyMakesItWrong(s: State, t: nat)
    requires Safe(s) && Faithful(s) && s.flusher.Idle? && t in s.writers && s.writers[t].Copying?
    ensures !RightWhatever(s)
  {
    NextByte(s, t);
    var p := s.writers[t].w + s.writers[t].i;
    assert UncopiedBy(s, t, p);
    var other := s.supplied[p := if s.supplied[p] == 'x' then 'y' else 'x'];
    assert CouldBe(s, s.supplied) && CouldBe(s, other) && other[p] != s.supplied[p];
    RecastFlush(s, s.supplied);
    RecastFlush(s, other);
  }

  lemma NoCopyMakesItRight(s: State)
    requires Safe(s) && Faithful(s) && s.flusher.Idle? && !CopyInProgress(s)
    ensures RightWhatever(s)
  {
    assert forall t, p :: !UncopiedBy(s, t, p);
    assert AllCellsRight(s);
    FlushRightIff(s);
    FlushedIs(s);
    forall bytes | CouldBe(s, bytes)
      ensures Flushed(Recast(s, bytes)).emitted == bytes
    {
      assert bytes == s.supplied;
      RecastFlush(s, bytes);
    }
  }

  /** In a reachable state, clean so far and with no flush under way, a flush emits the supplied
      bytes whatever the writers still have to copy if and only if no copy is in progress. */
  lemma FlushRightWhateverIff(garbage: string, actions: seq<Action>)
    requires var s := Run(Initial(|garbage|, garbage), actions); s.clean && s.flusher.Idle?
    ensures var s := Run(Initial(|garbage|, garbage), actions);
            && s.read <= s.write
            && (forall bytes :: CouldBe(s, bytes) ==> Safe(Recast(s, bytes)) && Faithful(Recast(s, bytes)))
            && (RightWhatever(s) <==> !CopyInProgress(s))
            && (Flushed(s).clean <==> !CopyInProgress(s))
  {
    RunInv(garbage, actions);
    var s := Run(Initial(|garbage|, garbage), actions);
    forall bytes | CouldBe(s, bytes)
      ensures Safe(Recast(s, bytes)) && Faithful(Recast(s, bytes))
    {
      RecastKeeps(s, bytes);
    }
    FlushedIs(s);
    if CopyInProgress(s) {
      var t :| t in s.writers && s.writers[t].Copying?;
      CopyMakesItWrong(s, t);
    } else {
      NoCopyMakesItRight(s);
    }
  }

  /** A snapshot taken between reservation and copy emits what the cell held before. */
  lemma EarlySnapshotEmitsStaleByte() returns (actions: seq<Action>)
    ensures var s := Run(Initial(1, "?"), actions);
            s.supplied == "x" && s.emitted == "?" && !s.clean
  {
    var s0 := Initial(1, "?");
    var as3 := [] + [Begin(0, "x")] + [LoadWrite(0)] + [LoadRead(0)];
    ThreeSteps([], Begin(0, "x"), LoadWrite(0), LoadRead(0));
    var s3 := Run(s0, as3);
    assert s3.writers[0] == Ready("x", 0, 0);
    var as4 := as3 + [Exchange(0, false)];
    RunLast(Initial(1, "?"), as3, Exchange(0, false));
    var s4 := Run(s0, as4);
    assert s4 == Reserve(s3, 0, "x", 0);
    assert s4.write == 1 && s4.read == 0 && s4.cells == "?" && s4.writers[0].Copying?;
    EmitOne(as4);
    actions := as4 + [FlushTarget] + [FlushRead] + [FlushEmit];
  }

  lemma EmitOne(actions: seq<Action>)
    requires var s := Run(Initial(1, "?"), actions);
             s.write == 1 && s.read == 0 && s.cells == "?" && s.capacity == 1 && s.flusher.Idle? && s.emitted == ""
             && 0 in s.writers && s.writers[0].Copying?
    ensures var s := Run(Initial(1, "?"), actions);
            var u := Run(Initial(1, "?"), actions + [FlushTarget] + [FlushRead] + [FlushEmit]);
            u.emitted == "?" && u.supplied == s.supplied && !u.clean
  {
    ThreeSteps(actions, FlushTarget, FlushRead, FlushEmit);
    assert CopyInProgress(Run(Initial(1, "?"), actions));
  }

  lemma ThreeSteps(actions: seq<Action>, a: Action, b: Action, c: Action)
    ensures var s := Run(Initial(1, "?"), actions);
            Run(Initial(1, "?"), actions + [a] + [b] + [c]) == Step(Step(Step(s, a), b), c)
  {
    RunLast(Initial(1, "?"), actions, a);
    RunLast(Initial(1, "?"), actions + [a], b);
    RunLast(Initial(1, "?"), actions + [a] + [b], c);
  }
}

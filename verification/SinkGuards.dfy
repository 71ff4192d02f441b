// The reference-counting guard around a sink entry.

module SinkGuards {

  class SinkEntry {
    const present: bool
    var marked_for_removal: bool
    var ref_count: int

    constructor (present: bool)
      ensures this.present == present && !marked_for_removal && ref_count == 0
    {
      this.present, marked_for_removal, ref_count := present, false, 0;
    }
  }

  ghost function Holders(guards: set<SinkGuard>, e: SinkEntry): set<SinkGuard>
    reads guards
  {
    set g | g in guards && g.entry == e
  }

  /** Each entry's count is the number of guards holding it. */
  ghost predicate Counted(guards: set<SinkGuard>, entries: set<SinkEntry>)
    reads guards, entries
  {
    && (forall e :: e in entries ==> e.ref_count == |Holders(guards, e)|)
    && (forall g :: g in guards && g.entry != null ==> g.entry in entries)
  }

  lemma AddOne<T>(s: set<T>, t: set<T>, x: T)
    requires x !in s && t == s + {x}
    ensures |t| == |s| + 1
  {
  }

  lemma SwapOne<T>(s: set<T>, t: set<T>, x: T, y: T)
    requires x in s && y !in s && t == s - {x} + {y}
    ensures |t| == |s|
  {
  }

  class SinkGuard {
    var entry: SinkEntry?

    /** Takes a reference. */
    constructor (e: SinkEntry?, ghost guards: set<SinkGuard>, ghost entries: set<SinkEntry>)
      requires Counted(guards, entries) && (e != null ==> e in entries)
      modifies if e == null then {} else {e}
      ensures entry == e && Counted(guards + {this}, entries)
      ensures e != null ==> e.ref_count == old(e.ref_count) + 1 && e.marked_for_removal == old(e.marked_for_removal)
    {
      entry := e;
      new;
      if entry != null {
        entry.ref_count := entry.ref_count + 1;
      }
      forall x | x in entries
        ensures x.ref_count == |Holders(guards + {this}, x)|
      {
        ghost var before := old(Holders(guards, x));
        if x == e {
          AddOne(before, Holders(guards + {this}, x), this);
        } else {
          assert Holders(guards + {this}, x) == before;
        }
      }
    }

    /** Moves the reference out of `other`; no count changes. */
    constructor Moved(other: SinkGuard, ghost guards: set<SinkGuard>, ghost entries: set<SinkEntry>)
      requires other in guards && Counted(guards, entries)
      modifies other
      ensures entry == old(other.entry) && other.entry == null
      ensures Counted(guards + {this}, entries)
    {
      entry := null;
      new;
      ghost var before := Counts(guards, entries);
      forall x | x in entries
        ensures x.ref_count == |Holders(guards + {this}, x)|
      {
        assert Holders(guards + {this}, x) == before[x];
      }
      TakeFrom(other, guards + {this}, entries);
    }

    /** Drops the reference held, if any, and takes over the one of `other`. */
    method Assign(other: SinkGuard, ghost guards: set<SinkGuard>, ghost entries: set<SinkEntry>)
      requires this in guards && other in guards && Counted(guards, entries)
      modifies this, other, if entry == null then {} else {entry}
      ensures entry == old(other.entry) && (this != other ==> other.entry == null)
      ensures Counted(guards, entries)
    {
      if this != other {
        Release(guards, entries);
        TakeFrom(other, guards, entries);
      }
    }

    /** The part of both moves that transfers the reference. */
    method TakeFrom(other: SinkGuard, ghost guards: set<SinkGuard>, ghost entries: set<SinkEntry>)
      requires this in guards && other in guards && this != other && entry == null && Counted(guards, entries)
      modifies this, other
      ensures entry == old(other.entry) && other.entry == null
      ensures Counted(guards, entries)
    {
      ghost var before := Counts(guards, entries);
      entry := other.entry;
      other.entry := null;
      forall x | x in entries
        ensures |Holders(guards, x)| == |before[x]|
      {
        if x == entry {
          SwapOne(before[x], Holders(guards, x), other, this);
        } else {
          assert Holders(guards, x) == before[x];
        }
      }
    }

    /** The part of assignment and destruction that gives the reference back. */
    method Release(ghost guards: set<SinkGuard>, ghost entries: set<SinkEntry>)
      requires this in guards && Counted(guards, entries)
      modifies this, if entry == null then {} else {entry}
      ensures entry == null && Counted(guards, entries)
      ensures old(entry) != null ==>
                old(entry).ref_count == old(entry.ref_count) - 1
                && old(entry).marked_for_removal == old(entry.marked_for_removal)
    {
      ghost var before := Counts(guards, entries);
      ghost var released := entry;
      if entry != null {
        entry.ref_count := entry.ref_count - 1;
      }
      entry := null;
      forall x | x in entries
        ensures x.ref_count == |Holders(guards, x)|
      {
        if x == released {
          assert Holders(guards, x) == before[x] - {this};
        } else {
          assert Holders(guards, x) == before[x];
        }
      }
    }
  }

  ghost function Counts(guards: set<SinkGuard>, entries: set<SinkEntry>): map<SinkEntry, set<SinkGuard>>
    reads guards
  {
    map e | e in entries :: Holders(guards, e)
  }

  /** While any guard holds an entry its count is positive, and with none it is zero. */
  lemma CountPositiveIffHeld(guards: set<SinkGuard>, entries: set<SinkEntry>, e: SinkEntry)
    requires Counted(guards, entries) && e in entries
    ensures e.ref_count >= 0
    ensures e.ref_count > 0 <==> exists g :: g in guards && g.entry == e
  {
    forall g | g in guards && g.entry == e
      ensures e.ref_count > 0
    {
      assert g in Holders(guards, e);
    }
    if e.ref_count > 0 {
      var g :| g in Holders(guards, e);
    }
  }
}

/** The two open-addressed reduction tables: the per-thread DataHandler and the inter-process table
    of the Handler. */
module ReductionTables {
  import opened Arithmetic
  import opened Wrappers
  import opened ProbeTable
  import TR = TreeReduction

  datatype InsertAction = Insert | Combine | AtCapacity

  datatype MessageKind = Reduction | ReductionOver | OtherKind

  /** The last two stand for undefined behaviour: combining into a free slot, and reading past the table. */
  datatype ReductionError = ZeroId | WrongMessageKind | UnknownId | NoMessageInSlot | PastTheEnd

  /** The probing loop shared by insertion, lookup and combination: one probe of the masked index. */
  lemma ProbeStep(index: nat, id: nat, counter: nat, n: nat)
    requires IsPow2(n) && counter < n
    requires if counter == 0 then index == id else index == Probe(id, counter - 1, n) + 1
    ensures BitAnd(index, n - 1) == Probe(id, counter, n)
  {
    if counter == 0 {
      ProbeStart(id, n);
    } else {
      ProbeNext(index, n);
    }
  }

  /** Storage of one thread. */
  class DataHandler<M> {
    var entries: array<Slot<M>>
    const empty: M  // what a moved-from message leaves behind

    ghost predicate Valid()
      reads this
    {
      IsPow2(entries.Length)
    }

    constructor (maxSimultaneousReductions: nat, empty: M)
      ensures fresh(entries) && entries.Length == maxSimultaneousReductions
      ensures Valid() <==> IsPow2(maxSimultaneousReductions)
      ensures WellProbed(entries[..]) && forall id | id != 0 :: Lookup(entries[..], id) == None
    {
      this.empty := empty;
      entries := new Slot<M>[maxSimultaneousReductions](_ => Slot(0, empty));
      new;
      forall id | id != 0 ensures Lookup(entries[..], id) == None {
        FindIsMembership(entries[..], id);
      }
    }

    method IndexOf(id: nat) returns (r: Option<nat>)
      requires Valid()
      ensures r == FindFrom(entries[..], id, 0)
    {
      var index, counter: nat := id, 0;
      while counter < entries.Length
        invariant counter <= entries.Length
        invariant if counter == 0 then index == id else index == Probe(id, counter - 1, entries.Length) + 1
        invariant FindFrom(entries[..], id, counter) == FindFrom(entries[..], id, 0)
      {
        ProbeStep(index, id, counter, entries.Length);
        index := BitAnd(index, entries.Length - 1);
        if entries[index].id == id {
          return Some(index);
        }
        index, counter := index + 1, counter + 1;
      }
      return None;
    }

    /** Takes the message of the id out of the table. */
    method Pop(id: nat) returns (r: Result<M, ReductionError>)
      requires Valid()
      modifies entries
      ensures r == var m := Lookup(old(entries[..]), id); if m.None? then Failure(UnknownId) else Success(m.value)
      ensures entries[..] == PoppedTable(old(entries[..]), id, empty)
    {
      var index := IndexOf(id);
      if index.None? {
        return Failure(UnknownId);
      }
      var message := entries[index.value].message;
      entries[index.value] := Slot(0, empty);
      return Success(message);
    }

    /** Combines with the entry of the id or opens one; op is the reduction operation. */
    method InsertOrCombine(kind: MessageKind, id: nat, data: M, op: (M, M) -> M)
      returns (r: Result<InsertAction, ReductionError>)
      requires Valid()
      modifies entries
      ensures r == var s := old(entries[..]);
                   if id == 0 then Failure(ZeroId)
                   else if kind == OtherKind then Failure(WrongMessageKind)
                   else match StopFrom(s, id, 0)
                     case None => Success(AtCapacity)
                     case Some(i) => Success(if s[i].id == id then Combine else Insert)
      ensures entries[..] == if r.Success? then InsertedTable(old(entries[..]), id, data, op) else old(entries[..])
    {
      if id == 0 {
        return Failure(ZeroId);
      }
      if kind == OtherKind {
        return Failure(WrongMessageKind);
      }
      var index, counter: nat := id, 0;
      while counter < entries.Length
        invariant counter <= entries.Length
        invariant if counter == 0 then index == id else index == Probe(id, counter - 1, entries.Length) + 1
        invariant entries[..] == old(entries[..])
        invariant StopFrom(entries[..], id, counter) == StopFrom(entries[..], id, 0)
      {
        ProbeStep(index, id, counter, entries.Length);
        index := BitAnd(index, entries.Length - 1);
        if entries[index].id == id {
          entries[index] := Slot(id, op(entries[index].message, data));
          return Success(Combine);
        } else if entries[index].id == 0 {
          entries[index] := Slot(id, data);
          return Success(Insert);
        }
        index, counter := index + 1, counter + 1;
      }
      return Success(AtCapacity);
    }
  }

  /** A concrete table where the condition on releases fails: of two ids with the same home slot the
      first is popped; the next contribution to the second opens another entry for it. */
  lemma PopMaySplitAnId(empty: nat, op: (nat, nat) -> nat)
    ensures var s := [Slot(2, 10), Slot(4, 20)];
            var s' := s[FindFrom(s, 2, 0).value := Slot(0, empty)];
            && WellProbed(s) && !Harmless(s, 0)
            && StopFrom(s', 4, 0) == Some(0)
            && InsertedTable(s', 4, 30, op) == [Slot(4, 30), Slot(4, 20)]
  {
    var s := [Slot(2, 10), Slot(4, 20)];
    assert Dist(2, 0, 2) == 0 && Dist(4, 1, 2) == 1 && Dist(4, 0, 2) == 0;
    assert Probe(4, 0, 2) == 0 && Probe(2, 0, 2) == 0;
    assert s[1].id != 0 && s[0].id == 2;
    assert Reachable(s, 1);
    assert FindFrom(s, 2, 0) == Some(0);
  }

  /** The inter-process step on a table: what is stored, and what is returned. */
  function CombinedTable(s: seq<Slot<TR.Message>>, id: nat, m: TR.Message, self: int, empty: TR.Message)
    : (seq<Slot<TR.Message>>, Option<TR.Message>)
    requires StopFrom(s, id, 0).Some?
  {
    var i := StopFrom(s, id, 0).value;
    var (slot, out) := TR.Combine(if s[i].id == id then Some(s[i].message) else None, m, self);
    (s[i := if slot.Some? then Slot(id, slot.value) else Slot(0, empty)], out)
  }

  /** On a well-probed table combine_inter_process is the single-slot step of TreeReduction on the
      entry of the id, whatever other reductions are in the table, and it stays so exactly when an
      entry it releases is on no other live id's way. */
  lemma CombineActsOnMap(s: seq<Slot<TR.Message>>, id: nat, m: TR.Message, self: int, empty: TR.Message)
    requires WellProbed(s) && id != 0 && StopFrom(s, id, 0).Some?
    ensures var (s', out) := CombinedTable(s, id, m, self, empty);
            var released := out.Some? && Lookup(s, id).Some?;
            && out == TR.Combine(Lookup(s, id), m, self).1
            && (WellProbed(s') <==> (released ==> Harmless(s, FindFrom(s, id, 0).value)))
            && (WellProbed(s') ==>
                  && Lookup(s', id) == TR.Combine(Lookup(s, id), m, self).0
                  && forall k | k != 0 && k != id :: Lookup(s', k) == Lookup(s, k))
  {
    StopDecides(s, id);
    var i := StopFrom(s, id, 0).value;
    var (slot, out) := TR.Combine(Lookup(s, id), m, self);
    if slot.Some? {
      WriteIsMapUpdate(s, id, slot.value);
    } else if Lookup(s, id).Some? {
      ReleaseKeepsWellProbed(s, i, empty);
      if Harmless(s, i) {
        ReleaseIsMapRemove(s, i, empty);
      }
    } else {
      FreeSlotContentsDontMatter(s, i, empty);
      FindIsMembership(s, id);
      FindIsMembership(s[i := Slot(0, empty)], id);
    }
  }

  /** The end of combine_inter_process at the entry it has come to: emitted when nothing is missing. */
  function Concluded(s: seq<Slot<TR.Message>>, i: nat, self: int, empty: TR.Message)
    : (seq<Slot<TR.Message>>, Result<Option<TR.Message>, ReductionError>)
    requires i < |s|
  {
    var e := s[i].message;
    if e.expected == 0 then (s[i := Slot(0, empty)], Success(Some(e.(destination := e.target, source := self))))
    else (s, Success(None))
  }

  /** combine_inter_process on any table and id. Its loop has no branch for a table full of other ids:
      it then goes on with the entry behind the last one it looked at. */
  function CombineCall(s: seq<Slot<TR.Message>>, id: nat, m: TR.Message, self: int, empty: TR.Message)
    : (seq<Slot<TR.Message>>, Result<Option<TR.Message>, ReductionError>)
    requires 0 < |s|
  {
    if StopFrom(s, id, 0).Some? then
      if id == 0 then (s, Failure(NoMessageInSlot))
      else
        var (s', out) := CombinedTable(s, id, m, self, empty);
        (s', Success(out))
    else
      var next := Probe(id, |s| - 1, |s|) + 1;
      if next == |s| then (s, Failure(PastTheEnd)) else Concluded(s, next, self, empty)
  }

  lemma StoreThenConclude(s: seq<Slot<TR.Message>>, id: nat, m: TR.Message, self: int, empty: TR.Message)
    requires id != 0 && StopFrom(s, id, 0).Some?
    ensures var i := StopFrom(s, id, 0).value;
            var stored := TR.Stored(if s[i].id == id then Some(s[i].message) else None, m, self);
            Concluded(s[i := Slot(id, stored)], i, self, empty) == CombineCall(s, id, m, self, empty)
  {
    var i := StopFrom(s, id, 0).value;
    var stored := TR.Stored(if s[i].id == id then Some(s[i].message) else None, m, self);
    assert s[i := Slot(id, stored)][i := Slot(0, empty)] == s[i := Slot(0, empty)];
  }

  /** What a full table does to a message of another reduction, while all its entries wait: the message
      is dropped without a trace, or, if the home slot of its id is the first, the table is read past
      its end. With a slot for the id neither happens. */
  lemma FullTableLosesMessage(s: seq<Slot<TR.Message>>, id: nat, m: TR.Message, self: int, empty: TR.Message)
    requires WellProbed(s) && id != 0 && 0 < |s|
    requires forall i | 0 <= i < |s| && s[i].id != 0 :: s[i].message.expected != 0
    ensures var full := forall i | 0 <= i < |s| :: s[i].id != 0 && s[i].id != id;
            && (full && id % |s| != 0 ==> CombineCall(s, id, m, self, empty) == (s, Success(None)))
            && (CombineCall(s, id, m, self, empty).1.Failure? <==> full && id % |s| == 0)
            && (!full ==> var (s', r) := CombineCall(s, id, m, self, empty);
                          r.value.Some? || Lookup(s', id).Some?)
  {
    StopDecides(s, id);
    if StopFrom(s, id, 0).Some? {
      var i := StopFrom(s, id, 0).value;
      var (slot, out) := TR.Combine(if s[i].id == id then Some(s[i].message) else None, m, self);
      if slot.Some? {
        WriteIsMapUpdate(s, id, slot.value);
      }
    }
  }

  lemma FreeSlotContentsDontMatter<M>(s: seq<Slot<M>>, i: nat, empty: M)
    requires WellProbed(s) && i < |s| && s[i].id == 0
    ensures WellProbed(s[i := Slot(0, empty)])
    ensures forall k | k != 0 :: Lookup(s[i := Slot(0, empty)], k) == Lookup(s, k)
  {
    var s' := s[i := Slot(0, empty)];
    forall j | 0 <= j < |s'| && s'[j].id != 0 ensures Reachable(s', j) {
      assert Reachable(s, j);
    }
    forall k | k != 0 ensures Lookup(s', k) == Lookup(s, k) {
      SameElsewhere(s, s', i, k);
    }
  }

  /** The table of messages from other processes; only the communication thread uses it. */
  class InterProcessTable {
    var entries: array<Slot<TR.Message>>
    const empty: TR.Message

    ghost predicate Valid()
      reads this
    {
      IsPow2(entries.Length)
    }

    constructor (maxSimultaneousReductions: nat, empty: TR.Message)
      ensures fresh(entries) && WellProbed(entries[..])
      ensures Valid() <==> IsPow2(maxSimultaneousReductions)
    {
      this.empty := empty;
      entries := new Slot<TR.Message>[maxSimultaneousReductions](_ => Slot(0, empty));
    }

    /** Adds the message to the slot where the probe stopped, which holds the id or is free. */
    method Store(index: nat, id: nat, message: TR.Message, self: int)
      requires index < entries.Length && (entries[index].id == id || entries[index].id == 0) && id != 0
      modifies entries
      ensures entries[..] ==
              var slot := old(entries[index]);
              var before := if slot.id == id then Some(slot.message) else None;
              old(entries[..])[index := Slot(id, TR.Stored(before, message, self))]
    {
      if entries[index].id == id {
        var e := entries[index].message;
        e := e.(expected := e.expected + message.expected - 1);
        if message.source == self {
          e := e.(target := message.target, rootExpected := message.rootExpected);
        }
        entries[index] := Slot(id, e.(data := e.data + message.data));
      } else if message.destination == 0 && message.rootExpected != 0 {
        entries[index] := Slot(id, message.(expected := message.rootExpected - 1));
      } else {
        entries[index] := Slot(id, message.(expected := message.expected - 1));
      }
    }

    /** Emits the entry if nothing is missing. */
    method Conclude(index: nat, self: int) returns (r: Result<Option<TR.Message>, ReductionError>)
      requires index < entries.Length
      modifies entries
      ensures (entries[..], r) == Concluded(old(entries[..]), index, self, empty)
    {
      var e := entries[index].message;
      if e.expected == 0 {
        entries[index] := Slot(0, empty);
        return Success(Some(e.(destination := e.target, source := self)));
      }
      return Success(None);
    }

    /** The probing loop: where it stops, or the index behind the last entry it has looked at. */
    method Locate(id: nat) returns (stop: Option<nat>, behind: nat)
      requires Valid()
      ensures stop == StopFrom(entries[..], id, 0)
      ensures stop.None? ==> behind == Probe(id, entries.Length - 1, entries.Length) + 1
    {
      var index, counter: nat := id, 0;
      while counter < entries.Length
        invariant counter <= entries.Length
        invariant if counter == 0 then index == id else index == Probe(id, counter - 1, entries.Length) + 1
        invariant StopFrom(entries[..], id, counter) == StopFrom(entries[..], id, 0)
      {
        ProbeStep(index, id, counter, entries.Length);
        index := BitAnd(index, entries.Length - 1);
        if entries[index].id == id || entries[index].id == 0 {
          return Some(index), index;
        }
        index, counter := index + 1, counter + 1;
      }
      return None, index;
    }

    method CombineInterProcess(kind: MessageKind, id: nat, message: TR.Message, self: int)
      returns (r: Result<Option<TR.Message>, ReductionError>)
      requires Valid()
      modifies entries
      ensures kind == OtherKind ==> r == Failure(WrongMessageKind) && entries[..] == old(entries[..])
      ensures kind != OtherKind ==> (entries[..], r) == CombineCall(old(entries[..]), id, message, self, empty)
    {
      if kind == OtherKind {
        return Failure(WrongMessageKind);
      }
      var stop, index := Locate(id);
      if stop.Some? {
        if id == 0 {
          return Failure(NoMessageInSlot);
        }
        index := stop.value;
        Store(index, id, message, self);
        StoreThenConclude(old(entries[..]), id, message, self, empty);
      } else if index == entries.Length {
        return Failure(PastTheEnd);
      }
      r := Conclude(index, self);
    }
  }
}

/** Linear probing in a table of power-of-two size, where id 0 marks a free slot: insertion stops at
    the first slot that is free or holds the id, release writes 0, and lookup scans every slot. */
module ProbeTable {
  import opened Arithmetic
  import opened Wrappers

  // ---------------------------------------------------------------- probe order

  /** The slot probed after c steps. */
  function Probe(id: nat, c: nat, n: nat): (i: nat)
    requires c < n
    ensures i < n
  {
    if id % n + c < n then id % n + c else id % n + c - n
  }

  /** After how many steps slot i is probed. */
  function Dist(id: nat, i: nat, n: nat): (c: nat)
    requires i < n
    ensures c < n
  {
    if id % n <= i then i - id % n else i - id % n + n
  }

  /** The masked probe visits every slot exactly once. */
  lemma ProbeVisitsAll(id: nat, i: nat, c: nat, n: nat)
    requires i < n && c < n
    ensures Probe(id, c, n) == i <==> c == Dist(id, i, n)
  {
  }

  lemma ProbeNext(index: nat, n: nat)
    requires IsPow2(n) && index <= n
    ensures BitAnd(index, n - 1) == if index == n then 0 else index
  {
    var k: nat :| n == Pow2(k);
    MaskIsRemainder(index, k);
    RemainderUnique(index, n, if index == n then 1 else 0, if index == n then 0 else index);
  }

  lemma ProbeStart(id: nat, n: nat)
    requires IsPow2(n)
    ensures BitAnd(id, n - 1) == Probe(id, 0, n)
  {
    var k: nat :| n == Pow2(k);
    MaskIsRemainder(id, k);
  }

  // ---------------------------------------------------------------- tables

  datatype Slot<M> = Slot(id: nat, message: M)

  /** Every live id can be found by a probe that gives up at a free slot. In particular no id
      occupies two slots. */
  ghost predicate WellProbed<M>(s: seq<Slot<M>>) {
    forall i | 0 <= i < |s| && s[i].id != 0 :: Reachable(s, i)
  }

  ghost predicate Reachable<M>(s: seq<Slot<M>>, i: nat)
    requires i < |s|
  {
    forall c: nat | c < Dist(s[i].id, i, |s|) ::
      s[Probe(s[i].id, c, |s|)].id != 0 && s[Probe(s[i].id, c, |s|)].id != s[i].id
  }

  /** The first slot, in probe order from step c, that holds the id. */
  function FindFrom<M>(s: seq<Slot<M>>, id: nat, c: nat): (r: Option<nat>)
    requires c <= |s|
    ensures r.Some? ==> r.value < |s| && s[r.value].id == id && c <= Dist(id, r.value, |s|)
    ensures forall d: nat | c <= d < if r.Some? then Dist(id, r.value, |s|) else |s| :: s[Probe(id, d, |s|)].id != id
    decreases |s| - c
  {
    if c == |s| then None
    else if s[Probe(id, c, |s|)].id == id then Some(Probe(id, c, |s|))
    else FindFrom(s, id, c + 1)
  }

  /** The first slot, in probe order from step c, that holds the id or is free. */
  function StopFrom<M>(s: seq<Slot<M>>, id: nat, c: nat): (r: Option<nat>)
    requires c <= |s|
    ensures r.Some? ==> r.value < |s| && (s[r.value].id == id || s[r.value].id == 0) && c <= Dist(id, r.value, |s|)
    ensures forall d: nat | c <= d < if r.Some? then Dist(id, r.value, |s|) else |s| ::
              s[Probe(id, d, |s|)].id != id && s[Probe(id, d, |s|)].id != 0
    decreases |s| - c
  {
    if c == |s| then None
    else if s[Probe(id, c, |s|)].id == id || s[Probe(id, c, |s|)].id == 0 then Some(Probe(id, c, |s|))
    else StopFrom(s, id, c + 1)
  }

  /** The table as a map: what is stored for each id. */
  function Lookup<M>(s: seq<Slot<M>>, id: nat): Option<M> {
    var i := FindFrom(s, id, 0);
    if i.None? then None else Some(s[i.value].message)
  }

  lemma FindIsMembership<M>(s: seq<Slot<M>>, id: nat)
    ensures FindFrom(s, id, 0).None? <==> forall i | 0 <= i < |s| :: s[i].id != id
  {
    if FindFrom(s, id, 0).None? {
      forall i | 0 <= i < |s| ensures s[i].id != id {
        assert s[Probe(id, Dist(id, i, |s|), |s|)].id != id;
      }
    }
  }

  lemma FindLive<M>(s: seq<Slot<M>>, i: nat)
    requires WellProbed(s) && i < |s| && s[i].id != 0
    ensures FindFrom(s, s[i].id, 0) == Some(i) == StopFrom(s, s[i].id, 0)
    ensures forall j | 0 <= j < |s| && s[j].id == s[i].id :: j == i
  {
    var id := s[i].id;
    assert Reachable(s, i);
    FindIsMembership(s, id);
    ProbeVisitsAll(id, i, Dist(id, i, |s|), |s|);
    var f := FindFrom(s, id, 0).value;
    ProbeVisitsAll(id, f, Dist(id, f, |s|), |s|);
    var g := StopFrom(s, id, 0);
    assert s[Probe(id, Dist(id, i, |s|), |s|)].id == id;
    ProbeVisitsAll(id, g.value, Dist(id, g.value, |s|), |s|);
    forall j | 0 <= j < |s| && s[j].id == id ensures j == i {
      assert Reachable(s, j);
      ProbeVisitsAll(id, j, Dist(id, j, |s|), |s|);
    }
  }

  /** With a well-probed table the probe that gives up at a free slot decides membership: it ends on
      the id if the id is live, on a free slot if there is one, and else every slot holds another
      id. */
  lemma StopDecides<M>(s: seq<Slot<M>>, id: nat)
    requires WellProbed(s) && id != 0
    ensures Lookup(s, id).Some? ==> StopFrom(s, id, 0) == FindFrom(s, id, 0)
    ensures Lookup(s, id).None? && StopFrom(s, id, 0).Some? ==> s[StopFrom(s, id, 0).value].id == 0
    ensures StopFrom(s, id, 0).None? <==> forall i | 0 <= i < |s| :: s[i].id != 0 && s[i].id != id
  {
    FindIsMembership(s, id);
    if Lookup(s, id).Some? {
      FindLive(s, FindFrom(s, id, 0).value);
    }
    if StopFrom(s, id, 0).None? {
      forall i | 0 <= i < |s| ensures s[i].id != 0 && s[i].id != id {
        assert s[Probe(id, Dist(id, i, |s|), |s|)].id != id;
      }
    }
  }

  /** Writing to the slot where the probe stopped is a map update, and keeps the table well probed. */
  lemma WriteIsMapUpdate<M>(s: seq<Slot<M>>, id: nat, message: M)
    requires WellProbed(s) && id != 0 && StopFrom(s, id, 0).Some?
    ensures var s' := s[StopFrom(s, id, 0).value := Slot(id, message)];
            && WellProbed(s')
            && Lookup(s', id) == Some(message)
            && forall k | k != 0 && k != id :: Lookup(s', k) == Lookup(s, k)
  {
    var i := StopFrom(s, id, 0).value;
    var s' := s[i := Slot(id, message)];
    forall j | 0 <= j < |s'| && s'[j].id != 0 ensures Reachable(s', j) {
      if j != i {
        assert Reachable(s, j);
        StopDecides(s, id);
        FindIsMembership(s, id);
        if s[i].id == id {
          FindLive(s, i);
        }
      }
    }
    FindLive(s', i);
    forall k | k != 0 && k != id ensures Lookup(s', k) == Lookup(s, k) {
      SameElsewhere(s, s', i, k);
    }
  }

  lemma SameElsewhere<M>(s: seq<Slot<M>>, s': seq<Slot<M>>, i: nat, k: nat)
    requires WellProbed(s) && WellProbed(s') && i < |s| == |s'| && s' == s[i := s'[i]]
    requires k != 0 && k != s[i].id && k != s'[i].id
    ensures Lookup(s', k) == Lookup(s, k)
  {
    FindIsMembership(s, k);
    FindIsMembership(s', k);
    if Lookup(s, k).Some? {
      var j := FindFrom(s, k, 0).value;
      FindLive(s, j);
      assert s'[j].id == k;
      FindLive(s', j);
    }
  }

  /** Slot i is not on the way to any other live id. */
  ghost predicate Harmless<M>(s: seq<Slot<M>>, i: nat)
    requires i < |s|
  {
    forall j | 0 <= j < |s| && j != i && s[j].id != 0 ::
      Dist(s[j].id, j, |s|) < Dist(s[j].id, i, |s|)
  }

  /** Releasing slot i keeps the table well probed exactly when i is on no other live id's way. */
  lemma ReleaseKeepsWellProbed<M>(s: seq<Slot<M>>, i: nat, free: M)
    requires WellProbed(s) && i < |s| && s[i].id != 0
    ensures WellProbed(s[i := Slot(0, free)]) <==> Harmless(s, i)
  {
    var s' := s[i := Slot(0, free)];
    if Harmless(s, i) {
      forall j | 0 <= j < |s| && s'[j].id != 0 ensures Reachable(s', j) {
        assert Reachable(s, j);
        forall c: nat | c < Dist(s[j].id, j, |s|) ensures Probe(s[j].id, c, |s|) != i {
          ProbeVisitsAll(s[j].id, i, c, |s|);
        }
      }
    } else {
      var j: nat :| j < |s| && j != i && s[j].id != 0 && Dist(s[j].id, i, |s|) <= Dist(s[j].id, j, |s|);
      var c := Dist(s[j].id, i, |s|);
      ProbeVisitsAll(s[j].id, i, c, |s|);
      ProbeVisitsAll(s[j].id, j, Dist(s[j].id, j, |s|), |s|);
      assert s'[Probe(s'[j].id, c, |s'|)].id == 0;
      assert !Reachable(s', j);
    }
  }

  /** Under that condition a release is the removal of the id from the map. */
  lemma ReleaseIsMapRemove<M>(s: seq<Slot<M>>, i: nat, free: M)
    requires WellProbed(s) && i < |s| && s[i].id != 0 && Harmless(s, i)
    ensures var s' := s[i := Slot(0, free)];
            && WellProbed(s')
            && Lookup(s', s[i].id) == None
            && forall k | k != 0 && k != s[i].id :: Lookup(s', k) == Lookup(s, k)
  {
    var s' := s[i := Slot(0, free)];
    ReleaseKeepsWellProbed(s, i, free);
    FindLive(s, i);
    FindIsMembership(s', s[i].id);
    forall k | k != 0 && k != s[i].id ensures Lookup(s', k) == Lookup(s, k) {
      SameElsewhere(s, s', i, k);
    }
  }

  /** Otherwise the map breaks: some id that is still live is no longer found by the probe of an
      insertion, which therefore opens a second entry for it instead of combining. */
  lemma HarmfulReleaseSplits<M>(s: seq<Slot<M>>, i: nat, free: M) returns (j: nat)
    requires WellProbed(s) && i < |s| && s[i].id != 0 && !Harmless(s, i)
    ensures j < |s| && j != i && s[j].id != 0
    ensures var s' := s[i := Slot(0, free)];
            s'[j].id == s[j].id && StopFrom(s', s[j].id, 0).Some? && s'[StopFrom(s', s[j].id, 0).value].id == 0
  {
    j :| j < |s| && j != i && s[j].id != 0 && Dist(s[j].id, i, |s|) <= Dist(s[j].id, j, |s|);
    var s' := s[i := Slot(0, free)];
    var id, n := s[j].id, |s|;
    var c := Dist(id, i, n);
    ProbeVisitsAll(id, i, c, n);
    ProbeVisitsAll(id, j, Dist(id, j, n), n);
    var g := StopFrom(s', id, 0);
    assert s'[Probe(id, c, n)].id == 0;
    FindLive(s, j);
    ProbeVisitsAll(id, g.value, Dist(id, g.value, n), n);
  }

  // ---------------------------------------------------------------- whole runs

  /** The table holds exactly this map. */
  ghost predicate Represents<M>(s: seq<Slot<M>>, m: map<nat, M>) {
    WellProbed(s) && 0 !in m && forall id: nat | id != 0 ::
      if id in m then Lookup(s, id) == Some(m[id]) else Lookup(s, id) == None
  }

  datatype TableOp<M> = Add(id: nat, data: M) | Take(id: nat)

  /** What an insertion does to the table: combine with the entry of the id or open one. */
  function InsertedTable<M>(s: seq<Slot<M>>, id: nat, data: M, op: (M, M) -> M): seq<Slot<M>> {
    match StopFrom(s, id, 0)
    case None => s
    case Some(i) => s[i := Slot(id, if s[i].id == id then op(s[i].message, data) else data)]
  }

  /** What a pop does: the entry of the id, if there is one, becomes free. */
  function PoppedTable<M>(s: seq<Slot<M>>, id: nat, empty: M): seq<Slot<M>> {
    match FindFrom(s, id, 0)
    case None => s
    case Some(i) => s[i := Slot(0, empty)]
  }

  /** The table after a sequence of operations on an empty one. */
  function TableAfter<M>(n: nat, ops: seq<TableOp<M>>, op: (M, M) -> M, empty: M): (s: seq<Slot<M>>)
    ensures |s| == n
  {
    if ops == [] then seq(n, _ => Slot(0, empty))
    else
      var s := TableAfter(n, ops[..|ops| - 1], op, empty);
      match ops[|ops| - 1]
      case Add(id, data) => if id == 0 then s else InsertedTable(s, id, data, op)
      case Take(id) => if id == 0 then s else PoppedTable(s, id, empty)
  }

  /** The same operations on a map of at most n keys; an addition of another key to n of them does
      nothing. */
  function MapAfter<M>(n: nat, ops: seq<TableOp<M>>, op: (M, M) -> M): map<nat, M> {
    if ops == [] then map[]
    else
      MapStep(n, MapAfter(n, ops[..|ops| - 1], op), ops[|ops| - 1], op)
  }

  function MapStep<M>(n: nat, m: map<nat, M>, o: TableOp<M>, op: (M, M) -> M): map<nat, M> {
    match o
    case Add(id, data) =>
      if id == 0 || (id !in m && |m| == n) then m
      else m[id := if id in m then op(m[id], data) else data]
    case Take(id) => m - {id}
  }

  /** No slot released during the run lies on the way to an id that is live then. */
  ghost predicate HarmlessRun<M>(n: nat, ops: seq<TableOp<M>>, op: (M, M) -> M, empty: M) {
    ops == [] ||
    var s := TableAfter(n, ops[..|ops| - 1], op, empty);
    var o := ops[|ops| - 1];
    && HarmlessRun(n, ops[..|ops| - 1], op, empty)
    && (o.Take? && o.id != 0 && FindFrom(s, o.id, 0).Some? ==> Harmless(s, FindFrom(s, o.id, 0).value))
  }

  /** The ids in the first k slots. */
  function IdsBefore<M>(s: seq<Slot<M>>, k: nat): set<nat>
    requires k <= |s|
  {
    if k == 0 then {} else if s[k - 1].id == 0 then IdsBefore(s, k - 1) else IdsBefore(s, k - 1) + {s[k - 1].id}
  }

  lemma {:induction false} IdsBeforeMeaning<M>(s: seq<Slot<M>>, k: nat, id: nat)
    requires k <= |s|
    ensures id in IdsBefore(s, k) <==> id != 0 && exists i: nat :: i < k && s[i].id == id
  {
    if k > 0 {
      IdsBeforeMeaning(s, k - 1, id);
    }
  }

  /** No id occupies two slots. */
  ghost predicate Distinct<M>(s: seq<Slot<M>>) {
    forall i, j | 0 <= i < j < |s| && s[i].id != 0 :: s[i].id != s[j].id
  }

  lemma WellProbedIsDistinct<M>(s: seq<Slot<M>>)
    requires WellProbed(s)
    ensures Distinct(s)
  {
    forall i, j | 0 <= i < j < |s| && s[i].id != 0 ensures s[i].id != s[j].id {
      FindLive(s, i);
    }
  }

  /** Then the ids are as many as the slots exactly when none is free. */
  lemma {:induction false} IdsCount<M>(s: seq<Slot<M>>, k: nat)
    requires Distinct(s) && k <= |s|
    ensures |IdsBefore(s, k)| <= k
    ensures |IdsBefore(s, k)| == k <==> forall i: nat | i < k :: s[i].id != 0
  {
    if k > 0 {
      IdsCount(s, k - 1);
      var x := s[k - 1].id;
      if x != 0 {
        IdsBeforeMeaning(s, k - 1, x);
      }
    }
  }

  /** The probe of an insertion finds no slot exactly when the map is full of other ids. */
  lemma FullBySize<M>(s: seq<Slot<M>>, m: map<nat, M>, id: nat)
    requires Represents(s, m) && id != 0
    ensures StopFrom(s, id, 0).None? <==> id !in m && |m| == |s|
  {
    StopDecides(s, id);
    WellProbedIsDistinct(s);
    IdsCount(s, |s|);
    FindIsMembership(s, id);
    forall k: nat ensures k in IdsBefore(s, |s|) <==> k in m {
      IdsBeforeMeaning(s, |s|, k);
      FindIsMembership(s, k);
    }
    assert m.Keys == IdsBefore(s, |s|);
  }

  lemma AddRefines<M>(s: seq<Slot<M>>, m: map<nat, M>, id: nat, data: M, op: (M, M) -> M)
    requires Represents(s, m) && id != 0
    ensures Represents(InsertedTable(s, id, data, op),
                       if id !in m && |m| == |s| then m else m[id := if id in m then op(m[id], data) else data])
  {
    FullBySize(s, m, id);
    StopDecides(s, id);
    if StopFrom(s, id, 0).Some? {
      var i := StopFrom(s, id, 0).value;
      WriteIsMapUpdate(s, id, if s[i].id == id then op(s[i].message, data) else data);
      if s[i].id == id {
        FindLive(s, i);
      }
    }
  }

  lemma TakeRefines<M>(s: seq<Slot<M>>, m: map<nat, M>, id: nat, empty: M)
    requires Represents(s, m) && id != 0
    requires FindFrom(s, id, 0).Some? ==> Harmless(s, FindFrom(s, id, 0).value)
    ensures Represents(PoppedTable(s, id, empty), m - {id})
  {
    if FindFrom(s, id, 0).Some? {
      ReleaseIsMapRemove(s, FindFrom(s, id, 0).value, empty);
    }
  }

  /** In every run in which no released slot lies on another live id's way, the table acts as a map. */
  lemma {:induction false} RunsRefineMap<M>(n: nat, ops: seq<TableOp<M>>, op: (M, M) -> M, empty: M)
    requires HarmlessRun(n, ops, op, empty)
    ensures Represents(TableAfter(n, ops, op, empty), MapAfter(n, ops, op))
  {
    if ops == [] {
      var s := TableAfter(n, ops, op, empty);
      forall id: nat | id != 0 ensures Lookup(s, id) == None {
        FindIsMembership(s, id);
      }
    } else {
      var before := ops[..|ops| - 1];
      RunsRefineMap(n, before, op, empty);
      var s, m := TableAfter(n, before, op, empty), MapAfter(n, before, op);
      var o := ops[|ops| - 1];
      if o.id != 0 {
        if o.Add? {
          AddRefines(s, m, o.id, o.data, op);
        } else {
          TakeRefines(s, m, o.id, empty);
        }
      }
    }
  }
}

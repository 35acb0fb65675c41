/** The driver's bookkeeping of a collection: which process each element is on, the elements of every
    process, and how many are local. Reductions and broadcasts count on its consistency. */
module Collections {
  import opened FiniteSets
  import opened Wrappers

  datatype CollectionError = NegativeProcess | AlreadyInserted | NoSuchProcess | UnknownElement

  datatype Registry = Registry(owners: map<nat, nat>, idsPerProcess: seq<seq<nat>>, local: int)

  datatype Op = Insert(id: nat, process: int) | Remove(id: nat)

  // ---------------------------------------------------------------- lists of ids

  ghost predicate NoDuplicates(s: seq<nat>) {
    forall i, j | 0 <= i < j < |s| :: s[i] != s[j]
  }

  function Find(s: seq<nat>, x: nat): (i: nat)
    ensures i <= |s| && x !in s[..i]
    ensures i < |s| ==> s[i] == x
  {
    if s == [] || s[0] == x then 0 else 1 + Find(s[1..], x)
  }

  /** erase(find(x)) on a vector. */
  function Erase(s: seq<nat>, x: nat): seq<nat> {
    var i := Find(s, x);
    if i < |s| then s[..i] + s[i + 1..] else s
  }

  lemma EraseRemoves(s: seq<nat>, x: nat)
    requires NoDuplicates(s)
    ensures NoDuplicates(Erase(s, x))
    ensures forall y: nat :: y in Erase(s, x) <==> y in s && y != x
    ensures |Erase(s, x)| == |s| - if x in s then 1 else 0
  {
    var i := Find(s, x);
    if i < |s| {
      DropAt(s, i);
    }
  }

  lemma DropAt(s: seq<nat>, i: nat)
    requires NoDuplicates(s) && i < |s|
    ensures NoDuplicates(s[..i] + s[i + 1..])
    ensures forall y: nat :: y in s[..i] + s[i + 1..] <==> y in s && y != s[i]
  {
    var r := s[..i] + s[i + 1..];
    assert forall k | 0 <= k < |r| :: r[k] == s[if k < i then k else k + 1];
    forall y: nat ensures y in r <==> y in s && y != s[i] {
      if k :| 0 <= k < |s| && s[k] == y && k != i {
        assert r[if k < i then k else k - 1] == y;
      }
    }
  }

  lemma EraseLast(s: seq<nat>, x: nat)
    requires x !in s
    ensures Erase(s + [x], x) == s
  {
    var i := Find(s + [x], x);
    assert (s + [x])[|s|] == x;
    assert i == |s|;
  }

  /** The other ids, in order. */
  function Without(s: seq<nat>, x: nat): seq<nat> {
    if s == [] then [] else Without(s[..|s| - 1], x) + if s[|s| - 1] == x then [] else [s[|s| - 1]]
  }

  lemma {:induction false} WithoutAbsent(s: seq<nat>, x: nat)
    requires x !in s
    ensures Without(s, x) == s
  {
    if s != [] {
      WithoutAbsent(s[..|s| - 1], x);
    }
  }

  lemma {:induction false} WithoutAppend(s: seq<nat>, t: seq<nat>, x: nat)
    ensures Without(s + t, x) == Without(s, x) + Without(t, x)
  {
    if t == [] {
      assert s + t == s;
    } else {
      WithoutAppend(s, t[..|t| - 1], x);
      assert (s + t)[..|s + t| - 1] == s + t[..|t| - 1];
    }
  }

  lemma {:induction false} WithoutOne(a: seq<nat>, x: nat, b: seq<nat>)
    requires x !in a && x !in b
    ensures Without(a + ([x] + b), x) == a + b
  {
    var s := a + ([x] + b);
    if b == [] {
      assert s[..|s| - 1] == a && s[|s| - 1] == x;
      WithoutAbsent(a, x);
    } else {
      var front := b[..|b| - 1];
      assert s[..|s| - 1] == a + ([x] + front) && s[|s| - 1] == b[|b| - 1];
      WithoutOne(a, x, front);
      assert a + b == (a + front) + [b[|b| - 1]];
    }
  }

  lemma EraseIsWithout(s: seq<nat>, x: nat)
    requires NoDuplicates(s)
    ensures Erase(s, x) == Without(s, x)
  {
    var i := Find(s, x);
    if i < |s| {
      var a, b := s[..i], s[i + 1..];
      assert s == a + ([x] + b);
      assert x !in b by {
        assert forall k | 0 <= k < |b| :: b[k] == s[i + 1 + k];
      }
      WithoutOne(a, x, b);
    } else {
      assert s[..i] == s;
      WithoutAbsent(s, x);
    }
  }

  function Elements(s: seq<nat>): set<nat> {
    set x | x in s
  }

  lemma {:induction false} DistinctLength(s: seq<nat>)
    requires NoDuplicates(s)
    ensures |Elements(s)| == |s|
  {
    if s != [] {
      var front := s[..|s| - 1];
      DistinctLength(front);
      assert Elements(s) == Elements(front) + {s[|s| - 1]};
    }
  }

  // ---------------------------------------------------------------- consistency

  /** Every element is in the list of its process, once, and in no other list. */
  ghost predicate Partition(r: Registry) {
    && (forall id | id in r.owners :: r.owners[id] < |r.idsPerProcess|)
    && forall p | 0 <= p < |r.idsPerProcess| ::
         && NoDuplicates(r.idsPerProcess[p])
         && forall id: nat :: id in r.idsPerProcess[p] <==> id in r.owners && r.owners[id] == p
  }

  ghost predicate Consistent(r: Registry, self: nat) {
    self < |r.idsPerProcess| && Partition(r) && r.local == |r.idsPerProcess[self]|
  }

  function Empty(processes: nat): Registry {
    Registry(map[], seq(processes, _ => []), 0)
  }

  function Inserted(r: Registry, self: nat, id: nat, process: int): (Registry, Result<(), CollectionError>) {
    if process < 0 then (r, Failure(NegativeProcess))
    else if id in r.owners then (r, Failure(AlreadyInserted))
    else if process >= |r.idsPerProcess| then (r, Failure(NoSuchProcess))
    else
      (Registry(r.owners[id := process], r.idsPerProcess[process := r.idsPerProcess[process] + [id]],
                if process == self then r.local + 1 else r.local), Success(()))
  }

  function Removed(r: Registry, self: nat, id: nat): (Registry, Result<(), CollectionError>)
    requires id in r.owners ==> r.owners[id] < |r.idsPerProcess|
  {
    if id !in r.owners then (r, Failure(UnknownElement))
    else
      var p := r.owners[id];
      (Registry(r.owners - {id}, r.idsPerProcess[p := Erase(r.idsPerProcess[p], id)],
                if p == self then r.local - 1 else r.local), Success(()))
  }

  function Applied(r: Registry, self: nat, op: Op): (Registry, Result<(), CollectionError>)
    requires forall id | id in r.owners :: r.owners[id] < |r.idsPerProcess|
  {
    match op
    case Insert(id, process) => Inserted(r, self, id, process)
    case Remove(id) => Removed(r, self, id)
  }

  lemma InsertKeepsConsistent(r: Registry, self: nat, id: nat, process: int)
    requires Consistent(r, self)
    ensures Consistent(Inserted(r, self, id, process).0, self)
    ensures Inserted(r, self, id, process).1.Success? <==> 0 <= process < |r.idsPerProcess| && id !in r.owners
  {
  }

  lemma RemoveKeepsConsistent(r: Registry, self: nat, id: nat)
    requires Consistent(r, self)
    ensures Consistent(Removed(r, self, id).0, self)
    ensures Removed(r, self, id).1.Success? <==> id in r.owners
  {
    if id in r.owners {
      EraseRemoves(r.idsPerProcess[r.owners[id]], id);
    }
  }

  lemma OpKeepsConsistent(r: Registry, self: nat, op: Op)
    requires Consistent(r, self)
    ensures Consistent(Applied(r, self, op).0, self)
  {
    match op
    case Insert(id, process) => InsertKeepsConsistent(r, self, id, process);
    case Remove(id) => RemoveKeepsConsistent(r, self, id);
  }

  /** The bookkeeping after a sequence of insertions and removals, failed ones included. */
  function After(processes: nat, self: nat, ops: seq<Op>): (r: Registry)
    ensures |r.idsPerProcess| == processes
    ensures forall id | id in r.owners :: r.owners[id] < processes
  {
    if ops == [] then Empty(processes)
    else Applied(After(processes, self, ops[..|ops| - 1]), self, ops[|ops| - 1]).0
  }

  lemma {:induction false} RunsKeepConsistent(processes: nat, self: nat, ops: seq<Op>)
    requires self < processes
    ensures Consistent(After(processes, self, ops), self)
  {
    if ops != [] {
      RunsKeepConsistent(processes, self, ops[..|ops| - 1]);
      OpKeepsConsistent(After(processes, self, ops[..|ops| - 1]), self, ops[|ops| - 1]);
    }
  }

  /** Removing what was just inserted restores everything. */
  lemma RemoveUndoesInsert(r: Registry, self: nat, id: nat, process: int)
    requires Consistent(r, self) && Inserted(r, self, id, process).1.Success?
    ensures Removed(Inserted(r, self, id, process).0, self, id) == (r, Success(()))
  {
    EraseLast(r.idsPerProcess[process], id);
    var r1 := Inserted(r, self, id, process).0;
    assert r1.owners - {id} == r.owners;
    assert r1.idsPerProcess[process := r.idsPerProcess[process]] == r.idsPerProcess;
  }

  /** A successful removal takes one element out, of the map and of its place in the list of its process;
      everything else stays as and where it was. */
  lemma RemovalTakesOne(r: Registry, self: nat, id: nat)
    requires Consistent(r, self) && id in r.owners
    ensures var r' := Removed(r, self, id).0;
            var p := r.owners[id];
            && Removed(r, self, id).1.Success?
            && (forall k: nat :: k in r'.owners <==> k in r.owners && k != id)
            && (forall k | k in r'.owners :: r'.owners[k] == r.owners[k])
            && |r'.idsPerProcess| == |r.idsPerProcess|
            && (forall q | 0 <= q < |r.idsPerProcess| && q != p :: r'.idsPerProcess[q] == r.idsPerProcess[q])
            && r'.idsPerProcess[p] == Without(r.idsPerProcess[p], id)
  {
    EraseIsWithout(r.idsPerProcess[r.owners[id]], id);
  }

  // ---------------------------------------------------------------- what a history of operations leaves

  /** Whether the id is registered after the operations: the last that could take effect on it inserted. */
  predicate Present(processes: nat, ops: seq<Op>, id: nat) {
    ops != [] &&
    var before, o := Present(processes, ops[..|ops| - 1], id), ops[|ops| - 1];
    if o.id != id then before else o.Insert? && (before || 0 <= o.process < processes)
  }

  /** An insertion takes effect on a process that exists if the id is absent; a removal if it is present. */
  predicate TookEffect(processes: nat, ops: seq<Op>, k: nat)
    requires k < |ops|
  {
    if ops[k].Insert? then 0 <= ops[k].process < processes && !Present(processes, ops[..k], ops[k].id)
    else Present(processes, ops[..k], ops[k].id)
  }

  /** The k-th operation is an insertion, and the last of its id that took effect. */
  predicate Holds(processes: nat, ops: seq<Op>, k: nat)
    requires k < |ops|
  {
    && ops[k].Insert? && TookEffect(processes, ops, k)
    && forall j | k < j < |ops| && ops[j].id == ops[k].id :: !TookEffect(processes, ops, j)
  }

  /** The ids that insertions among the first k hold on process p, in the order of these. */
  function HeldIds(processes: nat, ops: seq<Op>, p: nat, k: nat): seq<nat>
    requires k <= |ops|
  {
    if k == 0 then []
    else
      HeldIds(processes, ops, p, k - 1)
      + if Holds(processes, ops, k - 1) && ops[k - 1].process == p then [ops[k - 1].id] else []
  }

  /** The last operation ends the hold of earlier ones on its id, if it takes effect. */
  lemma HoldsBefore(processes: nat, ops: seq<Op>, k: nat)
    requires k < |ops| - 1
    ensures var before, last := ops[..|ops| - 1], |ops| - 1;
            Holds(processes, ops, k) <==>
              Holds(processes, before, k) && !(ops[last].id == before[k].id && TookEffect(processes, ops, last))
  {
    var before := ops[..|ops| - 1];
    forall j | 0 <= j < |before| ensures TookEffect(processes, ops, j) == TookEffect(processes, before, j) {
      assert ops[..j] == before[..j];
    }
  }

  /** Present ids are held, on the process that the map of the bookkeeping says, and absent ones are not. */
  lemma {:induction false} OwnersAreHeld(processes: nat, self: nat, ops: seq<Op>)
    ensures forall id: nat :: id in After(processes, self, ops).owners <==> Present(processes, ops, id)
    ensures forall k | 0 <= k < |ops| && Holds(processes, ops, k) ::
              ops[k].id in After(processes, self, ops).owners
              && After(processes, self, ops).owners[ops[k].id] == ops[k].process
  {
    if ops != [] {
      var before, last := ops[..|ops| - 1], |ops| - 1;
      OwnersAreHeld(processes, self, before);
      forall k | 0 <= k < |ops| && Holds(processes, ops, k)
        ensures ops[k].id in After(processes, self, ops).owners
                && After(processes, self, ops).owners[ops[k].id] == ops[k].process
      {
        if k < last {
          HoldsBefore(processes, ops, k);
          assert before[k] == ops[k] && before == ops[..last];
        }
      }
    }
  }

  /** What is registered was inserted by an operation that still holds. */
  lemma {:induction false} HeldBySomeone(processes: nat, ops: seq<Op>, id: nat) returns (k: nat)
    requires Present(processes, ops, id)
    ensures k < |ops| && ops[k].id == id && Holds(processes, ops, k)
  {
    var before, last := ops[..|ops| - 1], |ops| - 1;
    if ops[last].id == id && TookEffect(processes, ops, last) {
      k := last;
    } else {
      k := HeldBySomeone(processes, before, id);
      HoldsBefore(processes, ops, k);
    }
  }

  /** The last operation is a removal of id that takes effect: it takes the id out. */
  lemma {:induction false} HeldAfterRemoval(processes: nat, ops: seq<Op>, p: nat, k: nat)
    requires ops != [] && k <= |ops| - 1 && ops[|ops| - 1].Remove? && TookEffect(processes, ops, |ops| - 1)
    ensures HeldIds(processes, ops, p, k) == Without(HeldIds(processes, ops[..|ops| - 1], p, k), ops[|ops| - 1].id)
  {
    if k > 0 {
      var before, id := ops[..|ops| - 1], ops[|ops| - 1].id;
      HeldAfterRemoval(processes, ops, p, k - 1);
      HoldsBefore(processes, ops, k - 1);
      var one := if Holds(processes, before, k - 1) && before[k - 1].process == p then [before[k - 1].id] else [];
      WithoutAppend(HeldIds(processes, before, p, k - 1), one, id);
    }
  }

  /** The last operation takes no effect, or inserts an id that was absent: the other holds stay. */
  lemma {:induction false} HeldOtherwise(processes: nat, ops: seq<Op>, p: nat, k: nat)
    requires ops != [] && k <= |ops| - 1 && (ops[|ops| - 1].Insert? || !TookEffect(processes, ops, |ops| - 1))
    ensures HeldIds(processes, ops, p, k) == HeldIds(processes, ops[..|ops| - 1], p, k)
  {
    if k > 0 {
      var before, last := ops[..|ops| - 1], |ops| - 1;
      HeldOtherwise(processes, ops, p, k - 1);
      HoldsBefore(processes, ops, k - 1);
      if Holds(processes, before, k - 1) && ops[last].id == before[k - 1].id {
        OwnersAreHeld(processes, 0, before);
      }
    }
  }

  /** What the history of operations says the bookkeeping is. */
  ghost predicate AsHistory(r: Registry, processes: nat, self: nat, ops: seq<Op>)
    requires self < processes
  {
    && (forall id: nat :: id in r.owners <==>
          exists k :: 0 <= k < |ops| && ops[k].id == id && Holds(processes, ops, k))
    && (forall k | 0 <= k < |ops| && Holds(processes, ops, k) ::
          ops[k].id in r.owners && r.owners[ops[k].id] == ops[k].process)
    && |r.idsPerProcess| == processes
    && (forall p: nat | p < processes :: r.idsPerProcess[p] == HeldIds(processes, ops, p, |ops|))
    && r.local == |HeldIds(processes, ops, self, |ops|)|
  }

  lemma {:induction false} ListsAreHeld(processes: nat, self: nat, ops: seq<Op>, p: nat)
    requires self < processes && p < processes
    ensures After(processes, self, ops).idsPerProcess[p] == HeldIds(processes, ops, p, |ops|)
  {
    if ops != [] {
      var before, last := ops[..|ops| - 1], |ops| - 1;
      ListsAreHeld(processes, self, before, p);
      OwnersAreHeld(processes, self, before);
      RunsKeepConsistent(processes, self, before);
      assert TookEffect(processes, ops, last) ==
             if ops[last].Insert? then 0 <= ops[last].process < processes && !Present(processes, before, ops[last].id)
             else Present(processes, before, ops[last].id);
      if ops[last].Remove? && TookEffect(processes, ops, last) {
        HeldAfterRemoval(processes, ops, p, last);
        RemovalTakesOne(After(processes, self, before), self, ops[last].id);
        var q := After(processes, self, before).owners[ops[last].id];
        if p != q {
          WithoutAbsent(After(processes, self, before).idsPerProcess[p], ops[last].id);
        }
      } else {
        HeldOtherwise(processes, ops, p, last);
      }
    }
  }

  /** After every sequence of insertions and removals the bookkeeping is what the operations that took
      effect say: an element is registered, on process p, exactly if the last of them on it inserted it on
      p; each list holds its elements in the order of these insertions; and the local ones are counted. */
  lemma HistoryDecides(processes: nat, self: nat, ops: seq<Op>)
    requires self < processes
    ensures AsHistory(After(processes, self, ops), processes, self, ops)
  {
    OwnersAreHeld(processes, self, ops);
    RunsKeepConsistent(processes, self, ops);
    forall id: nat | Present(processes, ops, id)
      ensures exists k :: 0 <= k < |ops| && ops[k].id == id && Holds(processes, ops, k)
    {
      var k := HeldBySomeone(processes, ops, id);
    }
    forall p: nat | p < processes
      ensures After(processes, self, ops).idsPerProcess[p] == HeldIds(processes, ops, p, |ops|)
    {
      ListsAreHeld(processes, self, ops, p);
    }
  }

  // ---------------------------------------------------------------- what reductions count

  /** count_if over a list of ids. */
  function CountIf(s: seq<nat>, pred: nat -> bool): nat {
    if s == [] then 0 else CountIf(s[..|s| - 1], pred) + if pred(s[|s| - 1]) then 1 else 0
  }

  function Matching(r: Registry, p: nat, pred: nat -> bool): set<nat> {
    set id | id in r.owners && r.owners[id] == p && pred(id)
  }

  lemma {:induction false} CountIsSize(s: seq<nat>, pred: nat -> bool)
    requires NoDuplicates(s)
    ensures CountIf(s, pred) == |set x | x in s && pred(x)|
  {
    if s != [] {
      var front, x := s[..|s| - 1], s[|s| - 1];
      CountIsSize(front, pred);
      var before := set y | y in front && pred(y);
      var after := set y | y in s && pred(y);
      assert x !in before && s == front + [x];
      if pred(x) {
        assert after == before + {x};
      } else {
        assert after == before;
      }
    }
  }

  /** After any run, the number of contributions a process expects is the number of its elements that
      satisfy the predicate; without a predicate that is the number of local objects; and a process
      takes part in a reduction exactly when it owns a matching element. */
  lemma ExpectedContributions(processes: nat, self: nat, ops: seq<Op>, p: nat, pred: nat -> bool)
    requires self < processes && p < processes
    ensures var r := After(processes, self, ops);
            && CountIf(r.idsPerProcess[p], pred) == |Matching(r, p, pred)|
            && r.local == |Matching(r, self, _ => true)| == CountIf(r.idsPerProcess[self], _ => true)
            && ((exists i :: 0 <= i < |r.idsPerProcess[p]| && pred(r.idsPerProcess[p][i])) <==>
                Matching(r, p, pred) != {})
  {
    var r := After(processes, self, ops);
    RunsKeepConsistent(processes, self, ops);
    CountIsSize(r.idsPerProcess[p], pred);
    assert (set x | x in r.idsPerProcess[p] && pred(x)) == Matching(r, p, pred);
    var all: nat -> bool := _ => true;
    DistinctLength(r.idsPerProcess[self]);
    CountIsSize(r.idsPerProcess[self], all);
    assert Matching(r, self, all) == Elements(r.idsPerProcess[self]) == (set x | x in r.idsPerProcess[self] && all(x));
    if id :| id in Matching(r, p, pred) {
      assert id in r.idsPerProcess[p];
      var i :| 0 <= i < |r.idsPerProcess[p]| && r.idsPerProcess[p][i] == id;
      assert pred(r.idsPerProcess[p][i]);
    }
    if i :| 0 <= i < |r.idsPerProcess[p]| && pred(r.idsPerProcess[p][i]) {
      assert r.idsPerProcess[p][i] in r.idsPerProcess[p];
      assert r.idsPerProcess[p][i] in Matching(r, p, pred);
    }
  }

  // ---------------------------------------------------------------- local delivery of a broadcast

  /** An iteration order of the map. */
  ghost predicate Enumerates(order: seq<nat>, owners: map<nat, nat>) {
    NoDuplicates(order) && forall id: nat :: id in order <==> id in owners
  }

  /** When as many distinct local elements were seen as there are, they were all seen. */
  lemma AllSeen(r: Registry, self: nat, seen: seq<nat>)
    requires Consistent(r, self) && NoDuplicates(seen)
    requires forall id | id in seen :: id in r.owners && r.owners[id] == self
    ensures |seen| <= r.local
    ensures |seen| == r.local ==> forall id | id in r.owners && r.owners[id] == self :: id in seen
  {
    var mine := r.idsPerProcess[self];
    DistinctLength(seen);
    DistinctLength(mine);
    assert Elements(seen) <= Elements(mine) by {
      forall id | id in Elements(seen) ensures id in mine { }
    }
    SubsetSize(Elements(seen), Elements(mine));
    if |seen| == r.local {
      forall id | id in r.owners && r.owners[id] == self ensures id in seen {
        assert id in Elements(mine);
      }
    }
  }

  class Collection {
    const self: nat
    var owners: map<nat, nat>
    var idsPerProcess: seq<seq<nat>>
    var numberOfLocalObjects: int

    function View(): Registry
      reads this
    {
      Registry(owners, idsPerProcess, numberOfLocalObjects)
    }

    ghost predicate Valid()
      reads this
    {
      Consistent(View(), self)
    }

    constructor (self: nat, processes: nat)
      requires self < processes
      ensures Valid() && View() == Empty(processes) && this.self == self
    {
      this.self := self;
      owners := map[];
      idsPerProcess := seq(processes, _ => []);
      numberOfLocalObjects := 0;
    }

    method InsertElement(id: nat, process: int) returns (r: Result<(), CollectionError>)
      requires Valid()
      modifies this
      ensures Valid() && (View(), r) == Inserted(old(View()), self, id, process)
      ensures r.Success? <==> 0 <= process < |old(idsPerProcess)| && id !in old(owners)
      ensures r == Failure(NegativeProcess) <==> process < 0
      ensures r == Failure(AlreadyInserted) <==> process >= 0 && id in old(owners)
      ensures if r.Failure? then View() == old(View())
              else
                && owners == old(owners)[id := process]
                && idsPerProcess == old(idsPerProcess)[process := old(idsPerProcess)[process] + [id]]
                && numberOfLocalObjects == old(numberOfLocalObjects) + if process == self then 1 else 0
    {
      InsertKeepsConsistent(View(), self, id, process);
      if process < 0 {
        return Failure(NegativeProcess);
      }
      if id in owners {
        return Failure(AlreadyInserted);
      }
      if process >= |idsPerProcess| {
        return Failure(NoSuchProcess);
      }
      owners := owners[id := process];
      if process == self {
        numberOfLocalObjects := numberOfLocalObjects + 1;
      }
      idsPerProcess := idsPerProcess[process := idsPerProcess[process] + [id]];
      return Success(());
    }

    method RemoveElement(id: nat) returns (r: Result<(), CollectionError>)
      requires Valid()
      modifies this
      ensures Valid() && (View(), r) == Removed(old(View()), self, id)
      ensures r == if id in old(owners) then Success(()) else Failure(UnknownElement)
      ensures if r.Failure? then View() == old(View())
              else
                var p := old(owners)[id];
                && owners == old(owners) - {id}
                && idsPerProcess == old(idsPerProcess)[p := Without(old(idsPerProcess)[p], id)]
                && numberOfLocalObjects == old(numberOfLocalObjects) - if p == self then 1 else 0
    {
      RemoveKeepsConsistent(View(), self, id);
      if id !in owners {
        return Failure(UnknownElement);
      }
      EraseIsWithout(idsPerProcess[owners[id]], id);
      if owners[id] == self {
        numberOfLocalObjects := numberOfLocalObjects - 1;
      }
      idsPerProcess := idsPerProcess[owners[id] := Erase(idsPerProcess[owners[id]], id)];
      owners := owners - {id};
      return Success(());
    }

    /** The loop over the map that turns a broadcast into one Invoke per local element. It stops early,
        when it has seen as many as there are; whatever the iteration order, it skips nobody. */
    method AddLocalBroadcastTasks(order: seq<nat>) returns (tasks: seq<nat>)
      requires Valid() && Enumerates(order, owners)
      ensures NoDuplicates(tasks)
      ensures forall id: nat :: id in tasks <==> id in owners && owners[id] == self
      ensures |tasks| == numberOfLocalObjects
    {
      tasks := [];
      var counter := 0;
      var i := 0;
      while i < |order|
        invariant i <= |order| && counter == |tasks| && NoDuplicates(tasks)
        invariant forall id: nat :: id in tasks ==> id in order[..i] && id in owners && owners[id] == self
        invariant forall id: nat :: id in order[..i] && owners[id] == self ==> id in tasks
      {
        if counter >= numberOfLocalObjects {
          break;
        }
        assert order[..i + 1] == order[..i] + [order[i]];
        assert order[i] !in order[..i];
        if owners[order[i]] == self {
          tasks := tasks + [order[i]];
          counter := counter + 1;
        }
        i := i + 1;
      }
      assert i == |order| ==> order[..i] == order;
      AllSeen(View(), self, tasks);
      SameSize(View(), self, tasks);
    }
  }

  lemma SameSize(r: Registry, self: nat, seen: seq<nat>)
    requires Consistent(r, self) && NoDuplicates(seen)
    ensures (forall id: nat :: id in seen <==> id in r.owners && r.owners[id] == self) ==> |seen| == r.local
  {
    DistinctLength(seen);
    DistinctLength(r.idsPerProcess[self]);
    if forall id: nat :: id in seen <==> id in r.owners && r.owners[id] == self {
      assert Elements(seen) == Elements(r.idsPerProcess[self]);
    }
  }
}

/** A broadcast from any process: to process 0 first, then down the tree, with a delivery to the local
    elements on every process. One broadcast as a step system over all orders of delivery. */
module Broadcast {
  import opened Wrappers
  import opened ProcessTree
  import opened Collections
  import opened FiniteSets

  /** flight holds the destinations of messages on the wire; sent counts all ever sent; delivered counts
      local deliveries per process; invoked is the bag of elements that were given an Invoke. */
  datatype State = State(started: bool, flight: multiset<nat>, delivered: seq<nat>, sent: nat, invoked: multiset<nat>)

  /** Initiate: the source takes the broadcast from its queue. Receive: p takes one off the wire. */
  datatype Action = Initiate | Receive(p: nat)

  function OwnedBy(owners: map<nat, nat>, p: nat): set<nat> {
    set id | id in owners && owners[id] == p
  }

  lemma {:induction false} DistinctCount(s: seq<nat>, x: nat)
    requires NoDuplicates(s)
    ensures multiset(s)[x] == if x in s then 1 else 0
  {
    if s != [] {
      var front := s[..|s| - 1];
      DistinctCount(front, x);
      assert s == front + [s[|s| - 1]];
    }
  }

  /** The destinations of the copies for the children. */
  function Copies(pc: ParentAndChildren): seq<int> {
    (if pc.left == -1 then [] else [pc.left]) + if pc.right == -1 then [] else [pc.right]
  }

  datatype SendError = SameChildTwice

  method SendToChildren(pc: ParentAndChildren) returns (r: Result<seq<int>, SendError>)
    ensures r == if pc.left != -1 && pc.left == pc.right then Failure(SameChildTwice) else Success(Copies(pc))
  {
    if pc.left != -1 && pc.right != -1 && pc.left == pc.right {
      return Failure(SameChildTwice);
    }
    var children := [pc.left, pc.right];
    var sent: seq<int> := [];
    for i := 0 to 2
      invariant sent == if i == 0 then [] else if i == 1 then Copies(pc.(right := -1)) else Copies(pc)
    {
      if children[i] != -1 {
        sent := sent + [children[i]];
      }
    }
    return Success(sent);
  }

  function ChildrenOf(p: nat, n: nat): set<nat> {
    set c: nat | 0 < c < n && Parent(c) == p
  }

  lemma ChildrenSet(p: nat, n: nat)
    requires p < n
    ensures ChildrenOf(p, n) == (if 2 * p + 1 < n then {2 * p + 1} else {}) + if 2 * p + 2 < n then {2 * p + 2} else {}
  {
  }

  lemma CopiesList(p: nat, n: nat)
    requires p < n
    ensures Copies(Links(p, n).value) ==
            if 2 * p + 1 >= n then [] else if 2 * p + 2 >= n then [2 * p + 1] else [2 * p + 1, 2 * p + 2]
  {
  }

  /** In the tree the copies go to exactly the children, each once, and nothing is thrown. */
  lemma CopiesAreChildren(p: nat, n: nat)
    requires p < n
    ensures var pc := Links(p, n).value;
            && !(pc.left != -1 && pc.left == pc.right)
            && |Copies(pc)| == |multiset(Copies(pc))| == |ChildrenOf(p, n)|
            && forall c: int :: multiset(Copies(pc))[c] == if 0 < c < n && Parent(c) == p then 1 else 0
  {
    ChildrenSet(p, n);
    CopiesList(p, n);
  }

  // ---------------------------------------------------------------- the step system

  predicate Enabled(s: State, a: Action) {
    match a
    case Initiate => !s.started
    case Receive(p) => p in s.flight
  }

  /** Process p sends copies to its children and delivers to its elements. */
  function Deliver(s: State, n: nat, owners: map<nat, nat>, p: nat): State
    requires p < n == |s.delivered|
  {
    s.(flight := s.flight + multiset(ChildrenOf(p, n)), sent := s.sent + |ChildrenOf(p, n)|,
       delivered := s.delivered[p := s.delivered[p] + 1], invoked := s.invoked + multiset(OwnedBy(owners, p)))
  }

  /** A delivery invokes exactly what AddLocalBroadcastTasks makes of the map, in whatever order it
      iterates: the tasks that its contract promises are the ones the delivery adds. */
  lemma DeliveryIsTheLoop(s: State, n: nat, owners: map<nat, nat>, p: nat, tasks: seq<nat>)
    requires p < n == |s.delivered|
    requires NoDuplicates(tasks) && forall id: nat :: id in tasks <==> id in owners && owners[id] == p
    ensures Deliver(s, n, owners, p).invoked == s.invoked + multiset(tasks)
  {
    forall id: nat ensures multiset(tasks)[id] == multiset(OwnedBy(owners, p))[id] {
      DistinctCount(tasks, id);
    }
  }

  function Step(s: State, n: nat, source: nat, owners: map<nat, nat>, a: Action): State
    requires source < n == |s.delivered| && Enabled(s, a) && forall q | q in s.flight :: q < n
  {
    match a
    case Initiate =>
      if source != 0 then s.(started := true, flight := s.flight + multiset{0}, sent := s.sent + 1)
      else Deliver(s.(started := true), n, owners, 0)
    case Receive(p) => Deliver(s.(flight := s.flight - multiset{p}), n, owners, p)
  }

  function Init(n: nat): State {
    State(false, multiset{}, seq(n, _ => 0), 0, multiset{})
  }

  function After(n: nat, source: nat, owners: map<nat, nat>, run: seq<Action>): (s: Option<State>)
    requires source < n
    ensures s.Some? ==> |s.value.delivered| == n && forall q | q in s.value.flight :: q < n
  {
    if run == [] then Some(Init(n))
    else
      var before := After(n, source, owners, run[..|run| - 1]);
      if before.Some? && Enabled(before.value, run[|run| - 1])
      then Some(Step(before.value, n, source, owners, run[|run| - 1])) else None
  }

  // ---------------------------------------------------------------- the invariant

  /** The processes whose parent has delivered. */
  function Reached(s: State, n: nat): set<nat>
    requires |s.delivered| == n
  {
    set q: nat | 0 < q < n && s.delivered[Parent(q)] > 0
  }

  /** A message for q is on the wire exactly between the delivery above q and the one on q. */
  predicate AtProcess(s: State, n: nat, q: nat)
    requires q < n == |s.delivered|
  {
    && s.delivered[q] <= 1
    && (q > 0 && s.delivered[q] == 1 ==> s.delivered[Parent(q)] == 1)
    && s.flight[q] == if s.delivered[q] == 1 then 0
                      else if q == 0 then (if s.started then 1 else 0) else s.delivered[Parent(q)]
  }

  ghost predicate Inv(s: State, n: nat, source: nat, owners: map<nat, nat>, steps: nat) {
    && source < n == |s.delivered|
    && (forall q | q in s.flight :: q < n)
    && (forall q | 0 <= q < n :: AtProcess(s, n, q))
    && (s.delivered[0] == 1 ==> s.started)
    && (s.started && source == 0 ==> s.delivered[0] == 1)
    && s.sent == |Reached(s, n)| + (if s.started && source != 0 then 1 else 0)
    && steps == |Delivered(s, n)| + (if s.started && source != 0 then 1 else 0)
    && forall id: nat :: s.invoked[id] == if id in owners && owners[id] < n then s.delivered[owners[id]] else 0
  }

  function Delivered(s: State, n: nat): set<nat>
    requires |s.delivered| == n
  {
    set q: nat | q < n && s.delivered[q] > 0
  }

  lemma InitInv(n: nat, source: nat, owners: map<nat, nat>)
    requires source < n
    ensures Inv(Init(n), n, source, owners, 0)
  {
    assert Reached(Init(n), n) == {} == Delivered(Init(n), n);
  }

  /** A delivery on a process whose turn it is. */
  lemma DeliverTree(s: State, n: nat, owners: map<nat, nat>, p: nat)
    requires p < n == |s.delivered| && s.delivered[p] == 0 && s.started
    requires forall q | 0 <= q < n && q != p :: AtProcess(s, n, q)
    requires p > 0 ==> s.delivered[Parent(p)] == 1
    requires s.flight[p] == 0
    ensures forall q | 0 <= q < n :: AtProcess(Deliver(s, n, owners, p), n, q)
  {
    var s' := Deliver(s, n, owners, p);
    forall q | 0 <= q < n ensures AtProcess(s', n, q) {
      assert q != p ==> AtProcess(s, n, q);
      assert q > 0 && Parent(q) == p <==> q in ChildrenOf(p, n);
    }
  }

  lemma ReachedAfter(s: State, s': State, n: nat, p: nat)
    requires p < n == |s.delivered| == |s'.delivered| && s.delivered[p] == 0 && s'.delivered == s.delivered[p := 1]
    ensures |Reached(s', n)| == |Reached(s, n)| + |ChildrenOf(p, n)|
  {
    assert Reached(s', n) == Reached(s, n) + ChildrenOf(p, n);
    assert Reached(s, n) * ChildrenOf(p, n) == {};
  }

  lemma DeliveredAfter(s: State, s': State, n: nat, p: nat)
    requires p < n == |s.delivered| == |s'.delivered| && s.delivered[p] == 0 && s'.delivered == s.delivered[p := 1]
    ensures |Delivered(s', n)| == |Delivered(s, n)| + 1
  {
    assert Delivered(s', n) == Delivered(s, n) + {p};
  }

  lemma DeliverInvokes(s: State, n: nat, owners: map<nat, nat>, p: nat, id: nat)
    requires p < n == |s.delivered|
    ensures Deliver(s, n, owners, p).invoked[id] == s.invoked[id] + if id in owners && owners[id] == p then 1 else 0
  {
  }

  lemma DeliverCounts(s: State, n: nat, owners: map<nat, nat>, p: nat)
    requires p < n == |s.delivered| && s.delivered[p] == 0
    ensures var s' := Deliver(s, n, owners, p);
            && |Reached(s', n)| == |Reached(s, n)| + |ChildrenOf(p, n)|
            && |Delivered(s', n)| == |Delivered(s, n)| + 1
            && forall id: nat :: s'.invoked[id] == s.invoked[id] + if id in owners && owners[id] == p then 1 else 0
  {
    ReachedAfter(s, Deliver(s, n, owners, p), n, p);
    DeliveredAfter(s, Deliver(s, n, owners, p), n, p);
    forall id: nat
      ensures Deliver(s, n, owners, p).invoked[id] == s.invoked[id] + if id in owners && owners[id] == p then 1 else 0
    {
      DeliverInvokes(s, n, owners, p, id);
    }
  }

  lemma StartRemotely(s: State, n: nat, source: nat, owners: map<nat, nat>, steps: nat)
    requires Inv(s, n, source, owners, steps) && !s.started && source != 0
    ensures Inv(Step(s, n, source, owners, Initiate), n, source, owners, steps + 1)
  {
    var s' := Step(s, n, source, owners, Initiate);
    assert AtProcess(s, n, 0);
    assert Reached(s', n) == Reached(s, n) && Delivered(s', n) == Delivered(s, n);
    forall q | 0 <= q < n ensures AtProcess(s', n, q) {
      assert AtProcess(s, n, q);
    }
  }

  lemma StartAtRoot(s: State, n: nat, owners: map<nat, nat>, steps: nat)
    requires Inv(s, n, 0, owners, steps) && !s.started
    ensures Inv(Step(s, n, 0, owners, Initiate), n, 0, owners, steps + 1)
  {
    var s1 := s.(started := true);
    assert AtProcess(s, n, 0);
    assert Reached(s1, n) == Reached(s, n) && Delivered(s1, n) == Delivered(s, n);
    forall q | 0 < q < n ensures AtProcess(s1, n, q) {
      assert AtProcess(s, n, q);
    }
    DeliverTree(s1, n, owners, 0);
    DeliverCounts(s1, n, owners, 0);
  }

  lemma ReceiveKeepsInv(s: State, n: nat, source: nat, owners: map<nat, nat>, steps: nat, p: nat)
    requires Inv(s, n, source, owners, steps) && p in s.flight
    ensures Inv(Step(s, n, source, owners, Receive(p)), n, source, owners, steps + 1)
  {
    var s1 := s.(flight := s.flight - multiset{p});
    assert AtProcess(s, n, p);
    assert Reached(s1, n) == Reached(s, n) && Delivered(s1, n) == Delivered(s, n);
    forall q | 0 <= q < n && q != p ensures AtProcess(s1, n, q) {
      assert AtProcess(s, n, q);
    }
    StartedIfReached(s, n, source, owners, steps, p);
    assert p > 0 ==> AtProcess(s, n, Parent(p));
    DeliverTree(s1, n, owners, p);
    DeliverCounts(s1, n, owners, p);
  }

  lemma StepKeepsInv(s: State, n: nat, source: nat, owners: map<nat, nat>, steps: nat, a: Action)
    requires Inv(s, n, source, owners, steps) && Enabled(s, a)
    ensures Inv(Step(s, n, source, owners, a), n, source, owners, steps + 1)
  {
    match a
    case Initiate =>
      if source != 0 {
        StartRemotely(s, n, source, owners, steps);
      } else {
        StartAtRoot(s, n, owners, steps);
      }
    case Receive(p) => ReceiveKeepsInv(s, n, source, owners, steps, p);
  }

  lemma {:induction false} StartedIfReached(s: State, n: nat, source: nat, owners: map<nat, nat>, steps: nat, p: nat)
    requires Inv(s, n, source, owners, steps) && p < n && (s.delivered[p] == 1 || p in s.flight)
    ensures s.started
    decreases p
  {
    assert AtProcess(s, n, p);
    if p > 0 {
      assert AtProcess(s, n, Parent(p));
      StartedIfReached(s, n, source, owners, steps, Parent(p));
    }
  }

  lemma {:induction false} RunsKeepInv(n: nat, source: nat, owners: map<nat, nat>, run: seq<Action>)
    requires source < n && After(n, source, owners, run).Some?
    ensures Inv(After(n, source, owners, run).value, n, source, owners, |run|)
  {
    if run == [] {
      InitInv(n, source, owners);
    } else {
      var before := run[..|run| - 1];
      RunsKeepInv(n, source, owners, before);
      StepKeepsInv(After(n, source, owners, before).value, n, source, owners, |before|, run[|run| - 1]);
    }
  }

  // ---------------------------------------------------------------- what every run does

  lemma {:induction false} AllReached(s: State, n: nat, source: nat, owners: map<nat, nat>, steps: nat, q: nat)
    requires Inv(s, n, source, owners, steps) && s.started && s.flight == multiset{} && q < n
    ensures s.delivered[q] == 1
    decreases q
  {
    assert AtProcess(s, n, q);
    if q > 0 {
      AllReached(s, n, source, owners, steps, Parent(q));
    }
  }

  /** In every run no process delivers twice and no element is invoked twice. */
  lemma NeverTwice(n: nat, source: nat, owners: map<nat, nat>, run: seq<Action>)
    requires source < n && After(n, source, owners, run).Some?
    ensures var s := After(n, source, owners, run).value;
            && (forall p | 0 <= p < n :: s.delivered[p] <= 1)
            && (forall id: nat :: s.invoked[id] <= 1)
  {
    var s := After(n, source, owners, run).value;
    RunsKeepInv(n, source, owners, run);
    forall p | 0 <= p < n ensures s.delivered[p] <= 1 {
      assert AtProcess(s, n, p);
    }
  }

  /** A run that can go no further delivered once on every process, the source included, gave every
      element exactly one Invoke, and used n - 1 tree messages, plus one if the source is not 0. Every
      run ends after n deliveries. */
  lemma ExactlyOnce(n: nat, source: nat, owners: map<nat, nat>, run: seq<Action>)
    requires source < n && After(n, source, owners, run).Some? && forall id | id in owners :: owners[id] < n
    requires forall a: Action :: !Enabled(After(n, source, owners, run).value, a)
    ensures var s := After(n, source, owners, run).value;
            && (forall p | 0 <= p < n :: s.delivered[p] == 1)
            && s.invoked == multiset(owners.Keys)
            && s.sent == n - 1 + (if source == 0 then 0 else 1)
            && |run| == n + (if source == 0 then 0 else 1)
  {
    var s := After(n, source, owners, run).value;
    RunsKeepInv(n, source, owners, run);
    assert !Enabled(s, Initiate);
    forall p ensures p !in s.flight {
      assert !Enabled(s, Receive(p));
    }
    StuckMeansDone(s, n, source, owners, |run|);
  }

  lemma StuckMeansDone(s: State, n: nat, source: nat, owners: map<nat, nat>, steps: nat)
    requires Inv(s, n, source, owners, steps) && forall id | id in owners :: owners[id] < n
    requires s.started && forall p :: p !in s.flight
    ensures forall p | 0 <= p < n :: s.delivered[p] == 1
    ensures s.invoked == multiset(owners.Keys)
    ensures s.sent == n - 1 + (if source == 0 then 0 else 1)
    ensures steps == n + (if source == 0 then 0 else 1)
  {
    assert s.flight == multiset{};
    forall p | 0 <= p < n ensures s.delivered[p] == 1 {
      AllReached(s, n, source, owners, steps, p);
    }
    assert Delivered(s, n) == UpTo(n);
    assert Reached(s, n) == UpTo(n) - {0};
    assert forall id: nat :: s.invoked[id] == multiset(owners.Keys)[id];
  }

  /** No run takes more steps than that. */
  lemma RunsAreBounded(n: nat, source: nat, owners: map<nat, nat>, run: seq<Action>)
    requires source < n && After(n, source, owners, run).Some?
    ensures |run| <= n + 1
  {
    var s := After(n, source, owners, run).value;
    RunsKeepInv(n, source, owners, run);
    SubsetSize(Delivered(s, n), UpTo(n));
  }
}

/** Why the detection is safe only under a condition: a leaf answers a sweep without looking at its
    last regular stamp and never advances its own sweep number, so messages to and from leaves do not
    make anyone saturate. For every pattern of messages that is not safe there is a run of the code, made
    of whole calls, that ends with the root sure of quiescence while a process works. */
module LeafBranch {
  import opened Wrappers
  import opened ProcessTree
  import opened GlobalQd
  import opened SweepSystem
  import opened SweepInvariant
  import opened Termination
  import opened CheckRefinement
  import opened Completeness
  import opened CodeRuns
  import opened TrafficPatterns

  // ---------------------------------------------------------------- runs of the code

  /** The state after some run of the code with messages between allowed pairs only. */
  ghost predicate Built(n: nat, active: seq<bool>, allowed: (nat, nat) -> bool, s: System) {
    Reached(n, active, allowed, s) && exists events ::
      Along(events, allowed) && Events(n, active, events) == Some(WorldOf(s))
  }

  lemma InitBuilt(n: nat, active: seq<bool>, allowed: (nat, nat) -> bool)
    requires |active| == n > 1
    ensures Built(n, active, allowed, Init(n, active))
  {
    InitReached(n, active, allowed);
    InitIsBegin(n, active);
    assert Along([], allowed) && Events(n, active, []) == Some(Begin(n, active));
  }

  lemma OneMore(n: nat, active: seq<bool>, allowed: (nat, nat) -> bool, events: seq<Event>, w: World, e: Event,
                v: World)
    requires Along(events, allowed) && Events(n, active, events) == Some(w)
    requires Happens(w, n, e) == Some(v) && (e.Post? ==> allowed(e.p, e.to))
    ensures Along(events + [e], allowed) && Events(n, active, events + [e]) == Some(v)
  {
    var next := events + [e];
    assert next[..|next| - 1] == events;
  }

  lemma EventBuilds(n: nat, active: seq<bool>, allowed: (nat, nat) -> bool, s: System, e: Event, t: System)
    requires Built(n, active, allowed, s) && Reached(n, active, allowed, t)
    requires Happens(WorldOf(s), n, e) == Some(WorldOf(t)) && (e.Post? ==> allowed(e.p, e.to))
    ensures Built(n, active, allowed, t)
  {
    var events :| Along(events, allowed) && Events(n, active, events) == Some(WorldOf(s));
    OneMore(n, active, allowed, events, WorldOf(s), e, WorldOf(t));
  }

  lemma TrafficHappens(s: System, n: nat, e: Event)
    requires Inv(s, n) && !e.Turn? && Enabled(s, n, ActionOf(e))
    ensures Happens(WorldOf(s), n, e).Some?
  {
    if e.Post? {
      ExistsAlways(s, n, e.p);
      ExistsAlways(s, n, e.to);
    } else if e.Take? {
      assert s.mail[e.index] in s.mail;
      ExistsAlways(s, n, s.mail[e.index].to);
    } else {
      ExistsAlways(s, n, e.p);
    }
  }

  /** A regular step. */
  lemma TrafficBuilds(n: nat, active: seq<bool>, allowed: (nat, nat) -> bool, s: System, e: Event)
    requires Built(n, active, allowed, s) && !e.Turn? && Enabled(s, n, ActionOf(e))
    requires e.Post? ==> allowed(e.p, e.to)
    ensures Built(n, active, allowed, Step(s, n, ActionOf(e)))
  {
    ReachedInv(n, active, allowed, s);
    TrafficHappens(s, n, e);
    TrafficEffect(s, n, e);
    StepReaches(n, active, allowed, s, ActionOf(e));
    EventBuilds(n, active, allowed, s, e, Step(s, n, ActionOf(e)));
  }

  /** A whole call. */
  lemma CallBuilds(n: nat, active: seq<bool>, allowed: (nat, nat) -> bool, s: System, p: nat, see: Probes,
                   acts: seq<Action>, t: System)
    requires Built(n, active, allowed, s) && Inv(s, n) && Checking(s, n, p) && Fits(s.nodes[p], s.net)
    requires Performs(s, n, p, acts, t, CheckImpl(At(s, n, p), n, see).0) && t.mode[p] != AtBarrier
    ensures Built(n, active, allowed, t)
  {
    StepsReach(n, active, allowed, s, acts, t);
    CallIsTurn(s, t, n, p, see);
    ExistsAlways(s, n, p);
    EventBuilds(n, active, allowed, s, Turn(p, see), t);
  }

  // ---------------------------------------------------------------- a call that goes down

  const DOWN := Probes(0, 0, true, false)
  const UP := Probes(1, 1, false, false)

  /** The step a call takes that receives nothing from the children. */
  function DownStep(p: nat): Action {
    if p == 0 then Start else AcceptDown(p)
  }

  /** Only send requests are gone. */
  predicate Cleaned(s: System, u: System, n: nat, p: nat)
    requires Shape(s, n) && Shape(u, n) && p < n
  {
    && u == s.(nodes := s.nodes[p := u.nodes[p]])
    && u.nodes[p] == s.nodes[p].(downs := u.nodes[p].downs, ups := u.nodes[p].ups)
  }

  lemma CleansBoth(s: System, n: nat, p: nat) returns (u: System)
    requires Inv(s, n) && Checking(s, n, p)
    ensures Inv(u, n) && Cleaned(s, u, n, p)
    ensures Performs(s, n, p, [CleanUps(p), CleanDowns(p)], u, CleanupDowns(CleanupUps(At(s, n, p))))
    ensures CleanupUps(At(s, n, p)).ok && CleanupDowns(CleanupUps(At(s, n, p))).ok
  {
    var l := CleanupUps(At(s, n, p));
    var v := Step(s, n, CleanUps(p));
    PerformsOne(s, n, p, CleanUps(p), l);
    CleanEffect(s, n, CleanUps(p));
    u := Step(v, n, CleanDowns(p));
    PerformsOne(v, n, p, CleanDowns(p), CleanupDowns(l));
    CleanEffect(v, n, CleanDowns(p));
    ThenPerforms(s, n, p, [CleanUps(p)], v, l, [CleanDowns(p)], u, CleanupDowns(l));
  }

  /** What the call computes. */
  lemma DownCallComputes(s: System, n: nat, p: nat)
    requires Inv(s, n) && Checking(s, n, p) && (IsLeaf(p, n) || s.nodes[p].accum == map[])
    requires Enabled(s, n, DownStep(p)) && CleanupUps(At(s, n, p)).ok && CleanupDowns(CleanupUps(At(s, n, p))).ok
    ensures Fits(s.nodes[p], s.net)
    ensures var l := CleanupDowns(CleanupUps(At(s, n, p)));
            && (p > 0 ==> l.net.down[l.node.self].queue != [])
            && CheckImpl(At(s, n, p), n, DOWN).0 == if p == 0 then StartSweep(l) else TakeDown(l)
  {
    LeafMeansLeaf(s, n, p);
  }

  lemma DownCall(s: System, n: nat, p: nat) returns (acts: seq<Action>, u: System)
    requires Inv(s, n) && Checking(s, n, p) && (IsLeaf(p, n) || s.nodes[p].accum == map[])
    requires Enabled(s, n, DownStep(p))
    ensures Inv(u, n) && Cleaned(s, u, n, p) && Enabled(u, n, DownStep(p)) && Fits(s.nodes[p], s.net)
    ensures Performs(s, n, p, acts, Step(u, n, DownStep(p)), CheckImpl(At(s, n, p), n, DOWN).0)
  {
    u := CleansBoth(s, n, p);
    DownCallComputes(s, n, p);
    var l, m := CleanupDowns(CleanupUps(At(s, n, p))), CheckImpl(At(s, n, p), n, DOWN).0;
    PerformsOne(u, n, p, DownStep(p), m);
    ThenPerforms(s, n, p, [CleanUps(p), CleanDowns(p)], u, l, [DownStep(p)], Step(u, n, DownStep(p)), m);
    acts := [CleanUps(p), CleanDowns(p)] + [DownStep(p)];
  }

  /** The call leaves the traffic alone. */
  predicate Calm(s: System, t: System, n: nat)
    requires Shape(s, n) && Shape(t, n)
  {
    SameTraffic(s, t, n) && t.leafEarly == s.leafEarly && t.mode == s.mode
  }

  // ---------------------------------------------------------------- the sweep goes down

  /** The first k processes, all of them inner, have begun the first sweep, and nobody has recorded. */
  ghost predicate Descending(s: System, n: nat, k: nat) {
    && Inv(s, n) && s.mode[0] == Running && s.sweep == (if k == 0 then 0 else 1)
    && (forall p | 0 <= p < n :: !s.active[p] && s.rec[p] == 0)
    && (forall i: nat | i < n && !IsLeaf(i, n) :: Begun(s, n, i) == if i < k then 1 else 0)
  }

  /** An inner process that has not begun the sweep can take a message down, and nothing has come up. */
  lemma CanDescend(s: System, n: nat, k: nat)
    requires Descending(s, n, k) && k < n && !IsLeaf(k, n)
    ensures Checking(s, n, k) && s.nodes[k].accum == map[] && Enabled(s, n, DownStep(k))
  {
    AllChecking(s, n);
    NothingArrived(s, n, k);
    if k == 0 {
      assert NodeOk(s, n, 0);
    } else {
      assert EdgeOk(s, n, k) && Begun(s, n, Parent(k)) == 1;
    }
  }

  lemma DownStepSpreads(u: System, n: nat, k: nat)
    requires Inv(u, n) && k < n && !IsLeaf(k, n) && Enabled(u, n, DownStep(k)) && u.leafEarly == 0
    ensures Spreads(u, Step(u, n, DownStep(k)), n, k)
    ensures k > 0 ==> Received(Step(u, n, DownStep(k)).net.down[k]) == u.net.down[k].sent
    ensures Calm(u, Step(u, n, DownStep(k)), n)
    ensures k == 0 ==> Step(u, n, DownStep(k)).sweep == u.sweep + 1
  {
    if k == 0 {
      StartSpreads(u, n);
      StartHistory(u, n);
    } else {
      ForwardTakes(u, n, k);
      AcceptDownHistory(u, n, k);
    }
  }

  lemma CleanedKeeps(s: System, u: System, n: nat, p: nat)
    requires Inv(s, n) && Inv(u, n) && p < n && Cleaned(s, u, n, p)
    ensures Calm(s, u, n) && forall k: nat | Descending(s, n, k) :: Descending(u, n, k)
  {
  }

  lemma Descend(s: System, n: nat, k: nat) returns (acts: seq<Action>, t: System)
    requires Descending(s, n, k) && k < n && !IsLeaf(k, n) && s.leafEarly == 0
    ensures Descending(t, n, k + 1) && Calm(s, t, n) && Checking(s, n, k) && Fits(s.nodes[k], s.net)
    ensures Performs(s, n, k, acts, t, CheckImpl(At(s, n, k), n, DOWN).0)
  {
    CanDescend(s, n, k);
    var u;
    acts, u := DownCall(s, n, k);
    t := Step(u, n, DownStep(k));
    CleanedKeeps(s, u, n, k);
    DownStepSpreads(u, n, k);
    SpreadsDescends(u, t, n, k);
  }

  lemma SpreadsDescends(u: System, t: System, n: nat, k: nat)
    requires Descending(u, n, k) && Inv(t, n) && k < n && !IsLeaf(k, n) && Spreads(u, t, n, k)
    requires t.active == u.active && t.sweep == if k == 0 then u.sweep + 1 else u.sweep
    ensures Descending(t, n, k + 1)
  {
    forall i: nat | i < n && !IsLeaf(i, n) ensures Begun(t, n, i) == if i < k + 1 then 1 else 0 {
      assert i > 0 ==> EdgeOk(t, n, i);
      assert i > 0 ==> EdgeOk(u, n, i);
    }
  }

  /** All inner processes from k on take their turn. */
  lemma {:induction false} DescendAll(n: nat, active: seq<bool>, allowed: (nat, nat) -> bool, s: System, k: nat)
    returns (t: System)
    requires Built(n, active, allowed, s) && Descending(s, n, k) && k <= n && s.leafEarly == 0
    requires forall i | 0 <= i < k :: !IsLeaf(i, n)
    ensures Built(n, active, allowed, t) && Calm(s, t, n)
    ensures Descending(t, n, n)
    decreases n - k
  {
    if k < n && !IsLeaf(k, n) {
      var acts, u := Descend(s, n, k);
      CallBuilds(n, active, allowed, s, k, DOWN, acts, u);
      t := DescendAll(n, active, allowed, u, k + 1);
    } else {
      t := s;
    }
  }

  // ---------------------------------------------------------------- the sweep comes up

  /** All inner processes have begun the first sweep, the root has not recorded it, and a process takes
      the totals of its children only when it records. */
  ghost predicate Recording(s: System, n: nat) {
    && Inv(s, n) && s.mode[0] == Running && s.sweep == 1 && s.rec[0] == 0
    && (forall p | 0 <= p < n && s.rec[p] == 0 :: !s.active[p])
    && (forall i: nat | i < n && !IsLeaf(i, n) :: Begun(s, n, i) == 1)
    && (forall c: nat | 0 < c < n :: Received(s.net.up[c]) == s.rec[Parent(c)])
  }

  /** What p records now. */
  function Share(s: System, n: nat, p: nat): int
    requires Shape(s, n) && p < n
  {
    if IsLeaf(p, n) then s.nodes[p].sends - s.nodes[p].processed else LocalCount(s.nodes[p])
  }

  /** f is what the processes have recorded or record now. */
  predicate CountsAs(s: System, n: nat, f: seq<int>)
    requires Shape(s, n)
  {
    |f| == n && forall p: nat | p < n :: f[p] == if s.rec[p] == 1 then s.value[p] else Share(s, n, p)
  }

  lemma DescendedRecording(s: System, n: nat)
    requires Descending(s, n, n)
    ensures Recording(s, n)
  {
    forall c: nat | 0 < c < n ensures Received(s.net.up[c]) == s.rec[Parent(c)] {
      assert EdgeOk(s, n, c);
    }
  }

  lemma SameShares(s: System, t: System, n: nat, p: nat)
    requires Shape(s, n) && Shape(t, n) && p < n && SameCounters(s, t, n)
    requires t.nodes[p].localSweep == s.nodes[p].localSweep
    ensures Share(t, n, p) == Share(s, n, p)
  {
  }

  /** p records its share, everything else being as it was. */
  ghost predicate HasRecorded(s: System, t: System, n: nat, p: nat)
    requires Shape(s, n) && Shape(t, n) && p < n
  {
    && t.rec == s.rec[p := 1] && t.value == s.value[p := Share(s, n, p)] && t.sweep == s.sweep
    && Calm(s, t, n)
    && forall q | 0 <= q < n && q != p :: t.nodes[q].localSweep == s.nodes[q].localSweep
  }

  lemma RecordedCounts(s: System, t: System, n: nat, p: nat, f: seq<int>)
    requires Shape(s, n) && Shape(t, n) && p < n && s.rec[p] == 0 && HasRecorded(s, t, n, p) && CountsAs(s, n, f)
    ensures CountsAs(t, n, f)
  {
    forall q: nat | q < n ensures f[q] == if t.rec[q] == 1 then t.value[q] else Share(t, n, q) {
      if q != p {
        SameShares(s, t, n, q);
      }
    }
  }

  lemma LeafCanRecord(s: System, n: nat, p: nat)
    requires Recording(s, n) && p < n && IsLeaf(p, n) && s.rec[p] == 0
    ensures Checking(s, n, p) && Enabled(s, n, DownStep(p)) && p > 0 && s.net.down[p].queue != []
  {
    AllChecking(s, n);
    assert EdgeOk(s, n, p) && Begun(s, n, Parent(p)) == 1;
  }

  lemma LeafStepRecords(u: System, n: nat, p: nat)
    requires Recording(u, n) && p < n && IsLeaf(p, n) && u.rec[p] == 0 && Enabled(u, n, AcceptDown(p))
    ensures var t := Step(u, n, AcceptDown(p));
            Recording(t, n) && HasRecorded(u, t, n, p)
  {
    var t := Step(u, n, AcceptDown(p));
    StepKeepsInv(u, n, AcceptDown(p));
    LeafTakesDown(u, n, p);
    AcceptDownHistory(u, n, p);
    assert forall c: nat | 0 < c < n :: Parent(c) != p;
  }

  lemma CleanedRecording(s: System, u: System, n: nat, p: nat)
    requires Recording(s, n) && Inv(u, n) && p < n && Cleaned(s, u, n, p)
    ensures Recording(u, n) && Calm(s, u, n) && Share(u, n, p) == Share(s, n, p)
    ensures forall q | 0 <= q < n :: u.nodes[q].localSweep == s.nodes[q].localSweep
  {
  }

  lemma RecordLeaf(s: System, n: nat, p: nat) returns (acts: seq<Action>, t: System)
    requires Recording(s, n) && p < n && IsLeaf(p, n) && s.rec[p] == 0
    ensures Checking(s, n, p) && Fits(s.nodes[p], s.net)
    ensures Performs(s, n, p, acts, t, CheckImpl(At(s, n, p), n, DOWN).0)
    ensures Recording(t, n) && HasRecorded(s, t, n, p)
  {
    LeafCanRecord(s, n, p);
    var u;
    acts, u := DownCall(s, n, p);
    t := Step(u, n, AcceptDown(p));
    CleanedRecording(s, u, n, p);
    LeafStepRecords(u, n, p);
  }

  // ---------------------------------------------------------------- an inner process records

  ghost predicate ChildrenDone(s: System, n: nat, p: nat)
    requires Shape(s, n) && p < n
  {
    (2 * p + 1 < n ==> s.rec[2 * p + 1] == 1) && (2 * p + 2 < n ==> s.rec[2 * p + 2] == 1)
  }

  /** The totals of all children are waiting. */
  lemma ChildrenWait(s: System, n: nat, p: nat)
    requires Recording(s, n) && p < n && s.rec[p] == 0 && ChildrenDone(s, n, p)
    ensures forall c: nat | 0 < c < n && Parent(c) == p :: s.net.up[c].queue != [] && s.net.up[c].sent == 1
  {
    forall c: nat | 0 < c < n && Parent(c) == p ensures s.net.up[c].queue != [] && s.net.up[c].sent == 1 {
      assert EdgeOk(s, n, c);
    }
  }

  /** The accumulation once the messages of the children have been taken. */
  lemma TakenMeansFull(u: System, n: nat, p: nat)
    requires Inv(u, n) && p < n && !IsLeaf(p, n) && u.mode[p] == Running && Checking(u, n, p)
    requires forall c: nat | 0 < c < n && Parent(c) == p :: Received(u.net.up[c]) > u.rec[p]
    ensures SweepFull(u.nodes[p]) && Enabled(u, n, Finish(p))
  {
    LeafMeansLeaf(u, n, p);
    assert NodeOk(u, n, p);
    assert Arrived(u, n, p, 2 * p + 1) && (2 * p + 2 < n ==> Arrived(u, n, p, 2 * p + 2));
    assert u.rec[p] + 1 in u.nodes[p].accum;
  }

  /** p has cleaned up and taken what its children sent; the rest is as it was. */
  ghost predicate Gathered(s: System, u: System, n: nat, p: nat)
    requires Shape(s, n) && Shape(u, n) && p < n
  {
    && u.rec == s.rec && u.value == s.value && u.sweep == s.sweep && u.net.down == s.net.down
    && Calm(s, u, n) && Share(u, n, p) == Share(s, n, p)
    && (forall q | 0 <= q < n :: u.nodes[q].localSweep == s.nodes[q].localSweep)
    && (forall c: nat | 0 < c < n && Parent(c) != p :: u.net.up[c] == s.net.up[c])
  }

  /** One of the messages is taken. */
  lemma TakesOne(s: System, n: nat, p: nat, c: nat) returns (u: System)
    requires Inv(s, n) && Checking(s, n, p) && 0 < c < n && Parent(c) == p && s.net.up[c].queue != []
    ensures Performs(s, n, p, [AcceptUp(p, c)], u, TakeUp(At(s, n, p), c)) && Inv(u, n) && Checking(u, n, p)
    ensures Gathered(s, u, n, p) && u.net.up == s.net.up[c := Chan(s.net.up[c].sent, [])]
  {
    LeafMeansLeaf(s, n, p);
    AcceptUpTakes(s, n, p, c);
    u := ReceiveOneIsStep(s, n, p, c);
  }

  lemma CleansUps(s: System, n: nat, p: nat) returns (u: System)
    requires Inv(s, n) && Checking(s, n, p)
    ensures Performs(s, n, p, [CleanUps(p)], u, CleanupUps(At(s, n, p))) && Inv(u, n) && Checking(u, n, p)
    ensures Gathered(s, u, n, p) && u.net == s.net && CleanupUps(At(s, n, p)).ok
  {
    u := Step(s, n, CleanUps(p));
    PerformsOne(s, n, p, CleanUps(p), CleanupUps(At(s, n, p)));
    CleanEffect(s, n, CleanUps(p));
  }

  lemma GatheredTwice(s: System, u: System, v: System, n: nat, p: nat)
    requires Shape(s, n) && Shape(u, n) && Shape(v, n) && p < n && Gathered(s, u, n, p) && Gathered(u, v, n, p)
    ensures Gathered(s, v, n, p)
  {
  }

  /** What the call has computed by then. */
  function Gathering(l: Process): Process
    requires Fits(l.node, l.net)
  {
    ReceiveUps(ReceiveUps(CleanupUps(l), CleanupUps(l).node.left, 1), CleanupUps(l).node.right, 1)
  }

  lemma TakesRight(s: System, n: nat, p: nat, l: Process) returns (acts: seq<Action>, u: System)
    requires Inv(s, n) && Checking(s, n, p) && l == At(s, n, p)
    requires 2 * p + 2 < n ==> s.net.up[2 * p + 2].queue != []
    ensures Fits(l.node, l.net) && Performs(s, n, p, acts, u, ReceiveUps(l, l.node.right, 1))
    ensures Inv(u, n) && Checking(u, n, p) && Gathered(s, u, n, p)
    ensures u.net.up == if 2 * p + 2 < n then s.net.up[2 * p + 2 := Chan(s.net.up[2 * p + 2].sent, [])] else s.net.up
  {
    LeafMeansLeaf(s, n, p);
    if 2 * p + 2 < n {
      u := TakesOne(s, n, p, 2 * p + 2);
      acts := [AcceptUp(p, 2 * p + 2)];
    } else {
      acts, u := [], s;
      PerformsNothing(s, n, p);
    }
  }

  lemma TakesLeft(s: System, n: nat, p: nat) returns (acts: seq<Action>, u: System)
    requires Inv(s, n) && Checking(s, n, p) && !IsLeaf(p, n) && s.net.up[2 * p + 1].queue != []
    ensures CleanupUps(At(s, n, p)).ok && Fits(s.nodes[p], s.net)
    ensures var l := CleanupUps(At(s, n, p)); Performs(s, n, p, acts, u, ReceiveUps(l, l.node.left, 1))
    ensures Inv(u, n) && Checking(u, n, p) && Gathered(s, u, n, p)
    ensures u.net.up == s.net.up[2 * p + 1 := Chan(s.net.up[2 * p + 1].sent, [])]
  {
    LeafMeansLeaf(s, n, p);
    var l := CleanupUps(At(s, n, p));
    var v := CleansUps(s, n, p);
    LeafMeansLeaf(v, n, p);
    u := TakesOne(v, n, p, 2 * p + 1);
    ThenPerforms(s, n, p, [CleanUps(p)], v, l, [AcceptUp(p, 2 * p + 1)], u, TakeUp(l, 2 * p + 1));
    GatheredTwice(s, v, u, n, p);
    acts := [CleanUps(p)] + [AcceptUp(p, 2 * p + 1)];
  }

  lemma Gathers(s: System, n: nat, p: nat) returns (acts: seq<Action>, u: System)
    requires Inv(s, n) && Checking(s, n, p) && !IsLeaf(p, n)
    requires forall c: nat | 0 < c < n && Parent(c) == p :: s.net.up[c].queue != []
    ensures Fits(s.nodes[p], s.net) && Performs(s, n, p, acts, u, Gathering(At(s, n, p)))
    ensures Inv(u, n) && Checking(u, n, p) && Gathered(s, u, n, p) && CleanupUps(At(s, n, p)).ok
    ensures forall c: nat | 0 < c < n && Parent(c) == p :: u.net.up[c] == Chan(s.net.up[c].sent, [])
  {
    var a, w := TakesLeft(s, n, p);
    var b;
    b, u := TakesRight(w, n, p, At(w, n, p));
    ThenPerforms(s, n, p, a, w, At(w, n, p), b, u, At(u, n, p));
    GatheredTwice(s, w, u, n, p);
    acts := a + b;
  }

  // ---------------------------------------------------------------- the end of the call

  /** What the whole call computes when the sweep is full. */
  lemma UpCallComputes(l: Process, n: nat)
    requires Fits(l.node, l.net) && !Leaf(l.node) && n != 1 && l.node.terminate != 1 && l.ok
    requires CleanupUps(l).ok && Gathering(l).ok && Fits(Gathering(l).node, Gathering(l).net)
    requires SweepFull(Gathering(l).node)
    requires Root(l.node) ==> GlobalCount(Gathering(l).node) == 0
    ensures CheckImpl(l, n, UP).0 == FinishSweep(Gathering(l))
  {
  }

  lemma FinishRecords(u: System, n: nat, p: nat)
    requires Inv(u, n) && p < n && u.rec[p] == 0 && u.sweep == 1 && Enabled(u, n, Finish(p))
    requires p == 0 ==> GlobalCount(u.nodes[0]) == 0
    ensures var t := Step(u, n, Finish(p));
            && Inv(t, n) && t.rec == u.rec[p := 1] && t.value == u.value[p := Share(u, n, p)] && t.sweep == u.sweep
            && SameTraffic(u, t, n) && t.leafEarly == u.leafEarly
            && t.mode == (if p == 0 then u.mode[0 := Waiting] else u.mode)
            && t.net.down == u.net.down
            && (forall q | 0 <= q < n && q != p :: t.nodes[q].localSweep == u.nodes[q].localSweep)
            && (forall c: nat | 0 < c < n && c != p :: t.net.up[c] == u.net.up[c])
            && (p > 0 ==> Received(t.net.up[p]) == Received(u.net.up[p]))
  {
    FullAccumulation(u, n, p);
    FinishEffect(u, n, p);
    FinishCounts(u, n, p);
    FinishKeepsInv(u, n, p);
  }

  /** A call of an inner process whose children have all recorded. */
  lemma FinishCall(s: System, n: nat, p: nat) returns (acts: seq<Action>, u: System)
    requires Recording(s, n) && p < n && !IsLeaf(p, n) && s.rec[p] == 0
    requires ChildrenDone(s, n, p)
    ensures Checking(s, n, p) && Inv(u, n) && Enabled(u, n, Finish(p)) && Gathered(s, u, n, p)
    ensures forall c: nat | 0 < c < n && Parent(c) == p :: Received(u.net.up[c]) == 1
    ensures Fits(s.nodes[p], s.net)
    ensures p == 0 ==> s.nodes[0].terminate != 1
    ensures p > 0 || GlobalCount(u.nodes[0]) == 0 ==>
              Performs(s, n, p, acts, Step(u, n, Finish(p)), CheckImpl(At(s, n, p), n, UP).0)
  {
    AllChecking(s, n);
    LeafMeansLeaf(s, n, p);
    ChildrenWait(s, n, p);
    var a;
    a, u := Gathers(s, n, p);
    TakenMeansFull(u, n, p);
    acts := a + [Finish(p)];
    if p > 0 || GlobalCount(u.nodes[0]) == 0 {
      var l := At(s, n, p);
      UpCallComputes(l, n);
      PerformsOne(u, n, p, Finish(p), FinishSweep(Gathering(l)));
      ThenPerforms(s, n, p, a, u, Gathering(l), [Finish(p)], Step(u, n, Finish(p)), FinishSweep(Gathering(l)));
    }
  }

  lemma RecordInner(s: System, n: nat, p: nat) returns (acts: seq<Action>, t: System)
    requires Recording(s, n) && 0 < p < n && !IsLeaf(p, n) && s.rec[p] == 0
    requires ChildrenDone(s, n, p)
    ensures Checking(s, n, p) && Fits(s.nodes[p], s.net)
    ensures Performs(s, n, p, acts, t, CheckImpl(At(s, n, p), n, UP).0)
    ensures Recording(t, n) && HasRecorded(s, t, n, p)
  {
    var u;
    acts, u := FinishCall(s, n, p);
    t := Step(u, n, Finish(p));
    FinishRecords(u, n, p);
    GatheredThenRecorded(s, u, t, n, p);
  }

  lemma GatheredThenRecorded(s: System, u: System, t: System, n: nat, p: nat)
    requires Recording(s, n) && Inv(t, n) && Shape(u, n) && 0 < p < n && s.rec[p] == 0 && Gathered(s, u, n, p)
    requires forall c: nat | 0 < c < n && Parent(c) == p :: Received(u.net.up[c]) == 1
    requires t.rec == u.rec[p := 1] && t.value == u.value[p := Share(u, n, p)] && t.sweep == u.sweep
    requires SameTraffic(u, t, n) && t.leafEarly == u.leafEarly && t.mode == u.mode && t.net.down == u.net.down
    requires forall q | 0 <= q < n && q != p :: t.nodes[q].localSweep == u.nodes[q].localSweep
    requires forall c: nat | 0 < c < n && c != p :: t.net.up[c] == u.net.up[c]
    requires Received(t.net.up[p]) == Received(u.net.up[p])
    ensures Recording(t, n) && HasRecorded(s, t, n, p)
  {
  }

  // ---------------------------------------------------------------- whole subtrees record

  /** A whole call of p that leads from s to t. */
  ghost predicate CallStep(n: nat, s: System, p: nat, see: Probes, acts: seq<Action>, t: System) {
    && Inv(s, n) && Checking(s, n, p) && Fits(s.nodes[p], s.net)
    && Performs(s, n, p, acts, t, CheckImpl(At(s, n, p), n, see).0) && t.mode[p] != AtBarrier
  }

  ghost predicate ClosedUnderCalls(n: nat, good: iset<System>) {
    forall s, p, see, acts, t | s in good && CallStep(n, s, p, see, acts, t) :: t in good
  }

  ghost function AllBuilt(n: nat, active: seq<bool>, allowed: (nat, nat) -> bool): iset<System> {
    iset s: System | Built(n, active, allowed, s)
  }

  lemma BuiltIsClosed(n: nat, active: seq<bool>, allowed: (nat, nat) -> bool)
    ensures ClosedUnderCalls(n, AllBuilt(n, active, allowed))
  {
    forall s, p, see, acts, t | s in AllBuilt(n, active, allowed) && CallStep(n, s, p, see, acts, t)
      ensures t in AllBuilt(n, active, allowed)
    {
      CallBuilds(n, active, allowed, s, p, see, acts, t);
    }
  }

  lemma RecordOne(n: nat, good: iset<System>, s: System, p: nat, f: seq<int>)
    returns (t: System)
    requires ClosedUnderCalls(n, good) && s in good && Recording(s, n) && CountsAs(s, n, f)
    requires 0 < p < n && s.rec[p] == 0
    requires ChildrenDone(s, n, p)
    ensures t in good && Recording(t, n) && CountsAs(t, n, f) && Calm(s, t, n)
    ensures t.rec == s.rec[p := 1]
  {
    var acts;
    if IsLeaf(p, n) {
      acts, t := RecordLeaf(s, n, p);
      assert CallStep(n, s, p, DOWN, acts, t);
    } else {
      acts, t := RecordInner(s, n, p);
      assert CallStep(n, s, p, UP, acts, t);
    }
    RecordedCounts(s, t, n, p, f);
  }

  /** The processes before p, and keep, have recorded as much as before. */
  predicate Kept(s: System, t: System, n: nat, p: nat, keep: nat)
    requires Shape(s, n) && Shape(t, n) && keep < n
  {
    t.rec[keep] == s.rec[keep] && forall j: nat | j < p && j < n :: t.rec[j] == s.rec[j]
  }

  /** And p has recorded. */
  predicate SubtreeRecorded(s: System, t: System, n: nat, p: nat, keep: nat)
    requires Shape(s, n) && Shape(t, n) && keep < n
  {
    (p < n ==> t.rec[p] == 1) && Kept(s, t, n, p, keep)
  }

  lemma RecsAreBits(s: System, n: nat, p: nat)
    requires Recording(s, n) && p < n
    ensures s.rec[p] == 0 || s.rec[p] == 1
  {
    OneSweepAtATime(s, n, p);
  }

  /** The subtree of p records, from its leaves up; keep is not in it. */
  lemma {:induction false} RecordSubtree(n: nat, good: iset<System>, s: System, p: nat,
                                         f: seq<int>, keep: nat)
    returns (t: System)
    requires ClosedUnderCalls(n, good) && s in good && Recording(s, n) && CountsAs(s, n, f) && 0 < p
    requires keep < n && !IsAncestor(p, keep)
    ensures t in good && Recording(t, n) && CountsAs(t, n, f) && Calm(s, t, n)
    ensures SubtreeRecorded(s, t, n, p, keep)
    decreases if p < n then n - p else 0, 1
  {
    if p < n && s.rec[p] == 0 {
      AncestorSplits(p, keep);
      t := RecordInside(n, good, s, p, f, keep);
    } else {
      if p < n {
        RecsAreBits(s, n, p);
      }
      t := s;
    }
  }

  lemma {:induction false} RecordInside(n: nat, good: iset<System>, s: System, p: nat,
                                        f: seq<int>, keep: nat)
    returns (t: System)
    requires ClosedUnderCalls(n, good) && s in good && Recording(s, n) && CountsAs(s, n, f)
    requires 0 < p < n && s.rec[p] == 0
    requires keep < n && keep != p && !IsAncestor(2 * p + 1, keep) && !IsAncestor(2 * p + 2, keep)
    ensures t in good && Recording(t, n) && CountsAs(t, n, f) && Calm(s, t, n)
    ensures SubtreeRecorded(s, t, n, p, keep)
    decreases n - p, 0
  {
    var a := RecordSubtree(n, good, s, 2 * p + 1, f, keep);
    var b := RecordSubtree(n, good, a, 2 * p + 2, f, keep);
    ChildrenRecorded(s, a, b, n, p, keep);
    t := RecordParent(n, good, s, b, p, f, keep);
  }

  lemma ChildrenRecorded(s: System, a: System, b: System, n: nat, p: nat, keep: nat)
    requires Shape(s, n) && Shape(a, n) && Shape(b, n) && p < n && keep < n
    requires SubtreeRecorded(s, a, n, 2 * p + 1, keep) && SubtreeRecorded(a, b, n, 2 * p + 2, keep)
    requires Calm(s, a, n) && Calm(a, b, n)
    ensures ChildrenDone(b, n, p) && Kept(s, b, n, p, keep) && b.rec[p] == s.rec[p] && Calm(s, b, n)
  {
    CalmTwice(s, a, b, n);
  }

  lemma RecordParent(n: nat, good: iset<System>, s: System, b: System, p: nat, f: seq<int>, keep: nat)
    returns (t: System)
    requires Shape(s, n) && ClosedUnderCalls(n, good) && b in good && Recording(b, n) && CountsAs(b, n, f) && 0 < p < n
    requires ChildrenDone(b, n, p) && p != keep < n && Kept(s, b, n, p, keep) && b.rec[p] == 0 && Calm(s, b, n)
    ensures t in good && Recording(t, n) && CountsAs(t, n, f) && Calm(s, t, n)
    ensures SubtreeRecorded(s, t, n, p, keep)
  {
    t := RecordOne(n, good, b, p, f);
    CalmTwice(s, b, t, n);
  }

  lemma CalmTwice(s: System, a: System, b: System, n: nat)
    requires Shape(s, n) && Shape(a, n) && Shape(b, n) && Calm(s, a, n) && Calm(a, b, n)
    ensures Calm(s, b, n)
  {
  }

  // ---------------------------------------------------------------- the messages

  /** The first message is on its way, and nobody works. */
  ghost predicate OneSent(s: System, n: nat, q: nat, p: nat)
    requires q < n && p < n
  {
    && Inv(s, n) && s.mail == [Regular(q, p, 0, 0)] && s.leafEarly == 0
    && (forall i | 0 <= i < n :: !s.active[i] && s.nodes[i].lastRegular == 0 && s.nodes[i].processed == 0
                                 && s.nodes[i].sends == if i == q then 1 else 0)
  }

  function Only(n: nat, q: nat): seq<bool> {
    seq(n, i => i == q)
  }

  lemma FirstSend(n: nat, allowed: (nat, nat) -> bool, q: nat, p: nat) returns (s: System)
    requires n > 1 && q < n && p < n && q != p && allowed(q, p)
    ensures Built(n, Only(n, q), allowed, s) && Inv(s, n) && s.mode[0] == Running && s.mode[q] == Running
    ensures s == Init(n, Only(n, q)).(mail := [Regular(q, p, 0, 0)],
                                      nodes := Init(n, Only(n, q)).nodes[q := CountSend(Fresh(q, n))])
  {
    var s0 := Init(n, Only(n, q));
    InitBuilt(n, Only(n, q), allowed);
    TrafficBuilds(n, Only(n, q), allowed, s0, Post(q, p, 0));
    s := Step(s0, n, Send(q, p, 0));
    ReachedInv(n, Only(n, q), allowed, s);
  }

  lemma SendOne(n: nat, allowed: (nat, nat) -> bool, q: nat, p: nat) returns (s: System)
    requires n > 1 && q < n && p < n && q != p && allowed(q, p)
    ensures Built(n, Only(n, q), allowed, s) && OneSent(s, n, q, p) && Descending(s, n, 0)
  {
    var u := FirstSend(n, allowed, q, p);
    TrafficBuilds(n, Only(n, q), allowed, u, Settle(q));
    s := Step(u, n, Rest(q));
    ReachedInv(n, Only(n, q), allowed, s);
    assert s.active == Only(n, q)[q := false];
  }

  function Before(n: nat, q: nat): seq<int> {
    seq(n, i => if i == q then 1 else 0)
  }

  lemma SentCounts(s: System, n: nat, q: nat, p: nat)
    requires q < n && p < n && OneSent(s, n, q, p) && Recording(s, n) && forall i | 0 <= i < n :: s.rec[i] == 0
    ensures CountsAs(s, n, Before(n, q))
  {
  }

  /** p has recorded, r has not, and the message is still on its way. */
  ghost predicate Ripe(s: System, n: nat, q: nat, p: nat, r: nat)
    requires q < n && p < n && r < n
  {
    OneSent(s, n, q, p) && Recording(s, n) && CountsAs(s, n, Before(n, q)) && s.rec[p] == 1 && s.rec[r] == 0
  }

  lemma SweepIsDown(n: nat, allowed: (nat, nat) -> bool, q: nat, p: nat) returns (s: System)
    requires n > 1 && q < n && p < n && q != p && allowed(q, p)
    ensures Built(n, Only(n, q), allowed, s) && OneSent(s, n, q, p) && Recording(s, n)
    ensures CountsAs(s, n, Before(n, q)) && forall i | 0 <= i < n :: s.rec[i] == 0
  {
    var a := SendOne(n, allowed, q, p);
    s := DescendAll(n, Only(n, q), allowed, a, 0);
    DescendedRecording(s, n);
    SentCounts(s, n, q, p);
  }

  lemma Ripens(n: nat, allowed: (nat, nat) -> bool, q: nat, p: nat, r: nat) returns (s: System)
    requires n > 1 && Unsafe(n, allowed, q, p, r)
    ensures Built(n, Only(n, q), allowed, s) && Ripe(s, n, q, p, r)
  {
    NotRoot(n, allowed, q, p, r);
    var b := SweepIsDown(n, allowed, q, p);
    BuiltIsClosed(n, Only(n, q), allowed);
    s := RecordSubtree(n, AllBuilt(n, Only(n, q), allowed), b, p, Before(n, q), r);
    BecomesRipe(b, s, n, q, p, r);
  }

  lemma NotRoot(n: nat, allowed: (nat, nat) -> bool, q: nat, p: nat, r: nat)
    requires Unsafe(n, allowed, q, p, r)
    ensures p > 0
  {
    RootIsAncestor(r);
  }

  lemma BecomesRipe(b: System, s: System, n: nat, q: nat, p: nat, r: nat)
    requires q < n && p < n && r < n && !IsAncestor(p, r) && OneSent(b, n, q, p) && b.rec[r] == 0
    requires Recording(s, n) && CountsAs(s, n, Before(n, q)) && Calm(b, s, n) && SubtreeRecorded(b, s, n, p, r)
    ensures Ripe(s, n, q, p, r)
  {
    StaysOneSent(b, s, n, q, p);
  }

  lemma StaysOneSent(s: System, t: System, n: nat, q: nat, p: nat)
    requires q < n && p < n && OneSent(s, n, q, p) && Inv(t, n) && Calm(s, t, n)
    ensures OneSent(t, n, q, p)
  {
  }

  /** The detection of the root does not change. */
  predicate SameSweep(s: System, t: System) {
    t.net == s.net && t.rec == s.rec && t.value == s.value && t.sweep == s.sweep && t.mode == s.mode
  }

  lemma SameRecording(s: System, t: System, n: nat)
    requires Recording(s, n) && Inv(t, n) && SameSweep(s, t)
    requires forall p | 0 <= p < n && s.rec[p] == 0 :: !t.active[p]
    ensures Recording(t, n)
  {
  }

  /** p is woken by the first message, and its own is on its way. */
  lemma Wakes(n: nat, active: seq<bool>, allowed: (nat, nat) -> bool, s: System, q: nat, p: nat, r: nat)
    returns (t: System)
    requires Built(n, active, allowed, s) && Unsafe(n, allowed, q, p, r) && Ripe(s, n, q, p, r)
    ensures Built(n, active, allowed, t) && Inv(t, n) && SameSweep(s, t) && t.leafEarly == 0
    ensures t.mail == [Regular(p, r, s.nodes[p].localSweep, 1)] && t.active == s.active[p := true]
    ensures t.nodes == s.nodes[p := CountSend(SeeStamp(CountProcessed(s.nodes[p]), 0))]
  {
    AllChecking(s, n);
    TrafficBuilds(n, active, allowed, s, Take(0));
    var u := Step(s, n, Receive(0));
    WakesEffect(s, n, q, p, r);
    TrafficBuilds(n, active, allowed, u, Post(p, r, s.nodes[p].localSweep));
    t := Step(u, n, Send(p, r, s.nodes[p].localSweep));
    ReachedInv(n, active, allowed, t);
    PostEffect(u, n, p, r, s.nodes[p].localSweep);
  }

  lemma PostEffect(u: System, n: nat, p: nat, r: nat, stamp: nat)
    requires Shape(u, n) && Enabled(u, n, Send(p, r, stamp)) && u.mail == []
    ensures var t := Step(u, n, Send(p, r, stamp));
            && SameSweep(u, t) && t.leafEarly == u.leafEarly && t.active == u.active
            && t.mail == [Regular(p, r, stamp, u.rec[p])] && t.nodes == u.nodes[p := CountSend(u.nodes[p])]
  {
  }

  lemma WakesEffect(s: System, n: nat, q: nat, p: nat, r: nat)
    requires q < n && p < n && r < n && p != r && Ripe(s, n, q, p, r) && Enabled(s, n, Receive(0))
    requires s.mode[p] == Running
    ensures var u := Step(s, n, Receive(0));
            && SameSweep(s, u) && u.leafEarly == 0 && u.mail == [] && u.active == s.active[p := true]
            && u.nodes == s.nodes[p := SeeStamp(CountProcessed(s.nodes[p]), 0)]
            && Enabled(u, n, Send(p, r, s.nodes[p].localSweep))
  {
  }

  /** p's message reaches r before r's record, and r rests. */
  lemma Arrives(n: nat, active: seq<bool>, allowed: (nat, nat) -> bool, s: System, p: nat, r: nat, stamp: nat)
    returns (t: System)
    requires Built(n, active, allowed, s) && Inv(s, n) && s.mode[0] == Running && p < n && r < n && p != r
    requires s.mail == [Regular(p, r, stamp, 1)] && s.rec[r] == 0 && (IsLeaf(p, n) || IsLeaf(r, n)) && !s.active[r]
    ensures Built(n, active, allowed, t) && Inv(t, n) && SameSweep(s, t) && t.leafEarly == s.leafEarly + 1
    ensures t.mail == [] && t.active == s.active
    ensures t.nodes == s.nodes[r := SeeStamp(CountProcessed(s.nodes[r]), stamp)]
  {
    AllChecking(s, n);
    TrafficBuilds(n, active, allowed, s, Take(0));
    var u := Step(s, n, Receive(0));
    TrafficBuilds(n, active, allowed, u, Settle(r));
    t := Step(u, n, Rest(r));
    ReachedInv(n, active, allowed, t);
    assert t.active == s.active;
  }

  /** After the exchange p works, and r counts one less. */
  ghost predicate Exchanged(s: System, n: nat, q: nat, p: nat, r: nat)
    requires q < n && p < n && r < n
  {
    && Recording(s, n) && CountsAs(s, n, Before(n, q)[r := Before(n, q)[r] - 1])
    && s.mail == [] && s.leafEarly == 1 && s.rec[p] == 1
    && forall i | 0 <= i < n :: s.active[i] <==> i == p
  }

  lemma Exchanges(n: nat, active: seq<bool>, allowed: (nat, nat) -> bool, s: System, q: nat, p: nat, r: nat)
    returns (t: System)
    requires Built(n, active, allowed, s) && Unsafe(n, allowed, q, p, r) && Ripe(s, n, q, p, r)
    ensures Built(n, active, allowed, t) && Exchanged(t, n, q, p, r)
  {
    var u := Wakes(n, active, allowed, s, q, p, r);
    t := Arrives(n, active, allowed, u, p, r, s.nodes[p].localSweep);
    SameRecording(s, t, n);
    ExchangedCounts(s, t, n, q, p, r);
  }

  /** Only r's share changes: r is a leaf, or p is and its stamp is 0. */
  lemma ExchangedShare(s: System, t: System, n: nat, q: nat, p: nat, r: nat, i: nat)
    requires q < n && p < n && r < n && p != r && Ripe(s, n, q, p, r) && (IsLeaf(p, n) || IsLeaf(r, n)) && i < n
    requires Shape(t, n) && SameSweep(s, t) && s.rec[i] != 1
    requires t.nodes == s.nodes[p := CountSend(SeeStamp(CountProcessed(s.nodes[p]), 0))]
                               [r := SeeStamp(CountProcessed(s.nodes[r]), s.nodes[p].localSweep)]
    ensures Share(t, n, i) == Share(s, n, i) - if i == r then 1 else 0
  {
    if IsLeaf(p, n) {
      StampIsOld(s, n, p);
    }
  }

  lemma StampIsOld(s: System, n: nat, p: nat)
    requires Recording(s, n) && p < n && IsLeaf(p, n)
    ensures s.nodes[p].localSweep == 0
  {
    AllChecking(s, n);
    assert NodeOk(s, n, p);
  }

  lemma ExchangedCounts(s: System, t: System, n: nat, q: nat, p: nat, r: nat)
    requires q < n && p < n && r < n && p != r && Ripe(s, n, q, p, r) && (IsLeaf(p, n) || IsLeaf(r, n))
    requires Shape(t, n) && SameSweep(s, t)
    requires t.nodes == s.nodes[p := CountSend(SeeStamp(CountProcessed(s.nodes[p]), 0))]
                               [r := SeeStamp(CountProcessed(s.nodes[r]), s.nodes[p].localSweep)]
    ensures CountsAs(t, n, Before(n, q)[r := Before(n, q)[r] - 1])
  {
    var f := Before(n, q)[r := Before(n, q)[r] - 1];
    forall i: nat | i < n ensures f[i] == if t.rec[i] == 1 then t.value[i] else Share(t, n, i) {
      if s.rec[i] != 1 {
        ExchangedShare(s, t, n, q, p, r, i);
      }
    }
  }

  // ---------------------------------------------------------------- the decision

  /** p, which works, rests. */
  lemma RestsToo(n: nat, active: seq<bool>, allowed: (nat, nat) -> bool, s: System, q: nat, p: nat, r: nat)
    returns (t: System)
    requires Built(n, active, allowed, s) && q < n && p < n && r < n && Exchanged(s, n, q, p, r)
    ensures Built(n, active, allowed, t) && Recording(t, n) && t.mail == [] && t.leafEarly == 1
    ensures CountsAs(t, n, Before(n, q)[r := Before(n, q)[r] - 1]) && forall i | 0 <= i < n :: !t.active[i]
  {
    AllChecking(s, n);
    TrafficBuilds(n, active, allowed, s, Settle(p));
    t := Step(s, n, Rest(p));
    ReachedInv(n, active, allowed, t);
    SameRecording(s, t, n);
  }

  function Abses(v: seq<int>): (r: seq<int>)
    ensures |r| == |v|
  {
    seq(|v|, i requires 0 <= i < |v| => Abs(v[i]))
  }

  lemma {:induction false} WeightIsTreeSum(v: seq<int>, p: nat)
    ensures Weight(v, p) <= TreeSum(Abses(v), p)
    decreases if p < |v| then |v| - p else 0
  {
    if p < |v| {
      WeightIsTreeSum(v, 2 * p + 1);
      WeightIsTreeSum(v, 2 * p + 2);
    }
  }

  /** The share of the sender of the first message and that of the receiver of the second cancel. */
  lemma Cancels(n: nat, q: nat, r: nat)
    requires 0 < n && q < n && r < n
    ensures Saturating(Before(n, q)[r := Before(n, q)[r] - 1], 0) == 0
  {
    var zeros: seq<int> := seq(n, _ => 0);
    var f := Before(n, q)[r := Before(n, q)[r] - 1];
    SumZero(zeros);
    assert Before(n, q) == zeros[q := 1];
    SumUpdate(zeros, q, 1);
    SumUpdate(Before(n, q), r, Before(n, q)[r] - 1);
    SmallAbses(n, q, r);
    WeightIsTreeSum(f, 0);
    TreeSumIsSum(Abses(f));
    SaturatingSumInRange(f, 0);
    TreeSumIsSum(f);
  }

  lemma SmallAbses(n: nat, q: nat, r: nat)
    requires 0 < n && q < n && r < n
    ensures Sum(Abses(Before(n, q)[r := Before(n, q)[r] - 1])) <= 2
  {
    var zeros: seq<int> := seq(n, _ => 0);
    var f := Before(n, q)[r := Before(n, q)[r] - 1];
    SumZero(zeros);
    if q == r {
      assert Abses(f) == zeros;
    } else {
      assert Abses(f) == zeros[q := 1][r := 1];
      SumUpdate(zeros, q, 1);
      SumUpdate(zeros[q := 1], r, 1);
    }
  }

  /** All but the root record, and then the root's call decides. */
  lemma Decides(n: nat, active: seq<bool>, allowed: (nat, nat) -> bool, s: System, f: seq<int>) returns (t: System)
    requires Built(n, active, allowed, s) && Recording(s, n) && CountsAs(s, n, f) && Saturating(f, 0) == 0
    ensures Built(n, active, allowed, t) && t.mode[0] == Waiting && Shape(t, n)
    ensures t.mail == s.mail && t.active == s.active && t.leafEarly == s.leafEarly
  {
    AncestorSplits(1, 0);
    AncestorSplits(2, 0);
    BuiltIsClosed(n, active, allowed);
    var a := RecordSubtree(n, AllBuilt(n, active, allowed), s, 1, f, 0);
    var b := RecordSubtree(n, AllBuilt(n, active, allowed), a, 2, f, 0);
    ChildrenRecorded(s, a, b, n, 0, 0);
    t := RootCall(n, active, allowed, b, f);
  }

  /** What the root adds up. */
  lemma RootTotalIsZero(b: System, u: System, n: nat, f: seq<int>)
    requires Recording(b, n) && CountsAs(b, n, f) && Saturating(f, 0) == 0 && ChildrenDone(b, n, 0)
    requires Inv(u, n) && Gathered(b, u, n, 0) && Enabled(u, n, Finish(0))
    ensures GlobalCount(u.nodes[0]) == 0
  {
    FinishTotal(u, n, 0);
    FinishEffect(u, n, 0);
    FullMeansAll(u, n, 0);
    FinishKeepsInv(u, n, 0);
    forall i: nat | 0 < i < n ensures u.rec[i] == 1 {
      OneSweepAtATime(Step(u, n, Finish(0)), n, i);
    }
    assert u.value[0 := LocalCount(u.nodes[0])] == f;
  }

  lemma RootCall(n: nat, active: seq<bool>, allowed: (nat, nat) -> bool, b: System, f: seq<int>) returns (t: System)
    requires Built(n, active, allowed, b) && Recording(b, n) && CountsAs(b, n, f) && Saturating(f, 0) == 0
    requires ChildrenDone(b, n, 0)
    ensures Built(n, active, allowed, t) && t.mode[0] == Waiting && Shape(t, n)
    ensures t.mail == b.mail && t.active == b.active && t.leafEarly == b.leafEarly
  {
    var acts, u := FinishCall(b, n, 0);
    RootTotalIsZero(b, u, n, f);
    FinishRecords(u, n, 0);
    t := Step(u, n, Finish(0));
    CallBuilds(n, active, allowed, b, 0, UP, acts, t);
  }

  // ---------------------------------------------------------------- what runs of the code do

  /** The root decides while p works. */
  lemma UnsafeIsWrong(n: nat, allowed: (nat, nat) -> bool, q: nat, p: nat, r: nat) returns (s: System)
    requires n > 1 && Unsafe(n, allowed, q, p, r)
    ensures Built(n, Only(n, q), allowed, s) && s.mode[0] == Waiting && s.active[p] && s.leafEarly == 1
  {
    var a := Ripens(n, allowed, q, p, r);
    var b := Exchanges(n, Only(n, q), allowed, a, q, p, r);
    Cancels(n, q, r);
    s := Decides(n, Only(n, q), allowed, b, Before(n, q)[r := Before(n, q)[r] - 1]);
  }

  /** The root has detected quiescence, or some process has. */
  predicate Detected(w: World) {
    exists p | 0 <= p < |w.nodes| && p < |w.done| :: w.done[p] || w.nodes[p].terminate == 1
  }

  predicate QuietWorld(w: World) {
    w.mail == [] && forall p | 0 <= p < |w.active| :: !w.active[p]
  }

  /** A run of the code in which the detection is wrong. */
  ghost predicate Wrong(n: nat, active: seq<bool>, allowed: (nat, nat) -> bool, events: seq<Event>) {
    && |active| == n && Along(events, allowed) && Events(n, active, events).Some?
    && Detected(Events(n, active, events).value) && !QuietWorld(Events(n, active, events).value)
  }

  /** Detection does not imply quiescence for every run of the code, with any number of processes above
      one: here the root detects it while a leaf is still active. */
  lemma DetectionCanBeWrong(n: nat) returns (active: seq<bool>, events: seq<Event>)
    requires n > 1
    ensures |active| == n && Events(n, active, events).Some?
    ensures var w := Events(n, active, events).value;
            |w.nodes| == |w.active| == n && w.nodes[0].terminate == 1 && w.active[n - 1]
  {
    var any := (_, _) => true;
    AncestorSplits(n - 1, 0);
    var s := UnsafeIsWrong(n, any, 0, n - 1, 0);
    active := Only(n, 0);
    events :| Along(events, any) && Events(n, active, events) == Some(WorldOf(s));
    ReachedInv(n, active, any, s);
    ExistsAlways(s, n, 0);
  }

  /** Nor does an early message of a leaf imply that it is wrong: here the process rests before the root
      decides. */
  lemma DetectionCanBeRightAnyway(n: nat) returns (active: seq<bool>, events: seq<Event>, s: System)
    requires n > 1
    ensures |active| == n && Events(n, active, events) == Some(WorldOf(s)) && Reached(n, active, (_, _) => true, s)
    ensures s.mode[0] != Running && Quiet(s) && s.leafEarly == 1
  {
    var any := (_, _) => true;
    active := Only(n, 0);
    AncestorSplits(n - 1, 0);
    var a := Ripens(n, any, 0, n - 1, 0);
    var b := Exchanges(n, active, any, a, 0, n - 1, 0);
    var c := RestsToo(n, active, any, b, 0, n - 1, 0);
    Cancels(n, 0, 0);
    s := Decides(n, active, any, c, Before(n, 0)[0 := Before(n, 0)[0] - 1]);
    events :| Along(events, any) && Events(n, active, events) == Some(WorldOf(s));
  }

  lemma SafeIsRight(n: nat, active: seq<bool>, allowed: (nat, nat) -> bool, events: seq<Event>)
    requires n > 1 && SafePattern(n, allowed)
    ensures !Wrong(n, active, allowed, events)
  {
    if Wrong(n, active, allowed, events) {
      var s := EventsAreRun(n, active, allowed, events);
      var run :| After(n, active, run) == Some(s) && Follows(run, allowed);
      ReachedInv(n, active, allowed, s);
      var p :| 0 <= p < n && (AtBarriers(s.mode)[p] || s.nodes[p].terminate == 1);
      ExistsAlways(s, n, p);
      PatternIsSafe(n, active, run, allowed);
    }
  }

  lemma UnsafeHasWrongRun(n: nat, allowed: (nat, nat) -> bool, q: nat, p: nat, r: nat) returns (events: seq<Event>)
    requires n > 1 && Unsafe(n, allowed, q, p, r)
    ensures Wrong(n, Only(n, q), allowed, events)
  {
    var s := UnsafeIsWrong(n, allowed, q, p, r);
    events :| Along(events, allowed) && Events(n, Only(n, q), events) == Some(WorldOf(s));
    ReachedInv(n, Only(n, q), allowed, s);
    ExistsAlways(s, n, 0);
  }

  /** Exactly which patterns of regular messages make the detection right in every run of the code:
      those without a process that one message can wake after its record and whose own message, to or
      from a leaf, can then be early. */
  lemma PatternDecides(n: nat, allowed: (nat, nat) -> bool)
    requires n > 1
    ensures SafePattern(n, allowed) <==> forall active, events :: !Wrong(n, active, allowed, events)
  {
    if SafePattern(n, allowed) {
      forall active, events ensures !Wrong(n, active, allowed, events) {
        SafeIsRight(n, active, allowed, events);
      }
    } else {
      var q: nat, p: nat, r: nat :| Unsafe(n, allowed, q, p, r);
      var events := UnsafeHasWrongRun(n, allowed, q, p, r);
    }
  }
}

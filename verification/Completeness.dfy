/** The other direction of the detection: a quiet system is detected. The sweep that is in progress when
    the system becomes quiet ends, and the next one detects it. */
module Completeness {
  import opened Wrappers
  import opened ProcessTree
  import opened GlobalQd
  import opened SweepSystem
  import opened SweepInvariant
  import opened Termination
  import opened CheckRefinement

  // ---------------------------------------------------------------- the steps of a check

  /** The steps of a check leave the traffic alone. */
  predicate SameTraffic(s: System, s': System, n: nat)
    requires Shape(s, n) && Shape(s', n)
  {
    s'.mail == s.mail && s'.active == s.active && SameCounters(s, s', n)
  }

  lemma StartCountsSame(s: System, n: nat)
    requires Inv(s, n) && Enabled(s, n, Start)
    ensures SameTraffic(s, Step(s, n, Start), n)
  {
    LeafMeansLeaf(s, n, 0);
  }

  lemma AcceptDownCountsSame(s: System, n: nat, p: nat)
    requires Inv(s, n) && Enabled(s, n, AcceptDown(p))
    ensures SameTraffic(s, Step(s, n, AcceptDown(p)), n)
  {
    LeafMeansLeaf(s, n, p);
  }

  lemma AcceptUpCountsSame(s: System, n: nat, p: nat, c: nat)
    requires Inv(s, n) && Enabled(s, n, AcceptUp(p, c))
    ensures SameTraffic(s, Step(s, n, AcceptUp(p, c)), n)
  {
    AcceptUpTakes(s, n, p, c);
  }

  lemma CleanCountsSame(s: System, n: nat, a: Action)
    requires Inv(s, n) && Enabled(s, n, a) && (a.CleanDowns? || a.CleanUps?)
    ensures SameTraffic(s, Step(s, n, a), n)
  {
    CleanEffect(s, n, a);
  }

  lemma SameCounts(s: System, n: nat, a: Action)
    requires Inv(s, n) && Enabled(s, n, a) && Checks(a)
    ensures SameTraffic(s, Step(s, n, a), n)
  {
    match a
    case Start => StartCountsSame(s, n);
    case AcceptDown(p) => AcceptDownCountsSame(s, n, p);
    case AcceptUp(p, c) => AcceptUpCountsSame(s, n, p, c);
    case Finish(p) => FinishCounts(s, n, p);
    case _ => CleanCountsSame(s, n, a);
  }

  // ---------------------------------------------------------------- stamps

  /** No stamp is from the future. */
  predicate StampsOk(s: System, n: nat)
    requires Shape(s, n)
  {
    && (forall m | m in s.mail :: m.stamp <= s.sweep)
    && (forall p | 0 <= p < n :: s.nodes[p].lastRegular <= s.sweep)
  }

  lemma TrafficKeepsStamps(s: System, n: nat, a: Action)
    requires Inv(s, n) && StampsOk(s, n) && Enabled(s, n, a) && (a.Send? || a.Receive? || a.Rest?)
    ensures StampsOk(Step(s, n, a), n)
  {
    if a.Send? {
      OneSweepAtATime(s, n, a.p);
      assert NodeOk(s, n, a.p);
    }
    if a.Receive? {
      assert s.mail[a.index] in s.mail;
    }
  }

  lemma CheckKeepsStamps(s: System, n: nat, a: Action)
    requires Inv(s, n) && StampsOk(s, n) && Enabled(s, n, a) && Checks(a)
    ensures StampsOk(Step(s, n, a), n)
  {
    SameCounts(s, n, a);
    if a.Start? {
      assert NodeOk(s, n, 0);
      LeafMeansLeaf(s, n, 0);
    } else if a.Finish? {
      FinishEffect(s, n, a.p);
    }
  }

  lemma ShutdownKeepsStamps(s: System, n: nat, a: Action)
    requires Inv(s, n) && StampsOk(s, n) && Enabled(s, n, a) && (a.AcceptTerm? || a.Reset?)
    ensures StampsOk(Step(s, n, a), n)
  {
    if a.Reset? {
      ResetEffect(s, n, a.p);
    }
  }

  lemma {:induction false} RunsKeepStamps(n: nat, active: seq<bool>, run: seq<Action>)
    requires |active| == n > 1 && After(n, active, run).Some?
    ensures StampsOk(After(n, active, run).value, n)
  {
    if run != [] {
      var before, a := run[..|run| - 1], run[|run| - 1];
      RunsKeepStamps(n, active, before);
      RunsKeepInv(n, active, before);
      var s := After(n, active, before).value;
      if a.Send? || a.Receive? || a.Rest? {
        TrafficKeepsStamps(s, n, a);
      } else if Checks(a) {
        CheckKeepsStamps(s, n, a);
      } else {
        ShutdownKeepsStamps(s, n, a);
      }
    }
  }

  // ---------------------------------------------------------------- progress of a sweep

  /** How many steps of a run advance the detection. */
  function Work(acts: seq<Action>): nat {
    if acts == [] then 0 else (if Advances(acts[0]) then 1 else 0) + Work(acts[1..])
  }

  /** How far the sweep is from having passed p: on the way down, on the way up, and in p itself. */
  function Lag(s: System, n: nat, p: nat): int
    requires Shape(s, n) && p < n
  {
    (if p > 0 then (s.sweep - Begun(s, n, p)) + (s.sweep - Received(s.net.up[p])) else 0)
    + if IsLeaf(p, n) then 0 else s.sweep - s.rec[p]
  }

  function Lags(s: System, n: nat): seq<int>
    requires Shape(s, n)
  {
    seq(n, p requires 0 <= p < n => Lag(s, n, p))
  }

  function Remaining(s: System, n: nat): int
    requires Shape(s, n)
  {
    Sum(Lags(s, n))
  }

  lemma LagInRange(s: System, n: nat, p: nat)
    requires Inv(s, n) && p < n
    ensures 0 <= Lag(s, n, p) <= 3
    ensures s.sweep == s.rec[0] ==> Lag(s, n, p) == 0
  {
    OneSweepAtATime(s, n, p);
    if p > 0 {
      OneSweepAtATime(s, n, Parent(p));
      assert EdgeOk(s, n, p);
    }
  }

  lemma {:induction false} SumInRange(v: seq<int>, bound: int)
    requires forall i | 0 <= i < |v| :: 0 <= v[i] <= bound
    ensures 0 <= Sum(v) <= bound * |v|
  {
    if v != [] {
      SumInRange(v[..|v| - 1], bound);
      assert bound * |v| == bound * (|v| - 1) + bound;
    }
  }

  lemma RemainingInRange(s: System, n: nat)
    requires Inv(s, n)
    ensures 0 <= Remaining(s, n) <= 3 * n
    ensures s.sweep == s.rec[0] ==> Remaining(s, n) == 0
  {
    forall p | 0 <= p < n ensures 0 <= Lags(s, n)[p] <= 3 && (s.sweep == s.rec[0] ==> Lags(s, n)[p] == 0) {
      LagInRange(s, n, p);
    }
    SumInRange(Lags(s, n), 3);
    if s.sweep == s.rec[0] {
      SumZero(Lags(s, n));
    }
  }

  /** One step less to go, at process q. */
  lemma OneLess(s: System, s': System, n: nat, q: nat)
    requires Shape(s, n) && Shape(s', n) && q < n
    requires forall p | 0 <= p < n :: Lag(s', n, p) == Lag(s, n, p) - if p == q then 1 else 0
    ensures Remaining(s', n) == Remaining(s, n) - 1
  {
    var v := Lags(s, n);
    assert Lags(s', n) == v[q := v[q] - 1];
    SumUpdate(v, q, v[q] - 1);
  }

  lemma LeafAdvances(s: System, n: nat, p: nat)
    requires Inv(s, n) && Enabled(s, n, AcceptDown(p)) && IsLeaf(p, n)
    ensures Remaining(Step(s, n, AcceptDown(p)), n) == Remaining(s, n) - 1
  {
    DownArrives(s, n, p);
    LeafTakesDown(s, n, p);
    OneLess(s, Step(s, n, AcceptDown(p)), n, p);
  }

  lemma InnerAdvances(s: System, n: nat, p: nat)
    requires Inv(s, n) && Enabled(s, n, AcceptDown(p)) && !IsLeaf(p, n)
    ensures Remaining(Step(s, n, AcceptDown(p)), n) == Remaining(s, n) - 1
  {
    ForwardEffect(s, n, p);
    SpreadsOneLess(s, Step(s, n, AcceptDown(p)), n, p);
  }

  lemma SpreadsOneLess(s: System, s': System, n: nat, p: nat)
    requires Inv(s, n) && Shape(s', n) && 0 < p < n && Spreads(s, s', n, p)
    ensures Remaining(s', n) == Remaining(s, n) - 1
  {
    forall q | 0 <= q < n ensures Lag(s', n, q) == Lag(s, n, q) - if q == p then 1 else 0 {
    }
    OneLess(s, s', n, p);
  }

  lemma AcceptDownAdvances(s: System, n: nat, p: nat)
    requires Inv(s, n) && Enabled(s, n, AcceptDown(p))
    ensures Remaining(Step(s, n, AcceptDown(p)), n) == Remaining(s, n) - 1
  {
    if IsLeaf(p, n) {
      LeafAdvances(s, n, p);
    } else {
      InnerAdvances(s, n, p);
    }
  }

  lemma AcceptUpAdvances(s: System, n: nat, p: nat, c: nat)
    requires Inv(s, n) && Enabled(s, n, AcceptUp(p, c))
    ensures Remaining(Step(s, n, AcceptUp(p, c)), n) == Remaining(s, n) - 1
  {
    UpArrives(s, n, p, c);
    AcceptUpTakes(s, n, p, c);
    OneLess(s, Step(s, n, AcceptUp(p, c)), n, c);
  }

  lemma FinishAdvances(s: System, n: nat, p: nat)
    requires Inv(s, n) && Enabled(s, n, Finish(p))
    ensures Remaining(Step(s, n, Finish(p)), n) == Remaining(s, n) - 1
  {
    FullAccumulation(s, n, p);
    FinishEffect(s, n, p);
    OneLess(s, Step(s, n, Finish(p)), n, p);
  }

  // ---------------------------------------------------------------- a sweep that began in a quiet system

  /** What p recorded, or will record, in a sweep that began in a quiet system is its exact count. */
  predicate FreshAt(s: System, n: nat, p: nat)
    requires Shape(s, n) && p < n
  {
    if s.rec[p] == s.sweep then s.value[p] == s.nodes[p].sends - s.nodes[p].processed
    else IsLeaf(p, n) || s.nodes[p].lastRegular <= s.rec[p]
  }

  ghost predicate FreshSweep(s: System, n: nat)
    requires Shape(s, n)
  {
    s.sweep == s.rec[0] + 1 && forall p | 0 <= p < n :: FreshAt(s, n, p)
  }

  /** The counts of all processes together stay within an int64. */
  predicate NoOverflow(v: seq<int>) {
    Weight(v, 0) < INT64_MAX && forall p | 0 <= p < |v| :: v[p] != INT64_MAX
  }

  /** A system that is quiet and whose detection is still going on. */
  ghost predicate Undetected(s: System, n: nat) {
    && Inv(s, n) && Balanced(s, n) && StampsOk(s, n) && Quiet(s) && s.mode[0] == Running
    && NoOverflow(Outstanding(s, n))
  }

  /** Steps of the detection do not disturb a quiet system. */
  lemma StaysQuiet(s: System, n: nat, a: Action)
    requires Undetected(s, n) && Enabled(s, n, a) && Checks(a)
    ensures var s' := Step(s, n, a);
            && Quiet(s') && Outstanding(s', n) == Outstanding(s, n)
            && (s'.mode[0] == Running ==> Undetected(s', n))
  {
    StepKeepsInv(s, n, a);
    CheckKeepsStamps(s, n, a);
    UndecidedStepAccounted(s, n, a);
    SameCounts(s, n, a);
    assert Outstanding(Step(s, n, a), n) == Outstanding(s, n);
  }

  lemma StartIsFresh(s: System, n: nat)
    requires Inv(s, n) && StampsOk(s, n) && Enabled(s, n, Start)
    ensures s.sweep == s.rec[0] && FreshSweep(Step(s, n, Start), n)
  {
    var s' := Step(s, n, Start);
    assert NodeOk(s, n, 0);
    LeafMeansLeaf(s, n, 0);
    SameCounts(s, n, Start);
    forall p | 0 <= p < n ensures FreshAt(s', n, p) {
      OneSweepAtATime(s, n, p);
    }
  }

  lemma AcceptKeepsFresh(s: System, n: nat, a: Action)
    requires Inv(s, n) && FreshSweep(s, n) && Enabled(s, n, a) && (a.AcceptDown? || a.AcceptUp?)
    ensures FreshSweep(Step(s, n, a), n)
  {
    var s' := Step(s, n, a);
    SameCounts(s, n, a);
    if a.AcceptUp? {
      AcceptUpTakes(s, n, a.p, a.child);
    } else {
      DownArrives(s, n, a.p);
      OneSweepAtATime(s, n, Parent(a.p));
      if IsLeaf(a.p, n) {
        LeafTakesDown(s, n, a.p);
      } else {
        ForwardEffect(s, n, a.p);
      }
    }
    forall p | 0 <= p < n ensures FreshAt(s', n, p) {
      assert FreshAt(s, n, p);
    }
  }

  lemma FinishKeepsFresh(s: System, n: nat, p: nat)
    requires Inv(s, n) && FreshSweep(s, n) && Enabled(s, n, Finish(p))
    ensures forall q | 0 <= q < n :: FreshAt(Step(s, n, Finish(p)), n, q)
  {
    FinishEffect(s, n, p);
    FinishCounts(s, n, p);
    FullAccumulation(s, n, p);
    FullMeansAll(s, n, p);
    OneSweepAtATime(s, n, p);
    forall q | 0 <= q < n ensures FreshAt(Step(s, n, Finish(p)), n, q) {
      assert FreshAt(s, n, q);
    }
  }

  /** The root detects at the end of such a sweep. */
  lemma FreshSweepDetects(s: System, n: nat)
    requires Undetected(s, n) && FreshSweep(s, n) && Enabled(s, n, Finish(0))
    ensures Step(s, n, Finish(0)).mode[0] != Running
  {
    var s' := Step(s, n, Finish(0));
    FinishKeepsFresh(s, n, 0);
    FinishDecides(s, n);
    FinishCounts(s, n, 0);
    FinishEffect(s, n, 0);
    FinishKeepsInv(s, n, 0);
    FullMeansAll(s, n, 0);
    forall p | 0 <= p < n ensures s'.value[p] == Outstanding(s, n)[p] {
      OneSweepAtATime(s', n, p);
      assert FreshAt(s', n, p);
    }
    assert s'.value == Outstanding(s, n);
    SaturatingSumInRange(s'.value, 0);
    TreeSumIsSum(s'.value);
  }

  // ---------------------------------------------------------------- the detection ends

  /** A bound on the steps until the root detects. */
  ghost function StepsLeft(s: System, n: nat): int
    requires Inv(s, n)
  {
    Remaining(s, n) + if FreshSweep(s, n) then 0 else 1 + 3 * n
  }

  lemma StartCounts(s: System, n: nat)
    requires Undetected(s, n) && Enabled(s, n, Start)
    ensures Inv(Step(s, n, Start), n) && StepsLeft(Step(s, n, Start), n) < StepsLeft(s, n)
  {
    StartKeepsInv(s, n);
    StartIsFresh(s, n);
    RemainingInRange(s, n);
    RemainingInRange(Step(s, n, Start), n);
  }

  /** Every step of the detection brings it closer to its end. */
  lemma StepCounts(s: System, n: nat, a: Action)
    requires Undetected(s, n) && Enabled(s, n, a) && Advances(a)
    ensures Inv(Step(s, n, a), n)
    ensures Step(s, n, a).mode[0] == Running ==> StepsLeft(Step(s, n, a), n) < StepsLeft(s, n)
  {
    StepKeepsInv(s, n, a);
    match a
    case Start => StartCounts(s, n);
    case AcceptDown(p) =>
      AcceptDownAdvances(s, n, p);
      if FreshSweep(s, n) {
        AcceptKeepsFresh(s, n, a);
      }
    case AcceptUp(p, c) =>
      AcceptUpAdvances(s, n, p, c);
      if FreshSweep(s, n) {
        AcceptKeepsFresh(s, n, a);
      }
    case Finish(p) =>
      FinishAdvances(s, n, p);
      FinishEffect(s, n, p);
      if FreshSweep(s, n) {
        if p == 0 {
          FreshSweepDetects(s, n);
        } else {
          FinishKeepsFresh(s, n, p);
        }
      }
  }

  lemma CleanCounts(s: System, n: nat, a: Action)
    requires Undetected(s, n) && Enabled(s, n, a) && (a.CleanDowns? || a.CleanUps?)
    ensures Inv(Step(s, n, a), n) && StepsLeft(Step(s, n, a), n) == StepsLeft(s, n)
  {
    var s' := Step(s, n, a);
    CleanEffect(s, n, a);
    CleanKeepsInv(s, n, a);
    assert Lags(s', n) == Lags(s, n);
    forall p | 0 <= p < n ensures FreshAt(s', n, p) <==> FreshAt(s, n, p) {
    }
  }

  lemma {:induction false} OnceDecided(s: System, n: nat, acts: seq<Action>)
    requires Inv(s, n) && s.mode[0] != Running && Steps(s, n, acts).Some?
    ensures Steps(s, n, acts).value.mode[0] != Running
    decreases |acts|
  {
    if acts != [] {
      var t := Step(s, n, acts[0]);
      StepKeepsInv(s, n, acts[0]);
      StaysDecided(s, n, acts[0]);
      OnceDecided(t, n, acts[1..]);
    }
  }

  lemma StaysDecided(s: System, n: nat, a: Action)
    requires Inv(s, n) && s.mode[0] != Running && Enabled(s, n, a)
    ensures Step(s, n, a).mode[0] != Running
  {
  }

  lemma {:induction false} UndecidedIsShort(s: System, n: nat, acts: seq<Action>)
    requires Undetected(s, n) && Steps(s, n, acts).Some? && forall a | a in acts :: Checks(a)
    requires Steps(s, n, acts).value.mode[0] == Running
    ensures Undetected(Steps(s, n, acts).value, n)
    ensures StepsLeft(Steps(s, n, acts).value, n) <= StepsLeft(s, n) - Work(acts)
    decreases |acts|
  {
    if acts != [] {
      var a, t := acts[0], Step(s, n, acts[0]);
      assert a in acts && Checks(a);
      StaysQuiet(s, n, a);
      if Advances(a) {
        StepCounts(s, n, a);
      } else {
        CleanCounts(s, n, a);
      }
      if t.mode[0] != Running {
        OnceDecided(t, n, acts[1..]);
      }
      UndecidedIsShort(t, n, acts[1..]);
    }
  }

  /** A child that has not begun the sweep has nothing to report. */
  lemma NothingArrived(s: System, n: nat, p: nat)
    requires Inv(s, n) && p < n && s.mode[p] == Running && Begun(s, n, p) == s.rec[p]
    ensures s.nodes[p].accum == map[]
  {
    LeafMeansLeaf(s, n, p);
    assert NodeOk(s, n, p);
    assert 2 * p + 1 < n ==> EdgeOk(s, n, 2 * p + 1);
    assert 2 * p + 2 < n ==> EdgeOk(s, n, 2 * p + 2);
  }

  /** As long as the root has not decided, everybody checks, and nobody has the broadcast. */
  lemma AllChecking(s: System, n: nat)
    requires Inv(s, n) && s.mode[0] == Running
    ensures forall p: nat | p < n ::
              && s.mode[p] == Running && (s.active[p] || Checking(s, n, p))
              && (p > 0 ==> s.net.term[p].queue == [])
  {
    forall p: nat | p < n ensures s.mode[p] == Running && (p > 0 ==> s.net.term[p].queue == [])
                                  && (s.active[p] || Checking(s, n, p)) {
      assert NodeOk(s, n, p);
      if s.mode[p] != Running {
        RootFirst(s, n, p);
      }
      if p > 0 && s.mode[Parent(p)] != Running {
        RootFirst(s, n, Parent(p));
      }
      assert p > 0 ==> TermOk(s, n, p);
    }
  }

  /** Whatever else: in a passive system whose detection is still going on, some process can take a step
      of the detection. */
  lemma SweepProgresses(s: System, n: nat)
    requires Inv(s, n) && (forall p | 0 <= p < n :: !s.active[p]) && s.mode[0] == Running
    ensures exists a: Action :: Advances(a) && Enabled(s, n, a)
  {
    AllChecking(s, n);
    if s.sweep == s.rec[0] {
      LeafMeansLeaf(s, n, 0);
      assert NodeOk(s, n, 0);
      assert Enabled(s, n, Start);
    } else if c: nat :| 0 < c < n && s.net.down[c].queue != [] {
      assert Enabled(s, n, AcceptDown(c));
    } else if c: nat :| 0 < c < n && s.net.up[c].queue != [] {
      LeafMeansLeaf(s, n, Parent(c));
      assert Enabled(s, n, AcceptUp(Parent(c), c));
    } else {
      var p := LowestBehind(s, n, 0);
      AllReported(s, n, p);
      assert Enabled(s, n, Finish(p));
    }
  }

  /** A process that has not recorded the sweep although all its children have. */
  lemma {:induction false} LowestBehind(s: System, n: nat, p: nat) returns (q: nat)
    requires Inv(s, n) && p < n && s.rec[p] < s.sweep
    ensures q < n && s.rec[q] < s.sweep && forall c | 0 < c < n && Parent(c) == q :: s.rec[c] == s.sweep
    decreases n - p
  {
    if c: nat :| 0 < c < n && Parent(c) == p && s.rec[c] < s.sweep {
      q := LowestBehind(s, n, c);
    } else {
      q := p;
      forall c | 0 < c < n && Parent(c) == q ensures s.rec[c] == s.sweep {
        OneSweepAtATime(s, n, c);
      }
    }
  }

  /** Without messages on the way, such a process has all totals it waits for. */
  lemma AllReported(s: System, n: nat, p: nat)
    requires Inv(s, n) && p < n && s.mode[p] == Running && s.rec[p] < s.sweep
    requires forall c | 0 < c < n :: s.net.down[c].queue == [] && s.net.up[c].queue == []
    requires forall c | 0 < c < n && Parent(c) == p :: s.rec[c] == s.sweep
    ensures !Leaf(s.nodes[p]) && SweepFull(s.nodes[p])
  {
    LeafMeansLeaf(s, n, p);
    AllBegun(s, n, p);
    assert NodeOk(s, n, p) && (p > 0 ==> EdgeOk(s, n, p));
    forall c | (c == 2 * p + 1 || c == 2 * p + 2) && c < n ensures Arrived(s, n, p, c) {
      assert EdgeOk(s, n, c);
    }
    assert s.nodes[p].accum == ExpectedAccum(s, n, p);
    assert s.rec[p] + 1 in s.nodes[p].accum;
  }

  lemma {:induction false} AllBegun(s: System, n: nat, p: nat)
    requires Inv(s, n) && p < n && forall c | 0 < c < n :: s.net.down[c].queue == []
    ensures Begun(s, n, p) == s.sweep
    decreases p
  {
    if p > 0 {
      AllBegun(s, n, Parent(p));
      assert EdgeOk(s, n, p);
    }
  }

  // ---------------------------------------------------------------- what every run does

  lemma ReachedUndetected(n: nat, active: seq<bool>, run: seq<Action>)
    requires |active| == n > 1 && After(n, active, run).Some? && After(n, active, run).value.mode[0] == Running
    requires Quiet(After(n, active, run).value) && NoOverflow(Outstanding(After(n, active, run).value, n))
    ensures Undetected(After(n, active, run).value, n)
    ensures StepsLeft(After(n, active, run).value, n) <= 6 * n + 1
  {
    RunsKeepInv(n, active, run);
    RunsAccounted(n, active, run);
    RunsKeepStamps(n, active, run);
    RemainingInRange(After(n, active, run).value, n);
  }

  /** The detection is complete, for every run: once the system is quiet, steps of the detection remain
      possible until the root detects, and it does so after at most 6n + 1 of them, in the sweep after
      the current one at the latest, if the counts fit an int64. */
  lemma QuietIsDetected(n: nat, active: seq<bool>, run: seq<Action>, acts: seq<Action>)
    requires |active| == n > 1 && After(n, active, run).Some? && After(n, active, run).value.mode[0] == Running
    requires Quiet(After(n, active, run).value) && NoOverflow(Outstanding(After(n, active, run).value, n))
    requires Steps(After(n, active, run).value, n, acts).Some? && forall a | a in acts :: Checks(a)
    ensures var t := Steps(After(n, active, run).value, n, acts).value;
            && (Work(acts) > 6 * n + 1 ==> t.mode[0] != Running)
            && (t.mode[0] == Running ==> exists a: Action :: Advances(a) && Enabled(t, n, a))
  {
    ReachedUndetected(n, active, run);
    QuietEnds(After(n, active, run).value, n, acts);
  }

  lemma QuietEnds(s: System, n: nat, acts: seq<Action>)
    requires Undetected(s, n) && StepsLeft(s, n) <= 6 * n + 1
    requires Steps(s, n, acts).Some? && forall a | a in acts :: Checks(a)
    ensures var t := Steps(s, n, acts).value;
            && (Work(acts) > 6 * n + 1 ==> t.mode[0] != Running)
            && (t.mode[0] == Running ==> exists a: Action :: Advances(a) && Enabled(t, n, a))
  {
    var t := Steps(s, n, acts).value;
    if t.mode[0] == Running {
      UndecidedIsShort(s, n, acts);
      RemainingInRange(t, n);
      SweepProgresses(t, n);
    }
  }
}

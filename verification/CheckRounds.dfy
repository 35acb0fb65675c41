/** Whole calls instead of single steps: if every process goes on calling, a quiet system is detected, and
    then every process gets to the barrier in its constructed state. */
module CheckRounds {
  import opened Wrappers
  import opened GlobalQd
  import opened ProcessTree
  import opened SweepSystem
  import opened SweepInvariant
  import opened Termination
  import opened CheckRefinement
  import opened Completeness
  import opened CodeRuns

  /** Process p has a turn, and the probes of its check see this much. */
  datatype Call = Call(p: nat, see: Probes)

  function AfterCalls(w: World, n: nat, calls: seq<Call>): World
    decreases |calls|
  {
    if calls == [] then w else AfterCalls(TurnOf(w, n, calls[0].p, calls[0].see), n, calls[1..])
  }

  /** The probes see a message of the sweeps wherever one is waiting. */
  predicate Sees(see: Probes) {
    see.left > 0 && see.right > 0 && see.down
  }

  /** p has a turn in which its probes see; with term, also the termination broadcast. */
  predicate Called(calls: seq<Call>, p: nat, term: bool) {
    exists i | 0 <= i < |calls| :: calls[i].p == p && Sees(calls[i].see) && (term ==> calls[i].see.term)
  }

  /** Every process has at least one such turn; in any order, and there may be more turns. */
  predicate Round(calls: seq<Call>, n: nat, term: bool) {
    && (forall i | 0 <= i < |calls| :: calls[i].p < n)
    && forall p: nat | p < n :: Called(calls, p, term)
  }

  // ---------------------------------------------------------------- who can advance

  const ALL := Probes(1, 1, true, true)

  lemma SeesAll(s: System, n: nat, p: nat, see: Probes)
    requires Shape(s, n) && p < n && Sees(see)
    ensures CanAdvance(s, n, p, see) <==> CanAdvance(s, n, p, ALL)
  {
  }

  /** As long as the root of a quiet system has not decided, some process's next call advances the
      detection if its probes see. */
  lemma SomeoneCanAdvance(s: System, n: nat) returns (p: nat)
    requires Inv(s, n) && Quiet(s) && s.mode[0] == Running
    ensures p < n && Checking(s, n, p) && CanAdvance(s, n, p, ALL)
  {
    AllChecking(s, n);
    SweepProgresses(s, n);
    var a :| Advances(a) && Enabled(s, n, a);
    p := if a.Start? then 0 else a.p;
    LeafMeansLeaf(s, n, p);
    assert NodeOk(s, n, p);
    if a.Start? || a.AcceptDown? {
      if a.AcceptDown? {
        DownArrives(s, n, p);
      }
      NothingArrived(s, n, p);
    }
  }

  /** Cleaning up changes nothing a call depends on. */
  predicate SameProgress(s: System, t: System, n: nat)
    requires Shape(s, n) && Shape(t, n)
  {
    && t.net == s.net
    && forall p | 0 <= p < n ::
         && t.nodes[p].accum == s.nodes[p].accum && t.nodes[p].localSweep == s.nodes[p].localSweep
         && t.nodes[p].rootDownSweep == s.nodes[p].rootDownSweep
  }

  lemma SameCanAdvance(s: System, t: System, n: nat, p: nat, see: Probes)
    requires Shape(s, n) && Shape(t, n) && SameProgress(s, t, n) && p < n
    ensures CanAdvance(t, n, p, see) <==> CanAdvance(s, n, p, see)
  {
    LeafMeansLeaf(s, n, p);
    LeafMeansLeaf(t, n, p);
  }

  lemma {:induction false} OnlyCleaning(s: System, n: nat, acts: seq<Action>)
    requires Inv(s, n) && Steps(s, n, acts).Some? && (forall a | a in acts :: Checks(a)) && Work(acts) == 0
    ensures SameProgress(s, Steps(s, n, acts).value, n)
    decreases |acts|
  {
    if acts != [] {
      assert acts[0] in acts;
      CleanEffect(s, n, acts[0]);
      CleanKeepsInv(s, n, acts[0]);
      OnlyCleaning(Step(s, n, acts[0]), n, acts[1..]);
    }
  }

  lemma {:induction false} UsefulIsWork(acts: seq<Action>)
    ensures Useful(acts) ==> Work(acts) > 0
  {
    if acts != [] {
      UsefulIsWork(acts[1..]);
      if i :| 0 <= i < |acts| && Advances(acts[i]) {
        assert i > 0 ==> acts[i] == acts[1..][i - 1];
      }
    }
  }

  /** A call brings the end of the detection closer, or leaves it to the others exactly as it was. */
  lemma CallAdvances(s: System, n: nat, acts: seq<Action>, t: System, p: nat, see: Probes)
    requires Undetected(s, n) && Steps(s, n, acts) == Some(t) && t.mode[0] == Running && p < n
    requires (forall a | a in acts :: Checks(a)) && (CanAdvance(s, n, p, see) ==> Useful(acts))
    ensures Undetected(t, n) && StepsLeft(t, n) <= StepsLeft(s, n)
    ensures StepsLeft(t, n) < StepsLeft(s, n) || (!CanAdvance(s, n, p, see) && SameProgress(s, t, n))
  {
    UndecidedIsShort(s, n, acts);
    UsefulIsWork(acts);
    if Work(acts) == 0 {
      OnlyCleaning(s, n, acts);
    }
  }

  // ---------------------------------------------------------------- how far it is to the end

  function ModeLeft(m: Mode): int {
    match m
    case Running => 2
    case Waiting => 1
    case AtBarrier => 0
  }

  function ModesLeft(mode: seq<Mode>): seq<int> {
    seq(|mode|, p requires 0 <= p < |mode| => ModeLeft(mode[p]))
  }

  /** A bound on the turns that change something until everybody is at the barrier. */
  ghost function Measure(s: System, n: nat): int
    requires Inv(s, n)
  {
    Sum(ModesLeft(s.mode)) + if s.mode[0] == Running then StepsLeft(s, n) else 0
  }

  /** Nobody works, and before the decision no message is in flight either. */
  ghost predicate Going(s: System, n: nat) {
    && Inv(s, n) && (forall p | 0 <= p < n :: !s.active[p])
    && (s.mode[0] == Running ==> Undetected(s, n))
  }

  /** A turn of p that sees changes something. */
  predicate ReadyFor(s: System, n: nat, p: nat)
    requires Shape(s, n) && p < n
  {
    if s.mode[0] == Running then CanAdvance(s, n, p, ALL) else ShutsDown(s.mode, p)
  }

  /** p can take the broadcast, or its wait for its children is over. */
  predicate ShutsDown(mode: seq<Mode>, p: nat)
    requires p < |mode|
  {
    if mode[p] == Running then p > 0 && mode[Parent(p)] != Running
    else mode[p] == Waiting && forall c | 0 < c < |mode| && Parent(c) == p :: mode[c] != Running
  }

  /** The root has decided; with term, everybody is at the barrier. */
  predicate Finished(s: System, n: nat, term: bool)
    requires Shape(s, n)
  {
    if term then forall p | 0 <= p < n :: s.mode[p] == AtBarrier else s.mode[0] != Running
  }

  lemma ModesInRange(mode: seq<Mode>)
    ensures 0 <= Sum(ModesLeft(mode)) <= 2 * |mode|
    ensures (forall p | 0 <= p < |mode| :: mode[p] == Running) ==> Sum(ModesLeft(mode)) == 2 * |mode|
  {
    SumInRange(ModesLeft(mode), 2);
    if forall p | 0 <= p < |mode| :: mode[p] == Running {
      AllTwo(ModesLeft(mode));
    }
  }

  lemma {:induction false} AllTwo(v: seq<int>)
    requires forall p | 0 <= p < |v| :: v[p] == 2
    ensures Sum(v) == 2 * |v|
  {
    if v != [] {
      AllTwo(v[..|v| - 1]);
    }
  }

  lemma ModesStep(mode: seq<Mode>, p: nat, m: Mode)
    requires p < |mode| && MovesOn(mode[p], m)
    ensures Sum(ModesLeft(mode[p := m])) == Sum(ModesLeft(mode)) - if m == mode[p] then 0 else 1
  {
    SumUpdate(ModesLeft(mode), p, ModeLeft(m));
    assert ModesLeft(mode[p := m]) == ModesLeft(mode)[p := ModeLeft(m)];
  }

  lemma MeasureInRange(s: System, n: nat)
    requires Inv(s, n)
    ensures Measure(s, n) >= if s.mode[0] == Running then 2 * n else 0
    ensures s.mode[0] == Running && StepsLeft(s, n) <= 6 * n + 1 ==> Measure(s, n) <= 8 * n + 1
  {
    ModesInRange(s.mode);
    if s.mode[0] == Running {
      AllChecking(s, n);
      RemainingInRange(s, n);
    }
  }

  // ---------------------------------------------------------------- one turn

  /** What a turn makes of the measure, and of what the others are ready for. */
  ghost predicate Nearer(s: System, t: System, n: nat) {
    && Going(s, n) && Going(t, n) && Measure(t, n) <= Measure(s, n)
    && (s.mode[0] != Running ==> t.mode[0] != Running)
    && (Measure(t, n) == Measure(s, n) ==>
          t.mode == s.mode && forall q: nat | q < n && ReadyFor(s, n, q) :: ReadyFor(t, n, q))
  }

  /** The turn does not decide. */
  lemma UndecidedTurn(s: System, n: nat, p: nat, see: Probes, acts: seq<Action>, t: System)
    requires Going(s, n) && s.mode[0] == Running && p < n && Steps(s, n, acts) == Some(t) && t.mode[0] == Running
    requires t.mode == s.mode
    requires (forall a | a in acts :: Checks(a)) && (CanAdvance(s, n, p, see) ==> Useful(acts))
    ensures Nearer(s, t, n) && (Sees(see) && ReadyFor(s, n, p) ==> Measure(t, n) < Measure(s, n))
  {
    CallAdvances(s, n, acts, t, p, see);
    forall q: nat | q < n && ReadyFor(s, n, q) && SameProgress(s, t, n) ensures ReadyFor(t, n, q) {
      SameCanAdvance(s, t, n, q, ALL);
    }
    if Sees(see) {
      SeesAll(s, n, p, see);
    }
  }

  lemma DetectionTurn(s: System, n: nat, p: nat, see: Probes, acts: seq<Action>, t: System)
    requires Going(s, n) && s.mode[0] == Running && p < n && Steps(s, n, acts) == Some(t) && Inv(t, n)
    requires t.active == s.active && t.mode == s.mode[p := t.mode[p]] && MovesOn(s.mode[p], t.mode[p])
    requires (forall a | a in acts :: Checks(a)) && (CanAdvance(s, n, p, see) ==> Useful(acts))
    ensures Nearer(s, t, n) && (Sees(see) && ReadyFor(s, n, p) ==> Measure(t, n) < Measure(s, n))
  {
    if t.mode[0] == Running {
      AllChecking(s, n);
      AllChecking(t, n);
      assert t.mode == s.mode;
      UndecidedTurn(s, n, p, see, acts, t);
    } else {
      ModesStep(s.mode, p, t.mode[p]);
      RemainingInRange(s, n);
    }
  }

  /** A process that can shut down does so in a turn that sees. */
  lemma ShutsDownNow(s: System, n: nat, p: nat, see: Probes)
    requires Inv(s, n) && s.mode[0] != Running && p < n && ShutsDown(s.mode, p)
    ensures Fits(s.nodes[p], s.net)
    ensures s.mode[p] == Running && see.term ==> TermSeen(At(s, n, p), see)
    ensures s.mode[p] == Waiting ==> BroadcastReceived(s.nodes[p], s.net)
  {
    LeafMeansLeaf(s, n, p);
    assert NodeOk(s, n, p);
    assert p > 0 ==> TermOk(s, n, p);
    assert 2 * p + 1 < n ==> TermOk(s, n, 2 * p + 1);
    assert 2 * p + 2 < n ==> TermOk(s, n, 2 * p + 2);
  }

  lemma ShutdownTurn(s: System, n: nat, p: nat, see: Probes, t: System)
    requires Going(s, n) && s.mode[0] != Running && p < n && Inv(t, n) && Fits(s.nodes[p], s.net)
    requires t.active == s.active && t.mode == s.mode[p := t.mode[p]] && MovesOn(s.mode[p], t.mode[p])
    requires s.mode[p] == Running && TermSeen(At(s, n, p), see) ==> t.mode[p] == Waiting
    requires s.mode[p] == Waiting && BroadcastReceived(s.nodes[p], s.net) ==> t.mode[p] == AtBarrier
    ensures Nearer(s, t, n) && (see.term && ReadyFor(s, n, p) ==> Measure(t, n) < Measure(s, n))
  {
    ModesStep(s.mode, p, t.mode[p]);
    if ShutsDown(s.mode, p) {
      ShutsDownNow(s, n, p, see);
    }
    if t.mode[p] == s.mode[p] {
      assert t.mode == s.mode;
    }
  }

  lemma TurnIsNearer(n: nat, active: seq<bool>, allowed: (nat, nat) -> bool, s: System, call: Call) returns (t: System)
    requires Reached(n, active, allowed, s) && Going(s, n) && call.p < n
    ensures Reached(n, active, allowed, t) && WorldOf(t) == TurnOf(WorldOf(s), n, call.p, call.see)
    ensures Nearer(s, t, n)
    ensures ReadyFor(s, n, call.p) && Sees(call.see) && (s.mode[0] == Running || call.see.term) ==>
              Measure(t, n) < Measure(s, n)
  {
    var acts;
    acts, t := TurnReaches(n, active, allowed, s, call.p, call.see);
    if s.mode[0] == Running {
      AllChecking(s, n);
      LeafMeansLeaf(s, n, call.p);
      DetectionTurn(s, n, call.p, call.see, acts, t);
    } else {
      ShutdownTurn(s, n, call.p, call.see, t);
    }
  }

  // ---------------------------------------------------------------- rounds

  /** A process whose turn changes something, until the end. */
  lemma SomeoneIsReady(s: System, n: nat) returns (p: nat)
    requires Going(s, n) && !Finished(s, n, true)
    ensures p < n && ReadyFor(s, n, p)
  {
    if s.mode[0] == Running {
      p := SomeoneCanAdvance(s, n);
    } else if r: nat :| r < n && s.mode[r] == Running {
      p := HighestRunning(s, n, r);
    } else {
      p :| p < n && s.mode[p] != AtBarrier;
    }
  }

  lemma {:induction false} CallsReach(n: nat, active: seq<bool>, allowed: (nat, nat) -> bool, s: System,
                                      calls: seq<Call>, p: nat, term: bool)
    returns (t: System)
    requires Reached(n, active, allowed, s) && Going(s, n) && p < n
    requires forall i | 0 <= i < |calls| :: calls[i].p < n
    ensures Reached(n, active, allowed, t) && WorldOf(t) == AfterCalls(WorldOf(s), n, calls)
    ensures Nearer(s, t, n)
    ensures ReadyFor(s, n, p) && Called(calls, p, term) && (s.mode[0] == Running || term) ==>
              Measure(t, n) < Measure(s, n)
    decreases |calls|
  {
    t := s;
    if calls != [] {
      var u := TurnIsNearer(n, active, allowed, s, calls[0]);
      t := CallsReach(n, active, allowed, u, calls[1..], p, term);
      if Called(calls, p, term) && Measure(u, n) == Measure(s, n) {
        CalledLater(calls, p, term);
      }
    }
  }

  lemma CalledLater(calls: seq<Call>, p: nat, term: bool)
    requires calls != [] && Called(calls, p, term)
    ensures Called(calls[1..], p, term)
            || (calls[0].p == p && Sees(calls[0].see) && (term ==> calls[0].see.term))
  {
    var i :| 0 <= i < |calls| && calls[i].p == p && Sees(calls[i].see) && (term ==> calls[i].see.term);
    assert i > 0 ==> calls[1..][i - 1] == calls[i];
  }

  function Concat(rounds: seq<seq<Call>>): seq<Call> {
    if rounds == [] then [] else rounds[0] + Concat(rounds[1..])
  }

  lemma {:induction false} AfterCallsCompose(w: World, n: nat, a: seq<Call>, b: seq<Call>)
    ensures AfterCalls(w, n, a + b) == AfterCalls(AfterCalls(w, n, a), n, b)
    decreases |a|
  {
    if a == [] {
      assert a + b == b;
    } else {
      AfterCallsCompose(TurnOf(w, n, a[0].p, a[0].see), n, a[1..], b);
      assert (a + b)[1..] == a[1..] + b;
    }
  }

  /** Each round brings the end one nearer. */
  lemma RoundIsNearer(n: nat, active: seq<bool>, allowed: (nat, nat) -> bool, s: System, round: seq<Call>, term: bool)
    returns (t: System)
    requires Reached(n, active, allowed, s) && Going(s, n) && Round(round, n, term)
    ensures Reached(n, active, allowed, t) && Going(t, n) && WorldOf(t) == AfterCalls(WorldOf(s), n, round)
    ensures Finished(s, n, term) ==> Finished(t, n, term)
    ensures Finished(s, n, term) || Measure(t, n) < Measure(s, n)
  {
    if Finished(s, n, term) {
      t := CallsReach(n, active, allowed, s, round, 0, term);
      StaysFinished(s, t, n, term);
    } else {
      var p := SomeoneIsReady(s, n);
      t := CallsReach(n, active, allowed, s, round, p, term);
      assert Called(round, p, term);
    }
  }

  lemma StaysFinished(s: System, t: System, n: nat, term: bool)
    requires Nearer(s, t, n) && Finished(s, n, term)
    ensures Finished(t, n, term)
  {
    if term {
      SumZero(ModesLeft(s.mode));
      MeasureInRange(t, n);
    }
  }

  lemma {:induction false} RoundsReach(n: nat, active: seq<bool>, allowed: (nat, nat) -> bool, s: System,
                                       rounds: seq<seq<Call>>, term: bool)
    returns (t: System)
    requires Reached(n, active, allowed, s) && Going(s, n)
    requires forall i | 0 <= i < |rounds| :: Round(rounds[i], n, term)
    ensures Reached(n, active, allowed, t) && Going(t, n) && WorldOf(t) == AfterCalls(WorldOf(s), n, Concat(rounds))
    ensures Finished(s, n, term) ==> Finished(t, n, term)
    ensures Finished(t, n, term) || Measure(t, n) <= Measure(s, n) - |rounds|
    decreases |rounds|
  {
    t := s;
    if rounds != [] {
      var u := RoundIsNearer(n, active, allowed, s, rounds[0], term);
      t := RoundsReach(n, active, allowed, u, rounds[1..], term);
      AfterCallsCompose(WorldOf(s), n, rounds[0], Concat(rounds[1..]));
    }
  }

  /** Enough rounds from a quiet undecided state. */
  lemma EnoughRounds(n: nat, active: seq<bool>, allowed: (nat, nat) -> bool, s: System, rounds: seq<seq<Call>>,
                     term: bool)
    returns (t: System)
    requires Reached(n, active, allowed, s) && Undetected(s, n) && StepsLeft(s, n) <= 6 * n + 1
    requires |rounds| > (if term then 8 else 6) * n + 1
    requires forall i | 0 <= i < |rounds| :: Round(rounds[i], n, term)
    ensures Reached(n, active, allowed, t) && Inv(t, n) && Finished(t, n, term)
    ensures WorldOf(t) == AfterCalls(WorldOf(s), n, Concat(rounds))
  {
    MeasureInRange(s, n);
    t := RoundsReach(n, active, allowed, s, rounds, term);
    MeasureInRange(t, n);
  }

  // ---------------------------------------------------------------- what rounds do

  /** The detection is complete for whole calls, from every reachable quiet state: after 6n + 2 rounds in
      which every process calls check and its probes see what is there, in any order and with any other
      calls in between, the root has detected quiescence, and no call has thrown. */
  lemma RoundsDetect(n: nat, active: seq<bool>, run: seq<Action>, rounds: seq<seq<Call>>)
    requires |active| == n > 1 && After(n, active, run).Some? && After(n, active, run).value.mode[0] == Running
    requires Quiet(After(n, active, run).value) && NoOverflow(Outstanding(After(n, active, run).value, n))
    requires |rounds| > 6 * n + 1 && forall i | 0 <= i < |rounds| :: Round(rounds[i], n, false)
    ensures var w := AfterCalls(WorldOf(After(n, active, run).value), n, Concat(rounds));
            w.ok && |w.nodes| == |w.done| == n && (w.nodes[0].terminate == 1 || w.done[0])
  {
    ReachedUndetected(n, active, run);
    RunReached(n, active, run);
    var t := EnoughRounds(n, active, (_, _) => true, After(n, active, run).value, rounds, false);
    ExistsAlways(t, n, 0);
  }

  lemma RunReached(n: nat, active: seq<bool>, run: seq<Action>)
    requires |active| == n > 1 && After(n, active, run).Some?
    ensures Reached(n, active, (_, _) => true, After(n, active, run).value)
  {
    assert Follows(run, (_, _) => true);
  }

  /** And after 8n + 2 rounds in which the probes also see the termination broadcast, everything is over:
      every process has been through safe_reset and is in its constructed state, every channel is empty,
      and no call has thrown. */
  lemma RoundsReset(n: nat, active: seq<bool>, run: seq<Action>, rounds: seq<seq<Call>>)
    requires |active| == n > 1 && After(n, active, run).Some? && After(n, active, run).value.mode[0] == Running
    requires Quiet(After(n, active, run).value) && NoOverflow(Outstanding(After(n, active, run).value, n))
    requires |rounds| > 8 * n + 1 && forall i | 0 <= i < |rounds| :: Round(rounds[i], n, true)
    ensures var w := AfterCalls(WorldOf(After(n, active, run).value), n, Concat(rounds));
            w.ok && |w.nodes| == |w.done| == |w.net.down| == |w.net.up| == |w.net.term| == n &&
            forall p | 0 <= p < n ::
              && w.done[p] && w.nodes[p] == Fresh(p, n)
              && (p > 0 ==> w.net.down[p].queue == w.net.up[p].queue == [] && w.net.term[p].queue == [])
  {
    ReachedUndetected(n, active, run);
    RunReached(n, active, run);
    var t := EnoughRounds(n, active, (_, _) => true, After(n, active, run).value, rounds, true);
    var r :| After(n, active, r) == Some(t);
    BarrierRestoresEverything(n, active, r);
  }
}

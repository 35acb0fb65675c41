/** Which ids can be reduced at once without conditions on the run: those with different home slots in the
    table of the counter, and no others. */
module SharedCounterHomes {
  import opened FiniteSets
  import opened Wrappers
  import opened ProbeTable
  import opened ReductionCounter
  import opened SharedCounter
  import R = ThreadReduction

  predicate DistinctHomes(ids: set<nat>, n: nat)
    requires n > 0
  {
    forall x, y | x in ids && y in ids && x != y :: x % n != y % n
  }

  /** Contributions were made to these ids only. */
  ghost predicate UsesOnly(s: State, ids: set<nat>) {
    forall id: nat | HistoryOf(s, id).begun != {} :: id in ids
  }

  lemma UsesMore(s: State, threads: nat, n: nat, expected: nat -> nat, a: Action, ids: set<nat>)
    requires Shape(s, threads, n) && Enabled(s, threads, n, expected, a)
    requires UsesOnly(Step(s, threads, n, expected, a), ids)
    ensures UsesOnly(s, ids) && (a.Contribute? ==> a.id in ids)
  {
    var s' := Step(s, threads, n, expected, a);
    forall id: nat ensures HistoryOf(s, id).begun <= HistoryOf(s', id).begun {
    }
    assert a.Contribute? ==> a.c in HistoryOf(s', a.id).begun;
  }

  /** Every id is in its home slot. */
  predicate TableAtHome<M>(table: seq<Slot<M>>, ids: set<nat>) {
    forall i | 0 <= i < |table| && table[i].id != 0 :: table[i].id in ids && table[i].id % |table| == i
  }

  /** And nobody looks further. */
  predicate AtHome(s: State, n: nat, ids: set<nat>) {
    && |s.table| == n > 0 && TableAtHome(s.table, ids)
    && forall t | 0 <= t < |s.threads| && s.threads[t].In? ::
         && s.threads[t].id in ids && !s.threads[t].place.Threw?
         && (Searching(s.threads[t]) ==> s.threads[t].place.c == 0)
  }

  lemma HomeMeetsId(s: State, threads: nat, n: nat, ids: set<nat>, t: nat)
    requires Shape(s, threads, n) && AtHome(s, n, ids) && DistinctHomes(ids, n)
    requires t < threads && Searching(s.threads[t])
    ensures s.table[SlotOf(s, threads, n, t)].id in {0, s.threads[t].id}
  {
    assert ThreadOk(s, t);
    var i := SlotOf(s, threads, n, t);
    assert i == s.threads[t].id % n;
  }

  lemma StepKeepsAtHome(s: State, threads: nat, n: nat, expected: nat -> nat, a: Action, ids: set<nat>)
    requires Shape(s, threads, n) && Enabled(s, threads, n, expected, a)
    requires AtHome(s, n, ids) && DistinctHomes(ids, n) && (a.Contribute? ==> a.id in ids)
    ensures AtHome(Step(s, threads, n, expected, a), n, ids)
  {
    assert ThreadOk(s, a.t);
    if a.Look? || a.Cas? {
      HomeMeetsId(s, threads, n, ids, a.t);
      assert SlotOf(s, threads, n, a.t) == s.threads[a.t].id % n;
    }
  }

  lemma AtHomeIsHarmless(s: State, threads: nat, n: nat, expected: nat -> nat, t: nat, ids: set<nat>)
    requires Shape(s, threads, n) && AtHome(s, n, ids) && Enabled(s, threads, n, expected, Release(t))
    ensures HarmlessRelease(s, threads, n, t)
  {
    var i := SlotOf(s, threads, n, t);
    forall j | 0 <= j < n && j != i && s.table[j].id != 0
      ensures Dist(s.table[j].id, j, n) < Dist(s.table[j].id, i, n)
    {
      assert s.table[j].id % n == j;
    }
  }

  /** Ids with different home slots never meet: in every run every release is harmless, and no thread
      gives up. */
  lemma {:induction false} DistinctHomesAreHarmless(threads: nat, n: nat, expected: nat -> nat, run: seq<Action>,
                                                    ids: set<nat>)
    requires n > 0 && After(threads, n, expected, run).Some? && DistinctHomes(ids, n)
    requires UsesOnly(After(threads, n, expected, run).value, ids)
    ensures AllHarmless(threads, n, expected, run) && AtHome(After(threads, n, expected, run).value, n, ids)
  {
    if run != [] {
      var before, a := run[..|run| - 1], run[|run| - 1];
      var s := After(threads, n, expected, before).value;
      UsesMore(s, threads, n, expected, a, ids);
      DistinctHomesAreHarmless(threads, n, expected, before, ids);
      StepKeepsAtHome(s, threads, n, expected, a, ids);
      if a.Release? {
        AtHomeIsHarmless(s, threads, n, expected, a.t, ids);
      }
    }
  }

  // ---------------------------------------------------------------- completing

  /** The state after more steps. */
  function Later(threads: nat, n: nat, expected: nat -> nat, s: State, acts: seq<Action>): Option<State>
    decreases |acts|
  {
    if acts == [] then Some(s)
    else if Shape(s, threads, n) && Enabled(s, threads, n, expected, acts[0])
    then Later(threads, n, expected, Step(s, threads, n, expected, acts[0]), acts[1..])
    else None
  }

  /** All contributions to the id were made, and whatever happens next, no call returns the message. */
  ghost predicate NeverReturns(threads: nat, n: nat, expected: nat -> nat, s: State, id: nat) {
    && HistoryOf(s, id).begun == UpTo(expected(id))
    && forall acts | Later(threads, n, expected, s, acts).Some? ::
         HistoryOf(Later(threads, n, expected, s, acts).value, id).returned == []
  }

  /** A bound on the steps of a call that finds its slot at home. */
  function StepsToGo(th: Thread, id: nat, threads: nat): nat {
    if !InCall(th, id) then 0
    else
      match th.place
      case Probing(_) => threads + 7
      case Claiming(_) => threads + 6
      case MustAdd(_) => threads + 5
      case MustSub(_) => threads + 4
      case Last(_) => threads + 3
      case Popping => threads + 2
      case Collecting(_, next) => if next < threads then threads - next + 1 else 1
      case Threw => 0
  }

  function AllToGo(ths: seq<Thread>, id: nat, threads: nat): nat {
    if ths == [] then 0 else AllToGo(ths[..|ths| - 1], id, threads) + StepsToGo(ths[|ths| - 1], id, threads)
  }

  lemma {:induction false} AllToGoUpdate(ths: seq<Thread>, id: nat, threads: nat, t: nat, th: Thread)
    requires t < |ths|
    ensures AllToGo(ths[t := th], id, threads) ==
            AllToGo(ths, id, threads) - StepsToGo(ths[t], id, threads) + StepsToGo(th, id, threads)
  {
    var last := |ths| - 1;
    if t < last {
      AllToGoUpdate(ths[..last], id, threads, t, th);
      assert ths[t := th][..last] == ths[..last][t := th];
    } else {
      assert ths[t := th][..last] == ths[..last];
    }
  }

  /** What a thread in a call does next. */
  function NextAction(th: Thread, threads: nat, t: nat): Action
    requires th.In? && !th.place.Threw?
  {
    match th.place
    case Probing(_) => Look(t)
    case Claiming(_) => Cas(t)
    case MustAdd(_) => Action.Add(t)
    case MustSub(_) => Sub(t)
    case Last(_) => Release(t)
    case Popping => Pop(t)
    case Collecting(_, next) => if next < threads then Collect(t) else Return(t)
  }

  /** Each step of a call brings it closer to its end. */
  lemma StepsTowardsEnd(s: State, threads: nat, n: nat, expected: nat -> nat, t: nat, ids: set<nat>)
    requires Inv(s, threads, n, expected) && AtHome(s, n, ids) && DistinctHomes(ids, n)
    requires s.ok && 0 < t < threads && s.threads[t].In?
    ensures var a := NextAction(s.threads[t], threads, t);
            && Enabled(s, threads, n, expected, a) && IdOf(s, a) == s.threads[t].id
            && StepsToGo(NewThread(s, threads, n, expected, a), s.threads[t].id, threads)
               < StepsToGo(s.threads[t], s.threads[t].id, threads)
            && NewHistory(s, a).begun == HistoryOf(s, s.threads[t].id).begun
  {
    var a := NextAction(s.threads[t], threads, t);
    assert Enabled(s, threads, n, expected, a);
    if a.Look? || a.Cas? {
      HomeMeetsId(s, threads, n, ids, t);
    } else if a.Pop? {
      PopSucceeds(s, threads, n, expected, t);
    }
  }

  lemma CallersAreWorkers(s: State, threads: nat, n: nat, expected: nat -> nat, t: nat)
    requires Inv(s, threads, n, expected) && t < threads && s.threads[t].In?
    ensures s.ok && 0 < t
  {
    assert ThreadOk(s, t);
    var v := Alone(s, s.threads[t].id);
    assert R.Inv(v, threads, expected(s.threads[t].id)) && R.PlaceOk(v, threads, 0);
    assert v.pc[t] == PlaceFor(s.threads[t], s.threads[t].id);
  }

  lemma Extend(threads: nat, n: nat, expected: nat -> nat, run: seq<Action>, s: State, a: Action)
    requires n > 0 && After(threads, n, expected, run) == Some(s) && Enabled(s, threads, n, expected, a)
    ensures After(threads, n, expected, run + [a]) == Some(Step(s, threads, n, expected, a))
  {
    var next := run + [a];
    assert next[..|next| - 1] == run;
  }

  lemma SameUses(s: State, threads: nat, n: nat, expected: nat -> nat, a: Action, ids: set<nat>)
    requires Shape(s, threads, n) && Enabled(s, threads, n, expected, a) && UsesOnly(s, ids)
    requires NewHistory(s, a).begun == HistoryOf(s, IdOf(s, a)).begun
    ensures UsesOnly(Step(s, threads, n, expected, a), ids)
    ensures forall id: nat :: HistoryOf(Step(s, threads, n, expected, a), id).begun == HistoryOf(s, id).begun
  {
  }

  lemma RunsKeepHome(threads: nat, n: nat, expected: nat -> nat, run: seq<Action>, s: State, ids: set<nat>)
    requires n > 0 && After(threads, n, expected, run) == Some(s) && UsesOnly(s, ids) && DistinctHomes(ids, n)
    requires forall id :: 0 < expected(id)
    ensures Inv(s, threads, n, expected) && AtHome(s, n, ids)
  {
    DistinctHomesAreHarmless(threads, n, expected, run, ids);
    RunsKeepInv(threads, n, expected, run);
  }

  lemma NextStepCounts(s: State, threads: nat, n: nat, expected: nat -> nat, t: nat, ids: set<nat>)
    requires Inv(s, threads, n, expected) && AtHome(s, n, ids) && DistinctHomes(ids, n) && UsesOnly(s, ids)
    requires t < threads && s.threads[t].In?
    ensures var a := NextAction(s.threads[t], threads, t);
            && Enabled(s, threads, n, expected, a)
            && var s' := Step(s, threads, n, expected, a);
               && UsesOnly(s', ids) && (forall id: nat :: HistoryOf(s', id).begun == HistoryOf(s, id).begun)
               && AllToGo(s'.threads, s.threads[t].id, threads) < AllToGo(s.threads, s.threads[t].id, threads)
  {
    CallersAreWorkers(s, threads, n, expected, t);
    StepsTowardsEnd(s, threads, n, expected, t, ids);
    var a := NextAction(s.threads[t], threads, t);
    SameUses(s, threads, n, expected, a, ids);
    AllToGoUpdate(s.threads, s.threads[t].id, threads, t, NewThread(s, threads, n, expected, a));
  }

  /** One step of a call for the id. */
  lemma StepForId(threads: nat, n: nat, expected: nat -> nat, run: seq<Action>, s: State, ids: set<nat>, t: nat)
    returns (a: Action, s': State)
    requires n > 0 && After(threads, n, expected, run) == Some(s) && UsesOnly(s, ids) && DistinctHomes(ids, n)
    requires (forall id :: 0 < expected(id)) && t < threads && s.threads[t].In?
    ensures Enabled(s, threads, n, expected, a) && s' == Step(s, threads, n, expected, a)
    ensures After(threads, n, expected, run + [a]) == Some(s') && UsesOnly(s', ids)
    ensures forall id: nat :: HistoryOf(s', id).begun == HistoryOf(s, id).begun
    ensures AllToGo(s'.threads, s.threads[t].id, threads) < AllToGo(s.threads, s.threads[t].id, threads)
  {
    RunsKeepHome(threads, n, expected, run, s, ids);
    a := NextAction(s.threads[t], threads, t);
    NextStepCounts(s, threads, n, expected, t, ids);
    s' := Step(s, threads, n, expected, a);
    Extend(threads, n, expected, run, s, a);
  }

  /** With different home slots, the calls for an id under way can always go on to the end, and then one
      has returned its message. */
  lemma {:induction false} CanComplete(threads: nat, n: nat, expected: nat -> nat, run: seq<Action>, s: State,
                                       ids: set<nat>, id: nat)
    returns (acts: seq<Action>)
    requires n > 0 && After(threads, n, expected, run) == Some(s) && UsesOnly(s, ids) && DistinctHomes(ids, n)
    requires (forall id :: 0 < expected(id)) && id != 0 && HistoryOf(s, id).begun == UpTo(expected(id))
    ensures Later(threads, n, expected, s, acts).Some?
    ensures HistoryOf(Later(threads, n, expected, s, acts).value, id).returned == [R.Everything(expected(id))]
    decreases AllToGo(s.threads, id, threads)
  {
    if t: nat :| t < threads && InCall(s.threads[t], id) {
      var a, s' := StepForId(threads, n, expected, run, s, ids, t);
      var rest := CanComplete(threads, n, expected, run + [a], s', ids, id);
      acts := [a] + rest;
    } else {
      DistinctHomesAreHarmless(threads, n, expected, run, ids);
      EachIdCompletesOnce(threads, n, expected, run, id);
      acts := [];
    }
  }

  // ---------------------------------------------------------------- calls that never complete

  /** All contributions to the id were made, and who was in a call for it has left or thrown. */
  predicate Dead(s: State, expected: nat -> nat, id: nat) {
    && HistoryOf(s, id).begun == UpTo(expected(id)) && HistoryOf(s, id).returned == []
    && forall t | 0 <= t < |s.threads| :: InCall(s.threads[t], id) ==> s.threads[t].place.Threw?
  }

  lemma StaysDead(s: State, threads: nat, n: nat, expected: nat -> nat, a: Action, id: nat)
    requires Shape(s, threads, n) && Enabled(s, threads, n, expected, a) && Dead(s, expected, id)
    ensures Dead(Step(s, threads, n, expected, a), expected, id)
  {
    assert IdOf(s, a) != id;
  }

  lemma {:induction false} DeadForEver(s: State, threads: nat, n: nat, expected: nat -> nat, acts: seq<Action>, id: nat)
    requires Dead(s, expected, id) && Later(threads, n, expected, s, acts).Some?
    ensures HistoryOf(Later(threads, n, expected, s, acts).value, id).returned == []
    decreases |acts|
  {
    if acts != [] {
      StaysDead(s, threads, n, expected, acts[0], id);
      DeadForEver(Step(s, threads, n, expected, acts[0]), threads, n, expected, acts[1..], id);
    }
  }

  /** Both worker threads look for the only slot, which holds another id, or have thrown. */
  predicate Waiting(s: State, x: nat, y: nat) {
    && |s.threads| == 3 && |s.table| == 1 && s.table[0].id == x != y && x != 0 && HistoryOf(s, y).returned == []
    && forall t | 1 <= t < 3 :: s.threads[t] == In(y, Probing(0)) || s.threads[t] == In(y, Threw)
  }

  lemma StaysWaiting(s: State, expected: nat -> nat, a: Action, x: nat, y: nat)
    requires Shape(s, 3, 1) && Enabled(s, 3, 1, expected, a) && Waiting(s, x, y)
    ensures Waiting(Step(s, 3, 1, expected, a), x, y)
  {
    assert a.Look?;
  }

  lemma {:induction false} WaitingForEver(s: State, expected: nat -> nat, acts: seq<Action>, x: nat, y: nat)
    requires Waiting(s, x, y) && Later(3, 1, expected, s, acts).Some?
    ensures HistoryOf(Later(3, 1, expected, s, acts).value, y).returned == []
    decreases |acts|
  {
    if acts != [] {
      StaysWaiting(s, expected, acts[0], x, y);
      WaitingForEver(Step(s, 3, 1, expected, acts[0]), expected, acts[1..], x, y);
    }
  }

  // ---------------------------------------------------------------- two ids with one home slot

  ghost predicate Reached(s: State, n: nat, expected: nat -> nat) {
    n > 0 && Shape(s, 3, n) && exists run :: After(3, n, expected, run) == Some(s)
  }

  lemma StepReaches(s: State, n: nat, expected: nat -> nat, a: Action)
    requires Reached(s, n, expected) && Enabled(s, 3, n, expected, a)
    ensures Reached(Step(s, 3, n, expected, a), n, expected)
  {
    var run :| After(3, n, expected, run) == Some(s);
    var next := run + [a];
    assert next[..|next| - 1] == run;
    assert After(3, n, expected, next) == Some(Step(s, 3, n, expected, a));
  }

  /** The histories of the other ids are the same. */
  ghost predicate SameHistories(s: State, r: State, id: nat) {
    forall k: nat | k != id :: HistoryOf(r, k) == HistoryOf(s, k)
  }

  lemma Begins(s: State, n: nat, expected: nat -> nat, t: nat, id: nat, c: nat) returns (r: State)
    requires Reached(s, n, expected) && s.ok && 0 < t < 3 && s.threads[t] == Idle && id != 0
    requires c < expected(id) && c !in HistoryOf(s, id).begun
    ensures Reached(r, n, expected) && r.ok && r.table == s.table
    ensures r.threads == s.threads[t := In(id, Probing(0))]
    ensures id in r.handlers[t] && forall u | 0 <= u < 3 && u != t :: r.handlers[u] == s.handlers[u]
    ensures HistoryOf(r, id) == HistoryOf(s, id).(begun := HistoryOf(s, id).begun + {c}) && SameHistories(s, r, id)
  {
    StepReaches(s, n, expected, Contribute(t, id, c));
    r := Step(s, 3, n, expected, Contribute(t, id, c));
  }

  /** The thread finds the slot taken and goes on. */
  lemma Passes(s: State, n: nat, expected: nat -> nat, t: nat) returns (r: State)
    requires Reached(s, n, expected) && s.ok && 0 < t < 3 && s.threads[t].In? && s.threads[t].place == Probing(0)
    requires !Usable(s.table, s.threads[t].id, Probe(s.threads[t].id, 0, n)) && n > 1 && Limit(s.threads[t].id, n) > 1
    ensures Reached(r, n, expected) && r.ok && r.table == s.table && r.handlers == s.handlers
    ensures r.threads == s.threads[t := In(s.threads[t].id, Probing(1))]
    ensures HistoryOf(r, s.threads[t].id) == HistoryOf(s, s.threads[t].id) && SameHistories(s, r, s.threads[t].id)
  {
    StepReaches(s, n, expected, Look(t));
    r := Step(s, 3, n, expected, Look(t));
  }

  lemma Looks(s: State, n: nat, expected: nat -> nat, t: nat, id: nat, c: nat) returns (r: State)
    requires Reached(s, n, expected) && s.ok && 0 < t < 3 && s.threads[t] == In(id, Probing(c)) && c < n
    requires s.table[Probe(id, c, n)].id == 0 && id != 0
    ensures Reached(r, n, expected) && r.ok && r.table == s.table && r.handlers == s.handlers
    ensures r.threads == s.threads[t := In(id, Claiming(c))]
    ensures HistoryOf(r, id) == HistoryOf(s, id) && SameHistories(s, r, id)
  {
    StepReaches(s, n, expected, Look(t));
    r := Step(s, 3, n, expected, Look(t));
  }

  lemma Claims(s: State, n: nat, expected: nat -> nat, t: nat, id: nat, c: nat) returns (r: State)
    requires Reached(s, n, expected) && s.ok && 0 < t < 3 && s.threads[t] == In(id, Claiming(c)) && c < n
    requires s.table[Probe(id, c, n)] == Slot(0, 0) && id != 0
    ensures var i := Probe(id, c, n);
            && Reached(r, n, expected) && r.ok && r.handlers == s.handlers
            && r.table == s.table[i := Slot(id, 0)] && r.threads == s.threads[t := In(id, MustAdd(i))]
            && HistoryOf(r, id) == HistoryOf(s, id) && SameHistories(s, r, id)
  {
    StepReaches(s, n, expected, Cas(t));
    r := Step(s, 3, n, expected, Cas(t));
  }

  lemma Adds(s: State, n: nat, expected: nat -> nat, t: nat, id: nat, i: nat) returns (r: State)
    requires Reached(s, n, expected) && s.ok && 0 < t < 3 && s.threads[t] == In(id, MustAdd(i)) && i < n
    requires s.table[i] == Slot(id, 0)
    ensures Reached(r, n, expected) && r.ok && r.handlers == s.handlers
    ensures r.table == s.table[i := Slot(id, expected(id))] && r.threads == s.threads[t := In(id, MustSub(i))]
    ensures HistoryOf(r, id) == HistoryOf(s, id).(added := true) && SameHistories(s, r, id)
  {
    StepReaches(s, n, expected, Action.Add(t));
    r := Step(s, 3, n, expected, Action.Add(t));
  }

  lemma Counts(s: State, n: nat, expected: nat -> nat, t: nat, id: nat, i: nat) returns (r: State)
    requires Reached(s, n, expected) && s.ok && 0 < t < 3 && s.threads[t] == In(id, MustSub(i)) && i < n
    requires s.table[i].id == id
    ensures Reached(r, n, expected) && r.ok && r.handlers == s.handlers
    ensures r.table == s.table[i := Slot(id, s.table[i].message - 1)]
    ensures r.threads == s.threads[t := if s.table[i].message == 1 then In(id, Last(i)) else Idle]
    ensures HistoryOf(r, id) == HistoryOf(s, id).(subs := HistoryOf(s, id).subs + 1) && SameHistories(s, r, id)
  {
    StepReaches(s, n, expected, Sub(t));
    r := Step(s, 3, n, expected, Sub(t));
  }

  /** The thread finds the slot free, claims it and adds what is expected. */
  lemma Opens(s: State, n: nat, expected: nat -> nat, t: nat, id: nat, c: nat) returns (r: State)
    requires Reached(s, n, expected) && s.ok && 0 < t < 3 && s.threads[t] == In(id, Probing(c)) && c < n
    requires s.table[Probe(id, c, n)] == Slot(0, 0) && id != 0
    ensures var i := Probe(id, c, n);
            && Reached(r, n, expected) && r.ok && r.handlers == s.handlers
            && r.table == s.table[i := Slot(id, expected(id))] && r.threads == s.threads[t := In(id, MustSub(i))]
            && HistoryOf(r, id) == HistoryOf(s, id).(added := true) && SameHistories(s, r, id)
  {
    r := Looks(s, n, expected, t, id, c);
    r := Claims(r, n, expected, t, id, c);
    r := Adds(r, n, expected, t, id, Probe(id, c, n));
  }

  lemma Releases(s: State, n: nat, expected: nat -> nat, id: nat, i: nat) returns (r: State)
    requires Reached(s, n, expected) && s.ok && s.threads[1] == In(id, Last(i)) && i < n && s.table[i] == Slot(id, 0)
    ensures Reached(r, n, expected) && r.ok && r.handlers == s.handlers
    ensures r.table == s.table[i := Slot(0, 0)] && r.threads == s.threads[1 := In(id, Popping)]
    ensures HistoryOf(r, id) == HistoryOf(s, id) && SameHistories(s, r, id)
  {
    StepReaches(s, n, expected, Release(1));
    r := Step(s, 3, n, expected, Release(1));
  }

  lemma Collects(s: State, n: nat, expected: nat -> nat, id: nat) returns (r: State)
    requires Reached(s, n, expected) && s.ok && s.threads[1] == In(id, Popping) && id in s.handlers[1]
    ensures Reached(r, n, expected) && r.ok && r.table == s.table && r.threads == s.threads[1 := Idle]
    ensures SameHistories(s, r, id)
  {
    StepReaches(s, n, expected, Pop(1));
    var a := Step(s, 3, n, expected, Pop(1));
    var b := CollectsFrom(a, n, expected, id, 1);
    var c := CollectsFrom(b, n, expected, id, 2);
    r := Returns(c, n, expected, id);
    assert r.threads == s.threads[1 := Idle];
  }

  lemma CollectsFrom(s: State, n: nat, expected: nat -> nat, id: nat, k: nat) returns (r: State)
    requires Reached(s, n, expected) && s.ok && s.threads[1].In? && s.threads[1].id == id && k < 3
    requires s.threads[1].place.Collecting? && s.threads[1].place.next == k
    ensures Reached(r, n, expected) && r.ok && r.table == s.table && SameHistories(s, r, id)
    ensures r.threads == s.threads[1 := r.threads[1]] && r.threads[1].In? && r.threads[1].id == id
    ensures r.threads[1].place.Collecting? && r.threads[1].place.next == k + 1
  {
    StepReaches(s, n, expected, Collect(1));
    r := Step(s, 3, n, expected, Collect(1));
  }

  lemma Returns(s: State, n: nat, expected: nat -> nat, id: nat) returns (r: State)
    requires Reached(s, n, expected) && s.ok && s.threads[1].In? && s.threads[1].id == id
    requires s.threads[1].place.Collecting? && s.threads[1].place.next == 3
    ensures Reached(r, n, expected) && r.ok && r.table == s.table && SameHistories(s, r, id)
    ensures r.threads == s.threads[1 := Idle]
  {
    StepReaches(s, n, expected, Return(1));
    r := Step(s, 3, n, expected, Return(1));
  }

  function TwoFor(y: nat): nat -> nat {
    k => if k == y then 2 else 1
  }

  /** A contribution whose id's home slot is free opens an entry there. */
  lemma OpensAtHome(s: State, n: nat, expected: nat -> nat, t: nat, id: nat, c: nat) returns (r: State)
    requires Reached(s, n, expected) && s.ok && 0 < t < 3 && s.threads[t] == Idle && id != 0
    requires c < expected(id) && c !in HistoryOf(s, id).begun && s.table[id % n] == Slot(0, 0)
    ensures Reached(r, n, expected) && r.ok && id in r.handlers[t]
    ensures r.table == s.table[id % n := Slot(id, expected(id))] && r.threads == s.threads[t := In(id, MustSub(id % n))]
    ensures HistoryOf(r, id) == HistoryOf(s, id).(begun := HistoryOf(s, id).begun + {c}, added := true)
    ensures SameHistories(s, r, id)
  {
    r := Begins(s, n, expected, t, id, c);
    r := Opens(r, n, expected, t, id, 0);
  }

  /** Where x holds the home slot of y, the first of two contributions to y opens an entry in the next. */
  lemma OpensNext(s: State, n: nat, expected: nat -> nat, x: nat, y: nat) returns (r: State)
    requires Reached(s, n, expected) && s.ok && s.threads[2] == Idle && 0 < y != x && n > 1 && Limit(y, n) > 1
    requires s.table[y % n].id == x != 0 && s.table[Probe(y, 1, n)] == Slot(0, 0)
    requires expected(y) == 2 && HistoryOf(s, y) == History({}, 0, false, [])
    ensures Reached(r, n, expected) && r.ok && r.threads == s.threads && r.handlers[1] == s.handlers[1]
    ensures r.table == s.table[Probe(y, 1, n) := Slot(y, 1)]
    ensures HistoryOf(r, y) == History({0}, 1, true, []) && SameHistories(s, r, y)
  {
    r := Begins(s, n, expected, 2, y, 0);
    r := Passes(r, n, expected, 2);
    r := OpensAndCounts(r, n, expected, y, 1);
    assert r.threads == s.threads;
  }

  lemma OpensAndCounts(s: State, n: nat, expected: nat -> nat, y: nat, c: nat) returns (r: State)
    requires Reached(s, n, expected) && s.ok && s.threads[2] == In(y, Probing(c)) && y != 0 && c < n
    requires s.table[Probe(y, c, n)] == Slot(0, 0) && expected(y) == 2
    ensures Reached(r, n, expected) && r.ok && r.threads == s.threads[2 := Idle] && r.handlers == s.handlers
    ensures r.table == s.table[Probe(y, c, n) := Slot(y, 1)]
    ensures HistoryOf(r, y) == HistoryOf(s, y).(subs := HistoryOf(s, y).subs + 1, added := true)
    ensures SameHistories(s, r, y)
  {
    var i := Probe(y, c, n);
    var a := Opens(s, n, expected, 2, y, c);
    r := Counts(a, n, expected, 2, y, i);
    SameTwice(s, a, r, y);
    SetTwice(s.table, i, Slot(y, 2), Slot(y, 1));
    SetTwice(s.threads, 2, In(y, MustSub(i)), Idle);
  }

  lemma SameTwice(s: State, a: State, r: State, id: nat)
    requires SameHistories(s, a, id) && SameHistories(a, r, id)
    ensures SameHistories(s, r, id)
  {
  }

  lemma SetTwice<T>(s: seq<T>, i: nat, a: T, b: T)
    requires i < |s|
    ensures s[i := a][i := b] == s[i := b] && s[i := a][i] == a
  {
  }

  /** Thread 1 claims the home slot for x, so that y goes to the next one. */
  lemma XThenY(n: nat, expected: nat -> nat, x: nat, y: nat) returns (s: State)
    requires n > 1 && x != 0 && y != 0 && x != y && x % n == y % n && Limit(y, n) > 1
    requires expected(x) == 1 && expected(y) == 2
    ensures Reached(s, n, expected) && s.ok && s.table[x % n] == Slot(x, 1)
    ensures s.threads == [Idle, In(x, MustSub(x % n)), Idle] && x in s.handlers[1]
    ensures HistoryOf(s, y) == History({0}, 1, true, []) && UsesOnly(s, {x, y})
  {
    var s0 := Init(3, n);
    assert After(3, n, expected, []) == Some(s0);
    s := OpensAtHome(s0, n, expected, 1, x, 0);
    assert HistoryOf(s, y) == HistoryOf(s0, y);
    assert UsesOnly(s, {x, y});
    s := OpensNext(s, n, expected, x, y);
  }

  /** x completes and frees the home slot. */
  lemma XCompletes(s: State, n: nat, expected: nat -> nat, x: nat, y: nat) returns (r: State)
    requires Reached(s, n, expected) && s.ok && x != y
    requires s.threads[1] == In(x, MustSub(x % n)) && x in s.handlers[1] && s.table[x % n] == Slot(x, 1)
    ensures Reached(r, n, expected) && r.ok && r.threads == s.threads[1 := Idle] && r.table[x % n] == Slot(0, 0)
    ensures HistoryOf(r, y) == HistoryOf(s, y) && SameHistories(s, r, x)
  {
    var a := Counts(s, n, expected, 1, x, x % n);
    var b := Releases(a, n, expected, x, x % n);
    r := Collects(b, n, expected, x);
    assert HistoryOf(r, y) == HistoryOf(b, y) == HistoryOf(a, y);
  }

  /** The other contribution to y claims it. */
  lemma YAgain(s: State, n: nat, expected: nat -> nat, y: nat) returns (r: State)
    requires Reached(s, n, expected) && s.ok && y != 0 && expected(y) == 2
    requires s.threads[2] == Idle && s.table[y % n] == Slot(0, 0) && HistoryOf(s, y) == History({0}, 1, true, [])
    ensures Reached(r, n, expected) && r.threads == s.threads
    ensures HistoryOf(r, y) == History({0, 1}, 2, true, []) && SameHistories(s, r, y)
  {
    var a := Begins(s, n, expected, 2, y, 1);
    r := OpensAndCounts(a, n, expected, y, 0);
    assert r.threads == s.threads;
    assert {0} + {1} == {0, 1};
  }

  lemma UsesSame(s: State, r: State, id: nat, ids: set<nat>)
    requires SameHistories(s, r, id) && UsesOnly(s, ids) && id in ids
    ensures UsesOnly(r, ids)
  {
  }

  /** Nobody is left to complete y. */
  lemma NobodyCompletes(s: State, n: nat, expected: nat -> nat, y: nat)
    requires Shape(s, 3, n) && expected(y) == 2 && HistoryOf(s, y) == History({0, 1}, 2, true, [])
    requires s.threads[0] == s.threads[1] == s.threads[2] == Idle
    ensures NeverReturns(3, n, expected, s, y)
  {
    assert {0, 1} == UpTo(2);
    assert Dead(s, expected, y);
    forall acts | Later(3, n, expected, s, acts).Some?
      ensures HistoryOf(Later(3, n, expected, s, acts).value, y).returned == []
    {
      DeadForEver(s, 3, n, expected, acts, y);
    }
  }

  lemma EndsStuck(s: State, n: nat, expected: nat -> nat, ids: set<nat>, y: nat) returns (run: seq<Action>)
    requires Reached(s, n, expected) && UsesOnly(s, ids) && y in ids && (forall k :: 0 < expected(k))
    requires NeverReturns(3, n, expected, s, y)
    ensures Stuck(3, n, expected, run, ids, y)
  {
    run :| After(3, n, expected, run) == Some(s);
  }

  lemma CollisionSplits(n: nat, x: nat, y: nat) returns (run: seq<Action>)
    requires n > 1 && x != 0 && y != 0 && x != y && x % n == y % n && Limit(y, n) > 1
    ensures Stuck(3, n, TwoFor(y), run, {x, y}, y)
  {
    var e := TwoFor(y);
    var a := XThenY(n, e, x, y);
    var b := XCompletes(a, n, e, x, y);
    UsesSame(a, b, x, {x, y});
    var c := YAgain(b, n, e, y);
    UsesSame(b, c, y, {x, y});
    NobodyCompletes(c, n, e, y);
    run := EndsStuck(c, n, e, {x, y}, y);
  }

  /** A run that contributes to these ids only leaves one of them with its message never returned. */
  ghost predicate Stuck(threads: nat, n: nat, expected: nat -> nat, run: seq<Action>, ids: set<nat>, id: nat) {
    && n > 0 && (forall k :: 0 < expected(k)) && After(threads, n, expected, run).Some?
    && UsesOnly(After(threads, n, expected, run).value, ids) && id in ids
    && NeverReturns(threads, n, expected, After(threads, n, expected, run).value, id)
  }

  function Two(): nat -> nat {
    k => 2
  }

  /** One of two contributions to x is made, and x holds the only slot. */
  lemma OneSlotTaken(x: nat, y: nat) returns (s: State)
    requires x != 0 && y != 0 && x != y
    ensures Reached(s, 1, Two()) && s.ok && s.table[0].id == x && s.threads == [Idle, Idle, Idle]
    ensures UsesOnly(s, {x, y}) && HistoryOf(s, y) == History({}, 0, false, [])
  {
    var s0 := Init(3, 1);
    assert After(3, 1, Two(), []) == Some(s0);
    var a := OpensAtHome(s0, 1, Two(), 1, x, 0);
    UsesSame(s0, a, x, {x, y});
    s := Counts(a, 1, Two(), 1, x, 0);
    UsesSame(a, s, x, {x, y});
    assert HistoryOf(s, y) == HistoryOf(a, y) == HistoryOf(s0, y);
  }

  /** In a table of one slot, y waits for x, whose other contribution no thread is left to make. */
  lemma OneSlotWaits(x: nat, y: nat) returns (s: State)
    requires x != 0 && y != 0 && x != y
    ensures Reached(s, 1, Two()) && Waiting(s, x, y) && UsesOnly(s, {x, y}) && HistoryOf(s, y).begun == {0, 1}
  {
    var b := OneSlotTaken(x, y);
    var c := Begins(b, 1, Two(), 1, y, 0);
    UsesSame(b, c, y, {x, y});
    s := Begins(c, 1, Two(), 2, y, 1);
    UsesSame(c, s, y, {x, y});
    assert {0} + {1} == {0, 1};
  }

  lemma OneSlotSticks(x: nat, y: nat) returns (run: seq<Action>)
    requires x != 0 && y != 0 && x != y
    ensures Stuck(3, 1, Two(), run, {x, y}, y)
  {
    var s := OneSlotWaits(x, y);
    assert UpTo(2) == {0, 1};
    forall acts | Later(3, 1, Two(), s, acts).Some?
      ensures HistoryOf(Later(3, 1, Two(), s, acts).value, y).returned == []
    {
      WaitingForEver(s, Two(), acts, x, y);
    }
    run := EndsStuck(s, 1, Two(), {x, y}, y);
  }

  /** Of two ids with the same home slot one can be stuck for ever, with three threads already: no call
      finds that it is complete, or in a table of one slot the calls wait for a slot that nobody frees. */
  lemma SharedHomesCanStick(n: nat, x: nat, y: nat) returns (id: nat, expected: nat -> nat, run: seq<Action>)
    requires n > 0 && x != 0 && y != 0 && x != y && x % n == y % n
    ensures Stuck(3, n, expected, run, {x, y}, id)
  {
    if n == 1 {
      id, expected := y, Two();
      run := OneSlotSticks(x, y);
    } else if Limit(y, n) > 1 {
      id, expected := y, TwoFor(y);
      run := CollisionSplits(n, x, y);
    } else {
      assert n == 2 && x % 2 == y % 2;
      id, expected := x, TwoFor(x);
      run := CollisionSplits(n, y, x);
      assert {y, x} == {x, y};
    }
  }

  lemma StuckAmongMore(n: nat, expected: nat -> nat, run: seq<Action>, few: set<nat>, ids: set<nat>, id: nat)
    requires Stuck(3, n, expected, run, few, id) && few <= ids
    ensures Stuck(3, n, expected, run, ids, id)
  {
  }

  // ---------------------------------------------------------------- which ids

  /** Exactly which ids can be reduced at once: with pairwise different home slots, in every run, whatever
      the interleaving, the number of threads and of contributions, an id with all contributions made can
      still complete; with any others not. */
  lemma HomesDecide(n: nat, ids: set<nat>)
    requires n > 0 && 0 !in ids
    ensures DistinctHomes(ids, n) <==>
            forall threads: nat, expected: nat -> nat, run, id: nat :: !Stuck(threads, n, expected, run, ids, id)
  {
    if DistinctHomes(ids, n) {
      forall threads: nat, expected: nat -> nat, run, id: nat ensures !Stuck(threads, n, expected, run, ids, id) {
        if Stuck(threads, n, expected, run, ids, id) {
          var s := After(threads, n, expected, run).value;
          var acts := CanComplete(threads, n, expected, run, s, ids, id);
        }
      }
    } else {
      var x, y :| x in ids && y in ids && x != y && x % n == y % n;
      var id, expected, run := SharedHomesCanStick(n, x, y);
      StuckAmongMore(n, expected, run, {x, y}, ids, id);
    }
  }

  // ---------------------------------------------------------------- the threads' own tables

  function Union(a: multiset<nat>, b: multiset<nat>): multiset<nat> {
    a + b
  }

  /** What a step does to the table in which thread t stores its data. */
  function TableOps(s: State, threads: nat, n: nat, expected: nat -> nat, a: Action, t: nat)
    : seq<TableOp<multiset<nat>>>
    requires Shape(s, threads, n) && Enabled(s, threads, n, expected, a) && t < threads
  {
    var id := IdOf(s, a);
    if a.Contribute? && a.t == t then [TableOp.Add(id, multiset{a.c})]
    else if a.Pop? && a.t == t then [Take(id)]
    else if a.Collect? && a.t != t && s.threads[a.t].place.next == t && id in s.handlers[t] then [Take(id)]
    else []
  }

  function Operations(threads: nat, n: nat, expected: nat -> nat, run: seq<Action>, t: nat)
    : seq<TableOp<multiset<nat>>>
    requires n > 0 && t < threads
  {
    if run == [] then []
    else
      var s := After(threads, n, expected, run[..|run| - 1]);
      Operations(threads, n, expected, run[..|run| - 1], t)
      + if s.Some? && Enabled(s.value, threads, n, expected, run[|run| - 1])
        then TableOps(s.value, threads, n, expected, run[|run| - 1], t) else []
  }

  /** An id finds its home slot free or its own. */
  lemma StopsAtHome<M>(table: seq<Slot<M>>, ids: set<nat>, id: nat)
    requires TableAtHome(table, ids) && 0 < |table| && DistinctHomes(ids, |table|) && id in ids && id != 0
    ensures StopFrom(table, id, 0) == Some(id % |table|)
  {
    assert Probe(id, 0, |table|) == id % |table|;
  }

  lemma FindsAtHome<M>(table: seq<Slot<M>>, ids: set<nat>, id: nat)
    requires TableAtHome(table, ids) && 0 < |table| && FindFrom(table, id, 0).Some? && id != 0
    ensures FindFrom(table, id, 0).value == id % |table| && Harmless(table, id % |table|)
  {
    var i := id % |table|;
    forall j | 0 <= j < |table| && j != i && table[j].id != 0
      ensures Dist(table[j].id, j, |table|) < Dist(table[j].id, i, |table|)
    {
      assert table[j].id % |table| == j;
    }
  }

  predicate OpsOn<M>(ops: seq<TableOp<M>>, ids: set<nat>) {
    forall i | 0 <= i < |ops| :: ops[i].id in ids
  }

  /** In a table of ids with different home slots no release harms. */
  lemma {:induction false} HomeTable<M>(n: nat, ops: seq<TableOp<M>>, ids: set<nat>, op: (M, M) -> M, empty: M)
    requires n > 0 && DistinctHomes(ids, n) && 0 !in ids && OpsOn(ops, ids)
    ensures HarmlessRun(n, ops, op, empty) && TableAtHome(TableAfter(n, ops, op, empty), ids)
  {
    if ops != [] {
      var before, o := ops[..|ops| - 1], ops[|ops| - 1];
      HomeTable(n, before, ids, op, empty);
      var s := TableAfter(n, before, op, empty);
      if o.Add? {
        StopsAtHome(s, ids, o.id);
      } else if FindFrom(s, o.id, 0).Some? {
        FindsAtHome(s, ids, o.id);
      }
    }
  }

  /** And it is never full for one of them. */
  lemma HomeTableIsMap<M>(n: nat, ops: seq<TableOp<M>>, ids: set<nat>, op: (M, M) -> M, empty: M)
    requires n > 0 && DistinctHomes(ids, n) && 0 !in ids && OpsOn(ops, ids)
    ensures Represents(TableAfter(n, ops, op, empty), MapAfter(n, ops, op))
    ensures forall id | id in ids && id !in MapAfter(n, ops, op) :: |MapAfter(n, ops, op)| != n
  {
    HomeTable(n, ops, ids, op, empty);
    RunsRefineMap(n, ops, op, empty);
    forall id | id in ids && id !in MapAfter(n, ops, op) ensures |MapAfter(n, ops, op)| != n {
      StopsAtHome(TableAfter(n, ops, op, empty), ids, id);
      FullBySize(TableAfter(n, ops, op, empty), MapAfter(n, ops, op), id);
    }
  }

  lemma OpsStep<M>(n: nat, ops: seq<TableOp<M>>, o: TableOp<M>, op: (M, M) -> M)
    ensures MapAfter(n, ops + [o], op) == MapStep(n, MapAfter(n, ops, op), o, op)
  {
    assert (ops + [o])[..|ops|] == ops;
  }

  /** A step changes the map of a thread as its table operations do, unless the table is too full. */
  lemma HandlerStep(s: State, threads: nat, n: nat, expected: nat -> nat, a: Action, t: nat)
    requires Shape(s, threads, n) && Enabled(s, threads, n, expected, a) && t < threads
    requires a.Pop? ==> s.threads[a.t].id in s.handlers[a.t]
    requires IdOf(s, a) !in s.handlers[t] ==> |s.handlers[t]| != n
    requires IdOf(s, a) != 0
    ensures var more := TableOps(s, threads, n, expected, a, t);
            var s' := Step(s, threads, n, expected, a);
            s'.handlers[t] == if more == [] then s.handlers[t] else MapStep(n, s.handlers[t], more[0], Union)
  {
  }

  lemma HandlerOps(threads: nat, n: nat, expected: nat -> nat, s: State, a: Action, ids: set<nat>, t: nat,
                   ops: seq<TableOp<multiset<nat>>>)
    requires Inv(s, threads, n, expected) && Enabled(s, threads, n, expected, a) && t < threads
    requires n > 0 && DistinctHomes(ids, n) && 0 !in ids && OpsOn(ops, ids) && IdOf(s, a) in ids
    requires s.handlers[t] == MapAfter(n, ops, Union)
    ensures var more := TableOps(s, threads, n, expected, a, t);
            OpsOn(ops + more, ids) && Step(s, threads, n, expected, a).handlers[t] == MapAfter(n, ops + more, Union)
  {
    var more := TableOps(s, threads, n, expected, a, t);
    HomeTableIsMap(n, ops, ids, Union, multiset{});
    if a.Pop? {
      PopSucceeds(s, threads, n, expected, a.t);
    }
    HandlerStep(s, threads, n, expected, a, t);
    if more == [] {
      assert ops + more == ops;
    } else {
      assert more == [more[0]];
      OpsStep(n, ops, more[0], Union);
    }
  }

  /** With different home slots, what a thread stores is what its table of the same size holds: in every
      run it is the map of the insertions and pops made on it, its releases are harmless, and it is never
      too full for one of the ids. */
  lemma {:induction false} HandlersAreTables(threads: nat, n: nat, expected: nat -> nat, run: seq<Action>,
                                             ids: set<nat>, t: nat)
    requires n > 0 && After(threads, n, expected, run).Some? && DistinctHomes(ids, n) && 0 !in ids && t < threads
    requires UsesOnly(After(threads, n, expected, run).value, ids) && forall id :: 0 < expected(id)
    ensures var handler := After(threads, n, expected, run).value.handlers[t];
            var ops := Operations(threads, n, expected, run, t);
            && OpsOn(ops, ids) && handler == MapAfter(n, ops, Union)
            && Represents(TableAfter(n, ops, Union, multiset{}), handler)
            && forall id | id in ids && id !in handler :: |handler| != n
  {
    if run != [] {
      var before, a := run[..|run| - 1], run[|run| - 1];
      var s := After(threads, n, expected, before).value;
      UsesMore(s, threads, n, expected, a, ids);
      HandlersAreTables(threads, n, expected, before, ids, t);
      RunsKeepHome(threads, n, expected, before, s, ids);
      HandlerOps(threads, n, expected, s, a, ids, t, Operations(threads, n, expected, before, t));
    }
    HomeTableIsMap(n, Operations(threads, n, expected, run, t), ids, Union, multiset{});
  }
}

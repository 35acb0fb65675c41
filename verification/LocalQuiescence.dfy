/** Quiescence detection inside one process (the SKR algorithm) together with the worker loop and the
    driver loop around it, interleaved at the granularity of single accesses to the shared counters
    and queues. The atomics are sequentially consistent. */
module LocalQuiescence {
  import opened Wrappers

  const MISS_COUNT_FOR_IDLE := 20
  const LOCAL_QD_COUNTS_FOR_GLOBAL_QD := 50

  // ---------------------------------------------------------------- the check, called alone

  /** What is_quiescent does when nothing else runs meanwhile: the answer, the new phase and the new
      previous count. */
  function Verdict(phase: int, previous: int, idle: int, sent: int, processed: int, total: int)
    : (bool, int, int)
    requires phase == 1 || phase == 2
  {
    if phase == 1 then
      if idle == total && sent == processed then (false, 2, sent) else (false, 1, previous)
    else
      if idle == total && sent == processed && previous == sent then (true, 2, previous)
      else (false, 1, previous)
  }

  class Local {
    var phase: int
    var idle: int
    var sent: int
    var processed: int
    var previous: int

    constructor ()
      ensures phase == 1 && idle == sent == processed == previous == 0
    {
      phase, idle, sent, processed, previous := 1, 0, 0, 0, 0;
    }

    /** None stands for the exception thrown on an invalid phase. */
    method IsQuiescent(total: int) returns (r: Option<bool>)
      modifies this`phase, this`previous
      ensures r.None? <==> old(phase) != 1 && old(phase) != 2
      ensures r.None? ==> phase == old(phase) && previous == old(previous)
      ensures r.Some? ==>
                (r.value, phase, previous) == Verdict(old(phase), old(previous), idle, sent, processed, total)
      ensures old(phase) == 1 ==>
                && r == Some(false)
                && (idle == total && sent == processed ==> phase == 2 && previous == sent)
                && (idle != total || sent != processed ==> phase == 1 && previous == old(previous))
      ensures old(phase) == 2 ==>
                && previous == old(previous)
                && (idle == total && sent == processed && sent == previous ==> r == Some(true) && phase == 2)
                && (idle != total || sent != processed || sent != previous ==> r == Some(false) && phase == 1)
    {
      if phase == 1 {
        if idle != total {
          return Some(false);
        }
        var count := sent;
        if count == processed {
          previous := count;
          phase := 2;
          return Some(false);
        }
        return Some(false);
      } else if phase == 2 {
        if idle != total {
          phase := 1;
          return Some(false);
        }
        var count := sent;
        if count == processed && previous == count {
          return Some(true);
        }
        phase := 1;
        return Some(false);
      }
      return None;
    }

    method Reset()
      modifies this
      ensures phase == 1 && idle == sent == processed == previous == 0
    {
      phase := 1;
      previous := 0;
      idle := 0;
      sent := 0;
      processed := 0;
    }
  }

  /** Two calls in a quiet process, with nothing sent between, detect it. */
  method CallTwice(l: Local, total: int) returns (first: Option<bool>, second: Option<bool>)
    requires l.phase == 1 && l.idle == total && l.sent == l.processed
    modifies l`phase, l`previous
    ensures first == Some(false) && second == Some(true)
  {
    first := l.IsQuiescent(total);
    second := l.IsQuiescent(total);
  }

  // ---------------------------------------------------------------- the interleaved system

  /** Where a worker is in its loop. miss is -1 while the worker is counted as idle. */
  datatype Worker =
    | Polling(miss: int)                      // about to try to dequeue
    | GoingIdle                               // missed often enough, about to increment the idle count
    | Waking                                  // has a task, about to decrement the idle count
    | Executing(miss: int, pending: nat)      // running it; pending tasks are counted, not enqueued

  /** Where the driver thread is in run_to_quiescence. */
  datatype Driver =
    | Communicating                           // receives, sends and clean-up
    | AtIdleRead                              // the lists were empty; inside is_quiescent
    | AtSentRead
    | AtProcessedRead(count: int)
    | Passive                                 // is_quiescent returned true
    | InGlobalCheck                           // inside global_qd_.check

  /** queue holds tasks, outgoing holds messages for other processes, incoming and inFlight are the
      driver's lists of open MPI receives and sends. */
  datatype State = State(workers: seq<Worker>, queue: nat, outgoing: nat,
                         idle: int, sent: int, processed: int,
                         driver: Driver, driverPending: nat, phase: int, previous: int, qdCounter: int,
                         incoming: nat, inFlight: nat)

  datatype Action =
    | Dequeue(w: nat) | Miss(w: nat) | MarkIdle(w: nat) | Wake(w: nat)
    | Send(w: nat) | Enqueue(w: nat, k: nat) | Forward(w: nat) | Finish(w: nat) | Requeue(w: nat)
    | DriverSend | DriverEnqueue(k: nat) | DriverForward | DriverTake | DriverMpi(i: nat, o: nat)
    | TestLists | ReadIdle | ReadSent | ReadProcessed | Resume | CheckFails

  /** After launch_threads: the counters are reset and no task is queued. */
  function Init(threads: nat, outgoing: nat): State {
    State(seq(threads, _ => Polling(0)), 0, outgoing, 0, 0, 0, Communicating, 0, 1, 0, 0, 0, 0)
  }

  predicate WorkerEnabled(s: State, a: Action) {
    match a
    case Dequeue(w) => w < |s.workers| && s.workers[w].Polling? && s.queue > 0
    case Miss(w) => w < |s.workers| && s.workers[w].Polling?
    case MarkIdle(w) => w < |s.workers| && s.workers[w].GoingIdle?
    case Wake(w) => w < |s.workers| && s.workers[w].Waking?
    case Send(w) => w < |s.workers| && s.workers[w].Executing?
    case Enqueue(w, k) => w < |s.workers| && s.workers[w].Executing? && k <= s.workers[w].pending
    case Forward(w) => w < |s.workers| && s.workers[w].Executing?
    case Finish(w) => w < |s.workers| && s.workers[w].Executing? && s.workers[w].pending == 0
    case Requeue(w) => w < |s.workers| && s.workers[w].Executing? && s.workers[w].pending == 0
    case _ => false
  }

  predicate DriverEnabled(s: State, a: Action) {
    match a
    case DriverSend => s.driver.Communicating?
    case DriverEnqueue(k) => s.driver.Communicating? && k <= s.driverPending
    case DriverForward => s.driver.Communicating?
    case DriverTake => s.driver.Communicating? && s.outgoing > 0
    case DriverMpi(_, _) => s.driver.Communicating?
    case TestLists => s.driver.Communicating? && s.driverPending == 0
    case ReadIdle => s.driver.AtIdleRead?
    case ReadSent => s.driver.AtSentRead?
    case ReadProcessed => s.driver.AtProcessedRead?
    case Resume => s.driver.Passive?
    case CheckFails => s.driver.InGlobalCheck?
    case _ => false
  }

  predicate Enabled(s: State, a: Action) {
    WorkerEnabled(s, a) || DriverEnabled(s, a)
  }

  function WorkerStep(s: State, a: Action): State
    requires WorkerEnabled(s, a)
  {
    match a
    case Dequeue(w) =>
      s.(queue := s.queue - 1,
         workers := s.workers[w := if s.workers[w].miss == -1 then Waking else Executing(s.workers[w].miss, 0)])
    case Miss(w) =>
      var miss := if s.workers[w].miss != -1 then s.workers[w].miss + 1 else -1;
      s.(workers := s.workers[w := if miss == MISS_COUNT_FOR_IDLE then GoingIdle else Polling(miss)])
    case MarkIdle(w) =>
      s.(idle := s.idle + 1, workers := s.workers[w := Polling(-1)])
    case Wake(w) =>
      s.(idle := s.idle - 1, workers := s.workers[w := Executing(0, 0)])
    case Send(w) =>
      s.(sent := s.sent + 1, workers := s.workers[w := s.workers[w].(pending := s.workers[w].pending + 1)])
    case Enqueue(w, k) =>
      s.(queue := s.queue + k, workers := s.workers[w := s.workers[w].(pending := s.workers[w].pending - k)])
    case Forward(w) =>
      s.(outgoing := s.outgoing + 1)
    case Finish(w) =>
      s.(processed := s.processed + 1, workers := s.workers[w := Polling(s.workers[w].miss)])
    case Requeue(w) =>
      s.(queue := s.queue + 1, workers := s.workers[w := Polling(s.workers[w].miss)])
  }

  function DriverStep(s: State, a: Action): State
    requires DriverEnabled(s, a)
  {
    match a
    case DriverSend => s.(sent := s.sent + 1, driverPending := s.driverPending + 1)
    case DriverEnqueue(k) => s.(queue := s.queue + k, driverPending := s.driverPending - k)
    case DriverForward => s.(outgoing := s.outgoing + 1)
    case DriverTake => s.(outgoing := s.outgoing - 1)
    case DriverMpi(i, o) => s.(incoming := i, inFlight := o)
    case TestLists =>
      if s.incoming != 0 || s.inFlight != 0 || s.outgoing != 0 then s else s.(driver := AtIdleRead)
    case ReadIdle =>
      if s.idle == |s.workers| then s.(driver := AtSentRead) else s.(driver := Communicating, phase := 1)
    case ReadSent => s.(driver := AtProcessedRead(s.sent))
    case ReadProcessed =>
      var count := s.driver.count;
      if s.phase == 1 then
        if count == s.processed then s.(driver := Communicating, phase := 2, previous := count)
        else s.(driver := Communicating)
      else
        if count == s.processed && s.previous == count then
          s.(driver := Passive, qdCounter := s.qdCounter + 1)
        else s.(driver := Communicating, phase := 1)
    case Resume =>
      if s.qdCounter >= LOCAL_QD_COUNTS_FOR_GLOBAL_QD then s.(driver := InGlobalCheck, qdCounter := 0)
      else s.(driver := Communicating)
    case CheckFails => s.(driver := Communicating)
  }

  function Step(s: State, a: Action): State
    requires Enabled(s, a)
  {
    if WorkerEnabled(s, a) then WorkerStep(s, a) else DriverStep(s, a)
  }

  function After(threads: nat, outgoing: nat, run: seq<Action>): Option<State> {
    if run == [] then Some(Init(threads, outgoing))
    else
      var before := After(threads, outgoing, run[..|run| - 1]);
      if before.Some? && Enabled(before.value, run[|run| - 1])
      then Some(Step(before.value, run[|run| - 1]))
      else None
  }

  /** The driver's three reads, done without interference, are the check of the class above. */
  lemma ReadsWithoutInterference(s: State)
    requires s.driver == AtIdleRead && (s.phase == 1 || s.phase == 2)
    ensures var s1 := Step(s, ReadIdle);
            var s2 := if s1.driver.AtSentRead? then Step(Step(s1, ReadSent), ReadProcessed) else s1;
            (s2.driver == Passive, s2.phase, s2.previous) ==
            Verdict(s.phase, s.previous, s.idle, s.sent, s.processed, |s.workers|)
  {
  }

  // ---------------------------------------------------------------- the invariant

  function Tasks(w: Worker): nat {
    match w
    case Polling(_) => 0
    case GoingIdle => 0
    case Waking => 1
    case Executing(_, pending) => 1 + pending
  }

  function CountedIdle(w: Worker): nat {
    if w == Polling(-1) || w == Waking then 1 else 0
  }

  function AllTasks(ws: seq<Worker>): nat {
    if ws == [] then 0 else AllTasks(ws[..|ws| - 1]) + Tasks(ws[|ws| - 1])
  }

  function AllIdle(ws: seq<Worker>): nat {
    if ws == [] then 0 else AllIdle(ws[..|ws| - 1]) + CountedIdle(ws[|ws| - 1])
  }

  lemma {:induction false} UpdateWorker(ws: seq<Worker>, i: nat, w: Worker)
    requires i < |ws|
    ensures AllTasks(ws[i := w]) == AllTasks(ws) - Tasks(ws[i]) + Tasks(w)
    ensures AllIdle(ws[i := w]) == AllIdle(ws) - CountedIdle(ws[i]) + CountedIdle(w)
  {
    var n := |ws| - 1;
    if i < n {
      UpdateWorker(ws[..n], i, w);
      assert ws[i := w][..n] == ws[..n][i := w];
    } else {
      assert ws[i := w][..n] == ws[..n];
    }
  }

  lemma {:induction false} Totals(ws: seq<Worker>)
    ensures AllTasks(ws) == 0 <==> forall i | 0 <= i < |ws| :: Tasks(ws[i]) == 0
    ensures AllIdle(ws) == |ws| <==> forall i | 0 <= i < |ws| :: CountedIdle(ws[i]) == 1
    ensures AllIdle(ws) <= |ws|
  {
    if ws != [] {
      Totals(ws[..|ws| - 1]);
      assert forall i | 0 <= i < |ws| - 1 :: ws[i] == ws[..|ws| - 1][i];
    }
  }

  /** No task is queued, running or about to be queued. */
  predicate NoTasks(s: State) {
    s.queue == 0 && AllTasks(s.workers) == 0 && s.driverPending == 0
  }

  predicate Quiescent(s: State) {
    s.queue == 0 && s.driverPending == 0 && forall i | 0 <= i < |s.workers| :: s.workers[i] == Polling(-1)
  }

  /** The miss count stays below the idle threshold; only a polling worker is marked idle. */
  predicate MissInRange(w: Worker) {
    (w.Polling? ==> -1 <= w.miss < MISS_COUNT_FOR_IDLE) && (w.Executing? ==> 0 <= w.miss < MISS_COUNT_FOR_IDLE)
  }

  predicate Counters(s: State) {
    && (forall i | 0 <= i < |s.workers| :: MissInRange(s.workers[i]))
    && s.idle == AllIdle(s.workers)
    && s.sent - s.processed == s.queue + AllTasks(s.workers) + s.driverPending
    && (s.phase == 1 || s.phase == 2)
    && (s.driverPending != 0 ==> s.driver.Communicating?)
    && (!s.driver.Communicating? ==> s.incoming == 0 == s.inFlight)
  }

  /** What the driver may conclude from what it has read, although the system moved on meanwhile. */
  predicate Knowledge(s: State) {
    && (s.phase == 2 ==> s.previous <= s.sent && (s.sent == s.previous ==> NoTasks(s)))
    && (s.driver == AtIdleRead && s.phase == 2 && s.sent == s.previous ==> s.outgoing == 0)
    && (s.driver == AtSentRead && s.phase == 2 && s.sent == s.previous ==> s.outgoing == 0 && s.idle == |s.workers|)
    && (s.driver.AtProcessedRead? ==>
          && s.driver.count <= s.sent
          && (s.phase == 2 && s.driver.count == s.previous ==> NoTasks(s) && s.outgoing == 0 && s.idle == |s.workers|))
    && (s.driver == Passive || s.driver == InGlobalCheck ==> NoTasks(s) && s.outgoing == 0 && s.idle == |s.workers|)
  }

  predicate Inv(s: State) {
    Counters(s) && Knowledge(s)
  }

  lemma {:induction false} FreshWorkers(ws: seq<Worker>)
    requires forall i | 0 <= i < |ws| :: ws[i] == Polling(0)
    ensures AllTasks(ws) == 0 == AllIdle(ws)
  {
    if ws != [] {
      FreshWorkers(ws[..|ws| - 1]);
    }
  }

  /** Without tasks a worker can only miss and be counted idle. */
  lemma WorkerStepWithoutTasks(s: State, a: Action)
    requires Counters(s) && WorkerEnabled(s, a) && NoTasks(s)
    ensures var s' := WorkerStep(s, a);
            NoTasks(s') && s'.outgoing == s.outgoing && s'.sent == s.sent && s'.processed == s.processed
            && (s.idle == |s.workers| ==> s'.idle == |s'.workers|)
  {
    Totals(s.workers);
    assert Tasks(s.workers[a.w]) == 0;
    UpdateWorker(s.workers, a.w, WorkerStep(s, a).workers[a.w]);
  }

  lemma WorkerStepKeepsInv(s: State, a: Action)
    requires Inv(s) && WorkerEnabled(s, a)
    ensures Inv(WorkerStep(s, a))
  {
    var s' := WorkerStep(s, a);
    UpdateWorker(s.workers, a.w, s'.workers[a.w]);
    assert s.workers[a.w := s.workers[a.w]] == s.workers;
    if NoTasks(s) {
      WorkerStepWithoutTasks(s, a);
    }
  }

  lemma DriverStepKeepsInv(s: State, a: Action)
    requires Inv(s) && DriverEnabled(s, a)
    ensures Inv(DriverStep(s, a))
  {
  }

  lemma {:induction false} RunsKeepInv(threads: nat, outgoing: nat, run: seq<Action>)
    requires After(threads, outgoing, run).Some?
    ensures Inv(After(threads, outgoing, run).value)
  {
    if run == [] {
      FreshWorkers(Init(threads, outgoing).workers);
    } else {
      var last := |run| - 1;
      RunsKeepInv(threads, outgoing, run[..last]);
      var s := After(threads, outgoing, run[..last]).value;
      if WorkerEnabled(s, run[last]) {
        WorkerStepKeepsInv(s, run[last]);
      } else {
        DriverStepKeepsInv(s, run[last]);
      }
    }
  }

  lemma NothingToDoIsQuiescent(s: State)
    requires Counters(s) && NoTasks(s) && s.idle == |s.workers|
    ensures Quiescent(s)
  {
    Totals(s.workers);
    forall i | 0 <= i < |s.workers| ensures s.workers[i] == Polling(-1) {
      assert CountedIdle(s.workers[i]) == 1 && Tasks(s.workers[i]) == 0;
    }
  }

  // ---------------------------------------------------------------- what every run does

  /** SKR is sound under every interleaving: whenever is_quiescent has returned true, no task is
      queued or executing and every worker is idle, although the counters were read one by one. */
  lemma LocalDetectionIsSound(threads: nat, outgoing: nat, run: seq<Action>)
    requires After(threads, outgoing, run).Some?
    requires After(threads, outgoing, run).value.driver == Passive
    ensures Quiescent(After(threads, outgoing, run).value)
  {
    RunsKeepInv(threads, outgoing, run);
    NothingToDoIsQuiescent(After(threads, outgoing, run).value);
  }

  /** Quiescence lasts until the driver adds a task: no other step ends it or queues a message. */
  lemma QuiescenceLasts(s: State, a: Action)
    requires Quiescent(s) && Enabled(s, a) && a != DriverSend
    ensures Quiescent(Step(s, a))
    ensures a != DriverForward ==> Step(s, a).outgoing <= s.outgoing
    ensures Step(s, a).sent == s.sent && Step(s, a).processed == s.processed
  {
  }

  /** Whenever the global check is called, the process is passive: no task is queued or running, both
      MPI lists and the outgoing queue are empty, although the queue was tested before the local
      check. */
  lemma PassiveAtGlobalCheck(threads: nat, outgoing: nat, run: seq<Action>)
    requires After(threads, outgoing, run).Some?
    requires After(threads, outgoing, run).value.driver == InGlobalCheck
    ensures var s := After(threads, outgoing, run).value;
            Quiescent(s) && s.outgoing == 0 && s.incoming == 0 && s.inFlight == 0
  {
    RunsKeepInv(threads, outgoing, run);
    NothingToDoIsQuiescent(After(threads, outgoing, run).value);
  }

  // ---------------------------------------------------------------- a quiet process is detected

  /** The state after more steps. */
  function Later(s: State, acts: seq<Action>): Option<State>
    decreases |acts|
  {
    if acts == [] then Some(s) else if Enabled(s, acts[0]) then Later(Step(s, acts[0]), acts[1..]) else None
  }

  /** The driver's steps when it has no work. */
  predicate Looks(a: Action) {
    a.TestLists? || a.ReadIdle? || a.ReadSent? || a.ReadProcessed? || a.Resume?
  }

  /** Workers do what they do, and the driver only looks. */
  predicate OnlyLooks(acts: seq<Action>) {
    forall i | 0 <= i < |acts| :: Looks(acts[i]) || acts[i].Dequeue? || acts[i].Miss? || acts[i].MarkIdle?
                                  || acts[i].Wake? || acts[i].Send? || acts[i].Enqueue? || acts[i].Forward?
                                  || acts[i].Finish? || acts[i].Requeue?
  }

  /** How many steps the driver takes. */
  function DriverSteps(acts: seq<Action>): nat {
    if acts == [] then 0 else (if Looks(acts[0]) then 1 else 0) + DriverSteps(acts[1..])
  }

  /** Nothing is to be done here, and what the driver has read is up to date. */
  predicate Still(s: State) {
    && Quiescent(s) && Counters(s) && s.outgoing == 0 && s.incoming == 0 && s.inFlight == 0
    && (s.driver.AtProcessedRead? ==> s.driver.count == s.sent)
    && (s.driver == Passive ==> s.phase == 2 && s.previous == s.sent)
    && 0 <= s.qdCounter && (if s.driver == Passive then s.qdCounter <= 50 else s.qdCounter < 50)
  }

  /** How many more checks the driver makes until one returns true. */
  function ChecksLeft(s: State): nat {
    if s.phase == 1 then 2 else if s.previous == s.sent then 1 else 3
  }

  /** How many more steps it takes until the local check has returned true. */
  function StepsToPassive(s: State): int {
    match s.driver
    case Communicating => 4 * ChecksLeft(s)
    case AtIdleRead => 4 * ChecksLeft(s) - 1
    case AtSentRead => 4 * ChecksLeft(s) - 2
    case AtProcessedRead(_) => 4 * ChecksLeft(s) - 3
    case Passive => 0
    case InGlobalCheck => 0
  }

  /** And until the global check is called. */
  function StepsToGlobal(s: State): int {
    match s.driver
    case InGlobalCheck => 0
    case Passive => 1 + 5 * (50 - s.qdCounter)
    case _ => StepsToPassive(s) + 1 + 5 * (49 - s.qdCounter)
  }

  lemma StillCounts(s: State)
    requires Still(s)
    ensures s.idle == |s.workers| && s.sent == s.processed
  {
    Totals(s.workers);
  }

  /** The workers of a quiet process change nothing. */
  lemma WorkersKeepStill(s: State, a: Action)
    requires Still(s) && WorkerEnabled(s, a)
    ensures WorkerStep(s, a) == s
  {
    assert s.workers[a.w := s.workers[a.w]] == s.workers;
  }

  /** Each step of the driver brings it one step closer. */
  lemma LookingAdvances(s: State, a: Action)
    requires Still(s) && Enabled(s, a) && Looks(a)
    ensures var s' := Step(s, a);
            && Still(s') && StepsToGlobal(s') == StepsToGlobal(s) - 1
            && (s.driver != Passive ==> StepsToPassive(s') == StepsToPassive(s) - 1)
  {
    StillCounts(s);
  }

  /** Unless it is in the global check it can take one. */
  lemma CanLook(s: State)
    requires Still(s) && s.driver != InGlobalCheck
    ensures exists a :: Looks(a) && Enabled(s, a)
  {
    var a := match s.driver
             case Communicating => TestLists
             case AtIdleRead => ReadIdle
             case AtSentRead => ReadSent
             case AtProcessedRead(_) => ReadProcessed
             case _ => Resume;
    assert Looks(a) && Enabled(s, a);
  }

  lemma {:induction false} LookingEnds(s: State, acts: seq<Action>)
    requires Still(s) && OnlyLooks(acts) && Later(s, acts).Some?
    ensures Still(Later(s, acts).value)
    ensures DriverSteps(acts) == StepsToGlobal(s) - StepsToGlobal(Later(s, acts).value)
    decreases |acts|
  {
    if acts != [] {
      if Looks(acts[0]) {
        LookingAdvances(s, acts[0]);
      } else {
        WorkersKeepStill(s, acts[0]);
      }
      LookingEnds(Step(s, acts[0]), acts[1..]);
    }
  }

  /** The step after which the local check has returned true. */
  lemma {:induction false} PassesPassive(s: State, acts: seq<Action>) returns (k: nat)
    requires Still(s) && OnlyLooks(acts) && Later(s, acts).Some?
    requires 0 < StepsToPassive(s) <= DriverSteps(acts)
    ensures k <= |acts| && Later(s, acts[..k]).Some? && Later(s, acts[..k]).value.driver == Passive
    ensures DriverSteps(acts[..k]) == StepsToPassive(s)
    decreases |acts|
  {
    var t := Step(s, acts[0]);
    if Looks(acts[0]) {
      LookingAdvances(s, acts[0]);
    } else {
      WorkersKeepStill(s, acts[0]);
    }
    if t.driver == Passive {
      k := 1;
      assert acts[..1] == [acts[0]] && [acts[0]][1..] == [];
    } else {
      k := PassesPassive(t, acts[1..]);
      k := k + 1;
      assert acts[..k][0] == acts[0] && acts[..k][1..] == acts[1..][..k - 1];
    }
  }

  /** The driver has not called the global check more often than it should. */
  predicate QdCounterOk(s: State) {
    0 <= s.qdCounter && if s.driver == Passive then s.qdCounter <= 50 else s.qdCounter < 50
  }

  lemma {:induction false} RunsKeepQdCounter(threads: nat, outgoing: nat, run: seq<Action>)
    requires After(threads, outgoing, run).Some?
    ensures QdCounterOk(After(threads, outgoing, run).value)
  {
    if run != [] {
      RunsKeepQdCounter(threads, outgoing, run[..|run| - 1]);
    }
  }

  /** Local detection is complete, for every run: once a process is quiet and its driver communicates with
      nothing to send or receive, then, whatever the workers do, the check returns true after at most
      three rounds of the driver, and after at most 258 steps of the driver the global check is called. */
  lemma QuietIsDetectedLocally(threads: nat, outgoing: nat, run: seq<Action>, acts: seq<Action>)
    requires After(threads, outgoing, run).Some?
    requires var s := After(threads, outgoing, run).value;
             && Quiescent(s) && s.outgoing == 0 && s.incoming == 0 && s.inFlight == 0
             && s.driver == Communicating && Later(s, acts).Some?
    requires OnlyLooks(acts)
    ensures var s := After(threads, outgoing, run).value;
            && (Later(s, acts).value.driver == InGlobalCheck
                || exists a :: Looks(a) && Enabled(Later(s, acts).value, a))
            && DriverSteps(acts) <= 258
            && (DriverSteps(acts) >= 12 ==>
                  exists k :: 0 <= k <= |acts| && DriverSteps(acts[..k]) <= 12 && Later(s, acts[..k]).Some?
                              && Later(s, acts[..k]).value.driver == Passive)
  {
    var s := After(threads, outgoing, run).value;
    RunsKeepInv(threads, outgoing, run);
    RunsKeepQdCounter(threads, outgoing, run);
    LookingEnds(s, acts);
    if Later(s, acts).value.driver != InGlobalCheck {
      CanLook(Later(s, acts).value);
    }
    if DriverSteps(acts) >= 12 {
      var k := PassesPassive(s, acts);
    }
  }

  function Takes(k: nat): seq<Action> {
    if k == 0 then [] else [DriverTake] + Takes(k - 1)
  }

  /** A driver that communicates can send everything off, one message after the other, and then finds its
      lists empty. */
  lemma {:induction false} Drains(s: State)
    requires s.driver == Communicating
    ensures Later(s, Takes(s.outgoing)) == Some(s.(outgoing := 0))
    ensures Later(s.(outgoing := 0), [DriverMpi(0, 0)]) == Some(s.(outgoing := 0, incoming := 0, inFlight := 0))
    decreases s.outgoing
  {
    if s.outgoing > 0 {
      assert Takes(s.outgoing)[1..] == Takes(s.outgoing - 1);
      Drains(Step(s, DriverTake));
    }
    assert [DriverMpi(0, 0)][1..] == [];
  }

  // ---------------------------------------------------------------- workers without tasks become idle

  /** How many steps the worker takes until it is counted as idle, when it finds no task. */
  function StepsToIdle(w: Worker): int {
    match w
    case Polling(miss) => if miss == -1 then 0 else MISS_COUNT_FOR_IDLE - miss + 1
    case GoingIdle => 1
    case _ => 0
  }

  /** Without tasks every step of a worker that is not idle brings it closer to that, and one is possible. */
  lemma WorkersSettle(s: State, w: nat)
    requires Counters(s) && NoTasks(s) && w < |s.workers| && s.workers[w] != Polling(-1)
    ensures WorkerEnabled(s, Miss(w)) || WorkerEnabled(s, MarkIdle(w))
    ensures 0 < StepsToIdle(s.workers[w]) <= 21 && (s.workers[w] == Polling(0) ==> StepsToIdle(s.workers[w]) == 21)
    ensures forall a | WorkerEnabled(s, a) && a.w == w ::
              && WorkerStep(s, a).workers == s.workers[w := WorkerStep(s, a).workers[w]]
              && StepsToIdle(WorkerStep(s, a).workers[w]) == StepsToIdle(s.workers[w]) - 1
              && (StepsToIdle(s.workers[w]) == 1 ==> WorkerStep(s, a).workers[w] == Polling(-1))
  {
    Totals(s.workers);
    assert Tasks(s.workers[w]) == 0;
  }
}

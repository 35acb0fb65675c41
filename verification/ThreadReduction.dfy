/** The reduction of one id across the threads of one process, as a step system in which every access
    to shared state is one step: a contribution goes into the thread's own DataHandler, then
    Counter::increment decides who collects all threads' data. */
module ThreadReduction {
  import opened FiniteSets
  import opened Wrappers

  /** Where a thread is in Handler::insert_or_combine. Loaded: it found the counter's slot free.
      MustAdd: it claimed the slot. MustSub: the slot is claimed. Last: its decrement found 1.
      Collecting: it combines the handlers from `next` on into data. */
  datatype Pc = Idle | Inserted | Loaded | MustAdd | MustSub | Last | Popping
              | Collecting(data: multiset<nat>, next: nat)

  /** handlers: what each thread's DataHandler stores under the id, as the bag of contributions combined
      so far. key: whether the counter's slot holds the id. begun, subs and added are history: which
      contributions were made, how many decrements, and whether the expected number was added. */
  datatype State = State(pc: seq<Pc>, handlers: seq<Option<multiset<nat>>>, key: bool, counter: int,
                         begun: set<nat>, subs: nat, added: bool, returned: seq<multiset<nat>>, ok: bool)

  datatype Action = Contribute(t: nat, c: nat) | Load(t: nat) | Cas(t: nat) | Add(t: nat) | Sub(t: nat)
                  | Release(t: nat) | Pop(t: nat) | Collect(t: nat) | Return(t: nat)

  function Combined(h: Option<multiset<nat>>, data: multiset<nat>): multiset<nat> {
    if h.None? then data else h.value + data
  }

  predicate Shape(s: State, threads: nat) {
    |s.pc| == |s.handlers| == threads
  }

  /** Thread 0 is the communication thread and contributes nothing; expected is the number of
      contributions of the process. */
  predicate Enabled(s: State, threads: nat, expected: nat, a: Action)
    requires Shape(s, threads)
  {
    && s.ok && 0 < a.t < threads
    && match a
       case Contribute(t, c) => s.pc[t] == Idle && c < expected && c !in s.begun
       case Load(t) => s.pc[t] == Inserted
       case Cas(t) => s.pc[t] == Loaded
       case Add(t) => s.pc[t] == MustAdd
       case Sub(t) => s.pc[t] == MustSub
       case Release(t) => s.pc[t] == Last
       case Pop(t) => s.pc[t] == Popping
       case Collect(t) => s.pc[t].Collecting? && s.pc[t].next < threads
       case Return(t) => s.pc[t].Collecting? && s.pc[t].next >= threads
  }

  function Step(s: State, threads: nat, expected: nat, a: Action): State
    requires Shape(s, threads) && Enabled(s, threads, expected, a)
  {
    match a
    case Contribute(t, c) =>
      s.(handlers := s.handlers[t := Some(Combined(s.handlers[t], multiset{c}))], begun := s.begun + {c},
         pc := s.pc[t := Inserted])
    case Load(t) => s.(pc := s.pc[t := if s.key then MustSub else Loaded])
    // A failed exchange finds the id there: another thread claimed the slot in between.
    case Cas(t) => s.(key := true, pc := s.pc[t := if s.key then MustSub else MustAdd])
    case Add(t) => s.(counter := s.counter + expected, added := true, pc := s.pc[t := MustSub])
    case Sub(t) =>
      s.(counter := s.counter - 1, subs := s.subs + 1, pc := s.pc[t := if s.counter == 1 then Last else Idle])
    case Release(t) => s.(key := false, pc := s.pc[t := Popping])
    case Pop(t) =>
      if s.handlers[t].None? then s.(ok := false)
      else s.(handlers := s.handlers[t := None], pc := s.pc[t := Collecting(s.handlers[t].value, 1)])
    case Collect(t) =>
      var i := s.pc[t].next;
      if i == t || s.handlers[i].None? then s.(pc := s.pc[t := s.pc[t].(next := i + 1)])
      else s.(handlers := s.handlers[i := None],
              pc := s.pc[t := Collecting(s.pc[t].data + s.handlers[i].value, i + 1)])
    case Return(t) => s.(returned := s.returned + [s.pc[t].data], pc := s.pc[t := Idle])
  }

  function Init(threads: nat): State {
    State(seq(threads, _ => Idle), seq(threads, _ => None), false, 0, {}, 0, false, [], true)
  }

  function After(threads: nat, expected: nat, run: seq<Action>): (s: Option<State>)
    ensures s.Some? ==> Shape(s.value, threads)
  {
    if run == [] then Some(Init(threads))
    else
      var before := After(threads, expected, run[..|run| - 1]);
      if before.Some? && Enabled(before.value, threads, expected, run[|run| - 1])
      then Some(Step(before.value, threads, expected, run[|run| - 1])) else None
  }

  // ---------------------------------------------------------------- the invariant

  predicate Busy(pc: Pc) {
    pc.Inserted? || pc.Loaded? || pc.MustAdd? || pc.MustSub?
  }

  predicate Completing(pc: Pc) {
    pc.Last? || pc.Popping? || pc.Collecting?
  }

  function BusyThreads(s: State): set<nat> {
    set t: nat | t < |s.pc| && Busy(s.pc[t])
  }

  /** How often contribution c is stored in the handlers. */
  function Stored(handlers: seq<Option<multiset<nat>>>, c: nat): nat {
    if handlers == [] then 0
    else
      var h := handlers[|handlers| - 1];
      Stored(handlers[..|handlers| - 1], c) + Held(h, c)
  }

  function Held(h: Option<multiset<nat>>, c: nat): nat {
    if h.None? then 0 else h.value[c]
  }

  lemma {:induction false} StoredUpdate(handlers: seq<Option<multiset<nat>>>, t: nat, h: Option<multiset<nat>>, c: nat)
    requires t < |handlers|
    ensures Stored(handlers[t := h], c) == Stored(handlers, c) - Held(handlers[t], c) + Held(h, c)
  {
    var last := |handlers| - 1;
    if t < last {
      StoredUpdate(handlers[..last], t, h, c);
      assert handlers[t := h][..last] == handlers[..last][t := h];
    } else {
      assert handlers[t := h][..last] == handlers[..last];
    }
  }

  lemma {:induction false} NothingStored(handlers: seq<Option<multiset<nat>>>, c: nat)
    requires forall t | 0 <= t < |handlers| :: handlers[t].None?
    ensures Stored(handlers, c) == 0
  {
    if handlers != [] {
      NothingStored(handlers[..|handlers| - 1], c);
    }
  }

  /** How often contribution c is with threads that are collecting. */
  function InHand(pc: seq<Pc>, c: nat): nat {
    if pc == [] then 0
    else InHand(pc[..|pc| - 1], c) + With(pc[|pc| - 1], c)
  }

  function With(pc: Pc, c: nat): nat {
    if pc.Collecting? then pc.data[c] else 0
  }

  lemma {:induction false} InHandUpdate(pc: seq<Pc>, t: nat, x: Pc, c: nat)
    requires t < |pc|
    ensures InHand(pc[t := x], c) == InHand(pc, c) - With(pc[t], c) + With(x, c)
  {
    var last := |pc| - 1;
    if t < last {
      InHandUpdate(pc[..last], t, x, c);
      assert pc[t := x][..last] == pc[..last][t := x];
    } else {
      assert pc[t := x][..last] == pc[..last];
    }
  }

  lemma {:induction false} NothingInHand(pc: seq<Pc>, c: nat)
    requires forall t | 0 <= t < |pc| :: !pc[t].Collecting?
    ensures InHand(pc, c) == 0
  {
    if pc != [] {
      NothingInHand(pc[..|pc| - 1], c);
    }
  }

  /** How often contribution c is anywhere. */
  function Copies(s: State, c: nat): nat {
    Stored(s.handlers, c) + InHand(s.pc, c) + if s.returned == [] then 0 else s.returned[0][c]
  }

  /** The bag of all contributions of the process, each once. */
  function Everything(expected: nat): (m: multiset<nat>)
    ensures forall c: nat :: m[c] == if c < expected then 1 else 0
  {
    if expected == 0 then multiset{} else Everything(expected - 1) + multiset{expected - 1}
  }

  /** Every call made has been counted down or is under way. */
  ghost predicate TallyOk(s: State, expected: nat) {
    && s.counter == (if s.added then expected else 0) - s.subs
    && |s.begun| == s.subs + |BusyThreads(s)|
    && (forall c | c in s.begun :: c < expected)
  }

  /** The slot of the counter is claimed once, and the claimer adds the expected number. */
  ghost predicate ClaimOk(s: State, threads: nat, expected: nat)
    requires Shape(s, threads)
  {
    && (!s.added && !s.key ==> s.subs == 0)
    && (s.added && !s.key ==> s.subs == expected)
    && (s.key && !s.added ==> exists t :: 0 <= t < threads && s.pc[t].MustAdd?)
    && (forall t | 0 <= t < threads && s.pc[t].MustAdd? :: s.key && !s.added)
    && (forall t, u | 0 <= t < u < threads && s.pc[t].MustAdd? :: !s.pc[u].MustAdd?)
    && (forall t | 0 <= t < threads && s.pc[t].MustSub? :: s.key)
  }

  /** Only one thread completes, after the last decrement. */
  ghost predicate CompletionOk(s: State, threads: nat, expected: nat)
    requires Shape(s, threads)
  {
    && (forall t | 0 <= t < threads && Completing(s.pc[t]) ::
          s.subs == expected && s.added && s.key == s.pc[t].Last? && s.returned == [])
    && (forall t, u | 0 <= t < u < threads && Completing(s.pc[t]) :: !Completing(s.pc[u]))
    && (s.subs == expected && s.returned == [] ==> exists t :: 0 <= t < threads && Completing(s.pc[t]))
    && (s.returned != [] ==> s.subs == expected && s.added && !s.key && |s.returned| == 1)
  }

  /** Where thread t's contributions may be. */
  predicate PlaceOk(s: State, threads: nat, t: nat)
    requires Shape(s, threads) && t < threads
  {
    && (Busy(s.pc[t]) || s.pc[t].Last? || s.pc[t].Popping? ==> s.handlers[t].Some?)
    && (s.pc[t].Collecting? ==>
          s.handlers[t].None? && 1 <= s.pc[t].next
          && forall u | 0 <= u < threads && u < s.pc[t].next :: s.handlers[u].None?)
    && (s.returned != [] ==> s.handlers[t].None?)
    && (t == 0 ==> s.handlers[0].None? && s.pc[0] == Idle)
  }

  /** Every contribution is in exactly one place. */
  ghost predicate DataOk(s: State, threads: nat)
    requires Shape(s, threads)
  {
    && (forall t | 0 <= t < threads :: PlaceOk(s, threads, t))
    && (forall c: nat :: Copies(s, c) == if c in s.begun then 1 else 0)
  }

  ghost predicate Inv(s: State, threads: nat, expected: nat) {
    && Shape(s, threads) && s.ok && TallyOk(s, expected) && ClaimOk(s, threads, expected)
    && CompletionOk(s, threads, expected) && DataOk(s, threads)
  }

  lemma InitInv(threads: nat, expected: nat)
    requires 0 < expected
    ensures Inv(Init(threads), threads, expected)
  {
    var s := Init(threads);
    assert BusyThreads(s) == {};
    forall c: nat ensures Copies(s, c) == 0 {
      NothingStored(s.handlers, c);
      NothingInHand(s.pc, c);
    }
  }

  /** Thread t moves on to x; its handler may change. */
  lemma CopiesAfter(s: State, s': State, threads: nat, t: nat, u: nat, c: nat)
    requires Shape(s, threads) && t < threads && u < threads
    requires Shape(s', threads) && s'.pc == s.pc[t := s'.pc[t]] && s'.handlers == s.handlers[u := s'.handlers[u]]
    ensures Stored(s'.handlers, c) == Stored(s.handlers, c) - Held(s.handlers[u], c) + Held(s'.handlers[u], c)
    ensures InHand(s'.pc, c) == InHand(s.pc, c) - With(s.pc[t], c) + With(s'.pc[t], c)
  {
    StoredUpdate(s.handlers, u, s'.handlers[u], c);
    InHandUpdate(s.pc, t, s'.pc[t], c);
  }

  lemma BusyAfter(s: State, s': State, threads: nat, t: nat)
    requires Shape(s, threads) && Shape(s', threads) && t < threads && s'.pc == s.pc[t := s'.pc[t]]
    ensures |BusyThreads(s')| == |BusyThreads(s)| - (if Busy(s.pc[t]) then 1 else 0) + (if Busy(s'.pc[t]) then 1 else 0)
  {
    var others := BusyThreads(s) - {t};
    assert BusyThreads(s) == if Busy(s.pc[t]) then others + {t} else others;
    assert BusyThreads(s') == if Busy(s'.pc[t]) then others + {t} else others;
  }

  /** Once every expected contribution has been counted down, all were made and no call is under way. */
  lemma AllCounted(s: State, threads: nat, expected: nat)
    requires Inv(s, threads, expected)
    ensures s.subs + |BusyThreads(s)| <= expected
    ensures s.subs == expected ==>
              && BusyThreads(s) == {}
              && forall c: nat :: c in s.begun <==> c < expected
  {
    SubsetSize(s.begun, UpTo(expected));
  }

  lemma TallyAfter(s: State, s': State, threads: nat, expected: nat, t: nat)
    requires Shape(s, threads) && Shape(s', threads) && t < threads && TallyOk(s, expected)
    requires s'.pc == s.pc[t := s'.pc[t]]
    requires s'.counter - s.counter == (if s'.added == s.added then 0 else expected) - (s'.subs - s.subs)
    requires s.added ==> s'.added
    requires |s'.begun| - |s.begun| == s'.subs - s.subs
               + (if Busy(s'.pc[t]) then 1 else 0) - (if Busy(s.pc[t]) then 1 else 0)
    requires forall c | c in s'.begun :: c < expected
    ensures TallyOk(s', expected)
  {
    BusyAfter(s, s', threads, t);
  }

  /** Contributions begin calls, decrements end them, and the other steps do neither. */
  lemma StepTally(s: State, threads: nat, expected: nat, a: Action)
    requires Inv(s, threads, expected) && Enabled(s, threads, expected, a)
    ensures var s' := Step(s, threads, expected, a);
            && s'.pc == s.pc[a.t := s'.pc[a.t]]
            && s'.begun == (if a.Contribute? then s.begun + {a.c} else s.begun)
            && s'.subs == s.subs + (if a.Sub? then 1 else 0)
            && (Busy(s'.pc[a.t]) <==> (Busy(s.pc[a.t]) && !a.Sub?) || a.Contribute?)
            && (a.Contribute? ==> !Busy(s.pc[a.t]) && a.c !in s.begun && a.c < expected)
            && (a.Sub? ==> Busy(s.pc[a.t]))
            && s'.added == (s.added || a.Add?) && (a.Add? ==> !s.added)
            && s'.counter == s.counter + (if a.Add? then expected else if a.Sub? then -1 else 0)
  {
    assert PlaceOk(s, threads, a.t);
  }

  lemma StepKeepsTally(s: State, threads: nat, expected: nat, a: Action)
    requires Inv(s, threads, expected) && Enabled(s, threads, expected, a)
    ensures TallyOk(Step(s, threads, expected, a), expected)
  {
    StepTally(s, threads, expected, a);
    TallyAfter(s, Step(s, threads, expected, a), threads, expected, a.t);
  }

  /** The slot is free only when nobody is past the claim. */
  lemma FreeSlotMeansNobody(s: State, threads: nat, expected: nat, t: nat)
    requires Inv(s, threads, expected) && t < threads && Busy(s.pc[t])
    ensures !s.key ==> !s.added && s.subs == 0
    ensures s.subs < expected
  {
    AllCounted(s, threads, expected);
    assert t in BusyThreads(s);
  }

  lemma StepKeepsClaim(s: State, threads: nat, expected: nat, a: Action)
    requires Inv(s, threads, expected) && Enabled(s, threads, expected, a)
    ensures ClaimOk(Step(s, threads, expected, a), threads, expected)
  {
    var s' := Step(s, threads, expected, a);
    if Busy(s.pc[a.t]) {
      FreeSlotMeansNobody(s, threads, expected, a.t);
    }
    if a.Contribute? || a.Release? {
      AllCounted(s, threads, expected);
      assert forall t: nat | t < threads :: t in BusyThreads(s) <==> Busy(s.pc[t]);
    }
    ClaimerRemains(s, s', threads, expected, a);
  }

  lemma ClaimerRemains(s: State, s': State, threads: nat, expected: nat, a: Action)
    requires Inv(s, threads, expected) && Enabled(s, threads, expected, a) && s' == Step(s, threads, expected, a)
    ensures s'.key && !s'.added ==> exists t :: 0 <= t < threads && s'.pc[t].MustAdd?
  {
    if s'.key && !s'.added {
      if s.key {
        var t :| 0 <= t < threads && s.pc[t].MustAdd?;
        assert s'.pc[t].MustAdd?;
      } else {
        assert s'.pc[a.t].MustAdd?;
      }
    }
  }

  /** The last decrement comes after the addition: the claimer's own decrement is still to come
      before it. */
  lemma LastSubFollowsAdd(s: State, threads: nat, expected: nat, t: nat)
    requires Inv(s, threads, expected) && t < threads && s.pc[t].MustSub? && s.subs + 1 == expected
    ensures s.added && s.counter == 1
  {
    AllCounted(s, threads, expected);
    if u :| 0 <= u < threads && s.pc[u].MustAdd? {
      SubsetSize({t, u}, BusyThreads(s));
    }
  }

  lemma StepKeepsCompletion(s: State, threads: nat, expected: nat, a: Action)
    requires 0 < expected && Inv(s, threads, expected) && Enabled(s, threads, expected, a)
    ensures CompletionOk(Step(s, threads, expected, a), threads, expected)
  {
    var s' := Step(s, threads, expected, a);
    AllCounted(s, threads, expected);
    assert a.t in BusyThreads(s) <==> Busy(s.pc[a.t]);
    assert PlaceOk(s, threads, a.t);
    if s'.subs == expected && s'.returned == [] {
      if a.Sub? {
        LastSubFollowsAdd(s, threads, expected, a.t);
        assert Completing(s'.pc[a.t]);
      } else {
        var t :| 0 <= t < threads && Completing(s.pc[t]);
        assert Completing(s'.pc[t]);
      }
    }
  }

  /** Nobody else is in the middle of a call while a thread completes. */
  lemma CompletingAlone(s: State, threads: nat, expected: nat, t: nat, u: nat)
    requires Inv(s, threads, expected) && t < threads && u < threads && t != u
    requires Completing(s.pc[t]) || s.returned != []
    ensures s.pc[u] == Idle || (s.returned != [] && Completing(s.pc[u]))
    ensures forall c: nat | c < expected :: c in s.begun
  {
    AllCounted(s, threads, expected);
    assert u in BusyThreads(s) <==> Busy(s.pc[u]);
  }

  lemma StepKeepsPlace(s: State, threads: nat, expected: nat, a: Action, t: nat)
    requires 0 < expected && Inv(s, threads, expected) && Enabled(s, threads, expected, a) && t < threads
    ensures PlaceOk(Step(s, threads, expected, a), threads, t)
  {
    assert PlaceOk(s, threads, t) && PlaceOk(s, threads, a.t) && PlaceOk(s, threads, 0);
    assert a.t in BusyThreads(s) <==> Busy(s.pc[a.t]);
    if t != a.t && Completing(s.pc[t]) {
      CompletingAlone(s, threads, expected, t, a.t);
    }
    if t != a.t && Completing(s.pc[a.t]) {
      CompletingAlone(s, threads, expected, a.t, t);
    }
    if s.returned != [] {
      AllCounted(s, threads, expected);
    }
  }

  /** Steps that move no data. */
  lemma CallStepKeepsCopies(s: State, threads: nat, expected: nat, a: Action, c: nat)
    requires Inv(s, threads, expected) && Enabled(s, threads, expected, a)
    requires a.Load? || a.Cas? || a.Add? || a.Sub? || a.Release?
    ensures Copies(Step(s, threads, expected, a), c) == Copies(s, c)
  {
    CopiesAfter(s, Step(s, threads, expected, a), threads, a.t, a.t, c);
  }

  lemma CollectionKeepsCopies(s: State, threads: nat, expected: nat, a: Action, c: nat)
    requires Inv(s, threads, expected) && Enabled(s, threads, expected, a) && (a.Pop? || a.Collect? || a.Return?)
    ensures Copies(Step(s, threads, expected, a), c) == Copies(s, c)
  {
    var u := if a.Collect? then s.pc[a.t].next else a.t;
    CopiesAfter(s, Step(s, threads, expected, a), threads, a.t, u, c);
    assert PlaceOk(s, threads, a.t) && Completing(s.pc[a.t]);
  }

  lemma ContributionAddsCopy(s: State, threads: nat, expected: nat, a: Action, c: nat)
    requires Inv(s, threads, expected) && Enabled(s, threads, expected, a) && a.Contribute?
    ensures Copies(Step(s, threads, expected, a), c) == Copies(s, c) + if c == a.c then 1 else 0
  {
    CopiesAfter(s, Step(s, threads, expected, a), threads, a.t, a.t, c);
  }

  lemma StepKeepsCopies(s: State, threads: nat, expected: nat, a: Action, c: nat)
    requires Inv(s, threads, expected) && Enabled(s, threads, expected, a)
    ensures Copies(Step(s, threads, expected, a), c) == if c in Step(s, threads, expected, a).begun then 1 else 0
  {
    assert Copies(s, c) == if c in s.begun then 1 else 0;
    match a
    case Contribute(_, _) => ContributionAddsCopy(s, threads, expected, a, c);
    case Pop(_) => CollectionKeepsCopies(s, threads, expected, a, c);
    case Collect(_) => CollectionKeepsCopies(s, threads, expected, a, c);
    case Return(_) => CollectionKeepsCopies(s, threads, expected, a, c);
    case _ => CallStepKeepsCopies(s, threads, expected, a, c);
  }

  lemma StepKeepsInv(s: State, threads: nat, expected: nat, a: Action)
    requires 0 < expected && Inv(s, threads, expected) && Enabled(s, threads, expected, a)
    ensures Inv(Step(s, threads, expected, a), threads, expected)
  {
    assert PlaceOk(s, threads, a.t);
    StepKeepsTally(s, threads, expected, a);
    StepKeepsClaim(s, threads, expected, a);
    StepKeepsCompletion(s, threads, expected, a);
    forall t | 0 <= t < threads ensures PlaceOk(Step(s, threads, expected, a), threads, t) {
      StepKeepsPlace(s, threads, expected, a, t);
    }
    forall c: nat
      ensures Copies(Step(s, threads, expected, a), c) == if c in Step(s, threads, expected, a).begun then 1 else 0
    {
      StepKeepsCopies(s, threads, expected, a, c);
    }
  }

  lemma {:induction false} RunsKeepInv(threads: nat, expected: nat, run: seq<Action>)
    requires 0 < expected && After(threads, expected, run).Some?
    ensures Inv(After(threads, expected, run).value, threads, expected)
  {
    if run == [] {
      InitInv(threads, expected);
    } else {
      var before := run[..|run| - 1];
      RunsKeepInv(threads, expected, before);
      StepKeepsInv(After(threads, expected, before).value, threads, expected, run[|run| - 1]);
    }
  }

  // ---------------------------------------------------------------- what every run does

  lemma ReturnedHasEverything(s: State, threads: nat, expected: nat)
    requires Inv(s, threads, expected) && s.returned != []
    ensures s.returned[0] == Everything(expected)
    ensures forall t | 0 <= t < threads :: s.handlers[t].None?
  {
    AllCounted(s, threads, expected);
    forall t | 0 <= t < threads ensures s.handlers[t].None? && !s.pc[t].Collecting? {
      assert PlaceOk(s, threads, t);
      assert !Completing(s.pc[t]);
    }
    forall c: nat ensures s.returned[0][c] == Everything(expected)[c] {
      assert Copies(s, c) == if c in s.begun then 1 else 0;
      NothingStored(s.handlers, c);
      NothingInHand(s.pc, c);
    }
  }

  /** In every run at most one call returns a message. It has every contribution of the process exactly
      once, and leaves the id in no thread's handler, the counter at 0 and its slot free. No pop fails. */
  lemma OneThreadCompletes(threads: nat, expected: nat, run: seq<Action>)
    requires 0 < expected && After(threads, expected, run).Some?
    ensures var s := After(threads, expected, run).value;
            && s.ok && |s.returned| <= 1
            && (s.returned != [] ==>
                  && s.returned[0] == Everything(expected)
                  && (forall t | 0 <= t < threads :: s.handlers[t].None?)
                  && s.counter == 0 && !s.key)
  {
    var s := After(threads, expected, run).value;
    RunsKeepInv(threads, expected, run);
    if s.returned != [] {
      ReturnedHasEverything(s, threads, expected);
    }
  }

  /** A run that can go no further has made and returned everything: the last of the expected calls to
      count down is the one that collects. */
  lemma SomeThreadCompletes(threads: nat, expected: nat, run: seq<Action>)
    requires 0 < expected && 1 < threads && After(threads, expected, run).Some?
    requires forall a: Action | a.t < threads :: !Enabled(After(threads, expected, run).value, threads, expected, a)
    ensures After(threads, expected, run).value.returned == [Everything(expected)]
  {
    var s := After(threads, expected, run).value;
    RunsKeepInv(threads, expected, run);
    OneThreadCompletes(threads, expected, run);
    AllCounted(s, threads, expected);
    forall t: nat | t < threads ensures s.pc[t] == Idle {
      StuckMeansIdle(s, threads, expected, t);
    }
    assert BusyThreads(s) == {};
    if s.begun != UpTo(expected) {
      var c :| c in UpTo(expected) && c !in s.begun;
      assert Enabled(s, threads, expected, Contribute(1, c));
    }
  }

  lemma StuckMeansIdle(s: State, threads: nat, expected: nat, t: nat)
    requires Inv(s, threads, expected) && t < threads
    requires forall a: Action | a.t < threads :: !Enabled(s, threads, expected, a)
    ensures s.pc[t] == Idle
  {
    var a := match s.pc[t]
             case Idle => Load(t)
             case Inserted => Load(t)
             case Loaded => Cas(t)
             case MustAdd => Add(t)
             case MustSub => Sub(t)
             case Last => Release(t)
             case Popping => Pop(t)
             case Collecting(_, next) => if next < threads then Collect(t) else Return(t);
    assert PlaceOk(s, threads, t);
    assert a.t == t;
    assert !Enabled(s, threads, expected, a);
  }

  // ---------------------------------------------------------------- the collecting loop

  /** The loop of the completing thread when nobody else contributes to the id any more: it takes every
      contribution that is stored, and leaves the id nowhere. */
  method CollectThreads(handlers: array<Option<multiset<nat>>>, thread: nat) returns (data: multiset<nat>)
    requires 0 < thread < handlers.Length && handlers[thread].Some? && handlers[0].None?
    modifies handlers
    ensures forall c: nat :: data[c] == Stored(old(handlers[..]), c)
    ensures forall i | 0 <= i < handlers.Length :: handlers[i].None?
  {
    ghost var was := handlers[..];
    data := handlers[thread].value;
    TakenFrom(handlers[..], thread);
    handlers[thread] := None;
    assert handlers[..] == was[thread := None];
    var i := 1;
    while i < handlers.Length
      invariant 1 <= i <= handlers.Length && handlers[thread].None?
      invariant forall u | 0 <= u < i :: handlers[u].None?
      invariant forall c: nat :: data[c] + Stored(handlers[..], c) == Stored(was, c)
    {
      if i != thread && handlers[i].Some? {
        ghost var now := handlers[..];
        TakenFrom(now, i);
        data := data + handlers[i].value;
        handlers[i] := None;
        assert handlers[..] == now[i := None];
      }
      i := i + 1;
    }
    forall c: nat ensures Stored(handlers[..], c) == 0 {
      NothingStored(handlers[..], c);
    }
  }

  lemma TakenFrom(handlers: seq<Option<multiset<nat>>>, i: nat)
    requires i < |handlers| && handlers[i].Some?
    ensures forall c: nat :: Stored(handlers, c) == Stored(handlers[i := None], c) + handlers[i].value[c]
  {
    forall c: nat ensures Stored(handlers, c) == Stored(handlers[i := None], c) + handlers[i].value[c] {
      StoredUpdate(handlers, i, None, c);
    }
  }
}

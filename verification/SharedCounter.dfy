/** Several reductions at once on the threads of one process: they share the table of the counter. Every
    access to shared state is one step. As long as no released slot is on the way of another id, each
    reduction behaves as if it were alone; a release that is can keep a reduction from ever completing. */
module SharedCounter {
  import opened Arithmetic
  import opened FiniteSets
  import opened Wrappers
  import opened ProbeTable
  import opened ReductionCounter
  import R = ThreadReduction

  /** Where a thread is in Handler::insert_or_combine for its id. Probing and Claiming: it looks at the
      slot number c in its probe order, and found that one free. Then the slot of the call. */
  datatype Place = Probing(c: nat) | Claiming(c: nat) | MustAdd(slot: nat) | MustSub(slot: nat) | Last(slot: nat)
                 | Popping | Collecting(data: multiset<nat>, next: nat) | Threw

  datatype Thread = Idle | In(id: nat, place: Place)

  /** What happened for one id: the contributions made, the decrements, whether the expected number was
      added, and the messages returned. */
  datatype History = History(begun: set<nat>, subs: nat, added: bool, returned: seq<multiset<nat>>)

  /** table: the counter's keys and counters. handlers: what each thread stores for each id. */
  datatype State = State(threads: seq<Thread>, handlers: seq<map<nat, multiset<nat>>>, table: seq<Slot<int>>,
                         history: map<nat, History>, ok: bool)

  datatype Action = Contribute(t: nat, id: nat, c: nat) | Look(t: nat) | Cas(t: nat) | Add(t: nat) | Sub(t: nat)
                  | Release(t: nat) | Pop(t: nat) | Collect(t: nat) | Return(t: nat)

  function HistoryOf(s: State, id: nat): History {
    if id in s.history then s.history[id] else History({}, 0, false, [])
  }

  function Entry(handler: map<nat, multiset<nat>>, id: nat): Option<multiset<nat>> {
    if id in handler then Some(handler[id]) else None
  }

  predicate Shape(s: State, threads: nat, n: nat) {
    |s.threads| == |s.handlers| == threads && |s.table| == n > 0 && forall t | 0 <= t < threads :: ThreadOk(s, t)
  }

  predicate ThreadOk(s: State, t: nat)
    requires t < |s.threads|
  {
    s.threads[t].In? ==>
      && s.threads[t].id != 0
      && match s.threads[t].place
         case Probing(c) => c < |s.table|
         case Claiming(c) => c < |s.table|
         case MustAdd(i) => i < |s.table|
         case MustSub(i) => i < |s.table|
         case Last(i) => i < |s.table|
         case _ => true
  }

  /** On to the next slot; for small ids the loop ends before the last. */
  function Next(id: nat, c: nat, n: nat): Place
    requires c < n
  {
    if GivesUp(id, n) && c + 1 == Limit(id, n) then Threw else if c + 1 == n then Probing(0) else Probing(c + 1)
  }

  /** The slot that thread t accesses next. */
  function SlotOf(s: State, threads: nat, n: nat, t: nat): (i: nat)
    requires Shape(s, threads, n) && t < threads && s.threads[t].In?
    ensures i < n
  {
    assert ThreadOk(s, t);
    match s.threads[t].place
    case Probing(c) => Probe(s.threads[t].id, c, n)
    case Claiming(c) => Probe(s.threads[t].id, c, n)
    case MustAdd(i) => i
    case MustSub(i) => i
    case Last(i) => i
    case _ => 0
  }

  predicate Enabled(s: State, threads: nat, n: nat, expected: nat -> nat, a: Action)
    requires Shape(s, threads, n)
  {
    && s.ok && 0 < a.t < threads
    && var th := s.threads[a.t];
       if a.Contribute? then
         th.Idle? && a.id != 0 && a.c < expected(a.id) && a.c !in HistoryOf(s, a.id).begun
       else
         th.In? && match a
                   case Look(_) => th.place.Probing?
                   case Cas(_) => th.place.Claiming?
                   case Add(_) => th.place.MustAdd?
                   case Sub(_) => th.place.MustSub?
                   case Release(_) => th.place.Last?
                   case Pop(_) => th.place.Popping?
                   case Collect(_) => th.place.Collecting? && th.place.next < threads
                   case Return(_) => th.place.Collecting? && th.place.next >= threads
                   case Contribute(_, _, _) => false
  }

  /** The id of the call a step belongs to. */
  function IdOf(s: State, a: Action): nat
    requires a.t < |s.threads| && (a.Contribute? || s.threads[a.t].In?)
  {
    if a.Contribute? then a.id else s.threads[a.t].id
  }

  /** Where the thread is after the step. */
  function NewThread(s: State, threads: nat, n: nat, expected: nat -> nat, a: Action): Thread
    requires Shape(s, threads, n) && Enabled(s, threads, n, expected, a)
  {
    assert ThreadOk(s, a.t);
    var id := IdOf(s, a);
    match a
    case Contribute(_, _, _) => In(id, Probing(0))
    case Look(t) =>
      var i := SlotOf(s, threads, n, t);
      In(id, if s.table[i].id == id then MustSub(i)
             else if s.table[i].id == 0 then Claiming(s.threads[t].place.c)
             else Next(id, s.threads[t].place.c, n))
    // A failed exchange finds the id of the thread that claimed the slot in between.
    case Cas(t) =>
      var i := SlotOf(s, threads, n, t);
      In(id, if s.table[i].id == 0 then MustAdd(i)
             else if s.table[i].id == id then MustSub(i)
             else Next(id, s.threads[t].place.c, n))
    case Add(t) => In(id, MustSub(s.threads[t].place.slot))
    case Sub(t) =>
      if s.table[SlotOf(s, threads, n, t)].message == 1 then In(id, Last(s.threads[t].place.slot)) else Idle
    case Release(t) => In(id, Popping)
    case Pop(t) => if id in s.handlers[t] then In(id, Collecting(s.handlers[t][id], 1)) else s.threads[t]
    case Collect(t) =>
      var p := s.threads[t].place;
      In(id, if p.next == t || id !in s.handlers[p.next] then p.(next := p.next + 1)
             else Collecting(p.data + s.handlers[p.next][id], p.next + 1))
    case Return(t) => Idle
  }

  function NewTable(s: State, threads: nat, n: nat, expected: nat -> nat, a: Action): (table: seq<Slot<int>>)
    requires Shape(s, threads, n) && Enabled(s, threads, n, expected, a)
    ensures |table| == n
  {
    if !a.Cas? && !a.Add? && !a.Sub? && !a.Release? then s.table
    else
      var id := IdOf(s, a);
      var i := SlotOf(s, threads, n, a.t);
      var m := s.table[i].message;
      if a.Cas? then (if s.table[i].id == 0 then s.table[i := Slot(id, m)] else s.table)
      else if a.Add? then s.table[i := Slot(s.table[i].id, m + expected(id))]
      else if a.Sub? then s.table[i := Slot(s.table[i].id, m - 1)]
      else s.table[i := Slot(0, m)]
  }

  /** Whose handler a step changes, and to what. */
  function HandlerOf(s: State, threads: nat, n: nat, expected: nat -> nat, a: Action): (u: nat)
    requires Shape(s, threads, n) && Enabled(s, threads, n, expected, a)
    ensures u < threads
  {
    if a.Collect? && s.threads[a.t].place.next != a.t then s.threads[a.t].place.next else a.t
  }

  function NewHandler(s: State, threads: nat, n: nat, expected: nat -> nat, a: Action): map<nat, multiset<nat>>
    requires Shape(s, threads, n) && Enabled(s, threads, n, expected, a)
  {
    var id, u := IdOf(s, a), HandlerOf(s, threads, n, expected, a);
    if a.Contribute? then s.handlers[u][id := R.Combined(Entry(s.handlers[u], id), multiset{a.c})]
    else if a.Pop? || (a.Collect? && u != a.t) then s.handlers[u] - {id}
    else s.handlers[u]
  }

  function NewHistory(s: State, a: Action): History
    requires a.t < |s.threads| && (a.Contribute? || s.threads[a.t].In?)
  {
    var h := HistoryOf(s, IdOf(s, a));
    if a.Contribute? then h.(begun := h.begun + {a.c})
    else if a.Add? then h.(added := true)
    else if a.Sub? then h.(subs := h.subs + 1)
    else if a.Return? && s.threads[a.t].place.Collecting? then
      h.(returned := h.returned + [s.threads[a.t].place.data])
    else h
  }

  function Step(s: State, threads: nat, n: nat, expected: nat -> nat, a: Action): (r: State)
    requires Shape(s, threads, n) && Enabled(s, threads, n, expected, a)
    ensures Shape(r, threads, n)
  {
    var u := HandlerOf(s, threads, n, expected, a);
    var r := State(s.threads[a.t := NewThread(s, threads, n, expected, a)],
                   s.handlers[u := NewHandler(s, threads, n, expected, a)],
                   NewTable(s, threads, n, expected, a),
                   s.history[IdOf(s, a) := NewHistory(s, a)],
                   s.ok && (a.Pop? ==> IdOf(s, a) in s.handlers[a.t]));
    StepKeepsShape(s, threads, n, expected, a, r);
    r
  }

  lemma StepKeepsShape(s: State, threads: nat, n: nat, expected: nat -> nat, a: Action, r: State)
    requires Shape(s, threads, n) && Enabled(s, threads, n, expected, a)
    requires r.threads == s.threads[a.t := NewThread(s, threads, n, expected, a)]
    requires |r.handlers| == threads && |r.table| == n
    ensures Shape(r, threads, n)
  {
    forall t | 0 <= t < threads ensures ThreadOk(r, t) {
      assert ThreadOk(s, t);
    }
  }

  function Init(threads: nat, n: nat): State {
    State(seq(threads, _ => Idle), seq(threads, _ => map[]), seq(n, _ => Slot(0, 0)), map[], true)
  }

  function After(threads: nat, n: nat, expected: nat -> nat, run: seq<Action>): (s: Option<State>)
    requires n > 0
    ensures s.Some? ==> Shape(s.value, threads, n)
  {
    if run == [] then Some(Init(threads, n))
    else
      var before := After(threads, n, expected, run[..|run| - 1]);
      if before.Some? && Enabled(before.value, threads, n, expected, run[|run| - 1])
      then Some(Step(before.value, threads, n, expected, run[|run| - 1])) else None
  }

  // ---------------------------------------------------------------- one search by itself

  /** The thread alone looks a number of times. */
  function Looking(s: State, threads: nat, n: nat, expected: nat -> nat, t: nat, looks: nat): (r: Option<State>)
    requires Shape(s, threads, n)
    ensures r.Some? ==> Shape(r.value, threads, n)
  {
    if looks == 0 then Some(s)
    else
      var before := Looking(s, threads, n, expected, t, looks - 1);
      if before.Some? && Enabled(before.value, threads, n, expected, Look(t))
      then Some(Step(before.value, threads, n, expected, Look(t))) else None
  }

  /** It only moves the thread. */
  lemma {:induction false} LookingMoves(s: State, threads: nat, n: nat, expected: nat -> nat, t: nat, looks: nat)
    requires Shape(s, threads, n) && Looking(s, threads, n, expected, t, looks).Some? && t < threads
    ensures Looking(s, threads, n, expected, t, looks).value.table == s.table
    ensures Looking(s, threads, n, expected, t, looks).value.ok == s.ok
  {
    if looks > 0 {
      LookingMoves(s, threads, n, expected, t, looks - 1);
    }
  }

  /** Where a search is after looking at slots that are all taken by others: at the next one in probe order,
      from the end on again at the first; a small id throws instead after Limit slots. */
  function PlaceAfter(id: nat, n: nat, looks: nat): Place
    requires 0 < n
  {
    if GivesUp(id, n) && looks == Limit(id, n) then Threw else Probing(looks % n)
  }

  lemma NextRemainder(c: nat, n: nat)
    requires 0 < n
    ensures c < n ==> c % n == c
    ensures (c + 1) % n == if c % n + 1 == n then 0 else c % n + 1
  {
    var q := c / n;
    RemainderUnique(c + 1, n, if c % n + 1 == n then q + 1 else q, if c % n + 1 == n then 0 else c % n + 1);
    if c < n {
      RemainderUnique(c, n, 0, c);
    }
  }

  /** The slot it looks at next, and where that leaves it. */
  lemma NextPlace(table: seq<Slot<int>>, id: nat, looks: nat) returns (c: nat)
    requires 0 < |table| && (GivesUp(id, |table|) ==> looks < Limit(id, |table|))
    requires NoneWithin(table, id, if looks + 1 < |table| then looks + 1 else |table|)
    ensures c < |table| && PlaceAfter(id, |table|, looks) == Probing(c) && !Usable(table, id, Probe(id, c, |table|))
    ensures Next(id, c, |table|) == PlaceAfter(id, |table|, looks + 1)
  {
    c := looks % |table|;
    NextRemainder(looks, |table|);
  }

  lemma OneLook(s: State, threads: nat, n: nat, expected: nat -> nat, t: nat, id: nat, c: nat)
    requires Shape(s, threads, n) && s.ok && 0 < t < threads && s.threads[t] == In(id, Probing(c)) && id != 0 && c < n
    requires !Usable(s.table, id, Probe(id, c, n))
    ensures Enabled(s, threads, n, expected, Look(t))
    ensures Step(s, threads, n, expected, Look(t)).threads[t] == In(id, Next(id, c, n))
  {
  }

  /** The slots a search looks at that often are all taken by others. */
  predicate TakenSoFar(table: seq<Slot<int>>, id: nat, looks: nat)
    requires 0 < |table|
  {
    NoneWithin(table, id, if looks < |table| then looks else |table|)
    && (GivesUp(id, |table|) ==> looks <= Limit(id, |table|))
  }

  lemma FewerLooks(table: seq<Slot<int>>, id: nat, looks: nat)
    requires 0 < |table| && 0 < looks && TakenSoFar(table, id, looks)
    ensures TakenSoFar(table, id, looks - 1)
  {
  }

  lemma LooksOnce(s: State, b: State, threads: nat, n: nat, expected: nat -> nat, t: nat, id: nat, looks: nat)
    requires Shape(s, threads, n) && 0 < t < threads && id != 0 && TakenSoFar(s.table, id, looks + 1)
    requires Looking(s, threads, n, expected, t, looks) == Some(b)
    requires b.ok && b.table == s.table && b.threads[t] == In(id, PlaceAfter(id, n, looks))
    ensures var r := Looking(s, threads, n, expected, t, looks + 1);
            r.Some? && r.value.threads[t] == In(id, PlaceAfter(id, n, looks + 1))
  {
    var c := NextPlace(s.table, id, looks);
    OneLook(b, threads, n, expected, t, id, c);
  }

  lemma {:induction false} LooksOnInOrder(s: State, threads: nat, n: nat, expected: nat -> nat, t: nat, id: nat,
                                          looks: nat)
    returns (r: State)
    requires Shape(s, threads, n) && s.ok && 0 < t < threads && s.threads[t] == In(id, Probing(0)) && id != 0
    requires TakenSoFar(s.table, id, looks)
    ensures Looking(s, threads, n, expected, t, looks) == Some(r)
    ensures Shape(r, threads, n) && r.ok && r.table == s.table && r.threads[t] == In(id, PlaceAfter(id, n, looks))
  {
    if looks == 0 {
      r := s;
      NextRemainder(0, n);
    } else {
      FewerLooks(s.table, id, looks);
      var b := LooksOnInOrder(s, threads, n, expected, t, id, looks - 1);
      LooksOnce(s, b, threads, n, expected, t, id, looks - 1);
      r := Looking(s, threads, n, expected, t, looks).value;
      LookingMoves(s, threads, n, expected, t, looks);
    }
  }

  /** A search that nobody disturbs ends where the search of the table does: it gets the first slot in probe
      order that holds its id or is free, unless that is the one small ids do not look at. */
  lemma SearchAlone(s: State, threads: nat, n: nat, expected: nat -> nat, t: nat, id: nat, i: nat)
    requires Shape(s, threads, n) && s.ok && 0 < t < threads && s.threads[t] == In(id, Probing(0)) && id != 0
    requires StopFrom(s.table, id, 0) == Some(i) && Dist(id, i, n) < Limit(id, n)
    ensures var r := Looking(s, threads, n, expected, t, Dist(id, i, n) + 1);
            r.Some? && r.value.threads[t] ==
                       In(id, if s.table[i].id == id then MustSub(i) else Claiming(Dist(id, i, n)))
  {
    var c := Dist(id, i, n);
    var b := LooksOnInOrder(s, threads, n, expected, t, id, c);
    NextRemainder(c, n);
    ProbeVisitsAll(id, i, c, n);
  }

  // ---------------------------------------------------------------- one id of many

  /** What the thread does for one id. */
  function PlaceFor(th: Thread, id: nat): R.Pc {
    if th.Idle? || th.id != id then R.Idle
    else
      match th.place
      case Probing(_) => R.Inserted
      case Claiming(_) => R.Inserted
      case Threw => R.Inserted
      case MustAdd(_) => R.MustAdd
      case MustSub(_) => R.MustSub
      case Last(_) => R.Last
      case Popping => R.Popping
      case Collecting(data, next) => R.Collecting(data, next)
  }

  function Places(threads: seq<Thread>, id: nat): seq<R.Pc> {
    seq(|threads|, t requires 0 <= t < |threads| => PlaceFor(threads[t], id))
  }

  function Entries(handlers: seq<map<nat, multiset<nat>>>, id: nat): seq<Option<multiset<nat>>> {
    seq(|handlers|, t requires 0 <= t < |handlers| => Entry(handlers[t], id))
  }

  /** The reduction of one id as the threads would see it alone. */
  function Alone(s: State, id: nat): R.State {
    var h := HistoryOf(s, id);
    var v := Lookup(s.table, id);
    R.State(Places(s.threads, id), Entries(s.handlers, id), v.Some?, if v.Some? then v.value else 0,
            h.begun, h.subs, h.added, h.returned, s.ok)
  }

  // ---------------------------------------------------------------- the invariant

  predicate Searching(th: Thread) {
    th.In? && (th.place.Probing? || th.place.Claiming?)
  }

  predicate HasSlot(th: Thread) {
    th.In? && (th.place.MustAdd? || th.place.MustSub? || th.place.Last?)
  }

  /** All slots a searching thread has passed hold other ids; a thread with a slot has its id there. */
  predicate PathOk(s: State, t: nat)
    requires t < |s.threads| && ThreadOk(s, t)
  {
    var th := s.threads[t];
    && (Searching(th) ==> NoneWithin(s.table, th.id, th.place.c))
    && (HasSlot(th) ==> s.table[th.place.slot].id == th.id)
  }

  ghost predicate TableOk(s: State, threads: nat, n: nat)
    requires Shape(s, threads, n)
  {
    && WellProbed(s.table)
    && (forall i | 0 <= i < n && s.table[i].id == 0 :: s.table[i].message == 0)
    && forall t | 0 <= t < threads :: PathOk(s, t)
  }

  ghost predicate Inv(s: State, threads: nat, n: nat, expected: nat -> nat) {
    && Shape(s, threads, n) && TableOk(s, threads, n)
    && forall id: nat | id != 0 :: R.Inv(Alone(s, id), threads, expected(id))
  }

  /** The slot released is on no live id's way, and no searching thread has passed it. */
  ghost predicate HarmlessRelease(s: State, threads: nat, n: nat, t: nat)
    requires Shape(s, threads, n) && t < threads && s.threads[t].In?
  {
    var i := SlotOf(s, threads, n, t);
    && Harmless(s.table, i)
    && forall u | 0 <= u < threads && Searching(s.threads[u]) :: NotPassed(s.threads[u], i, n)
  }

  predicate NotPassed(th: Thread, i: nat, n: nat)
    requires Searching(th) && i < n
  {
    th.place.c <= Dist(th.id, i, n)
  }

  // ---------------------------------------------------------------- the table

  /** The slot where a search stops. */
  lemma StopIs(s: seq<Slot<int>>, id: nat, c: nat)
    requires c < |s| && NoneWithin(s, id, c) && Usable(s, id, Probe(id, c, |s|))
    ensures StopFrom(s, id, 0) == Some(Probe(id, c, |s|))
  {
    var r := StopFrom(s, id, 0);
    ProbeVisitsAll(id, Probe(id, c, |s|), c, |s|);
    if r.Some? {
      ProbeVisitsAll(id, r.value, Dist(id, r.value, |s|), |s|);
      assert !(Dist(id, r.value, |s|) < c);
    }
  }

  /** The table after a step other than a release: the entry of the step's id changes, the others stay. */
  lemma TableStep(s: State, threads: nat, n: nat, expected: nat -> nat, a: Action)
    requires Shape(s, threads, n) && TableOk(s, threads, n) && Enabled(s, threads, n, expected, a) && !a.Release?
    ensures var id := IdOf(s, a);
            var t := NewTable(s, threads, n, expected, a);
            var v := Lookup(s.table, id);
            && WellProbed(t)
            && (forall k: nat | k != 0 && k != id :: Lookup(t, k) == Lookup(s.table, k))
            && (a.Add? || a.Sub? ==>
                  v == Some(s.table[s.threads[a.t].place.slot].message)
                  && Lookup(t, id) == Some(v.value + if a.Add? then expected(id) else -1))
            && (!a.Add? && !a.Sub? && !a.Cas? ==> t == s.table)
  {
    assert PathOk(s, a.t) && ThreadOk(s, a.t);
    if a.Cas? || a.Add? || a.Sub? {
      var id, i := IdOf(s, a), SlotOf(s, threads, n, a.t);
      var t := NewTable(s, threads, n, expected, a);
      if a.Cas? {
        if s.table[i].id == 0 {
          StopIs(s.table, id, s.threads[a.t].place.c);
          WriteIsMapUpdate(s.table, id, t[i].message);
        }
      } else {
        FindLive(s.table, i);
        WriteIsMapUpdate(s.table, id, t[i].message);
      }
    }
  }

  /** A search that comes to a slot with its id or a free one decides whether the id is in the table. */
  lemma SearchDecides(s: State, threads: nat, n: nat, t: nat)
    requires Shape(s, threads, n) && TableOk(s, threads, n) && t < threads && Searching(s.threads[t])
    ensures var id, i := s.threads[t].id, SlotOf(s, threads, n, t);
            && (s.table[i].id == id ==> Lookup(s.table, id).Some?)
            && (s.table[i].id == 0 ==> Lookup(s.table, id).None?)
  {
    var id, i := s.threads[t].id, SlotOf(s, threads, n, t);
    assert PathOk(s, t) && ThreadOk(s, t);
    if s.table[i].id == id {
      FindLive(s.table, i);
    } else if s.table[i].id == 0 {
      StopIs(s.table, id, s.threads[t].place.c);
      StopDecides(s.table, id);
    }
  }

  /** Claiming a free slot is a map update to what the slot counts. */
  lemma ClaimStep(s: State, threads: nat, n: nat, expected: nat -> nat, a: Action)
    requires Shape(s, threads, n) && TableOk(s, threads, n) && Enabled(s, threads, n, expected, a) && a.Cas?
    ensures var t := NewTable(s, threads, n, expected, a);
            if s.table[SlotOf(s, threads, n, a.t)].id == 0
            then Lookup(t, s.threads[a.t].id) == Some(0) else t == s.table
  {
    var id, i := s.threads[a.t].id, SlotOf(s, threads, n, a.t);
    assert PathOk(s, a.t) && ThreadOk(s, a.t);
    if s.table[i].id == 0 {
      StopIs(s.table, id, s.threads[a.t].place.c);
      WriteIsMapUpdate(s.table, id, s.table[i].message);
    }
  }

  // ---------------------------------------------------------------- what a step is for one id

  /** The view of one id, from its parts. */
  function View(pc: seq<R.Pc>, handlers: seq<Option<multiset<nat>>>, table: seq<Slot<int>>, id: nat, h: History,
                ok: bool)
    : R.State
  {
    var v := Lookup(table, id);
    R.State(pc, handlers, v.Some?, if v.Some? then v.value else 0, h.begun, h.subs, h.added, h.returned, ok)
  }

  /** A step moves one thread, changes one handler, and the history of its id. */
  lemma AloneAfter(s: State, threads: nat, n: nat, expected: nat -> nat, a: Action, id: nat)
    requires Shape(s, threads, n) && Enabled(s, threads, n, expected, a)
    ensures var s' := Step(s, threads, n, expected, a);
            var v, u := Alone(s, id), HandlerOf(s, threads, n, expected, a);
            && Alone(s', id) ==
               View(v.pc[a.t := PlaceFor(NewThread(s, threads, n, expected, a), id)],
                    v.handlers[u := Entry(NewHandler(s, threads, n, expected, a), id)],
                    NewTable(s, threads, n, expected, a), id,
                    if id == IdOf(s, a) then NewHistory(s, a) else HistoryOf(s, id), s'.ok)
            && |v.pc| == |v.handlers| == threads
            && v.pc[a.t] == PlaceFor(s.threads[a.t], id) && v.handlers[u] == Entry(s.handlers[u], id)
            && v.handlers[a.t] == Entry(s.handlers[a.t], id)
  {
    var s' := Step(s, threads, n, expected, a);
    var v, u := Alone(s, id), HandlerOf(s, threads, n, expected, a);
    assert Alone(s', id).pc == v.pc[a.t := PlaceFor(NewThread(s, threads, n, expected, a), id)];
    assert Alone(s', id).handlers == v.handlers[u := Entry(NewHandler(s, threads, n, expected, a), id)];
  }

  /** A pop finds the id. */
  lemma PopSucceeds(s: State, threads: nat, n: nat, expected: nat -> nat, t: nat)
    requires Inv(s, threads, n, expected) && Enabled(s, threads, n, expected, Pop(t))
    ensures s.threads[t].id in s.handlers[t]
  {
    var id := s.threads[t].id;
    assert ThreadOk(s, t);
    var v := Alone(s, id);
    assert R.Inv(v, threads, expected(id));
    assert R.PlaceOk(v, threads, t) && v.pc[t] == R.Popping;
  }

  /** The step does nothing to the other ids in the table. */
  lemma OtherEntries(s: State, threads: nat, n: nat, expected: nat -> nat, a: Action, id: nat)
    requires Shape(s, threads, n) && TableOk(s, threads, n) && Enabled(s, threads, n, expected, a)
    requires a.Release? ==> HarmlessRelease(s, threads, n, a.t)
    requires id != 0 && id != IdOf(s, a)
    ensures Lookup(NewTable(s, threads, n, expected, a), id) == Lookup(s.table, id)
  {
    if a.Release? {
      assert PathOk(s, a.t) && ThreadOk(s, a.t);
      ReleaseIsMapRemove(s.table, s.threads[a.t].place.slot, s.table[s.threads[a.t].place.slot].message);
    } else {
      TableStep(s, threads, n, expected, a);
    }
  }

  /** Nor anywhere else. */
  lemma OtherAlone(s: State, threads: nat, n: nat, expected: nat -> nat, a: Action, id: nat)
    requires Shape(s, threads, n) && TableOk(s, threads, n) && Enabled(s, threads, n, expected, a)
    requires a.Release? ==> HarmlessRelease(s, threads, n, a.t)
    requires a.Pop? ==> s.threads[a.t].id in s.handlers[a.t]
    requires id != 0 && id != IdOf(s, a)
    ensures Alone(Step(s, threads, n, expected, a), id) == Alone(s, id)
  {
    var v, u := Alone(s, id), HandlerOf(s, threads, n, expected, a);
    AloneAfter(s, threads, n, expected, a, id);
    assert v.pc[a.t := v.pc[a.t]] == v.pc && v.handlers[u := v.handlers[u]] == v.handlers;
    OtherEntries(s, threads, n, expected, a, id);
  }

  /** The steps of the reduction alone that a step of its call is: a slot is claimed where the exchange
      succeeds, and looking on is none. */
  function Shadow(s: State, threads: nat, n: nat, a: Action): seq<R.Action>
    requires Shape(s, threads, n) && a.t < threads && (a.Contribute? || s.threads[a.t].In?)
  {
    match a
    case Contribute(t, _, c) => [R.Contribute(t, c)]
    case Look(t) => if s.table[SlotOf(s, threads, n, t)].id == s.threads[t].id then [R.Load(t)] else []
    case Cas(t) =>
      var k := s.table[SlotOf(s, threads, n, t)].id;
      if k == 0 then [R.Load(t), R.Cas(t)] else if k == s.threads[t].id then [R.Load(t)] else []
    case Add(t) => [R.Add(t)]
    case Sub(t) => [R.Sub(t)]
    case Release(t) => [R.Release(t)]
    case Pop(t) => [R.Pop(t)]
    case Collect(t) => [R.Collect(t)]
    case Return(t) => [R.Return(t)]
  }

  function Performed(v: R.State, threads: nat, expected: nat, acts: seq<R.Action>): Option<R.State>
    decreases |acts|
  {
    if acts == [] then Some(v)
    else if R.Shape(v, threads) && R.Enabled(v, threads, expected, acts[0])
    then Performed(R.Step(v, threads, expected, acts[0]), threads, expected, acts[1..])
    else None
  }

  lemma PerformOne(v: R.State, threads: nat, expected: nat, a: R.Action)
    requires R.Shape(v, threads) && R.Enabled(v, threads, expected, a)
    ensures Performed(v, threads, expected, [a]) == Some(R.Step(v, threads, expected, a))
  {
    assert Performed(R.Step(v, threads, expected, a), threads, expected, []) == Some(R.Step(v, threads, expected, a));
  }

  lemma {:induction false} PerformedKeepsInv(v: R.State, threads: nat, expected: nat, acts: seq<R.Action>)
    requires 0 < expected && R.Inv(v, threads, expected) && Performed(v, threads, expected, acts).Some?
    ensures R.Inv(Performed(v, threads, expected, acts).value, threads, expected)
    decreases |acts|
  {
    if acts != [] {
      R.StepKeepsInv(v, threads, expected, acts[0]);
      PerformedKeepsInv(R.Step(v, threads, expected, acts[0]), threads, expected, acts[1..]);
    }
  }

  lemma ContributeAlone(s: State, threads: nat, n: nat, expected: nat -> nat, a: Action)
    requires Shape(s, threads, n) && Enabled(s, threads, n, expected, a) && a.Contribute?
    ensures Performed(Alone(s, a.id), threads, expected(a.id), [R.Contribute(a.t, a.c)]) ==
            Some(Alone(Step(s, threads, n, expected, a), a.id))
  {
    AloneAfter(s, threads, n, expected, a, a.id);
    PerformOne(Alone(s, a.id), threads, expected(a.id), R.Contribute(a.t, a.c));
  }

  /** Looking on changes nothing for the id. */
  lemma LooksOn(s: State, threads: nat, n: nat, expected: nat -> nat, a: Action)
    requires Shape(s, threads, n) && Enabled(s, threads, n, expected, a) && (a.Look? || a.Cas?)
    requires NewTable(s, threads, n, expected, a) == s.table
    requires PlaceFor(NewThread(s, threads, n, expected, a), s.threads[a.t].id) == R.Inserted
    ensures Alone(Step(s, threads, n, expected, a), s.threads[a.t].id) == Alone(s, s.threads[a.t].id)
  {
    var v := Alone(s, s.threads[a.t].id);
    AloneAfter(s, threads, n, expected, a, s.threads[a.t].id);
    assert v.pc[a.t := v.pc[a.t]] == v.pc && v.handlers[a.t := v.handlers[a.t]] == v.handlers;
  }

  /** Finding the id is the load of the reduction alone. */
  lemma FindsId(s: State, threads: nat, n: nat, expected: nat -> nat, a: Action)
    requires Shape(s, threads, n) && Enabled(s, threads, n, expected, a) && (a.Look? || a.Cas?)
    requires NewTable(s, threads, n, expected, a) == s.table && Lookup(s.table, s.threads[a.t].id).Some?
    requires PlaceFor(NewThread(s, threads, n, expected, a), s.threads[a.t].id) == R.MustSub
    ensures Performed(Alone(s, s.threads[a.t].id), threads, expected(s.threads[a.t].id), [R.Load(a.t)]) ==
            Some(Alone(Step(s, threads, n, expected, a), s.threads[a.t].id))
  {
    var v := Alone(s, s.threads[a.t].id);
    AloneAfter(s, threads, n, expected, a, s.threads[a.t].id);
    assert v.handlers[a.t := v.handlers[a.t]] == v.handlers;
    PerformOne(v, threads, expected(s.threads[a.t].id), R.Load(a.t));
  }

  lemma LookAlone(s: State, threads: nat, n: nat, expected: nat -> nat, t: nat)
    requires Shape(s, threads, n) && TableOk(s, threads, n) && Enabled(s, threads, n, expected, Look(t))
    ensures Performed(Alone(s, s.threads[t].id), threads, expected(s.threads[t].id), Shadow(s, threads, n, Look(t))) ==
            Some(Alone(Step(s, threads, n, expected, Look(t)), s.threads[t].id))
  {
    SearchDecides(s, threads, n, t);
    if s.table[SlotOf(s, threads, n, t)].id == s.threads[t].id {
      FindsId(s, threads, n, expected, Look(t));
    } else {
      LooksOn(s, threads, n, expected, Look(t));
    }
  }

  lemma LoadThenCas(v: R.State, threads: nat, expected: nat, t: nat)
    requires R.Shape(v, threads) && v.ok && 0 < t < threads && v.pc[t] == R.Inserted && !v.key
    ensures Performed(v, threads, expected, [R.Load(t), R.Cas(t)]) == Some(v.(key := true, pc := v.pc[t := R.MustAdd]))
  {
    var w := R.Step(v, threads, expected, R.Load(t));
    PerformOne(w, threads, expected, R.Cas(t));
    assert w.pc[t := R.MustAdd] == v.pc[t := R.MustAdd];
    assert [R.Load(t), R.Cas(t)][1..] == [R.Cas(t)];
  }

  /** Claiming a free slot is the load and the exchange of the reduction alone. */
  lemma ClaimAlone(s: State, threads: nat, n: nat, expected: nat -> nat, t: nat)
    requires Shape(s, threads, n) && TableOk(s, threads, n) && Enabled(s, threads, n, expected, Cas(t))
    requires s.table[SlotOf(s, threads, n, t)].id == 0
    ensures Performed(Alone(s, s.threads[t].id), threads, expected(s.threads[t].id), [R.Load(t), R.Cas(t)]) ==
            Some(Alone(Step(s, threads, n, expected, Cas(t)), s.threads[t].id))
  {
    var id := s.threads[t].id;
    var v := Alone(s, id);
    SearchDecides(s, threads, n, t);
    ClaimStep(s, threads, n, expected, Cas(t));
    AloneAfter(s, threads, n, expected, Cas(t), id);
    assert v.handlers[t := v.handlers[t]] == v.handlers;
    LoadThenCas(v, threads, expected(id), t);
  }

  lemma CasAlone(s: State, threads: nat, n: nat, expected: nat -> nat, t: nat)
    requires Shape(s, threads, n) && TableOk(s, threads, n) && Enabled(s, threads, n, expected, Cas(t))
    ensures Performed(Alone(s, s.threads[t].id), threads, expected(s.threads[t].id), Shadow(s, threads, n, Cas(t))) ==
            Some(Alone(Step(s, threads, n, expected, Cas(t)), s.threads[t].id))
  {
    var k := s.table[SlotOf(s, threads, n, t)].id;
    SearchDecides(s, threads, n, t);
    if k == 0 {
      ClaimAlone(s, threads, n, expected, t);
    } else if k == s.threads[t].id {
      FindsId(s, threads, n, expected, Cas(t));
    } else {
      LooksOn(s, threads, n, expected, Cas(t));
    }
  }

  lemma AddAlone(s: State, threads: nat, n: nat, expected: nat -> nat, t: nat)
    requires Shape(s, threads, n) && TableOk(s, threads, n) && Enabled(s, threads, n, expected, Action.Add(t))
    ensures R.Enabled(Alone(s, s.threads[t].id), threads, expected(s.threads[t].id), R.Add(t))
    ensures R.Step(Alone(s, s.threads[t].id), threads, expected(s.threads[t].id), R.Add(t)) ==
            Alone(Step(s, threads, n, expected, Action.Add(t)), s.threads[t].id)
  {
    var v := Alone(s, s.threads[t].id);
    AloneAfter(s, threads, n, expected, Action.Add(t), s.threads[t].id);
    assert v.handlers[t := v.handlers[t]] == v.handlers;
    TableStep(s, threads, n, expected, Action.Add(t));
  }

  lemma SubAlone(s: State, threads: nat, n: nat, expected: nat -> nat, t: nat)
    requires Shape(s, threads, n) && TableOk(s, threads, n) && Enabled(s, threads, n, expected, Sub(t))
    ensures R.Enabled(Alone(s, s.threads[t].id), threads, expected(s.threads[t].id), R.Sub(t))
    ensures R.Step(Alone(s, s.threads[t].id), threads, expected(s.threads[t].id), R.Sub(t)) ==
            Alone(Step(s, threads, n, expected, Sub(t)), s.threads[t].id)
  {
    var v := Alone(s, s.threads[t].id);
    AloneAfter(s, threads, n, expected, Sub(t), s.threads[t].id);
    assert v.handlers[t := v.handlers[t]] == v.handlers;
    TableStep(s, threads, n, expected, Sub(t));
  }

  /** When a slot is released its counter is 0 and nobody else is in a call for the id. */
  lemma ReleasedIsDone(s: State, threads: nat, n: nat, expected: nat -> nat, t: nat)
    requires Inv(s, threads, n, expected) && Enabled(s, threads, n, expected, Release(t))
    ensures var i := s.threads[t].place.slot;
            && i < n && s.table[i] == Slot(s.threads[t].id, 0) && Lookup(s.table, s.threads[t].id) == Some(0)
            && Alone(s, s.threads[t].id).counter == 0
            && forall u | 0 <= u < threads && u != t && s.threads[u].In? :: s.threads[u].id != s.threads[t].id
  {
    var id, i := s.threads[t].id, s.threads[t].place.slot;
    var v := Alone(s, id);
    assert ThreadOk(s, t) && PathOk(s, t) && v.pc[t] == R.Last;
    FindLive(s.table, i);
    assert R.Inv(v, threads, expected(id));
    forall u | 0 <= u < threads && u != t && s.threads[u].In? ensures s.threads[u].id != id {
      R.CompletingAlone(v, threads, expected(id), t, u);
      assert v.pc[u] == PlaceFor(s.threads[u], id);
    }
  }

  lemma ReleaseAlone(s: State, threads: nat, n: nat, expected: nat -> nat, t: nat)
    requires Inv(s, threads, n, expected) && Enabled(s, threads, n, expected, Release(t))
    requires HarmlessRelease(s, threads, n, t)
    ensures var id := s.threads[t].id;
            Performed(Alone(s, id), threads, expected(id), [R.Release(t)]) ==
            Some(Alone(Step(s, threads, n, expected, Release(t)), id))
  {
    var id, i := s.threads[t].id, s.threads[t].place.slot;
    var v := Alone(s, id);
    assert ThreadOk(s, t);
    ReleasedIsDone(s, threads, n, expected, t);
    ReleaseIsMapRemove(s.table, i, 0);
    AloneAfter(s, threads, n, expected, Release(t), id);
    assert v.handlers[t := v.handlers[t]] == v.handlers;
    PerformOne(v, threads, expected(id), R.Release(t));
  }

  lemma PopAlone(s: State, threads: nat, n: nat, expected: nat -> nat, t: nat)
    requires Shape(s, threads, n) && Enabled(s, threads, n, expected, Pop(t)) && s.threads[t].id in s.handlers[t]
    ensures R.Enabled(Alone(s, s.threads[t].id), threads, expected(s.threads[t].id), R.Pop(t))
    ensures R.Step(Alone(s, s.threads[t].id), threads, expected(s.threads[t].id), R.Pop(t)) ==
            Alone(Step(s, threads, n, expected, Pop(t)), s.threads[t].id)
  {
    AloneAfter(s, threads, n, expected, Pop(t), s.threads[t].id);
  }

  lemma CollectAlone(s: State, threads: nat, n: nat, expected: nat -> nat, t: nat)
    requires Shape(s, threads, n) && Enabled(s, threads, n, expected, Collect(t))
    ensures R.Enabled(Alone(s, s.threads[t].id), threads, expected(s.threads[t].id), R.Collect(t))
    ensures R.Step(Alone(s, s.threads[t].id), threads, expected(s.threads[t].id), R.Collect(t)) ==
            Alone(Step(s, threads, n, expected, Collect(t)), s.threads[t].id)
  {
    var v, u := Alone(s, s.threads[t].id), HandlerOf(s, threads, n, expected, Collect(t));
    AloneAfter(s, threads, n, expected, Collect(t), s.threads[t].id);
    assert v.handlers[u := v.handlers[u]] == v.handlers;
  }

  lemma ReturnAlone(s: State, threads: nat, n: nat, expected: nat -> nat, t: nat)
    requires Shape(s, threads, n) && Enabled(s, threads, n, expected, Return(t))
    ensures R.Enabled(Alone(s, s.threads[t].id), threads, expected(s.threads[t].id), R.Return(t))
    ensures R.Step(Alone(s, s.threads[t].id), threads, expected(s.threads[t].id), R.Return(t)) ==
            Alone(Step(s, threads, n, expected, Return(t)), s.threads[t].id)
  {
    var v := Alone(s, s.threads[t].id);
    AloneAfter(s, threads, n, expected, Return(t), s.threads[t].id);
    assert v.handlers[t := v.handlers[t]] == v.handlers;
  }

  /** The steps that are one step each. */
  lemma SingleAlone(s: State, threads: nat, n: nat, expected: nat -> nat, a: Action)
    requires Inv(s, threads, n, expected) && Enabled(s, threads, n, expected, a)
    requires a.Add? || a.Sub? || a.Pop? || a.Collect? || a.Return?
    ensures var id := s.threads[a.t].id;
            Performed(Alone(s, id), threads, expected(id), Shadow(s, threads, n, a)) ==
            Some(Alone(Step(s, threads, n, expected, a), id))
  {
    match a {
      case Add(t) => AddAlone(s, threads, n, expected, t);
      case Sub(t) => SubAlone(s, threads, n, expected, t);
      case Pop(t) =>
        PopSucceeds(s, threads, n, expected, t);
        PopAlone(s, threads, n, expected, t);
      case Collect(t) => CollectAlone(s, threads, n, expected, t);
      case Return(t) => ReturnAlone(s, threads, n, expected, t);
      case _ =>
    }
    var id := s.threads[a.t].id;
    PerformOne(Alone(s, id), threads, expected(id), Shadow(s, threads, n, a)[0]);
  }

  /** A step of a call for one id is steps of that reduction alone. */
  lemma OwnAlone(s: State, threads: nat, n: nat, expected: nat -> nat, a: Action)
    requires Inv(s, threads, n, expected) && Enabled(s, threads, n, expected, a)
    requires a.Release? ==> HarmlessRelease(s, threads, n, a.t)
    ensures Performed(Alone(s, IdOf(s, a)), threads, expected(IdOf(s, a)), Shadow(s, threads, n, a)) ==
            Some(Alone(Step(s, threads, n, expected, a), IdOf(s, a)))
  {
    match a
    case Contribute(_, _, _) => ContributeAlone(s, threads, n, expected, a);
    case Look(t) => LookAlone(s, threads, n, expected, t);
    case Cas(t) => CasAlone(s, threads, n, expected, t);
    case Release(t) => ReleaseAlone(s, threads, n, expected, t);
    case _ => SingleAlone(s, threads, n, expected, a);
  }

  // ---------------------------------------------------------------- what a step keeps of the table

  lemma FreeSlotsAreZero(s: State, threads: nat, n: nat, expected: nat -> nat, a: Action)
    requires Inv(s, threads, n, expected) && Enabled(s, threads, n, expected, a)
    ensures var table := NewTable(s, threads, n, expected, a);
            forall i | 0 <= i < n && table[i].id == 0 :: table[i].message == 0
  {
    assert ThreadOk(s, a.t) && PathOk(s, a.t);
    if a.Release? {
      ReleasedIsDone(s, threads, n, expected, a.t);
    }
  }

  /** One slot more is taken: nobody has passed it. */
  lemma ClaimKeepsPath(s: State, s': State, threads: nat, n: nat, i: nat, u: nat)
    requires Shape(s, threads, n) && Shape(s', threads, n) && u < threads && PathOk(s, u)
    requires s'.threads[u] == s.threads[u]
    requires i < n && s.table[i].id == 0 && s'.table == s.table[i := s'.table[i]]
    ensures PathOk(s', u)
  {
    assert ThreadOk(s, u);
    var th := s.threads[u];
    if Searching(th) {
      forall d: nat | d < th.place.c ensures !Usable(s'.table, th.id, Probe(th.id, d, n)) {
        assert !Usable(s.table, th.id, Probe(th.id, d, n));
      }
    }
  }

  /** One slot less is taken. */
  lemma ReleaseKeepsPath(s: State, s': State, threads: nat, n: nat, i: nat, u: nat)
    requires Shape(s, threads, n) && Shape(s', threads, n) && u < threads && PathOk(s, u)
    requires s'.threads[u] == s.threads[u]
    requires i < n && s'.table == s.table[i := s'.table[i]] && s'.table[i].id == 0 && s.table[i].id != 0
    requires s.threads[u].In? ==> s.threads[u].id != s.table[i].id
    ensures PathOk(s', u) <==> (Searching(s.threads[u]) ==> NotPassed(s.threads[u], i, n))
  {
    assert ThreadOk(s, u);
    var th := s.threads[u];
    if Searching(th) {
      forall d: nat | d < th.place.c
        ensures Usable(s'.table, th.id, Probe(th.id, d, n)) <==> d == Dist(th.id, i, n)
      {
        ProbeVisitsAll(th.id, i, d, n);
        assert !Usable(s.table, th.id, Probe(th.id, d, n));
      }
      if !NotPassed(th, i, n) {
        assert Usable(s'.table, th.id, Probe(th.id, Dist(th.id, i, n), n));
      }
    }
  }

  /** The same ids in the same slots. */
  lemma SamePath(s: State, s': State, threads: nat, n: nat, u: nat)
    requires Shape(s, threads, n) && Shape(s', threads, n) && u < threads && PathOk(s, u)
    requires s'.threads[u] == s.threads[u] && forall i | 0 <= i < n :: s'.table[i].id == s.table[i].id
    ensures PathOk(s', u)
  {
    assert ThreadOk(s, u);
    var th := s.threads[u];
    if Searching(th) {
      forall d: nat | d < th.place.c ensures !Usable(s'.table, th.id, Probe(th.id, d, n)) {
        assert !Usable(s.table, th.id, Probe(th.id, d, n));
      }
    }
  }

  lemma OtherPath(s: State, threads: nat, n: nat, expected: nat -> nat, a: Action, u: nat)
    requires Inv(s, threads, n, expected) && Enabled(s, threads, n, expected, a) && u < threads && u != a.t
    requires a.Release? ==> HarmlessRelease(s, threads, n, a.t)
    ensures PathOk(Step(s, threads, n, expected, a), u)
  {
    var s' := Step(s, threads, n, expected, a);
    assert PathOk(s, u) && PathOk(s, a.t) && ThreadOk(s, a.t);
    if a.Release? {
      ReleasedIsDone(s, threads, n, expected, a.t);
      ReleaseKeepsPath(s, s', threads, n, s.threads[a.t].place.slot, u);
    } else if a.Cas? && s.table[SlotOf(s, threads, n, a.t)].id == 0 {
      ClaimKeepsPath(s, s', threads, n, SlotOf(s, threads, n, a.t), u);
    } else {
      SamePath(s, s', threads, n, u);
    }
  }

  /** The slot a thread looks at next is not usable: one more. */
  lemma LooksOnPath(table: seq<Slot<int>>, id: nat, c: nat)
    requires c < |table| && NoneWithin(table, id, c) && !Usable(table, id, Probe(id, c, |table|))
    ensures NoneWithin(table, id, c + 1)
  {
  }

  lemma NextPath(table: seq<Slot<int>>, id: nat, c: nat)
    requires c < |table| && NoneWithin(table, id, c) && !Usable(table, id, Probe(id, c, |table|))
    ensures Next(id, c, |table|).Probing? ==> NoneWithin(table, id, Next(id, c, |table|).c)
  {
    LooksOnPath(table, id, c);
  }

  lemma SearchPath(s: State, threads: nat, n: nat, expected: nat -> nat, a: Action)
    requires Shape(s, threads, n) && TableOk(s, threads, n) && Enabled(s, threads, n, expected, a)
    requires a.Look? || a.Cas?
    ensures PathOk(Step(s, threads, n, expected, a), a.t)
  {
    assert PathOk(s, a.t) && ThreadOk(s, a.t);
    var id, c := s.threads[a.t].id, s.threads[a.t].place.c;
    if !Usable(s.table, id, Probe(id, c, n)) {
      NextPath(s.table, id, c);
    }
  }

  lemma OwnPath(s: State, threads: nat, n: nat, expected: nat -> nat, a: Action)
    requires Shape(s, threads, n) && TableOk(s, threads, n) && Enabled(s, threads, n, expected, a)
    ensures PathOk(Step(s, threads, n, expected, a), a.t)
  {
    if a.Look? || a.Cas? {
      SearchPath(s, threads, n, expected, a);
    } else {
      assert PathOk(s, a.t) && ThreadOk(s, a.t);
    }
  }

  lemma StepKeepsTable(s: State, threads: nat, n: nat, expected: nat -> nat, a: Action)
    requires Inv(s, threads, n, expected) && Enabled(s, threads, n, expected, a)
    requires a.Release? ==> HarmlessRelease(s, threads, n, a.t)
    ensures TableOk(Step(s, threads, n, expected, a), threads, n)
  {
    assert PathOk(s, a.t) && ThreadOk(s, a.t);
    FreeSlotsAreZero(s, threads, n, expected, a);
    OwnPath(s, threads, n, expected, a);
    forall u: nat | u < threads && u != a.t ensures PathOk(Step(s, threads, n, expected, a), u) {
      OtherPath(s, threads, n, expected, a, u);
    }
    if a.Release? {
      ReleasedIsDone(s, threads, n, expected, a.t);
      ReleaseKeepsWellProbed(s.table, s.threads[a.t].place.slot, 0);
    } else {
      TableStep(s, threads, n, expected, a);
    }
  }

  /** Exactly the harmless releases leave every search and every later one on the right way. */
  lemma ReleaseKeepsTableIff(s: State, threads: nat, n: nat, expected: nat -> nat, t: nat)
    requires Inv(s, threads, n, expected) && Enabled(s, threads, n, expected, Release(t))
    ensures TableOk(Step(s, threads, n, expected, Release(t)), threads, n) <==> HarmlessRelease(s, threads, n, t)
  {
    var s' := Step(s, threads, n, expected, Release(t));
    assert ThreadOk(s, t);
    if TableOk(s', threads, n) {
      ReleasedIsDone(s, threads, n, expected, t);
      ReleaseKeepsWellProbed(s.table, s.threads[t].place.slot, 0);
      forall u | 0 <= u < threads && Searching(s.threads[u])
        ensures NotPassed(s.threads[u], s.threads[t].place.slot, n)
      {
        assert PathOk(s, u) && PathOk(s', u);
        ReleaseKeepsPath(s, s', threads, n, s.threads[t].place.slot, u);
      }
    } else if HarmlessRelease(s, threads, n, t) {
      StepKeepsTable(s, threads, n, expected, Release(t));
    }
  }

  // ---------------------------------------------------------------- runs

  lemma StepKeepsInv(s: State, threads: nat, n: nat, expected: nat -> nat, a: Action)
    requires Inv(s, threads, n, expected) && Enabled(s, threads, n, expected, a)
    requires forall id :: 0 < expected(id)
    requires a.Release? ==> HarmlessRelease(s, threads, n, a.t)
    ensures Inv(Step(s, threads, n, expected, a), threads, n, expected)
  {
    var s' := Step(s, threads, n, expected, a);
    StepKeepsTable(s, threads, n, expected, a);
    OwnAlone(s, threads, n, expected, a);
    forall id: nat | id != 0 ensures R.Inv(Alone(s', id), threads, expected(id)) {
      assert R.Inv(Alone(s, id), threads, expected(id));
      if id == IdOf(s, a) {
        PerformedKeepsInv(Alone(s, id), threads, expected(id), Shadow(s, threads, n, a));
      } else {
        if a.Pop? {
          PopSucceeds(s, threads, n, expected, a.t);
        }
        OtherAlone(s, threads, n, expected, a, id);
      }
    }
  }

  lemma InitInv(threads: nat, n: nat, expected: nat -> nat)
    requires n > 0 && forall id :: 0 < expected(id)
    ensures Inv(Init(threads, n), threads, n, expected)
  {
    var s := Init(threads, n);
    forall id: nat | id != 0 ensures R.Inv(Alone(s, id), threads, expected(id)) {
      FindIsMembership(s.table, id);
      assert Alone(s, id) == R.Init(threads);
      R.InitInv(threads, expected(id));
    }
  }

  /** Every release of the run is harmless. */
  ghost predicate AllHarmless(threads: nat, n: nat, expected: nat -> nat, run: seq<Action>)
    requires n > 0
  {
    After(threads, n, expected, run).Some? &&
    (run == [] ||
     (&& AllHarmless(threads, n, expected, run[..|run| - 1])
      && (run[|run| - 1].Release? ==>
            HarmlessRelease(After(threads, n, expected, run[..|run| - 1]).value, threads, n, run[|run| - 1].t))))
  }

  lemma {:induction false} RunsKeepInv(threads: nat, n: nat, expected: nat -> nat, run: seq<Action>)
    requires n > 0 && AllHarmless(threads, n, expected, run) && forall id :: 0 < expected(id)
    ensures Inv(After(threads, n, expected, run).value, threads, n, expected)
  {
    if run == [] {
      InitInv(threads, n, expected);
    } else {
      var before := run[..|run| - 1];
      RunsKeepInv(threads, n, expected, before);
      StepKeepsInv(After(threads, n, expected, before).value, threads, n, expected, run[|run| - 1]);
    }
  }

  /** In every run with harmless releases only, for every id at most one call returns a message, and it
      has every contribution of the id exactly once. Once all contributions to an id were made and no
      call for it is under way, exactly one has. */
  lemma EachIdCompletesOnce(threads: nat, n: nat, expected: nat -> nat, run: seq<Action>, id: nat)
    requires n > 0 && AllHarmless(threads, n, expected, run) && (forall id :: 0 < expected(id)) && id != 0
    ensures var s := After(threads, n, expected, run).value;
            var h := HistoryOf(s, id);
            && s.ok && |h.returned| <= 1
            && (h.returned != [] ==>
                  && h.returned[0] == R.Everything(expected(id))
                  && forall t | 0 <= t < threads :: id !in s.handlers[t])
            && (h.begun == UpTo(expected(id)) && (forall t | 0 <= t < threads :: !InCall(s.threads[t], id))
                ==> h.returned == [R.Everything(expected(id))])
  {
    var s := After(threads, n, expected, run).value;
    RunsKeepInv(threads, n, expected, run);
    var v := Alone(s, id);
    assert R.Inv(v, threads, expected(id));
    if v.returned != [] {
      R.ReturnedHasEverything(v, threads, expected(id));
      forall t | 0 <= t < threads ensures id !in s.handlers[t] {
        assert v.handlers[t] == Entry(s.handlers[t], id);
      }
    }
    if HistoryOf(s, id).begun == UpTo(expected(id)) && forall t | 0 <= t < threads :: !InCall(s.threads[t], id) {
      NobodyLeft(s, threads, n, expected, id);
      R.ReturnedHasEverything(v, threads, expected(id));
    }
  }

  predicate InCall(th: Thread, id: nat) {
    th.In? && th.id == id
  }

  lemma NobodyLeft(s: State, threads: nat, n: nat, expected: nat -> nat, id: nat)
    requires Shape(s, threads, n) && R.Inv(Alone(s, id), threads, expected(id))
    requires HistoryOf(s, id).begun == UpTo(expected(id)) && forall t | 0 <= t < threads :: !InCall(s.threads[t], id)
    ensures |Alone(s, id).returned| == 1
  {
    var v := Alone(s, id);
    forall t: nat | t < threads ensures v.pc[t] == R.Idle {
    }
    assert R.BusyThreads(v) == {};
  }
}

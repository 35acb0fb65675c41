/** The reduction of one id across processes: the metadata every contributing process puts in its
    message, the combining step of Handler::combine_inter_process on the slot of that id, and the
    whole protocol as a step system over all interleavings. */
module TreeReduction {
  import opened FiniteSets
  import opened Wrappers
  import opened ProcessTree

  /** A reduction message. The data is a bag of contributions, here named by the process that made
      them: the free commutative monoid, so what is proved holds for every combine operation that
      is associative and commutative. */
  datatype Message = Message(source: int, destination: int, target: int, expected: int,
                             rootExpected: int, data: multiset<nat>)

  /** The placeholder process id in a freshly created reduction message. */
  const REDUCTION_PROCESS_ID := -2

  function NewMessage(data: multiset<nat>): Message {
    Message(REDUCTION_PROCESS_ID, REDUCTION_PROCESS_ID, 0, 0, 0, data)
  }

  // ---------------------------------------------------------------- message metadata

  /** Where process q sends its combined message. */
  function Target(q: nat, pred: nat -> bool): (t: nat)
    ensures 0 < q ==> t < q
    ensures q == 0 ==> t == 0
  {
    if NearestAbove(q, pred) < 0 then 0 else NearestAbove(q, pred)
  }

  /** The processes that send to p. */
  function Feeders(p: nat, total: nat, pred: nat -> bool): set<nat> {
    set q: nat | 0 < q < total && pred(q) && Target(q, pred) == p
  }

  /** The root's count as a message from q announces it: only to a root that does not contribute. */
  function RootInfo(q: nat, total: nat, pred: nat -> bool): nat {
    if q != 0 && Target(q, pred) == 0 && !pred(0) then |Feeders(0, total, pred)| else 0
  }

  /** The number the downward search finds is the number of processes that will send. */
  lemma SearchCountsFeeders(p: nat, total: nat, pred: nat -> bool)
    requires pred(p) || p == 0
    ensures FirstDescendants(p, total, pred) == Feeders(p, total, pred)
  {
    UpDownDuality(p, total, pred);
    if p == 0 {
      forall q: nat | 0 < q < total && pred(q)
        ensures pred(0) ==> NearestAbove(q, pred) >= 0
        ensures !pred(0) ==> NearestAbove(q, pred) != 0
      {
        NearestAboveMeaning(q, pred);
        RootIsAncestor(q);
      }
    }
  }

  /** Both set_interprocess_message_info overloads; for a collection the predicate says whether a
      process holds an element that takes part. */
  method SetInterprocessMessageInfo(message: Message, process: nat, total: nat, pred: nat -> bool)
    returns (m: Message)
    requires process < total && pred(process)
    ensures m == message.(target := Target(process, pred),
                          expected := |Feeders(process, total, pred)| + 1,
                          rootExpected := if process != 0 && Target(process, pred) == 0 && !pred(0)
                                          then |Feeders(0, total, pred)| else message.rootExpected,
                          source := process)
  {
    m := message;
    var parent := -1;
    if process != 0 {
      var found := FindFirstParent(process, total, pred);
      parent := found.value;
    }
    m := m.(target := if parent < 0 then 0 else parent);
    var count := CountFirstDescendants(process, total, pred);
    SearchCountsFeeders(process, total, pred);
    m := m.(expected := count.value + 1);
    if process != 0 && (parent == 0 || parent == -1) && !pred(0) {
      var rootCount := CountFirstDescendants(0, total, pred);
      SearchCountsFeeders(0, total, pred);
      m := m.(rootExpected := rootCount.value);
    }
    m := m.(source := process);
  }

  /** The message process p contributes, as SetInterprocessMessageInfo leaves it. */
  function LocalMessage(p: nat, total: nat, pred: nat -> bool): Message {
    Message(p, REDUCTION_PROCESS_ID, Target(p, pred), |Feeders(p, total, pred)| + 1,
            RootInfo(p, total, pred), multiset{p})
  }

  method Contribution(p: nat, total: nat, pred: nat -> bool) returns (m: Message)
    requires p < total && pred(p)
    ensures m == LocalMessage(p, total, pred)
  {
    m := SetInterprocessMessageInfo(NewMessage(multiset{p}), p, total, pred);
  }

  // ---------------------------------------------------------------- one arrival

  /** What is stored after message m reaches the slot of its id on process self. */
  function Stored(slot: Option<Message>, m: Message, self: int): Message {
    match slot
    case Some(e) =>
      Message(e.source, e.destination,
              if m.source == self then m.target else e.target,
              e.expected + m.expected - 1,
              if m.source == self then m.rootExpected else e.rootExpected,
              e.data + m.data)
    case None =>
      m.(expected := if m.destination == 0 && m.rootExpected != 0
                     then m.rootExpected - 1 else m.expected - 1)
  }

  /** The slot afterwards, and the combined message if nothing is missing any more. */
  function Combine(slot: Option<Message>, m: Message, self: int): (Option<Message>, Option<Message>) {
    var e := Stored(slot, m, self);
    if e.expected == 0 then (None, Some(e.(destination := e.target, source := self)))
    else (Some(e), None)
  }

  // ---------------------------------------------------------------- the step system

  /** slots: the entry of the id on each process. wire: what each process has sent and nobody has
      received. emitted: what process 0 handed to the callback. done and got are history: which
      processes' own contribution has reached their own slot, and whose messages each process has
      received. */
  datatype State = State(slots: seq<Option<Message>>, wire: seq<seq<Message>>,
                         emitted: seq<Message>, done: seq<bool>, got: seq<set<nat>>)

  datatype Action = Contribute(p: nat) | Deliver(sender: nat, index: nat)

  predicate Shape(s: State, total: nat) {
    |s.slots| == |s.wire| == |s.done| == |s.got| == total
  }

  function Init(total: nat): State {
    State(seq(total, _ => None), seq(total, _ => []), [], seq(total, _ => false), seq(total, _ => {}))
  }

  /** A process contributes once; a message in flight can be delivered in any order. */
  predicate Enabled(s: State, total: nat, pred: nat -> bool, a: Action)
    requires Shape(s, total)
  {
    match a
    case Contribute(p) => p < total && pred(p) && !s.done[p]
    case Deliver(q, j) =>
      q < total && j < |s.wire[q]| && 0 <= s.wire[q][j].destination < total
  }

  /** Combine at p; a complete message goes to the callback on process 0 and else on the wire. */
  function Arrive(s: State, p: nat, m: Message): State
    requires p < |s.slots| == |s.wire|
  {
    var (slot, out) := Combine(s.slots[p], m, p);
    var s1 := s.(slots := s.slots[p := slot]);
    if out.None? then s1
    else if p == 0 then s1.(emitted := s1.emitted + [out.value])
    else s1.(wire := s1.wire[p := s1.wire[p] + [out.value]])
  }

  function Step(s: State, total: nat, pred: nat -> bool, a: Action): State
    requires Shape(s, total) && Enabled(s, total, pred, a)
  {
    match a
    case Contribute(p) =>
      Arrive(s.(done := s.done[p := true]), p, LocalMessage(p, total, pred))
    case Deliver(q, j) =>
      var m := s.wire[q][j];
      var p := m.destination;
      Arrive(s.(wire := s.wire[q := s.wire[q][..j] + s.wire[q][j + 1..]],
                got := s.got[p := s.got[p] + {q}]), p, m)
  }

  /** The state after a sequence of actions, if each was enabled in turn. */
  function After(total: nat, pred: nat -> bool, run: seq<Action>): (s: Option<State>)
    ensures s.Some? ==> Shape(s.value, total)
  {
    if run == [] then Some(Init(total))
    else
      var before := After(total, pred, run[..|run| - 1]);
      if before.Some? && Enabled(before.value, total, pred, run[|run| - 1])
      then Some(Step(before.value, total, pred, run[|run| - 1]))
      else None
  }

  // ---------------------------------------------------------------- the invariant

  /** Everything that has to arrive at p has arrived. */
  predicate Complete(p: nat, total: nat, pred: nat -> bool, done: bool, got: set<nat>) {
    if pred(p) then done && got == Feeders(p, total, pred)
    else p == 0 && got == Feeders(p, total, pred) && got != {}
  }

  /** The stored count after the arrivals so far: what the process expects, once it knows, minus
      what came. */
  function Count(p: nat, total: nat, pred: nat -> bool, done: bool, got: set<nat>): int {
    if pred(p) then (if done then |Feeders(p, total, pred)| + 1 else 0) - (if done then 1 else 0) - |got|
    else |Feeders(p, total, pred)| - |got|
  }

  ghost predicate SlotOk(slot: Option<Message>, p: nat, total: nat, pred: nat -> bool, done: bool, got: set<nat>) {
    && (slot.Some? <==> (done || got != {}) && !Complete(p, total, pred, done, got))
    && (slot.Some? ==>
          && slot.value.expected == Count(p, total, pred, done, got) != 0
          && (done ==> slot.value.target == Target(p, pred) && slot.value.rootExpected == RootInfo(p, total, pred))
          && (!pred(p) ==> slot.value.target == 0))
  }

  /** A message on the wire from q; in particular it carries count 0. */
  predicate OnTheWire(m: Message, q: nat, total: nat, pred: nat -> bool) {
    m.source == q && m.destination == m.target == Target(q, pred)
    && m.expected == 0 && m.rootExpected == RootInfo(q, total, pred)
  }

  ghost predicate ProcessOk(s: State, p: nat, total: nat, pred: nat -> bool)
    requires Shape(s, total) && p < total
  {
    && (s.done[p] ==> pred(p))
    && s.got[p] <= Feeders(p, total, pred)
    && (s.got[p] != {} ==> pred(p) || p == 0)
    && SlotOk(s.slots[p], p, total, pred, s.done[p], s.got[p])
    && (p == 0 ==> |s.emitted| == (if Complete(0, total, pred, s.done[0], s.got[0]) then 1 else 0))
    && WireOk(s, p, total, pred)
  }

  ghost predicate WireOk(s: State, q: nat, total: nat, pred: nat -> bool)
    requires Shape(s, total) && q < total
  {
    if q == 0 || !Complete(q, total, pred, s.done[q], s.got[q]) then
      s.wire[q] == [] && (q != 0 ==> q !in s.got[Target(q, pred)])
    else if q in s.got[Target(q, pred)] then s.wire[q] == []
    else |s.wire[q]| == 1 && OnTheWire(s.wire[q][0], q, total, pred)
  }

  /** How often the contribution of process x is in a slot, in a list of messages, and so on. */
  function InSlot(slot: Option<Message>, x: nat): nat {
    if slot.None? then 0 else slot.value.data[x]
  }

  function InList(l: seq<Message>, x: nat): nat {
    if l == [] then 0 else InList(l[..|l| - 1], x) + l[|l| - 1].data[x]
  }

  function InSlots(l: seq<Option<Message>>, x: nat): nat {
    if l == [] then 0 else InSlots(l[..|l| - 1], x) + InSlot(l[|l| - 1], x)
  }

  function InWire(l: seq<seq<Message>>, x: nat): nat {
    if l == [] then 0 else InWire(l[..|l| - 1], x) + InList(l[|l| - 1], x)
  }

  /** How often the contribution of x is anywhere in the system. */
  function Held(s: State, x: nat): nat {
    InSlots(s.slots, x) + InWire(s.wire, x) + InList(s.emitted, x)
  }

  /** Nothing that was contributed is lost or counted twice. */
  ghost predicate Conserved(s: State) {
    forall x: nat :: Held(s, x) == if x < |s.done| && s.done[x] then 1 else 0
  }

  ghost predicate Inv(s: State, total: nat, pred: nat -> bool) {
    && Shape(s, total)
    && (forall p | 0 <= p < total :: ProcessOk(s, p, total, pred))
    && Conserved(s)
  }

  // ---------------------------------------------------------------- conservation

  lemma {:induction false} InSlotsUpdate(l: seq<Option<Message>>, p: nat, e: Option<Message>, x: nat)
    requires p < |l|
    ensures InSlots(l[p := e], x) + InSlot(l[p], x) == InSlots(l, x) + InSlot(e, x)
  {
    var n := |l| - 1;
    if p < n {
      InSlotsUpdate(l[..n], p, e, x);
      assert l[p := e][..n] == l[..n][p := e];
    } else {
      assert l[p := e][..n] == l[..n];
    }
  }

  lemma {:induction false} InWireUpdate(l: seq<seq<Message>>, p: nat, c: seq<Message>, x: nat)
    requires p < |l|
    ensures InWire(l[p := c], x) + InList(l[p], x) == InWire(l, x) + InList(c, x)
  {
    var n := |l| - 1;
    if p < n {
      InWireUpdate(l[..n], p, c, x);
      assert l[p := c][..n] == l[..n][p := c];
    } else {
      assert l[p := c][..n] == l[..n];
    }
  }

  lemma InListAppend(l: seq<Message>, m: Message, x: nat)
    ensures InList(l + [m], x) == InList(l, x) + m.data[x]
  {
    assert (l + [m])[..|l|] == l;
  }

  /** An arrival moves the data of the message into a slot, onto the wire or out to the callback. */
  lemma ArriveConserves(s: State, p: nat, m: Message, x: nat)
    requires p < |s.slots| == |s.wire|
    ensures Held(Arrive(s, p, m), x) == Held(s, x) + m.data[x]
  {
    var (slot, out) := Combine(s.slots[p], m, p);
    InSlotsUpdate(s.slots, p, slot, x);
    if out.Some? {
      InListAppend(s.emitted, out.value, x);
      InListAppend(s.wire[p], out.value, x);
      InWireUpdate(s.wire, p, s.wire[p] + [out.value], x);
    }
  }

  lemma {:induction false} EmptyHolds(slots: seq<Option<Message>>, wire: seq<seq<Message>>, x: nat)
    requires |slots| == |wire|
    requires forall p | 0 <= p < |slots| :: slots[p] == None && wire[p] == []
    ensures InSlots(slots, x) == 0 == InWire(wire, x)
  {
    if slots != [] {
      EmptyHolds(slots[..|slots| - 1], wire[..|wire| - 1], x);
    }
  }

  // ---------------------------------------------------------------- preservation

  lemma InitInv(total: nat, pred: nat -> bool)
    ensures Inv(Init(total), total, pred)
  {
    var s := Init(total);
    forall x: nat ensures Held(s, x) == 0 {
      EmptyHolds(s.slots, s.wire, x);
    }
  }

  /** The slot rule is kept by an arrival, and the arrival completes the entry exactly when it was
      the last one missing. */
  lemma ArrivalAtSlot(slot: Option<Message>, m: Message, p: nat, total: nat, pred: nat -> bool,
                      done: bool, got: set<nat>, done': bool, got': set<nat>)
    requires p < total && got' <= Feeders(p, total, pred) && (pred(p) || p == 0)
    requires SlotOk(slot, p, total, pred, done, got) && !Complete(p, total, pred, done, got)
    requires || (pred(p) && !done && done' && got' == got && m == LocalMessage(p, total, pred))
             || (done' == done && (done ==> pred(p))
                 && exists q :: q in Feeders(p, total, pred) && q !in got
                                && got' == got + {q} && OnTheWire(m, q, total, pred))
    ensures SlotOk(Combine(slot, m, p).0, p, total, pred, done', got')
    ensures Combine(slot, m, p).1.Some? <==> Complete(p, total, pred, done', got')
    ensures p > 0 && Combine(slot, m, p).1.Some? ==> OnTheWire(Combine(slot, m, p).1.value, p, total, pred)
  {
    SubsetSize(got', Feeders(p, total, pred));
    SubsetSize(got, Feeders(p, total, pred));
    var e := Stored(slot, m, p);
    if done' == done {
      var q :| q in Feeders(p, total, pred) && q !in got && got' == got + {q} && OnTheWire(m, q, total, pred);
      assert |got'| == |got| + 1;
      assert m.source != p;
    }
    assert e.expected == Count(p, total, pred, done', got');
  }

  /** The rule of process r speaks only of its own slot, history and channel, and of whether its
      message has been received. */
  lemma ProcessOkFrame(s: State, s': State, r: nat, total: nat, pred: nat -> bool)
    requires Shape(s, total) && Shape(s', total) && r < total && ProcessOk(s, r, total, pred)
    requires s'.slots[r] == s.slots[r] && s'.done[r] == s.done[r] && s'.got[r] == s.got[r]
    requires s'.wire[r] == s.wire[r] && (r == 0 ==> s'.emitted == s.emitted)
    requires r != 0 ==> (r in s'.got[Target(r, pred)] <==> r in s.got[Target(r, pred)])
    ensures ProcessOk(s', r, total, pred)
  {
  }

  lemma ContributeKeepsInv(s: State, total: nat, pred: nat -> bool, p: nat)
    requires Inv(s, total, pred) && Enabled(s, total, pred, Contribute(p))
    ensures Inv(Step(s, total, pred, Contribute(p)), total, pred)
  {
    var s' := Step(s, total, pred, Contribute(p));
    var m := LocalMessage(p, total, pred);
    assert ProcessOk(s, p, total, pred);
    ArrivalAtSlot(s.slots[p], m, p, total, pred, s.done[p], s.got[p], true, s.got[p]);
    forall r | 0 <= r < total ensures ProcessOk(s', r, total, pred) {
      if r != p {
        ProcessOkFrame(s, s', r, total, pred);
      }
    }
    var s1 := s.(done := s.done[p := true]);
    forall x: nat ensures Held(s', x) == if x < |s'.done| && s'.done[x] then 1 else 0 {
      ArriveConserves(s1, p, m, x);
      assert Held(s1, x) == Held(s, x);
    }
  }

  /** What a delivery is, given the invariant: the sender has just that one message out, it goes to
      the sender's target, and it is one the target still misses. */
  lemma DeliverMeans(s: State, total: nat, pred: nat -> bool, q: nat, j: nat) returns (m: Message, p: nat, s1: State)
    requires Inv(s, total, pred) && Enabled(s, total, pred, Deliver(q, j))
    ensures s.wire[q] == [m] && OnTheWire(m, q, total, pred)
    ensures p == Target(q, pred) < q && (pred(p) || p == 0)
    ensures q in Feeders(p, total, pred) && q !in s.got[p]
    ensures !Complete(p, total, pred, s.done[p], s.got[p])
    ensures s1 == s.(wire := s.wire[q := []], got := s.got[p := s.got[p] + {q}])
    ensures Step(s, total, pred, Deliver(q, j)) == Arrive(s1, p, m)
  {
    m := s.wire[q][j];
    p := Target(q, pred);
    assert ProcessOk(s, q, total, pred);
    assert m.destination == p && j == 0 && s.wire[q] == [m];
    s1 := s.(wire := s.wire[q := []], got := s.got[p := s.got[p] + {q}]);
    assert s.wire[q][..j] + s.wire[q][j + 1..] == [];
    assert ProcessOk(s, p, total, pred);
    NearestAboveMeaning(q, pred);
  }

  lemma DeliverKeepsProcesses(s: State, total: nat, pred: nat -> bool, q: nat, m: Message, p: nat, s1: State)
    requires Inv(s, total, pred) && q < total && s.wire[q] == [m] && OnTheWire(m, q, total, pred)
    requires p == Target(q, pred) < q && (pred(p) || p == 0)
    requires q in Feeders(p, total, pred) && q !in s.got[p]
    requires !Complete(p, total, pred, s.done[p], s.got[p])
    requires s1 == s.(wire := s.wire[q := []], got := s.got[p := s.got[p] + {q}])
    ensures forall r | 0 <= r < total :: ProcessOk(Arrive(s1, p, m), r, total, pred)
  {
    var s' := Arrive(s1, p, m);
    forall r | 0 <= r < total ensures ProcessOk(s', r, total, pred) {
      if r == p {
        DeliverAtReceiver(s, total, pred, q, m, p, s1);
      } else if r == q {
        assert ProcessOk(s, q, total, pred);
      } else {
        ProcessOkFrame(s, s', r, total, pred);
      }
    }
  }

  lemma DeliverAtReceiver(s: State, total: nat, pred: nat -> bool, q: nat, m: Message, p: nat, s1: State)
    requires Inv(s, total, pred) && q < total && s.wire[q] == [m] && OnTheWire(m, q, total, pred)
    requires p == Target(q, pred) < q && (pred(p) || p == 0)
    requires q in Feeders(p, total, pred) && q !in s.got[p]
    requires !Complete(p, total, pred, s.done[p], s.got[p])
    requires s1 == s.(wire := s.wire[q := []], got := s.got[p := s.got[p] + {q}])
    ensures ProcessOk(Arrive(s1, p, m), p, total, pred)
  {
    assert ProcessOk(s, p, total, pred);
    ArrivalAtSlot(s.slots[p], m, p, total, pred, s.done[p], s.got[p], s.done[p], s.got[p] + {q});
  }

  lemma DeliverKeepsInv(s: State, total: nat, pred: nat -> bool, q: nat, j: nat)
    requires Inv(s, total, pred) && Enabled(s, total, pred, Deliver(q, j))
    ensures Inv(Step(s, total, pred, Deliver(q, j)), total, pred)
  {
    var s' := Step(s, total, pred, Deliver(q, j));
    var m, p, s1 := DeliverMeans(s, total, pred, q, j);
    DeliverKeepsProcesses(s, total, pred, q, m, p, s1);
    forall x: nat ensures Held(s', x) == Held(s, x) {
      ArriveConserves(s1, p, m, x);
      InWireUpdate(s.wire, q, [], x);
      InListAppend([], m, x);
    }
  }

  lemma {:induction false} RunsKeepInv(total: nat, pred: nat -> bool, run: seq<Action>)
    requires After(total, pred, run).Some?
    ensures Inv(After(total, pred, run).value, total, pred)
  {
    if run == [] {
      InitInv(total, pred);
    } else {
      var last := |run| - 1;
      RunsKeepInv(total, pred, run[..last]);
      var s := After(total, pred, run[..last]).value;
      match run[last]
      case Contribute(p) => ContributeKeepsInv(s, total, pred, p);
      case Deliver(q, j) => DeliverKeepsInv(s, total, pred, q, j);
    }
  }

  // ---------------------------------------------------------------- what every run does

  function Contributors(total: nat, pred: nat -> bool): set<nat> {
    set p: nat | p < total && pred(p)
  }

  /** Once the root is complete, the contribution and the message of every process have arrived. */
  lemma {:induction false} RootCompleteMeansAll(s: State, total: nat, pred: nat -> bool, q: nat)
    requires 0 < total && Inv(s, total, pred) && Complete(0, total, pred, s.done[0], s.got[0])
    requires q < total && pred(q)
    ensures s.done[q] && Complete(q, total, pred, s.done[q], s.got[q])
    ensures q != 0 ==> q in s.got[Target(q, pred)]
    decreases q
  {
    assert ProcessOk(s, q, total, pred);
    if q != 0 {
      var t := Target(q, pred);
      NearestAboveMeaning(q, pred);
      if t != 0 {
        RootCompleteMeansAll(s, total, pred, t);
      }
      assert q in Feeders(t, total, pred);
    }
  }

  lemma RootCompleteMeansNothingLeft(s: State, total: nat, pred: nat -> bool, q: nat)
    requires 0 < total && Inv(s, total, pred) && Complete(0, total, pred, s.done[0], s.got[0]) && q < total
    ensures s.slots[q] == None && s.wire[q] == [] && s.done[q] == pred(q)
  {
    assert ProcessOk(s, q, total, pred);
    if pred(q) {
      RootCompleteMeansAll(s, total, pred, q);
    }
  }

  /** What is held nowhere else was emitted. */
  lemma EmittedCount(s: State, total: nat, pred: nat -> bool, x: nat)
    requires Shape(s, total) && Held(s, x) == (if x < |s.done| && s.done[x] then 1 else 0) && |s.emitted| == 1
    requires forall q | 0 <= q < total :: s.slots[q] == None && s.wire[q] == [] && s.done[q] == pred(q)
    ensures s.emitted[0].data[x] == if x in Contributors(total, pred) then 1 else 0
  {
    EmptyHolds(s.slots, s.wire, x);
    InListAppend([], s.emitted[0], x);
    assert s.emitted == [] + [s.emitted[0]];
  }

  lemma EmittedHasEverything(s: State, total: nat, pred: nat -> bool)
    requires Shape(s, total) && Conserved(s) && |s.emitted| == 1
    requires forall q | 0 <= q < total :: s.slots[q] == None && s.wire[q] == [] && s.done[q] == pred(q)
    ensures s.emitted[0].data == multiset(Contributors(total, pred))
  {
    forall x: nat ensures s.emitted[0].data[x] == multiset(Contributors(total, pred))[x] {
      EmittedCount(s, total, pred, x);
    }
  }

  lemma RootCompleteMeansEmpty(s: State, total: nat, pred: nat -> bool)
    requires 0 < total && Inv(s, total, pred) && Complete(0, total, pred, s.done[0], s.got[0])
    ensures forall q | 0 <= q < total :: s.slots[q] == None && s.wire[q] == [] && s.done[q] == pred(q)
    ensures |s.emitted| == 1 && s.emitted[0].data == multiset(Contributors(total, pred))
  {
    forall q | 0 <= q < total ensures s.slots[q] == None && s.wire[q] == [] && s.done[q] == pred(q) {
      RootCompleteMeansNothingLeft(s, total, pred, q);
    }
    assert ProcessOk(s, 0, total, pred);
    EmittedHasEverything(s, total, pred);
  }

  ghost predicate Finished(s: State, total: nat, pred: nat -> bool)
    requires Shape(s, total)
  {
    && |s.emitted| == 1 && s.emitted[0].data == multiset(Contributors(total, pred))
    && forall q | 0 <= q < total :: s.slots[q] == None && s.wire[q] == [] && s.done[q] == pred(q)
  }

  lemma FinishedIsStuck(s: State, total: nat, pred: nat -> bool, a: Action)
    requires Shape(s, total) && Finished(s, total, pred)
    ensures !Enabled(s, total, pred, a)
  {
    match a
    case Contribute(p) =>
    case Deliver(q, j) =>
      if q < total {
        assert s.wire[q] == [];
      }
  }

  /** Safety, for every number of processes, every predicate and every interleaving: process 0 emits
      at most once; when it has, the result combines the data of every contributor exactly once,
      nothing is left in any table or channel, and no step is possible any more. */
  lemma ReductionSafety(total: nat, pred: nat -> bool, run: seq<Action>)
    requires 0 < total && After(total, pred, run).Some?
    ensures var s := After(total, pred, run).value;
            |s.emitted| <= 1 && (s.emitted != [] ==> Finished(s, total, pred))
    ensures After(total, pred, run).value.emitted != [] ==>
              forall a :: !Enabled(After(total, pred, run).value, total, pred, a)
  {
    var s := After(total, pred, run).value;
    RunsKeepInv(total, pred, run);
    assert ProcessOk(s, 0, total, pred);
    if s.emitted != [] {
      RootCompleteMeansEmpty(s, total, pred);
      forall a ensures !Enabled(s, total, pred, a) {
        FinishedIsStuck(s, total, pred, a);
      }
    }
  }

  /** With everything contributed and nothing in flight, every contributor is complete. */
  lemma {:induction false} QuietMeansComplete(s: State, total: nat, pred: nat -> bool, q: nat)
    requires 0 < total && Inv(s, total, pred)
    requires forall r | 0 <= r < total :: s.wire[r] == [] && (pred(r) ==> s.done[r])
    requires q < total && pred(q)
    ensures Complete(q, total, pred, s.done[q], s.got[q])
    decreases total - q
  {
    assert ProcessOk(s, q, total, pred);
    forall k | k in Feeders(q, total, pred) ensures k in s.got[q] {
      QuietMeansComplete(s, total, pred, k);
      assert ProcessOk(s, k, total, pred);
    }
  }

  /** Liveness: a run that cannot be continued has emitted, if any process contributes at all. */
  lemma ReductionCompletes(total: nat, pred: nat -> bool, run: seq<Action>)
    requires 0 < total && After(total, pred, run).Some?
    requires Contributors(total, pred) != {}
    requires forall a :: !Enabled(After(total, pred, run).value, total, pred, a)
    ensures |After(total, pred, run).value.emitted| == 1
  {
    var s := After(total, pred, run).value;
    RunsKeepInv(total, pred, run);
    forall r | 0 <= r < total ensures s.wire[r] == [] && (pred(r) ==> s.done[r]) {
      assert ProcessOk(s, r, total, pred);
      assert !Enabled(s, total, pred, Contribute(r)) && !Enabled(s, total, pred, Deliver(r, 0));
    }
    assert ProcessOk(s, 0, total, pred);
    if pred(0) {
      QuietMeansComplete(s, total, pred, 0);
    } else {
      forall k | k in Feeders(0, total, pred) ensures k in s.got[0] {
        QuietMeansComplete(s, total, pred, k);
        assert ProcessOk(s, k, total, pred);
      }
      var q :| q in Contributors(total, pred);
      TopContributor(total, pred, q);
    }
  }

  lemma {:induction false} TopContributor(total: nat, pred: nat -> bool, q: nat)
    requires q in Contributors(total, pred) && !pred(0)
    ensures Feeders(0, total, pred) != {}
    decreases q
  {
    if Target(q, pred) != 0 {
      NearestAboveMeaning(q, pred);
      TopContributor(total, pred, Target(q, pred));
    } else {
      assert q in Feeders(0, total, pred);
    }
  }

  function DoneSet(s: State): set<nat> {
    set p: nat | p < |s.done| && s.done[p]
  }

  function ReceivedSet(s: State, total: nat, pred: nat -> bool): set<nat>
    requires Shape(s, total)
  {
    set q: nat | q < total && pred(q) && q in s.got[Target(q, pred)]
  }

  /** How much has happened: contributions made and messages received. */
  function Progress(s: State, total: nat, pred: nat -> bool): nat
    requires Shape(s, total)
  {
    |DoneSet(s)| + |ReceivedSet(s, total, pred)|
  }

  lemma OneMoreDone(s: State, s': State, total: nat, pred: nat -> bool, p: nat)
    requires Shape(s, total) && Shape(s', total) && p < total && !s.done[p]
    requires s'.done == s.done[p := true] && s'.got == s.got
    ensures Progress(s', total, pred) == Progress(s, total, pred) + 1
  {
    DoneSetAfter(s, s', p);
    SameReceived(s, s', total, pred);
  }

  lemma DoneSetAfter(s: State, s': State, p: nat)
    requires p < |s.done| && !s.done[p] && s'.done == s.done[p := true]
    ensures |DoneSet(s')| == |DoneSet(s)| + 1
  {
    assert DoneSet(s') == DoneSet(s) + {p};
  }

  lemma SameReceived(s: State, s': State, total: nat, pred: nat -> bool)
    requires Shape(s, total) && Shape(s', total) && s'.got == s.got
    ensures ReceivedSet(s', total, pred) == ReceivedSet(s, total, pred)
  {
    forall q: nat ensures q in ReceivedSet(s', total, pred) <==> q in ReceivedSet(s, total, pred) {
    }
  }

  lemma OneMoreReceived(s: State, s': State, total: nat, pred: nat -> bool, q: nat)
    requires Shape(s, total) && Shape(s', total) && q < total && pred(q) && Target(q, pred) < total
    requires q !in s.got[Target(q, pred)]
    requires s'.done == s.done
    requires s'.got == s.got[Target(q, pred) := s.got[Target(q, pred)] + {q}]
    ensures Progress(s', total, pred) == Progress(s, total, pred) + 1
  {
    assert DoneSet(s') == DoneSet(s);
    assert ReceivedSet(s', total, pred) == ReceivedSet(s, total, pred) + {q};
  }

  lemma StepProgresses(s: State, total: nat, pred: nat -> bool, a: Action)
    requires Inv(s, total, pred) && Enabled(s, total, pred, a)
    ensures Progress(Step(s, total, pred, a), total, pred) == Progress(s, total, pred) + 1
  {
    match a
    case Contribute(p) =>
      OneMoreDone(s, Step(s, total, pred, a), total, pred, p);
    case Deliver(q, j) =>
      var m, p, s1 := DeliverMeans(s, total, pred, q, j);
      OneMoreReceived(s, Arrive(s1, p, m), total, pred, q);
  }

  /** Every run is short: each contribution and each message is processed once. With
      ReductionCompletes, every run that is continued as long as possible ends with the result. */
  lemma {:induction false} RunsAreBounded(total: nat, pred: nat -> bool, run: seq<Action>)
    requires After(total, pred, run).Some?
    ensures |run| == Progress(After(total, pred, run).value, total, pred)
    ensures |run| <= 2 * |Contributors(total, pred)|
  {
    var s := After(total, pred, run).value;
    RunsKeepInv(total, pred, run);
    if run == [] {
      assert DoneSet(s) == {} == ReceivedSet(s, total, pred);
    } else {
      var last := |run| - 1;
      RunsKeepInv(total, pred, run[..last]);
      RunsAreBounded(total, pred, run[..last]);
      StepProgresses(After(total, pred, run[..last]).value, total, pred, run[last]);
    }
    forall p | p in DoneSet(s) ensures p in Contributors(total, pred) {
      assert ProcessOk(s, p, total, pred);
    }
    SubsetSize(DoneSet(s), Contributors(total, pred));
    SubsetSize(ReceivedSet(s, total, pred), Contributors(total, pred));
  }

  /** The counter, in any order of arrivals: what is stored after k messages on process p is what
      the process expects, once it knows, minus what came; it is never 0, and every message on the
      wire carries count 0. */
  lemma CounterIsOrderIndependent(total: nat, pred: nat -> bool, run: seq<Action>, p: nat)
    requires p < total && After(total, pred, run).Some?
    ensures var s := After(total, pred, run).value;
            && (s.slots[p].Some? && pred(p) ==>
                  s.slots[p].value.expected ==
                  (if s.done[p] then |FirstDescendants(p, total, pred)| else 0) - |s.got[p]| != 0)
            && (s.slots[p].Some? && !pred(p) ==>
                  p == 0 && s.slots[p].value.expected == |FirstDescendants(0, total, pred)| - |s.got[p]| != 0)
            && (s.slots[p].None? && s.got[p] != {} && pred(p) ==> s.done[p])
            && forall m | m in s.wire[p] :: m.expected == 0
  {
    var s := After(total, pred, run).value;
    RunsKeepInv(total, pred, run);
    assert ProcessOk(s, p, total, pred);
    if pred(p) || p == 0 {
      SearchCountsFeeders(p, total, pred);
    }
  }
}

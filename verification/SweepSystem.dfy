/** Global quiescence detection as a step system: every process with its Global, the channels of the
    detection, and the regular messages the application exchanges meanwhile. A step is one piece of
    a call of check (one probe with its receive, one decision), so the calls of different processes
    interleave at that granularity. The detection runs on at least two processes; one process is the
    special case of GlobalQd.SingleProcessTerminates. */
module SweepSystem {
  import opened Wrappers
  import opened ProcessTree
  import opened GlobalQd

  /** Running: in run_to_quiescence. Waiting: check_impl returned true, the process blocks in
      safe_reset until its children have the broadcast. AtBarrier: reset, in the final barrier. */
  datatype Mode = Running | Waiting | AtBarrier

  /** A regular message in flight. epoch is history: how many sweeps the sender had recorded. */
  datatype Regular = Regular(from: nat, to: nat, stamp: nat, epoch: nat)

  /** active: the process has work. The other fields after mail are history. sweep: the number of the
      current sweep. rec: how many sweeps each process has recorded. value and raw: what it recorded
      last, and its sends minus processed at that moment. late: messages of this sweep sent before
      the sender's record and processed after the receiver's. early: messages sent after the sender's
      record and processed before the receiver's; leafEarly: those of them to or from a leaf; taint:
      the receiver of the last one between two non-leaf processes, or -1. */
  datatype System = System(nodes: seq<Node>, net: Net, active: seq<bool>, mode: seq<Mode>,
                           mail: seq<Regular>, sweep: nat, rec: seq<nat>, value: seq<int>, raw: seq<int>,
                           late: nat, early: nat, leafEarly: nat, taint: int, ok: bool)

  datatype Action =
    | CleanDowns(p: nat) | CleanUps(p: nat) | Start | AcceptDown(p: nat) | AcceptUp(p: nat, child: nat)
    | Finish(p: nat) | AcceptTerm(p: nat) | Reset(p: nat)
    | Send(p: nat, to: nat, stamp: nat) | Receive(index: nat) | Rest(p: nat)

  predicate Shape(s: System, n: nat) {
    && 1 < n
    && |s.nodes| == |s.net.down| == |s.net.up| == |s.net.term| == n
    && |s.active| == |s.mode| == |s.rec| == |s.value| == |s.raw| == n
    && (forall p | 0 <= p < n :: Placed(s.nodes[p], p, n))
    && (forall m | m in s.mail :: m.from < n && m.to < n && m.from != m.to)
  }

  /** The links of the node are those of process p. */
  predicate Placed(nd: Node, p: nat, n: nat)
    requires p < n
  {
    nd.self == p && nd.parent == Fresh(p, n).parent && nd.left == Fresh(p, n).left && nd.right == Fresh(p, n).right
  }

  predicate IsLeaf(p: nat, n: nat) {
    2 * p + 1 >= n
  }

  function Init(n: nat, active: seq<bool>): System
    requires |active| == n
  {
    System(seq(n, p requires 0 <= p < n => Fresh(p, n)),
           Net(seq(n, _ => Chan(0, [])), seq(n, _ => Chan(0, [])), seq(n, _ => Chan(0, []))),
           active, seq(n, _ => Running), [], 0, seq(n, _ => 0), seq(n, _ => 0), seq(n, _ => 0),
           0, 0, 0, -1, true)
  }

  function At(s: System, n: nat, p: nat): (l: Process)
    requires Shape(s, n) && p < n
    ensures Fits(l.node, l.net) && l.node.self == p
  {
    assert Placed(s.nodes[p], p, n);
    Process(s.nodes[p], s.net, true)
  }

  function Back(s: System, n: nat, p: nat, l: Process): (r: System)
    requires Shape(s, n) && p < n && SameLinks(At(s, n, p), l)
    ensures Shape(r, n)
  {
    assert Placed(s.nodes[p], p, n);
    s.(nodes := s.nodes[p := l.node], net := l.net, ok := s.ok && l.ok)
  }

  /** A piece of check runs only on a process that is passive there, and only before it terminated. */
  predicate Checking(s: System, n: nat, p: nat)
    requires Shape(s, n)
  {
    p < n && s.mode[p] == Running && !s.active[p] && s.nodes[p].terminate != 1
  }

  predicate Enabled(s: System, n: nat, a: Action)
    requires Shape(s, n)
  {
    s.ok &&
    match a
    case CleanDowns(p) => Checking(s, n, p)
    case CleanUps(p) => Checking(s, n, p)
    case Start => Checking(s, n, 0) && s.nodes[0].rootDownSweep <= s.nodes[0].localSweep
    case AcceptDown(p) => Checking(s, n, p) && p != 0 && s.net.down[p].queue != []
    case AcceptUp(p, c) =>
      Checking(s, n, p) && c < n && (c == s.nodes[p].left || c == s.nodes[p].right) && s.net.up[c].queue != []
    case Finish(p) => Checking(s, n, p) && !Leaf(s.nodes[p]) && SweepFull(s.nodes[p])
    case AcceptTerm(p) => Checking(s, n, p) && p != 0 && s.net.term[p].queue != []
    case Reset(p) => p < n && s.mode[p] == Waiting && BroadcastReceived(s.nodes[p], s.net)
    // A regular message carries its sender's sweep number, unless it forwards a received broadcast to
    // a child, with the stamp it came with.
    case Send(p, to, stamp) =>
      p < n && to < n && p != to && s.mode[p] == Running && s.active[p]
      && (stamp == s.nodes[p].localSweep || (to != 0 && Parent(to) == p && stamp <= s.nodes[p].lastRegular))
    case Receive(j) => j < |s.mail| && s.mode[s.mail[j].to] == Running
    case Rest(p) => p < n && s.mode[p] == Running
  }

  function Recorded(s: System, n: nat, p: nat, value: int): (r: System)
    requires Shape(s, n) && p < n
    ensures Shape(r, n)
  {
    s.(rec := s.rec[p := s.rec[p] + 1], value := s.value[p := value],
       raw := s.raw[p := s.nodes[p].sends - s.nodes[p].processed])
  }

  function Step(s: System, n: nat, a: Action): (r: System)
    requires Shape(s, n) && Enabled(s, n, a)
    ensures Shape(r, n)
  {
    match a
    case CleanDowns(p) => Back(s, n, p, CleanupDowns(At(s, n, p)))
    case CleanUps(p) => Back(s, n, p, CleanupUps(At(s, n, p)))
    case Start =>
      Back(s, n, 0, StartSweep(At(s, n, 0))).(sweep := s.nodes[0].localSweep + 1,
                                              late := 0, early := 0, leafEarly := 0, taint := -1)
    case AcceptDown(p) =>
      var nd := s.nodes[p];
      Back(if Leaf(nd) then Recorded(s, n, p, nd.sends - nd.processed) else s, n, p, TakeDown(At(s, n, p)))
    case AcceptUp(p, c) => Back(s, n, p, TakeUp(At(s, n, p), c))
    case Finish(p) =>
      var l := FinishSweep(At(s, n, p));
      var s1 := Back(Recorded(s, n, p, LocalCount(s.nodes[p])), n, p, l);
      if l.node.terminate == 1 then s1.(mode := s.mode[p := Waiting]) else s1
    case AcceptTerm(p) => Back(s, n, p, TakeTerm(At(s, n, p))).(mode := s.mode[p := Waiting])
    case Reset(p) => Back(s, n, p, SafeReset(At(s, n, p))).(mode := s.mode[p := AtBarrier])
    case Send(p, to, stamp) => SendRegular(s, n, p, to, stamp)
    case Receive(j) => ReceiveRegular(s, n, j)
    case Rest(p) => s.(active := s.active[p := false])
  }

  function SendRegular(s: System, n: nat, p: nat, to: nat, stamp: nat): (r: System)
    requires Shape(s, n) && p < n && to < n && p != to
    ensures Shape(r, n)
  {
    assert Placed(s.nodes[p], p, n);
    s.(mail := s.mail + [Regular(p, to, stamp, s.rec[p])],
       nodes := s.nodes[p := CountSend(s.nodes[p])])
  }

  function ReceiveRegular(s: System, n: nat, j: nat): (r: System)
    requires Shape(s, n) && j < |s.mail|
    ensures Shape(r, n)
  {
    var m := s.mail[j];
    assert m in s.mail;
    assert Placed(s.nodes[m.to], m.to, n);
    var nd := s.nodes[m.to];
    var isEarly := m.epoch > s.rec[m.to];
    var isLate := s.rec[m.to] == s.sweep && m.epoch < s.sweep;
    var leafy := IsLeaf(m.from, n) || IsLeaf(m.to, n);
    s.(mail := s.mail[..j] + s.mail[j + 1..],
       nodes := s.nodes[m.to := SeeStamp(CountProcessed(nd), m.stamp)],
       active := s.active[m.to := true],
       late := s.late + if isLate then 1 else 0,
       early := s.early + if isEarly then 1 else 0,
       leafEarly := s.leafEarly + if isEarly && leafy then 1 else 0,
       taint := if isEarly && !leafy then m.to else s.taint)
  }

  function After(n: nat, active: seq<bool>, run: seq<Action>): (s: Option<System>)
    requires |active| == n > 1
    ensures s.Some? ==> Shape(s.value, n)
  {
    if run == [] then Some(Init(n, active))
    else
      var before := After(n, active, run[..|run| - 1]);
      if before.Some? && Enabled(before.value, n, run[|run| - 1])
      then Some(Step(before.value, n, run[|run| - 1])) else None
  }

  /** The run sends regular messages only between pairs of processes that are allowed to. */
  predicate Follows(run: seq<Action>, allowed: (nat, nat) -> bool) {
    forall i | 0 <= i < |run| && run[i].Send? :: allowed(run[i].p, run[i].to)
  }
}

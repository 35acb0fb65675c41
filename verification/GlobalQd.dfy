/** The state and the code of qd::Global on one process (the BCJ algorithm).
    MPI is a set of FIFO channels. What a probe sees is an input of each call: a probe may miss a
    message that is already there, and a receive loop sees some number of the waiting messages. A
    send request is known by the number of the message in its channel and is complete once the
    receiver has received that message. */
module GlobalQd {
  import opened Wrappers
  import opened ProcessTree

  const INT64_MAX := 0x7FFF_FFFF_FFFF_FFFF

  datatype Msg = Msg(up: bool, sweep: nat, count: int)

  /** sent counts all messages ever put into the channel; queue holds those not yet received. */
  datatype Chan<T> = Chan(sent: nat, queue: seq<T>)

  function Received<T>(c: Chan<T>): int {
    c.sent - |c.queue|
  }

  function Put<T>(c: Chan<T>, m: T): Chan<T> {
    Chan(c.sent + 1, c.queue + [m])
  }

  function Drop<T>(c: Chan<T>): Chan<T>
    requires c.queue != []
  {
    Chan(c.sent, c.queue[1..])
  }

  /** The channels of the three tags along the tree edges, each indexed by the child end. */
  datatype Net = Net(down: seq<Chan<Msg>>, up: seq<Chan<Msg>>, term: seq<Chan<int>>)

  datatype Accumulation = Accumulation(sum: int, children: nat)
  datatype DownData = DownData(message: Msg, left: nat, right: nat)
  datatype UpData = UpData(message: Msg, request: nat)

  /** The members of Global. */
  datatype Node = Node(localSweep: nat, lastRegular: nat, sends: int, processed: int,
                       self: int, parent: int, left: int, right: int,
                       downs: seq<DownData>, rootDownSweep: nat, ups: seq<UpData>,
                       accum: map<nat, Accumulation>, terminate: int,
                       broadcastLeft: Option<nat>, broadcastRight: Option<nat>)

  /** A process with its channels; ok is false once an exception has been thrown. */
  datatype Process = Process(node: Node, net: Net, ok: bool)

  /** What the probes of one call see. */
  datatype Probes = Probes(left: nat, right: nat, down: bool, term: bool)

  predicate Fits(nd: Node, net: Net) {
    && |net.down| == |net.up| == |net.term|
    && 0 <= nd.self < |net.down|
    && -1 <= nd.left < |net.down| && -1 <= nd.right < |net.down| && -1 <= nd.parent < |net.down|
  }

  /** The constructed state of process p. */
  function Fresh(p: nat, total: nat): Node
    requires p < total
  {
    var pc := Links(p, total).value;
    Node(0, 0, 0, 0, pc.self, pc.parent, pc.left, pc.right, [], 0, [], map[], 0, None, None)
  }

  predicate Leaf(nd: Node) {
    nd.left == -1 && nd.right == -1
  }

  predicate Root(nd: Node) {
    nd.parent == -1
  }

  function Children(nd: Node): nat {
    (if nd.left == -1 then 0 else 1) + (if nd.right == -1 then 0 else 1)
  }

  function SafeAdd(a: int, b: int): int {
    if a == INT64_MAX || b == INT64_MAX then INT64_MAX else a + b
  }

  /** The same process of the same tree. */
  predicate SameLinks(l: Process, r: Process) {
    && r.node.self == l.node.self && r.node.parent == l.node.parent
    && r.node.left == l.node.left && r.node.right == l.node.right
    && |r.net.down| == |l.net.down| && |r.net.up| == |l.net.up| && |r.net.term| == |l.net.term|
  }

  // ---------------------------------------------------------------- regular messages

  function Max(a: nat, b: nat): nat {
    if a > b then a else b
  }

  function CountSend(nd: Node): Node {
    nd.(sends := nd.sends + 1)
  }

  function CountProcessed(nd: Node): Node {
    nd.(processed := nd.processed + 1)
  }

  function SeeStamp(nd: Node, sweep: nat): Node {
    nd.(lastRegular := Max(sweep, nd.lastRegular))
  }

  // ---------------------------------------------------------------- the pieces of a call

  predicate DownComplete(nd: Node, net: Net, d: DownData)
    requires Fits(nd, net)
  {
    && (nd.left == -1 || d.left < Received(net.down[nd.left]))
    && (nd.right == -1 || d.right < Received(net.down[nd.right]))
  }

  predicate UpComplete(nd: Node, net: Net, u: UpData)
    requires Fits(nd, net)
  {
    u.request < Received(net.up[nd.self])
  }

  /** A child that exists has not received its copy of the message yet. */
  predicate DownAwaited(nd: Node, net: Net, d: DownData)
    requires Fits(nd, net)
  {
    || (nd.left >= 0 && Received(net.down[nd.left]) <= d.left)
    || (nd.right >= 0 && Received(net.down[nd.right]) <= d.right)
  }

  /** The parent has not received the message yet. */
  predicate UpAwaited(nd: Node, net: Net, u: UpData)
    requires Fits(nd, net)
  {
    Received(net.up[nd.self]) <= u.request
  }

  function OpenDowns(nd: Node, net: Net, ds: seq<DownData>): (r: seq<DownData>)
    requires Fits(nd, net)
    ensures forall d :: d in r <==> d in ds && DownAwaited(nd, net, d)
    ensures (forall d | d in ds :: DownComplete(nd, net, d)) ==> r == []
  {
    if ds == [] then []
    else
      var rest := OpenDowns(nd, net, ds[..|ds| - 1]);
      assert ds == ds[..|ds| - 1] + [ds[|ds| - 1]];
      if DownComplete(nd, net, ds[|ds| - 1]) then rest else rest + [ds[|ds| - 1]]
  }

  function OpenUps(nd: Node, net: Net, us: seq<UpData>): (r: seq<UpData>)
    requires Fits(nd, net)
    ensures forall u :: u in r <==> u in us && UpAwaited(nd, net, u)
    ensures (forall u | u in us :: UpComplete(nd, net, u)) ==> r == []
  {
    if us == [] then []
    else
      var rest := OpenUps(nd, net, us[..|us| - 1]);
      assert us == us[..|us| - 1] + [us[|us| - 1]];
      if UpComplete(nd, net, us[|us| - 1]) then rest else rest + [us[|us| - 1]]
  }

  /** Order and number are kept: each entry stays or goes by itself. */
  lemma {:induction false} OpenDownsSplits(nd: Node, net: Net, a: seq<DownData>, b: seq<DownData>)
    requires Fits(nd, net)
    ensures OpenDowns(nd, net, a + b) == OpenDowns(nd, net, a) + OpenDowns(nd, net, b)
  {
    if b == [] {
      assert a + b == a;
    } else {
      OpenDownsSplits(nd, net, a, b[..|b| - 1]);
      assert (a + b)[..|a + b| - 1] == a + b[..|b| - 1];
    }
  }

  lemma OpenDownsOne(nd: Node, net: Net, d: DownData)
    requires Fits(nd, net)
    ensures OpenDowns(nd, net, [d]) == if DownAwaited(nd, net, d) then [d] else []
  {
    assert [d][..0] == [];
  }

  lemma {:induction false} OpenUpsSplits(nd: Node, net: Net, a: seq<UpData>, b: seq<UpData>)
    requires Fits(nd, net)
    ensures OpenUps(nd, net, a + b) == OpenUps(nd, net, a) + OpenUps(nd, net, b)
  {
    if b == [] {
      assert a + b == a;
    } else {
      OpenUpsSplits(nd, net, a, b[..|b| - 1]);
      assert (a + b)[..|a + b| - 1] == a + b[..|b| - 1];
    }
  }

  lemma OpenUpsOne(nd: Node, net: Net, u: UpData)
    requires Fits(nd, net)
    ensures OpenUps(nd, net, [u]) == if UpAwaited(nd, net, u) then [u] else []
  {
    assert [u][..0] == [];
  }

  function CleanupDowns(l: Process): (r: Process)
    requires Fits(l.node, l.net)
    ensures SameLinks(l, r)
  {
    if exists d :: d in l.node.downs && d.message.up then l.(ok := false)
    else l.(node := l.node.(downs := OpenDowns(l.node, l.net, l.node.downs)))
  }

  function CleanupUps(l: Process): (r: Process)
    requires Fits(l.node, l.net)
    ensures SameLinks(l, r)
  {
    if exists u :: u in l.node.ups && !u.message.up then l.(ok := false)
    else l.(node := l.node.(ups := OpenUps(l.node, l.net, l.node.ups)))
  }

  function PutDown(net: Net, child: int, m: Msg): (r: Net)
    requires -1 <= child < |net.down|
    ensures |r.down| == |net.down| && r.up == net.up && r.term == net.term
  {
    if child == -1 then net else net.(down := net.down[child := Put(net.down[child], m)])
  }

  function NextRequest<T>(chans: seq<Chan<T>>, child: int): nat
    requires -1 <= child < |chans|
  {
    if child == -1 then 0 else chans[child].sent
  }

  function SendDown(l: Process, m: Msg): (r: Process)
    requires Fits(l.node, l.net)
    ensures SameLinks(l, r)
  {
    var net1 := PutDown(l.net, l.node.left, m);
    l.(net := PutDown(net1, l.node.right, m),
       node := l.node.(downs := l.node.downs + [DownData(m, NextRequest(l.net.down, l.node.left),
                                                         NextRequest(net1.down, l.node.right))]))
  }

  function SendUp(l: Process, m: Msg): (r: Process)
    requires Fits(l.node, l.net)
    ensures SameLinks(l, r)
  {
    var p := l.node.self;
    l.(net := l.net.(up := l.net.up[p := Put(l.net.up[p], m)]),
       node := l.node.(ups := l.node.ups + [UpData(m, l.net.up[p].sent)]))
  }

  function PutTerm(net: Net, child: int, v: int): (r: Net)
    requires -1 <= child < |net.term|
    ensures |r.term| == |net.term| && r.up == net.up && r.down == net.down
  {
    if child == -1 then net else net.(term := net.term[child := Put(net.term[child], v)])
  }

  function TermRequest(net: Net, child: int): Option<nat>
    requires -1 <= child < |net.term|
  {
    if child == -1 then None else Some(net.term[child].sent)
  }

  /** Both termination sends. */
  function SendTerms(l: Process): (r: Process)
    requires Fits(l.node, l.net)
    ensures SameLinks(l, r)
  {
    var net1 := PutTerm(l.net, l.node.left, l.node.terminate);
    l.(net := PutTerm(net1, l.node.right, l.node.terminate),
       node := l.node.(broadcastLeft := TermRequest(l.net, l.node.left),
                       broadcastRight := TermRequest(net1, l.node.right)))
  }

  /** The root begins a sweep unless one is in progress. */
  function StartSweep(l: Process): (r: Process)
    requires Fits(l.node, l.net)
    ensures SameLinks(l, r)
  {
    if l.node.rootDownSweep > l.node.localSweep then l
    else
      var s := l.node.localSweep + 1;
      SendDown(l.(node := l.node.(rootDownSweep := s)), Msg(false, s, 0))
  }

  /** A down message from the parent: forwarded, or answered by a leaf with its own count. The leaf
      branch neither sets the local sweep number nor looks at the last regular one. */
  function TakeDown(l: Process): (r: Process)
    requires Fits(l.node, l.net) && l.net.down[l.node.self].queue != []
    ensures SameLinks(l, r)
  {
    var p := l.node.self;
    var m := l.net.down[p].queue[0];
    var l1 := l.(net := l.net.(down := l.net.down[p := Drop(l.net.down[p])]));
    if m.up then l1.(ok := false)
    else if !Leaf(l.node) then SendDown(l1, m)
    else SendUp(l1, Msg(true, m.sweep, l.node.sends - l.node.processed))
  }

  /** One up message from a child. */
  function TakeUp(l: Process, child: int): (r: Process)
    requires Fits(l.node, l.net) && 0 <= child < |l.net.up| && l.net.up[child].queue != []
    ensures SameLinks(l, r)
  {
    var m := l.net.up[child].queue[0];
    var l1 := l.(net := l.net.(up := l.net.up[child := Drop(l.net.up[child])]));
    if !m.up then l1.(ok := false)
    else
      var a := if m.sweep in l.node.accum then l.node.accum[m.sweep] else Accumulation(0, 0);
      var a' := Accumulation(SafeAdd(a.sum, m.count), a.children + 1);
      l1.(node := l.node.(accum := l.node.accum[m.sweep := a']), ok := l.ok && a'.children <= 2)
  }

  lemma {:induction false} Smallest(s: set<nat>) returns (k: nat)
    requires s != {}
    ensures k in s && forall j | j in s :: k <= j
  {
    var x :| x in s;
    if s == {x} {
      return x;
    }
    var rest := s - {x};
    var y := Smallest(rest);
    k := if x < y then x else y;
    assert forall j | j in s :: j == x || j in rest;
  }

  lemma SmallestExists(s: set<nat>)
    requires s != {}
    ensures exists k :: k in s && forall j | j in s :: k <= j
  {
    var k := Smallest(s);
  }

  /** begin() of the ordered map. */
  function MinKey(m: map<nat, Accumulation>): (k: nat)
    requires m != map[]
    ensures k in m && forall j | j in m :: k <= j
  {
    assert m.Keys != {};
    SmallestExists(m.Keys);
    var k :| k in m && forall j | j in m :: k <= j;
    k
  }

  predicate SweepFull(nd: Node) {
    nd.accum != map[] && nd.accum[MinKey(nd.accum)].children == Children(nd)
  }

  /** What this process adds to the sweep; the stamp of a regular message from a later sweep than
      its own makes it saturate. */
  function LocalCount(nd: Node): int {
    if nd.lastRegular > nd.localSweep then INT64_MAX else nd.sends - nd.processed
  }

  function GlobalCount(nd: Node): int
    requires nd.accum != map[]
  {
    SafeAdd(LocalCount(nd), nd.accum[MinKey(nd.accum)].sum)
  }

  /** All children have reported: pass the total on, or decide. */
  function FinishSweep(l: Process): (r: Process)
    requires Fits(l.node, l.net) && SweepFull(l.node)
    ensures SameLinks(l, r)
  {
    var sweep := MinKey(l.node.accum);
    var count := GlobalCount(l.node);
    var nd := l.node.(accum := l.node.accum - {sweep}, localSweep := sweep);
    if !Root(nd) then SendUp(l.(node := nd), Msg(true, sweep, count))
    else if count == 0 then SendTerms(l.(node := nd.(terminate := 1)))
    else l.(node := nd)
  }

  // ---------------------------------------------------------------- the calls

  function DownTraversal(l: Process, seen: bool): Process
    requires Fits(l.node, l.net)
  {
    var l1 := CleanupDowns(l);
    if !l1.ok then l1
    else if Root(l1.node) then StartSweep(l1)
    else if seen && l1.net.down[l1.node.self].queue != [] then TakeDown(l1)
    else l1
  }

  /** At most k messages from the child. */
  function ReceiveUps(l: Process, child: int, k: nat): (r: Process)
    requires Fits(l.node, l.net) && child < |l.net.up|
    ensures Fits(r.node, r.net) && |r.net.up| == |l.net.up|
    ensures r.node == l.node.(accum := r.node.accum)
    decreases k
  {
    if child < 0 || k == 0 || l.net.up[child].queue == [] || !l.ok then l
    else ReceiveUps(TakeUp(l, child), child, k - 1)
  }

  /** What a process with children does after the clean-up: receive, and finish the sweep when all
      children have reported. */
  function GatherUps(l: Process, see: Probes): Process
    requires Fits(l.node, l.net)
  {
    var l3 := ReceiveUps(ReceiveUps(l, l.node.left, see.left), l.node.right, see.right);
    if !l3.ok then l3
    else if l3.node.accum == map[] then DownTraversal(l3, see.down)
    else if !SweepFull(l3.node) then l3
    else
      var l4 := FinishSweep(l3);
      if Root(l3.node) && GlobalCount(l3.node) != 0 then DownTraversal(l4, see.down) else l4
  }

  function UpTraversal(l: Process, see: Probes): Process
    requires Fits(l.node, l.net)
  {
    var l1 := CleanupUps(l);
    if !l1.ok then l1
    else if Leaf(l1.node) then DownTraversal(l1, see.down)
    else GatherUps(l1, see)
  }

  predicate TermSeen(l: Process, see: Probes)
    requires Fits(l.node, l.net)
  {
    !Root(l.node) && see.term && l.net.term[l.node.self].queue != []
  }

  /** The termination broadcast from the parent, passed on to the children. */
  function TakeTerm(l: Process): (r: Process)
    requires Fits(l.node, l.net) && l.net.term[l.node.self].queue != []
    ensures SameLinks(l, r)
  {
    var p := l.node.self;
    var v := l.net.term[p].queue[0];
    var l1 := l.(net := l.net.(term := l.net.term[p := Drop(l.net.term[p])]), node := l.node.(terminate := v));
    if v != 1 then l1.(ok := false) else SendTerms(l1)
  }

  /** check_impl: the new state, and whether quiescence was detected. */
  function CheckImpl(l: Process, total: nat, see: Probes): (Process, bool)
    requires Fits(l.node, l.net)
  {
    var l1 := if total == 1 then l.(node := l.node.(terminate := 1)) else l;
    if l1.node.terminate == 1 then (l1, true)
    else if TermSeen(l1, see) then
      var l2 := TakeTerm(l1);
      (l2, l2.ok)
    else
      var l2 := UpTraversal(l1, see);
      (l2, l2.ok && l2.node.terminate == 1)
  }

  /** The children have received the termination broadcast. */
  predicate BroadcastReceived(nd: Node, net: Net)
    requires Fits(nd, net)
  {
    && (nd.broadcastLeft.Some? ==> nd.left >= 0 && nd.broadcastLeft.value < Received(net.term[nd.left]))
    && (nd.broadcastRight.Some? ==> nd.right >= 0 && nd.broadcastRight.value < Received(net.term[nd.right]))
  }

  /** The checks of safe_reset and the reset. */
  function Verified(nd: Node): (Node, bool) {
    if nd.terminate != 1 || nd.accum != map[] || nd.downs != [] || nd.ups != []
       || (nd.left != -1 && nd.broadcastLeft.None?) || (nd.right != -1 && nd.broadcastRight.None?)
    then (nd, false)
    else
      (nd.(terminate := 0, broadcastLeft := None, broadcastRight := None,
           localSweep := 0, lastRegular := 0, sends := 0, processed := 0, rootDownSweep := 0), true)
  }

  /** safe_reset after its blocking wait: clean up, check that nothing is left over, reset. */
  function SafeReset(l: Process): (r: Process)
    requires Fits(l.node, l.net)
    ensures SameLinks(l, r)
  {
    var l1 := CleanupDowns(l);
    var l2 := if l1.ok then CleanupUps(l1) else l1;
    if !l2.ok then l2
    else
      var (nd, ok) := Verified(l2.node);
      l2.(node := nd, ok := ok)
  }

  // ---------------------------------------------------------------- what the receive loop takes

  /** How many of the messages are for the sweep. */
  function ForSweep(ms: seq<Msg>, sweep: nat): nat {
    if ms == [] then 0 else (if ms[0].sweep == sweep then 1 else 0) + ForSweep(ms[1..], sweep)
  }

  /** Their counts added, with saturation, to what was there. */
  function AddedUp(sum: int, ms: seq<Msg>, sweep: nat): int
    decreases |ms|
  {
    if ms == [] then sum
    else AddedUp(if ms[0].sweep == sweep then SafeAdd(sum, ms[0].count) else sum, ms[1..], sweep)
  }

  function AccumFor(l: Process, sweep: nat): Accumulation {
    if sweep in l.node.accum then l.node.accum[sweep] else Accumulation(0, 0)
  }

  /** One message is added to its sweep. */
  lemma TakeUpAdds(l: Process, child: nat, sweep: nat)
    requires Fits(l.node, l.net) && child < |l.net.up| && l.net.up[child].queue != [] && TakeUp(l, child).ok
    ensures var r := TakeUp(l, child);
            var m := l.net.up[child].queue[0];
            && r.net == l.net.(up := l.net.up[child := Drop(l.net.up[child])])
            && (sweep in r.node.accum <==> sweep in l.node.accum || m.sweep == sweep)
            && AccumFor(r, sweep) == if m.sweep != sweep then AccumFor(l, sweep)
                                   else Accumulation(SafeAdd(AccumFor(l, sweep).sum, m.count),
                                                     AccumFor(l, sweep).children + 1)
  {
  }

  lemma FirstOfMany(q: seq<Msg>, m: nat, sum: int, sweep: nat)
    requires 0 < m <= |q|
    ensures q[m..] == q[1..][m - 1..]
    ensures ForSweep(q[..m], sweep) == (if q[0].sweep == sweep then 1 else 0) + ForSweep(q[1..][..m - 1], sweep)
    ensures AddedUp(sum, q[..m], sweep) ==
            AddedUp(if q[0].sweep == sweep then SafeAdd(sum, q[0].count) else sum, q[1..][..m - 1], sweep)
  {
    assert q[..m][0] == q[0] && q[..m][1..] == q[1..][..m - 1];
  }

  /** Unless it throws, the loop takes as many messages as its probes see and there are, from this channel
      only, and each is added to the accumulation of its sweep. */
  lemma {:induction false} ReceiveUpsTakes(l: Process, child: nat, k: nat, sweep: nat)
    requires Fits(l.node, l.net) && child < |l.net.up| && ReceiveUps(l, child, k).ok
    ensures var r := ReceiveUps(l, child, k);
            var q := l.net.up[child].queue;
            var m := if k < |q| then k else |q|;
            && r.net == l.net.(up := l.net.up[child := Chan(l.net.up[child].sent, q[m..])])
            && (sweep in r.node.accum <==> sweep in l.node.accum || ForSweep(q[..m], sweep) > 0)
            && AccumFor(r, sweep) == Accumulation(AddedUp(AccumFor(l, sweep).sum, q[..m], sweep),
                                                AccumFor(l, sweep).children + ForSweep(q[..m], sweep))
    decreases k
  {
    var q := l.net.up[child].queue;
    if k > 0 && q != [] && l.ok {
      var t := TakeUp(l, child);
      ReceiveUpsTakes(t, child, k - 1, sweep);
      StillOk(t, child, k - 1);
      TakeUpAdds(l, child, sweep);
      FirstOfMany(q, if k < |q| then k else |q|, AccumFor(l, sweep).sum, sweep);
    } else {
      assert q[0..] == q && l.net.up[child := l.net.up[child]] == l.net.up;
    }
  }

  /** Once thrown, thrown. */
  lemma {:induction false} StillOk(l: Process, child: nat, k: nat)
    requires Fits(l.node, l.net) && child < |l.net.up| && ReceiveUps(l, child, k).ok
    ensures l.ok
    decreases k
  {
    if k > 0 && l.net.up[child].queue != [] && l.ok {
      StillOk(TakeUp(l, child), child, k - 1);
    }
  }

  // ---------------------------------------------------------------- the exceptions

  /** Exactly when a call's pieces throw: a message of the wrong direction or kind, a third message of
      two children, or an entry in the wrong list. */
  lemma PiecesThrowIff(l: Process, child: nat)
    requires Fits(l.node, l.net) && l.ok
    ensures CleanupDowns(l).ok <==> forall d | d in l.node.downs :: !d.message.up
    ensures CleanupUps(l).ok <==> forall u | u in l.node.ups :: u.message.up
    ensures l.net.down[l.node.self].queue != [] ==> (TakeDown(l).ok <==> !l.net.down[l.node.self].queue[0].up)
    ensures l.net.term[l.node.self].queue != [] ==> (TakeTerm(l).ok <==> l.net.term[l.node.self].queue[0] == 1)
    ensures child < |l.net.up| && l.net.up[child].queue != [] ==>
              var m := l.net.up[child].queue[0];
              TakeUp(l, child).ok <==> m.up && (m.sweep in l.node.accum ==> l.node.accum[m.sweep].children < 2)
  {
  }

  // ---------------------------------------------------------------- the class

  class Comm {
    var net: Net

    constructor (net: Net)
      ensures this.net == net
    {
      this.net := net;
    }
  }

  class Global {
    var localSweep: nat
    var lastRegular: nat
    var sends: int
    var processed: int
    var self: int
    var parent: int
    var left: int
    var right: int
    var downs: seq<DownData>
    var rootDownSweep: nat
    var ups: seq<UpData>
    var accum: map<nat, Accumulation>
    var terminate: int
    var broadcastLeft: Option<nat>
    var broadcastRight: Option<nat>

    function View(): Node
      reads this
    {
      Node(localSweep, lastRegular, sends, processed, self, parent, left, right,
           downs, rootDownSweep, ups, accum, terminate, broadcastLeft, broadcastRight)
    }

    ghost predicate Valid(comm: Comm)
      reads this, comm
    {
      Fits(View(), comm.net)
    }

    constructor (process: nat, total: nat)
      requires process < total
      ensures View() == Fresh(process, total)
    {
      var pc := Links(process, total).value;
      self, parent, left, right := pc.self, pc.parent, pc.left, pc.right;
      localSweep, lastRegular, sends, processed, rootDownSweep, terminate := 0, 0, 0, 0, 0, 0;
      downs, ups, accum := [], [], map[];
      broadcastLeft, broadcastRight := None, None;
    }

    method IncrementSends()
      modifies this`sends
      ensures View() == CountSend(old(View()))
    {
      sends := sends + 1;
    }

    method IncrementProcessed()
      modifies this`processed
      ensures View() == CountProcessed(old(View()))
    {
      processed := processed + 1;
    }

    method UpdateLastRegular(sweep: nat)
      modifies this`lastRegular
      ensures View() == SeeStamp(old(View()), sweep)
    {
      lastRegular := Max(sweep, lastRegular);
    }

    method CleanupDownMessages(comm: Comm) returns (ok: bool)
      requires Valid(comm)
      modifies this`downs
      ensures ok ==> Process(View(), comm.net, ok) == CleanupDowns(Process(old(View()), comm.net, true))
      ensures !ok ==> !CleanupDowns(Process(old(View()), comm.net, true)).ok && View() == old(View())
      ensures ok <==> forall d | d in old(downs) :: !d.message.up
      ensures ok ==> forall d :: d in downs <==> d in old(downs) && DownAwaited(old(View()), comm.net, d)
    {
      var kept: seq<DownData> := [];
      for i := 0 to |downs|
        invariant kept == OpenDowns(View(), comm.net, downs[..i])
        invariant forall d | d in downs[..i] :: !d.message.up
        invariant View() == old(View())
      {
        assert downs[..i + 1][..i] == downs[..i];
        if downs[i].message.up {
          assert downs[i] in downs;
          return false;
        }
        if !DownComplete(View(), comm.net, downs[i]) {
          kept := kept + [downs[i]];
        }
      }
      assert downs[..|downs|] == downs;
      downs := kept;
      return true;
    }

    method CleanupUpMessages(comm: Comm) returns (ok: bool)
      requires Valid(comm)
      modifies this`ups
      ensures ok ==> Process(View(), comm.net, ok) == CleanupUps(Process(old(View()), comm.net, true))
      ensures !ok ==> !CleanupUps(Process(old(View()), comm.net, true)).ok && View() == old(View())
      ensures ok <==> forall u | u in old(ups) :: u.message.up
      ensures ok ==> forall u :: u in ups <==> u in old(ups) && UpAwaited(old(View()), comm.net, u)
    {
      var kept: seq<UpData> := [];
      for i := 0 to |ups|
        invariant kept == OpenUps(View(), comm.net, ups[..i])
        invariant forall u | u in ups[..i] :: u.message.up
        invariant View() == old(View())
      {
        assert ups[..i + 1][..i] == ups[..i];
        if !ups[i].message.up {
          assert ups[i] in ups;
          return false;
        }
        if !UpComplete(View(), comm.net, ups[i]) {
          kept := kept + [ups[i]];
        }
      }
      assert ups[..|ups|] == ups;
      ups := kept;
      return true;
    }

    method SendDownToChildren(comm: Comm, m: Msg)
      requires Valid(comm)
      modifies this`downs, comm
      ensures Process(View(), comm.net, true) == SendDown(Process(old(View()), old(comm.net), true), m)
    {
      var data := DownData(m, 0, 0);
      if left != -1 {
        data := data.(left := comm.net.down[left].sent);
        comm.net := comm.net.(down := comm.net.down[left := Put(comm.net.down[left], m)]);
      }
      if right != -1 {
        data := data.(right := comm.net.down[right].sent);
        comm.net := comm.net.(down := comm.net.down[right := Put(comm.net.down[right], m)]);
      }
      downs := downs + [data];
    }

    method SendUpToParent(comm: Comm, m: Msg)
      requires Valid(comm)
      modifies this`ups, comm
      ensures Process(View(), comm.net, true) == SendUp(Process(old(View()), old(comm.net), true), m)
    {
      ups := ups + [UpData(m, comm.net.up[self].sent)];
      comm.net := comm.net.(up := comm.net.up[self := Put(comm.net.up[self], m)]);
    }

    method SendQuiescenceBroadcasts(comm: Comm)
      requires Valid(comm)
      modifies this`broadcastLeft, this`broadcastRight, comm
      ensures Process(View(), comm.net, true) == SendTerms(Process(old(View()), old(comm.net), true))
    {
      broadcastLeft := TermRequest(comm.net, left);
      if left != -1 {
        comm.net := comm.net.(term := comm.net.term[left := Put(comm.net.term[left], terminate)]);
      }
      broadcastRight := TermRequest(comm.net, right);
      if right != -1 {
        comm.net := comm.net.(term := comm.net.term[right := Put(comm.net.term[right], terminate)]);
      }
    }

    method RunDownTraversal(comm: Comm, seen: bool) returns (ok: bool)
      requires Valid(comm)
      modifies this, comm
      ensures Process(View(), comm.net, ok) == DownTraversal(Process(old(View()), old(comm.net), true), seen)
    {
      ok := CleanupDownMessages(comm);
      if !ok {
        return;
      }
      if parent == -1 {
        if rootDownSweep > localSweep {
          return;
        }
        rootDownSweep := localSweep + 1;
        SendDownToChildren(comm, Msg(false, rootDownSweep, 0));
        return;
      }
      if seen && comm.net.down[self].queue != [] {
        var m := comm.net.down[self].queue[0];
        comm.net := comm.net.(down := comm.net.down[self := Drop(comm.net.down[self])]);
        if m.up {
          return false;
        }
        if !(left == -1 && right == -1) {
          SendDownToChildren(comm, m);
        } else {
          SendUpToParent(comm, Msg(true, m.sweep, sends - processed));
        }
      }
    }

    /** The do-while loop over one child's channel; its probe sees `visible` messages. */
    method ReceiveUpMessagesFrom(comm: Comm, child: int, visible: nat) returns (ok: bool)
      requires Valid(comm) && child < |comm.net.up|
      modifies this`accum, comm
      ensures Process(View(), comm.net, ok) == ReceiveUps(Process(old(View()), old(comm.net), true), child, visible)
    {
      ok := true;
      if child < 0 {
        return;
      }
      var seen := 0;
      while seen < visible && comm.net.up[child].queue != [] && ok
        invariant seen <= visible
        invariant Valid(comm) && child < |comm.net.up|
        invariant ReceiveUps(Process(View(), comm.net, ok), child, visible - seen) ==
                  ReceiveUps(Process(old(View()), old(comm.net), true), child, visible)
        decreases visible - seen
      {
        var m := comm.net.up[child].queue[0];
        comm.net := comm.net.(up := comm.net.up[child := Drop(comm.net.up[child])]);
        if !m.up {
          ok := false;
        } else {
          var a := if m.sweep in accum then accum[m.sweep] else Accumulation(0, 0);
          a := Accumulation(SafeAdd(a.sum, m.count), a.children + 1);
          accum := accum[m.sweep := a];
          ok := a.children <= 2;
        }
        seen := seen + 1;
      }
    }

    method RunUpTraversal(comm: Comm, see: Probes) returns (ok: bool)
      requires Valid(comm)
      modifies this, comm
      ensures Process(View(), comm.net, ok) == UpTraversal(Process(old(View()), old(comm.net), true), see)
    {
      ok := CleanupUpMessages(comm);
      if !ok {
        return;
      }
      if left == -1 && right == -1 {
        ok := RunDownTraversal(comm, see.down);
        return;
      }
      ok := ReceiveUpMessagesFrom(comm, left, see.left);
      if ok {
        ok := ReceiveUpMessagesFrom(comm, right, see.right);
      }
      if !ok {
        return;
      }
      if accum == map[] {
        ok := RunDownTraversal(comm, see.down);
        return;
      }
      if accum[MinKey(accum)].children != (if left == -1 then 0 else 1) + (if right == -1 then 0 else 1) {
        return;
      }
      var again := FinishCurrentSweep(comm);
      if again {
        ok := RunDownTraversal(comm, see.down);
      }
    }

    /** The end of up_traversal; the answer says whether the root goes on to a new sweep. */
    method FinishCurrentSweep(comm: Comm) returns (again: bool)
      requires Valid(comm) && SweepFull(View())
      modifies this, comm
      ensures Process(View(), comm.net, true) == FinishSweep(Process(old(View()), old(comm.net), true))
      ensures again <==> Root(old(View())) && GlobalCount(old(View())) != 0
    {
      var sweep := MinKey(accum);
      var data := accum[sweep];
      accum := accum - {sweep};
      var localCount := if lastRegular > localSweep then INT64_MAX else sends - processed;
      var globalCount := SafeAdd(localCount, data.sum);
      localSweep := sweep;
      again := false;
      if parent != -1 {
        SendUpToParent(comm, Msg(true, sweep, globalCount));
      } else if globalCount == 0 {
        terminate := 1;
        SendQuiescenceBroadcasts(comm);
      } else {
        again := true;
      }
    }

    method RunCheckImpl(comm: Comm, total: nat, see: Probes) returns (ok: bool, detected: bool)
      requires Valid(comm)
      modifies this, comm
      ensures (Process(View(), comm.net, ok), detected) ==
              CheckImpl(Process(old(View()), old(comm.net), true), total, see)
    {
      if total == 1 {
        terminate := 1;
      }
      if terminate == 1 {
        return true, true;
      }
      if parent != -1 {
        if see.term && comm.net.term[self].queue != [] {
          terminate := comm.net.term[self].queue[0];
          comm.net := comm.net.(term := comm.net.term[self := Drop(comm.net.term[self])]);
          if terminate != 1 {
            return false, false;
          }
          SendQuiescenceBroadcasts(comm);
          return true, true;
        }
      }
      ok := RunUpTraversal(comm, see);
      detected := ok && terminate == 1;
    }

    method RunSafeReset(comm: Comm) returns (ok: bool)
      requires Valid(comm) && BroadcastReceived(View(), comm.net)
      modifies this
      ensures Process(View(), comm.net, ok) == SafeReset(Process(old(View()), comm.net, true))
    {
      ok := CleanupDownMessages(comm);
      if !ok {
        return;
      }
      ok := CleanupUpMessages(comm);
      if !ok {
        return;
      }
      ok := VerifyAndReset();
    }

    method VerifyAndReset() returns (ok: bool)
      modifies this
      ensures (View(), ok) == Verified(old(View()))
      ensures ok <==>
                && old(terminate) == 1 && old(accum) == map[] && old(downs) == [] && old(ups) == []
                && (old(left) != -1 ==> old(broadcastLeft).Some?) && (old(right) != -1 ==> old(broadcastRight).Some?)
      ensures !ok ==> View() == old(View())
    {
      if terminate != 1 || accum != map[] || downs != [] || ups != []
         || (left != -1 && broadcastLeft.None?) || (right != -1 && broadcastRight.None?) {
        return false;
      }
      terminate := 0;
      broadcastLeft, broadcastRight := None, None;
      ResetCounts();
      return true;
    }

    method ResetCounts()
      modifies this`localSweep, this`lastRegular, this`sends, this`processed, this`rootDownSweep
      ensures View() == old(View()).(localSweep := 0, lastRegular := 0, sends := 0, processed := 0,
                                     rootDownSweep := 0)
    {
      localSweep, lastRegular, sends, processed, rootDownSweep := 0, 0, 0, 0, 0;
    }
  }

  /** With one process the check detects at once and resets to the constructed state. */
  lemma SingleProcessTerminates(net: Net, see: Probes)
    requires |net.down| == |net.up| == |net.term| == 1
    ensures var (l, detected) := CheckImpl(Process(Fresh(0, 1), net, true), 1, see);
            detected && l.ok && l.net == net && SafeReset(l) == Process(Fresh(0, 1), net, true)
  {
  }
}

/** What every step of the detection keeps, and what it means: every sweep is one correct aggregation
    over the tree, and the termination leaves nothing behind. */
module SweepInvariant {
  import opened Wrappers
  import opened ProcessTree
  import opened GlobalQd
  import opened SweepSystem

  // ---------------------------------------------------------------- saturating tree sums

  /** The saturating sum of the recorded values over the subtree of p. */
  function Saturating(v: seq<int>, p: nat): int
    decreases if p < |v| then |v| - p else 0
  {
    if p >= |v| then 0 else SafeAdd(v[p], SafeAdd(Saturating(v, 2 * p + 1), Saturating(v, 2 * p + 2)))
  }

  lemma {:induction false} SaturatingFrame(v: seq<int>, c: nat, p: nat, x: int)
    requires p < |v| && !IsAncestor(c, p)
    ensures Saturating(v[p := x], c) == Saturating(v, c)
    decreases if c < |v| then |v| - c else 0
  {
    if c < |v| {
      AncestorSplits(c, p);
      SaturatingFrame(v, 2 * c + 1, p, x);
      SaturatingFrame(v, 2 * c + 2, p, x);
    }
  }

  // ---------------------------------------------------------------- the invariant

  /** How many sweeps have reached process p on their way down. */
  function Begun(s: System, n: nat, p: nat): int
    requires Shape(s, n) && p < n
  {
    if p == 0 then s.sweep else Received(s.net.down[p])
  }

  /** The tree edge above c: parent and child are within one sweep of each other, and each channel
      holds just the message that accounts for the difference. */
  ghost predicate EdgeOk(s: System, n: nat, c: nat)
    requires Shape(s, n) && 0 < c < n
  {
    var p := Parent(c);
    && s.rec[p] <= Received(s.net.up[c]) <= s.rec[c] <= Begun(s, n, c) <= Begun(s, n, p) <= s.rec[p] + 1
    && s.net.down[c].sent == Begun(s, n, p) && s.net.up[c].sent == s.rec[c]
    && (IsLeaf(c, n) ==> s.rec[c] == Begun(s, n, c))
    && s.net.down[c].queue == (if Begun(s, n, c) < Begun(s, n, p) then [Msg(false, Begun(s, n, p), 0)] else [])
    && s.net.up[c].queue == (if Received(s.net.up[c]) < s.rec[c]
                             then [Msg(true, s.rec[c], Saturating(s.value, c))] else [])
  }

  /** The up message of child c for the sweep p has not recorded yet is in p's accumulation. */
  predicate Arrived(s: System, n: nat, p: nat, c: int)
    requires Shape(s, n) && p < n && c < n
  {
    0 <= c && Received(s.net.up[c]) > s.rec[p]
  }

  /** At most one sweep, and never more children than there are. */
  ghost function ExpectedAccum(s: System, n: nat, p: nat): map<nat, Accumulation>
    requires Shape(s, n) && p < n
  {
    var l, r := s.nodes[p].left, s.nodes[p].right;
    if Arrived(s, n, p, l) && Arrived(s, n, p, r) then
      map[s.rec[p] + 1 := Accumulation(SafeAdd(Saturating(s.value, l), Saturating(s.value, r)), 2)]
    else if Arrived(s, n, p, l) then map[s.rec[p] + 1 := Accumulation(Saturating(s.value, l), 1)]
    else if Arrived(s, n, p, r) then map[s.rec[p] + 1 := Accumulation(Saturating(s.value, r), 1)]
    else map[]
  }

  /** The stored send requests are for messages that were sent, each in its own direction. */
  predicate RequestsOk(s: System, n: nat, p: nat)
    requires Shape(s, n) && p < n
  {
    var nd := s.nodes[p];
    && (forall d | d in nd.downs :: !d.message.up
                                    && (nd.left != -1 ==> d.left < s.net.down[nd.left].sent)
                                    && (nd.right != -1 ==> d.right < s.net.down[nd.right].sent))
    && (forall u | u in nd.ups :: u.message.up && p != 0 && u.request < s.net.up[p].sent)
  }

  ghost predicate NodeOk(s: System, n: nat, p: nat)
    requires Shape(s, n) && p < n
  {
    var nd := s.nodes[p];
    if s.mode[p] == AtBarrier then nd == Fresh(p, n)
    else
      && nd.localSweep == (if IsLeaf(p, n) then 0 else s.rec[p])
      && nd.rootDownSweep == (if p == 0 then s.sweep else 0)
      && (if s.mode[p] == Running then nd.accum == ExpectedAccum(s, n, p) else nd.accum == map[])
      && RequestsOk(s, n, p)
      && (if s.mode[p] == Running
          then nd.terminate == 0 && nd.broadcastLeft == nd.broadcastRight == None
          else
            && nd.terminate == 1
            && nd.broadcastLeft == (if nd.left == -1 then None else Some(0))
            && nd.broadcastRight == (if nd.right == -1 then None else Some(0)))
  }

  /** The termination broadcast on the edge above c: sent once, when the parent terminated. */
  predicate TermOk(s: System, n: nat, c: nat)
    requires Shape(s, n) && 0 < c < n
  {
    var p := Parent(c);
    && s.net.term[c].sent == (if s.mode[p] == Running then 0 else 1)
    && s.net.term[c].queue == (if s.mode[p] != Running && s.mode[c] == Running then [1] else [])
    && (s.mode[c] != Running ==> s.mode[p] != Running)
    && (s.mode[p] == AtBarrier ==> s.mode[c] != Running)
  }

  ghost predicate Inv(s: System, n: nat) {
    && Shape(s, n)
    && s.ok
    && s.rec[0] <= s.sweep <= s.rec[0] + 1
    && (s.mode[0] != Running ==> s.sweep == s.rec[0])
    && (forall p | 0 <= p < n :: NodeOk(s, n, p))
    && (forall c | 0 < c < n :: EdgeOk(s, n, c) && TermOk(s, n, c))
  }

  lemma InitInv(n: nat, active: seq<bool>)
    requires |active| == n > 1
    ensures Inv(Init(n, active), n)
  {
  }

  // ---------------------------------------------------------------- consequences

  /** Down the tree, processes have recorded no less and begun no more. */
  lemma {:induction false} Monotone(s: System, n: nat, a: nat, d: nat)
    requires Inv(s, n) && d < n && IsAncestor(a, d)
    ensures a <= d && s.rec[a] <= s.rec[d] && Begun(s, n, d) <= Begun(s, n, a)
    decreases d
  {
    AncestorSplits(a, d);
    if a < d {
      assert EdgeOk(s, n, d);
      Monotone(s, n, a, Parent(d));
    }
  }

  /** At most one sweep is in progress: everything lies between the sweep the root recorded last and
      the one it began last. */
  lemma OneSweepAtATime(s: System, n: nat, p: nat)
    requires Inv(s, n) && p < n
    ensures s.rec[0] <= s.rec[p] <= Begun(s, n, p) <= s.sweep <= s.rec[0] + 1
  {
    RootIsAncestor(p);
    Monotone(s, n, 0, p);
    if p > 0 {
      assert EdgeOk(s, n, p);
    }
  }

  lemma LeafMeansLeaf(s: System, n: nat, p: nat)
    requires Shape(s, n) && p < n
    ensures Leaf(s.nodes[p]) <==> IsLeaf(p, n)
    ensures s.nodes[p].left == if 2 * p + 1 < n then 2 * p + 1 else -1
    ensures s.nodes[p].right == if 2 * p + 2 < n then 2 * p + 2 else -1
    ensures Root(s.nodes[p]) <==> p == 0
    ensures Fits(s.nodes[p], s.net)
  {
    assert Placed(s.nodes[p], p, n);
  }

  // ---------------------------------------------------------------- preservation: frames

  /** Edges that the step does not touch. */
  lemma EdgeFrame(s: System, s': System, n: nat, c: nat)
    requires Shape(s, n) && Shape(s', n) && 0 < c < n && EdgeOk(s, n, c)
    requires s'.rec[c] == s.rec[c] && s'.rec[Parent(c)] == s.rec[Parent(c)]
    requires s'.net.down[c] == s.net.down[c] && s'.net.up[c] == s.net.up[c]
    requires Begun(s', n, Parent(c)) == Begun(s, n, Parent(c))
    requires s.net.up[c].queue == [] || Saturating(s'.value, c) == Saturating(s.value, c)
    ensures EdgeOk(s', n, c)
  {
  }

  /** What process p accumulates from its child c is unchanged. */
  predicate ChildSame(s: System, s': System, n: nat, p: nat, c: int)
    requires Shape(s, n) && Shape(s', n) && p < n
  {
    0 <= c < n ==>
      && s'.net.down[c].sent >= s.net.down[c].sent && Received(s'.net.up[c]) == Received(s.net.up[c])
      && (Arrived(s, n, p, c) ==> Saturating(s'.value, c) == Saturating(s.value, c))
  }

  lemma NodeFrame(s: System, s': System, n: nat, p: nat)
    requires Shape(s, n) && Shape(s', n) && p < n && NodeOk(s, n, p)
    requires s'.nodes[p] == s.nodes[p] && s'.mode[p] == s.mode[p] && s'.rec[p] == s.rec[p]
    requires p == 0 ==> s'.sweep == s.sweep
    requires ChildSame(s, s', n, p, s.nodes[p].left) && ChildSame(s, s', n, p, s.nodes[p].right)
    requires s'.net.up[p].sent >= s.net.up[p].sent
    ensures NodeOk(s', n, p)
  {
    LeafMeansLeaf(s, n, p);
    LeafMeansLeaf(s', n, p);
  }

  // ---------------------------------------------------------------- preservation: the steps

  /** Cleaning up only drops send requests. */
  lemma CleanEffect(s: System, n: nat, a: Action)
    requires Inv(s, n) && Enabled(s, n, a) && (a.CleanDowns? || a.CleanUps?)
    ensures var s' := Step(s, n, a);
            var nd := s'.nodes[a.p];
            && s' == s.(nodes := s.nodes[a.p := nd])
            && nd == s.nodes[a.p].(downs := nd.downs, ups := nd.ups)
            && (forall d | d in nd.downs :: d in s.nodes[a.p].downs)
            && (forall u | u in nd.ups :: u in s.nodes[a.p].ups)
  {
    LeafMeansLeaf(s, n, a.p);
    assert NodeOk(s, n, a.p);
  }

  lemma CleanFrame(s: System, s': System, n: nat, p: nat)
    requires Inv(s, n) && Shape(s', n) && p < n && s.mode[p] == Running
    requires s' == s.(nodes := s.nodes[p := s'.nodes[p]])
    requires s'.nodes[p] == s.nodes[p].(downs := s'.nodes[p].downs, ups := s'.nodes[p].ups)
    requires forall d | d in s'.nodes[p].downs :: d in s.nodes[p].downs
    requires forall u | u in s'.nodes[p].ups :: u in s.nodes[p].ups
    ensures Inv(s', n)
  {
    forall c | 0 < c < n ensures EdgeOk(s', n, c) && TermOk(s', n, c) {
      EdgeFrame(s, s', n, c);
      assert TermOk(s, n, c);
    }
    forall q | 0 <= q < n ensures NodeOk(s', n, q) {
      assert NodeOk(s, n, q);
      if q != p {
        NodeFrame(s, s', n, q);
      }
    }
  }

  lemma CleanKeepsInv(s: System, n: nat, a: Action)
    requires Inv(s, n) && Enabled(s, n, a) && (a.CleanDowns? || a.CleanUps?)
    ensures Inv(Step(s, n, a), n)
  {
    CleanEffect(s, n, a);
    CleanFrame(s, Step(s, n, a), n, a.p);
  }

  lemma SendDownEffect(nd: Node, net: Net, p: nat, n: nat, m: Msg)
    requires p < n == |net.down| == |net.up| == |net.term| && Placed(nd, p, n)
    ensures var l := SendDown(Process(nd, net, true), m);
            && (forall c | 0 <= c < n ::
                  l.net.down[c] == if c > 0 && Parent(c) == p then Put(net.down[c], m) else net.down[c])
            && |l.net.down| == n && l.net.up == net.up && l.net.term == net.term && l.ok
            && l.node == nd.(downs := nd.downs + [DownData(m, NextRequest(net.down, nd.left),
                                                           NextRequest(net.down, nd.right))])
  {
  }

  /** Process p begins the sweep after the one it recorded, and tells its children. */
  ghost predicate Spreads(s: System, s': System, n: nat, p: nat)
    requires Shape(s, n) && Shape(s', n) && p < n
  {
    && s'.rec == s.rec && s'.value == s.value && s'.net.up == s.net.up
    && s'.net.term == s.net.term && s'.mode == s.mode && s'.ok
    && Begun(s, n, p) == s.rec[p] && Begun(s', n, p) == s.rec[p] + 1
    && (forall c | 0 < c < n && c != p ::
          s'.net.down[c] == if Parent(c) == p then Put(s.net.down[c], Msg(false, s.rec[p] + 1, 0)) else s.net.down[c])
    && (forall q | 0 <= q < n && q != p :: s'.nodes[q] == s.nodes[q])
    && (p != 0 ==> s'.sweep == s.sweep)
    && s'.net.down[p].sent == s.net.down[p].sent
    && s'.nodes[p] == s.nodes[p].(rootDownSweep := s'.nodes[p].rootDownSweep, downs := s'.nodes[p].downs)
    && s'.nodes[p].downs == s.nodes[p].downs + [DownData(Msg(false, s.rec[p] + 1, 0),
                                                         NextRequest(s.net.down, s.nodes[p].left),
                                                         NextRequest(s.net.down, s.nodes[p].right))]
  }

  lemma SpreadingEdges(s: System, s': System, n: nat, p: nat)
    requires Inv(s, n) && Shape(s', n) && p < n && Spreads(s, s', n, p)
    ensures forall c | 0 < c < n && c != p :: EdgeOk(s', n, c)
    ensures forall c | 0 < c < n :: TermOk(s', n, c)
  {
    forall c | 0 < c < n ensures TermOk(s', n, c) && (c != p ==> EdgeOk(s', n, c)) {
      assert EdgeOk(s, n, c) && TermOk(s, n, c);
      if c != p && Parent(c) != p {
        EdgeFrame(s, s', n, c);
      }
    }
  }

  lemma SpreadingNodes(s: System, s': System, n: nat, p: nat)
    requires Inv(s, n) && Shape(s', n) && p < n && Spreads(s, s', n, p) && !IsLeaf(p, n)
    requires s.mode[p] == Running && s'.nodes[p].rootDownSweep == if p == 0 then s'.sweep else 0
    ensures forall q | 0 <= q < n :: NodeOk(s', n, q)
  {
    forall q | 0 <= q < n ensures NodeOk(s', n, q) {
      LeafMeansLeaf(s, n, q);
      LeafMeansLeaf(s', n, q);
      assert NodeOk(s, n, q);
      if q != p {
        NodeFrame(s, s', n, q);
      }
    }
  }

  lemma StartState(s: System, n: nat)
    requires Inv(s, n) && Enabled(s, n, Start)
    ensures s.sweep == s.rec[0] && Step(s, n, Start).sweep == s.sweep + 1
    ensures s.nodes[0].rootDownSweep == s.nodes[0].localSweep == s.sweep
    ensures var t := Step(s, n, Start);
            var l := SendDown(Process(s.nodes[0].(rootDownSweep := t.sweep), s.net, true), Msg(false, t.sweep, 0));
            && t.nodes == s.nodes[0 := l.node] && t.net == l.net && t.rec == s.rec && t.value == s.value
            && t.mode == s.mode && t.ok == (s.ok && l.ok)
  {
    LeafMeansLeaf(s, n, 0);
    assert NodeOk(s, n, 0);
  }

  lemma StartSpreads(s: System, n: nat)
    requires Inv(s, n) && Enabled(s, n, Start)
    ensures Spreads(s, Step(s, n, Start), n, 0) && s.sweep == s.rec[0]
    ensures Step(s, n, Start).nodes[0].rootDownSweep == Step(s, n, Start).sweep == s.sweep + 1
  {
    StartState(s, n);
    var sweep := s.sweep + 1;
    SendDownEffect(s.nodes[0].(rootDownSweep := sweep), s.net, 0, n, Msg(false, sweep, 0));
  }

  lemma StartKeepsInv(s: System, n: nat)
    requires Inv(s, n) && Enabled(s, n, Start)
    ensures Inv(Step(s, n, Start), n)
  {
    StartSpreads(s, n);
    SpreadingEdges(s, Step(s, n, Start), n, 0);
    SpreadingNodes(s, Step(s, n, Start), n, 0);
  }

  /** The message the parent sent down, when it is there to be accepted. */
  lemma DownArrives(s: System, n: nat, p: nat)
    requires Inv(s, n) && 0 < p < n && s.net.down[p].queue != []
    ensures s.net.down[p].queue == [Msg(false, s.rec[p] + 1, 0)]
    ensures Begun(s, n, p) == s.rec[p] && Begun(s, n, Parent(p)) == s.rec[p] + 1
  {
    assert EdgeOk(s, n, p);
  }

  /** The inner process takes the message and sends it on. */
  lemma ForwardTakes(s: System, n: nat, p: nat)
    requires Inv(s, n) && Enabled(s, n, AcceptDown(p)) && !IsLeaf(p, n)
    ensures var s' := Step(s, n, AcceptDown(p));
            && Spreads(s, s', n, p) && s'.net.down[p] == Chan(s.net.down[p].sent, [])
  {
    LeafMeansLeaf(s, n, p);
    DownArrives(s, n, p);
    var net1 := s.net.(down := s.net.down[p := Drop(s.net.down[p])]);
    SendDownEffect(s.nodes[p], net1, p, n, Msg(false, s.rec[p] + 1, 0));
    assert s.net.down[p].queue[1..] == [];
  }

  lemma ForwardEffect(s: System, n: nat, p: nat)
    requires Inv(s, n) && Enabled(s, n, AcceptDown(p)) && !IsLeaf(p, n)
    ensures Spreads(s, Step(s, n, AcceptDown(p)), n, p)
    ensures EdgeOk(Step(s, n, AcceptDown(p)), n, p)
  {
    DownArrives(s, n, p);
    assert EdgeOk(s, n, p);
    ForwardTakes(s, n, p);
  }

  lemma ForwardKeepsInv(s: System, n: nat, p: nat)
    requires Inv(s, n) && Enabled(s, n, AcceptDown(p)) && !IsLeaf(p, n)
    ensures Inv(Step(s, n, AcceptDown(p)), n)
  {
    var s' := Step(s, n, AcceptDown(p));
    assert NodeOk(s, n, p);
    ForwardEffect(s, n, p);
    SpreadingEdges(s, s', n, p);
    SpreadingNodes(s, s', n, p);
  }

  /** The sweep that has begun just above p. */
  function BegunAbove(s: System, n: nat, p: nat): int
    requires Shape(s, n) && p < n
  {
    if p == 0 then s.sweep else Begun(s, n, Parent(p))
  }

  /** Recording changes no sum that is still on its way: those are of subtrees that have recorded
      already. */
  lemma RecordingFrame(s: System, n: nat, p: nat, x: int, c: nat)
    requires Inv(s, n) && p < n && s.rec[p] < BegunAbove(s, n, p)
    requires 0 < c < n && c != p && s.rec[c] > s.rec[Parent(c)]
    ensures Saturating(s.value[p := x], c) == Saturating(s.value, c)
  {
    assert EdgeOk(s, n, c);
    if IsAncestor(c, p) {
      Monotone(s, n, c, p);
      Monotone(s, n, c, Parent(p));
    }
    SaturatingFrame(s.value, c, p, x);
  }

  lemma LeafSum(v: seq<int>, p: nat, n: nat)
    requires p < n == |v| && IsLeaf(p, n)
    ensures Saturating(v, p) == v[p]
  {
    assert Saturating(v, 2 * p + 1) == 0 == Saturating(v, 2 * p + 2);
  }

  lemma RecordingFrameIfNeeded(s: System, n: nat, p: nat, x: int, c: nat)
    requires Inv(s, n) && p < n && s.rec[p] < BegunAbove(s, n, p)
    requires 0 < c < n && c != p
    ensures s.net.up[c].queue == [] || Saturating(s.value[p := x], c) == Saturating(s.value, c)
    ensures Arrived(s, n, Parent(c), c) ==> Saturating(s.value[p := x], c) == Saturating(s.value, c)
  {
    assert EdgeOk(s, n, c);
    if s.rec[c] > s.rec[Parent(c)] {
      RecordingFrame(s, n, p, x, c);
    }
  }

  /** Process p records x for the sweep that has reached it and sends its total up, after all its
      children did. */
  ghost predicate Records(s: System, s': System, n: nat, p: nat, x: int)
    requires Shape(s, n) && Shape(s', n) && p < n
  {
    && s'.rec == s.rec[p := s.rec[p] + 1] && s'.value == s.value[p := x] && s'.sweep == s.sweep && s'.ok
    && BegunAbove(s, n, p) == Begun(s', n, p) == s.rec[p] + 1
    && (forall c | 0 < c < n && Parent(c) == p :: Received(s.net.up[c]) == s.rec[p] + 1)
    && (forall c | 0 <= c < n && c != p ::
          s'.net.down[c] == s.net.down[c] && s'.net.up[c] == s.net.up[c]
          && s'.nodes[c] == s.nodes[c] && s'.mode[c] == s.mode[c])
    && (p > 0 ==>
          && s'.net.down[p] == Chan(s.net.down[p].sent, [])
          && s'.net.up[p] == Put(s.net.up[p], Msg(true, s.rec[p] + 1, Saturating(s'.value, p)))
          && Received(s.net.up[p]) == s.rec[Parent(p)] == s.rec[p] == s.net.up[p].sent)
  }

  lemma RecordingEdges(s: System, s': System, n: nat, p: nat, x: int)
    requires Inv(s, n) && Shape(s', n) && p < n && Records(s, s', n, p, x)
    ensures forall c | 0 < c < n :: EdgeOk(s', n, c)
  {
    forall c | 0 < c < n ensures EdgeOk(s', n, c) {
      assert EdgeOk(s, n, c);
      if c != p {
        RecordingFrameIfNeeded(s, n, p, x, c);
        if Parent(c) != p {
          EdgeFrame(s, s', n, c);
        }
      }
    }
  }

  lemma RecordingChild(s: System, s': System, n: nat, p: nat, x: int, q: nat, c: int)
    requires Inv(s, n) && Shape(s', n) && p < n && q < n && q != p && Records(s, s', n, p, x)
    requires c == -1 || (0 < c < n && Parent(c) == q)
    ensures ChildSame(s, s', n, q, c)
  {
    if 0 <= c {
      if c != p {
        RecordingFrameIfNeeded(s, n, p, x, c);
      } else {
        assert !Arrived(s, n, q, c) && Received(s'.net.up[c]) == Received(s.net.up[c]);
      }
    }
  }

  lemma RecordingOtherNode(s: System, s': System, n: nat, p: nat, x: int, q: nat)
    requires Inv(s, n) && Shape(s', n) && p < n && q < n && q != p && Records(s, s', n, p, x)
    ensures NodeOk(s', n, q)
  {
    LeafMeansLeaf(s, n, q);
    RecordingChild(s, s', n, p, x, q, s.nodes[q].left);
    RecordingChild(s, s', n, p, x, q, s.nodes[q].right);
    NodeFrame(s, s', n, q);
  }

  lemma RecordingNodes(s: System, s': System, n: nat, p: nat, x: int)
    requires Inv(s, n) && Shape(s', n) && p < n && Records(s, s', n, p, x)
    ensures forall q | 0 <= q < n && q != p :: NodeOk(s', n, q)
  {
    forall q | 0 <= q < n && q != p ensures NodeOk(s', n, q) {
      RecordingOtherNode(s, s', n, p, x, q);
    }
  }

  lemma LeafTakesDown(s: System, n: nat, p: nat)
    requires Inv(s, n) && Enabled(s, n, AcceptDown(p)) && IsLeaf(p, n)
    ensures var s' := Step(s, n, AcceptDown(p));
            var x := s.nodes[p].sends - s.nodes[p].processed;
            var m := Msg(true, s.rec[p] + 1, x);
            && s'.rec == s.rec[p := s.rec[p] + 1] && s'.value == s.value[p := x]
            && s'.sweep == s.sweep && s'.mode == s.mode && s'.ok
            && s'.net == s.net.(down := s.net.down[p := Chan(s.net.down[p].sent, [])],
                                up := s.net.up[p := Put(s.net.up[p], m)])
            && s'.nodes == s.nodes[p := s.nodes[p].(ups := s.nodes[p].ups + [UpData(m, s.net.up[p].sent)])]
  {
    LeafMeansLeaf(s, n, p);
    DownArrives(s, n, p);
    assert s.net.down[p].queue[1..] == [];
  }

  lemma LeafRecordEffect(s: System, n: nat, p: nat)
    requires Inv(s, n) && Enabled(s, n, AcceptDown(p)) && IsLeaf(p, n)
    ensures var s' := Step(s, n, AcceptDown(p));
            Records(s, s', n, p, s.nodes[p].sends - s.nodes[p].processed)
            && s'.net.term == s.net.term && s'.mode == s.mode
            && s'.nodes[p] == s.nodes[p].(ups := s.nodes[p].ups + [UpData(s'.net.up[p].queue[0], s.net.up[p].sent)])
  {
    DownArrives(s, n, p);
    LeafTakesDown(s, n, p);
    assert EdgeOk(s, n, p);
    LeafSum(Step(s, n, AcceptDown(p)).value, p, n);
  }

  lemma LeafRecordKeepsInv(s: System, n: nat, p: nat)
    requires Inv(s, n) && Enabled(s, n, AcceptDown(p)) && IsLeaf(p, n)
    ensures Inv(Step(s, n, AcceptDown(p)), n)
  {
    var s' := Step(s, n, AcceptDown(p));
    var x := s.nodes[p].sends - s.nodes[p].processed;
    LeafMeansLeaf(s, n, p);
    LeafMeansLeaf(s', n, p);
    assert NodeOk(s, n, p);
    LeafRecordEffect(s, n, p);
    RecordingEdges(s, s', n, p, x);
    RecordingNodes(s, s', n, p, x);
    forall c | 0 < c < n ensures TermOk(s', n, c) {
      assert TermOk(s, n, c);
    }
  }

  /** The message a child sent up, when it is there to be accepted. */
  lemma UpArrives(s: System, n: nat, p: nat, c: nat)
    requires Inv(s, n) && Enabled(s, n, AcceptUp(p, c))
    ensures 0 < c && Parent(c) == p && !Arrived(s, n, p, c)
    ensures s.net.up[c].queue == [Msg(true, s.rec[p] + 1, Saturating(s.value, c))]
    ensures s.rec[c] == s.rec[p] + 1
    ensures s.nodes[p].accum == ExpectedAccum(s, n, p)
  {
    LeafMeansLeaf(s, n, p);
    assert NodeOk(s, n, p) && EdgeOk(s, n, c);
  }

  /** The accumulation with one more child in it. */
  function Accumulated(accum: map<nat, Accumulation>, key: nat, total: int): map<nat, Accumulation> {
    if key in accum then map[key := Accumulation(SafeAdd(accum[key].sum, total), accum[key].children + 1)]
    else map[key := Accumulation(total, 1)]
  }

  lemma AcceptUpTakes(s: System, n: nat, p: nat, c: nat)
    requires Inv(s, n) && Enabled(s, n, AcceptUp(p, c))
    ensures var s' := Step(s, n, AcceptUp(p, c));
            && s' == s.(nodes := s.nodes[p := s.nodes[p].(accum := s'.nodes[p].accum)],
                        net := s.net.(up := s.net.up[c := Chan(s.net.up[c].sent, [])]))
            && s'.nodes[p].accum == Accumulated(s.nodes[p].accum, s.rec[p] + 1, Saturating(s.value, c))
            && s'.ok
  {
    UpArrives(s, n, p, c);
    LeafMeansLeaf(s, n, p);
    assert s.net.up[c].queue[1..] == [];
    assert forall k | k in s.nodes[p].accum :: k == s.rec[p] + 1 && s.nodes[p].accum[k].children <= 1;
  }

  lemma AccumulatedIsExpected(s: System, s': System, n: nat, p: nat, c: nat)
    requires Shape(s, n) && Shape(s', n) && p < n && 0 < c < n && Parent(c) == p && !Arrived(s, n, p, c)
    requires s' == s.(nodes := s.nodes[p := s.nodes[p].(accum := s'.nodes[p].accum)],
                      net := s.net.(up := s.net.up[c := Chan(s.net.up[c].sent, [])]))
    requires s.net.up[c].sent == s.rec[p] + 1
    ensures ExpectedAccum(s', n, p) == Accumulated(ExpectedAccum(s, n, p), s.rec[p] + 1, Saturating(s.value, c))
  {
    LeafMeansLeaf(s, n, p);
    LeafMeansLeaf(s', n, p);
    assert Arrived(s', n, p, c);
  }

  lemma AcceptUpEffect(s: System, n: nat, p: nat, c: nat)
    requires Inv(s, n) && Enabled(s, n, AcceptUp(p, c))
    ensures var s' := Step(s, n, AcceptUp(p, c));
            && 0 < c && Parent(c) == p && s'.ok
            && s' == s.(nodes := s.nodes[p := s.nodes[p].(accum := s'.nodes[p].accum)],
                        net := s.net.(up := s.net.up[c := Chan(s.net.up[c].sent, [])]))
            && s'.nodes[p].accum == ExpectedAccum(s', n, p)
  {
    UpArrives(s, n, p, c);
    AcceptUpTakes(s, n, p, c);
    assert EdgeOk(s, n, c);
    AccumulatedIsExpected(s, Step(s, n, AcceptUp(p, c)), n, p, c);
  }

  lemma AcceptedUpKeepsEdges(s: System, s': System, n: nat, p: nat, c: nat)
    requires Inv(s, n) && Shape(s', n) && p < n && 0 < c < n && Parent(c) == p
    requires s.net.up[c].queue == [Msg(true, s.rec[p] + 1, Saturating(s.value, c))] && s.rec[c] == s.rec[p] + 1
    requires s.mode[p] == Running
    requires s' == s.(nodes := s.nodes[p := s.nodes[p].(accum := s'.nodes[p].accum)],
                      net := s.net.(up := s.net.up[c := Chan(s.net.up[c].sent, [])]))
    ensures forall k | 0 < k < n :: EdgeOk(s', n, k) && TermOk(s', n, k)
  {
    forall k | 0 < k < n ensures EdgeOk(s', n, k) && TermOk(s', n, k) {
      assert EdgeOk(s, n, k) && TermOk(s, n, k);
      if k != c {
        EdgeFrame(s, s', n, k);
      }
    }
  }

  lemma AcceptedUpKeepsRest(s: System, s': System, n: nat, p: nat, c: nat)
    requires Inv(s, n) && Shape(s', n) && p < n && 0 < c < n && Parent(c) == p
    requires s.net.up[c].queue == [Msg(true, s.rec[p] + 1, Saturating(s.value, c))] && s.rec[c] == s.rec[p] + 1
    requires s.mode[p] == Running
    requires s' == s.(nodes := s.nodes[p := s.nodes[p].(accum := s'.nodes[p].accum)],
                      net := s.net.(up := s.net.up[c := Chan(s.net.up[c].sent, [])]))
    requires s'.nodes[p].accum == ExpectedAccum(s', n, p)
    ensures Inv(s', n)
  {
    AcceptedUpKeepsEdges(s, s', n, p, c);
    forall q | 0 <= q < n ensures NodeOk(s', n, q) {
      LeafMeansLeaf(s, n, q);
      assert NodeOk(s, n, q);
      if q != p {
        NodeFrame(s, s', n, q);
      }
    }
  }

  lemma AcceptUpKeepsInv(s: System, n: nat, p: nat, c: nat)
    requires Inv(s, n) && Enabled(s, n, AcceptUp(p, c))
    ensures Inv(Step(s, n, AcceptUp(p, c)), n)
  {
    UpArrives(s, n, p, c);
    AcceptUpEffect(s, n, p, c);
    AcceptedUpKeepsRest(s, Step(s, n, AcceptUp(p, c)), n, p, c);
  }

  // ---------------------------------------------------------------- preservation: finishing a sweep

  /** When the accumulation is full, it is for the next sweep and holds every child's total. */
  lemma FullAccumulation(s: System, n: nat, p: nat)
    requires Inv(s, n) && Enabled(s, n, Finish(p))
    ensures !IsLeaf(p, n) && NodeOk(s, n, p)
    ensures Arrived(s, n, p, 2 * p + 1) && (2 * p + 2 < n ==> Arrived(s, n, p, 2 * p + 2))
    ensures s.nodes[p].accum ==
            map[s.rec[p] + 1 := Accumulation(SafeAdd(Saturating(s.value, 2 * p + 1), Saturating(s.value, 2 * p + 2)),
                                             Children(s.nodes[p]))]
    ensures MinKey(s.nodes[p].accum) == s.rec[p] + 1
  {
    LeafMeansLeaf(s, n, p);
    assert NodeOk(s, n, p);
    var key := MinKey(s.nodes[p].accum);
    assert s.nodes[p].accum == ExpectedAccum(s, n, p);
    assert key == s.rec[p] + 1 && s.nodes[p].accum[key].children == Children(s.nodes[p]);
  }

  /** When the accumulation is full, all children have reported and the sweep is under way here. */
  lemma FullMeansAll(s: System, n: nat, p: nat)
    requires Inv(s, n) && Enabled(s, n, Finish(p))
    ensures forall c | 0 < c < n && Parent(c) == p :: Received(s.net.up[c]) == s.rec[p] + 1
    ensures Begun(s, n, p) == BegunAbove(s, n, p) == s.rec[p] + 1
    ensures p > 0 ==> Received(s.net.up[p]) == s.rec[Parent(p)] == s.rec[p] == s.net.up[p].sent
                      && s.net.down[p].queue == []
  {
    FullAccumulation(s, n, p);
    assert EdgeOk(s, n, 2 * p + 1);
    forall c | 0 < c < n && Parent(c) == p ensures Received(s.net.up[c]) == s.rec[p] + 1 {
      assert EdgeOk(s, n, c);
    }
    if p > 0 {
      assert EdgeOk(s, n, p);
    }
  }

  /** The total passed on is the saturating sum over the whole subtree, with the new record. */
  lemma FinishTotal(s: System, n: nat, p: nat)
    requires Inv(s, n) && Enabled(s, n, Finish(p))
    ensures GlobalCount(s.nodes[p]) == Saturating(s.value[p := LocalCount(s.nodes[p])], p)
  {
    FullAccumulation(s, n, p);
    var x := LocalCount(s.nodes[p]);
    AncestorSplits(2 * p + 1, p);
    AncestorSplits(2 * p + 2, p);
    SaturatingFrame(s.value, 2 * p + 1, p, x);
    SaturatingFrame(s.value, 2 * p + 2, p, x);
  }

  lemma FinishEffect(s: System, n: nat, p: nat)
    requires Inv(s, n) && Enabled(s, n, Finish(p))
    ensures var s' := Step(s, n, Finish(p));
            var nd := s.nodes[p].(accum := map[], localSweep := s.rec[p] + 1);
            var total := GlobalCount(s.nodes[p]);
            && s'.rec == s.rec[p := s.rec[p] + 1] && s'.value == s.value[p := LocalCount(s.nodes[p])]
            && s'.sweep == s.sweep && s'.ok && s'.net.down == s.net.down
            && (forall q | 0 <= q < n && q != p :: s'.nodes[q] == s.nodes[q])
            && (p > 0 ==>
                  && s'.net == s.net.(up := s.net.up[p := Put(s.net.up[p], Msg(true, s.rec[p] + 1, total))])
                  && s'.nodes[p] == nd.(ups := nd.ups + [UpData(Msg(true, s.rec[p] + 1, total), s.net.up[p].sent)])
                  && s'.mode == s.mode)
            && (p == 0 && total != 0 ==> s'.net == s.net && s'.nodes[p] == nd && s'.mode == s.mode)
            && (p == 0 && total == 0 ==>
                  && s'.net == SendTerms(Process(nd.(terminate := 1), s.net, true)).net
                  && s'.nodes[p] == SendTerms(Process(nd.(terminate := 1), s.net, true)).node
                  && s'.mode == s.mode[0 := Waiting])
  {
    FullAccumulation(s, n, p);
    LeafMeansLeaf(s, n, p);
    assert s.nodes[p].accum - {s.rec[p] + 1} == map[];
  }

  lemma SendTermsEffect(nd: Node, net: Net, p: nat, n: nat)
    requires p < n == |net.down| == |net.up| == |net.term| && Placed(nd, p, n)
    ensures var l := SendTerms(Process(nd, net, true));
            && (forall c | 0 <= c < n ::
                  l.net.term[c] == if c > 0 && Parent(c) == p then Put(net.term[c], nd.terminate) else net.term[c])
            && |l.net.term| == n && l.net.up == net.up && l.net.down == net.down && l.ok
            && l.node == nd.(broadcastLeft := if nd.left == -1 then None else Some(net.term[nd.left].sent),
                             broadcastRight := if nd.right == -1 then None else Some(net.term[nd.right].sent))
  {
  }

  lemma FinishKeepsEdges(s: System, n: nat, p: nat)
    requires Inv(s, n) && Enabled(s, n, Finish(p))
    ensures var s' := Step(s, n, Finish(p));
            && (forall c | 0 < c < n :: EdgeOk(s', n, c))
            && (forall q | 0 <= q < n && q != p :: NodeOk(s', n, q))
  {
    var s' := Step(s, n, Finish(p));
    var x := LocalCount(s.nodes[p]);
    FullMeansAll(s, n, p);
    FinishEffect(s, n, p);
    FinishTotal(s, n, p);
    if p == 0 {
      SendTermsEffect(s.nodes[p].(accum := map[], localSweep := s.rec[p] + 1, terminate := 1), s.net, p, n);
    }
    LeafMeansLeaf(s, n, p);
    assert Records(s, s', n, p, x);
    RecordingEdges(s, s', n, p, x);
    RecordingNodes(s, s', n, p, x);
  }

  lemma FinishEmptiesAccum(s: System, n: nat, p: nat)
    requires Inv(s, n) && Enabled(s, n, Finish(p))
    ensures ExpectedAccum(Step(s, n, Finish(p)), n, p) == map[]
  {
    FullMeansAll(s, n, p);
    FinishEffect(s, n, p);
    LeafMeansLeaf(s, n, p);
    LeafMeansLeaf(Step(s, n, Finish(p)), n, p);
  }

  lemma FinishKeepsNode(s: System, n: nat, p: nat)
    requires Inv(s, n) && Enabled(s, n, Finish(p))
    ensures NodeOk(Step(s, n, Finish(p)), n, p)
  {
    FinishEmptiesAccum(s, n, p);
    FullAccumulation(s, n, p);
    FullMeansAll(s, n, p);
    FinishEffect(s, n, p);
    LeafMeansLeaf(s, n, p);
    LeafMeansLeaf(Step(s, n, Finish(p)), n, p);
    if p == 0 {
      SendTermsEffect(s.nodes[p].(accum := map[], localSweep := s.rec[p] + 1, terminate := 1), s.net, p, n);
      assert TermOk(s, n, 1) && (2 < n ==> TermOk(s, n, 2));
    }
  }

  lemma FinishKeepsTerms(s: System, n: nat, p: nat)
    requires Inv(s, n) && Enabled(s, n, Finish(p))
    ensures forall c | 0 < c < n :: TermOk(Step(s, n, Finish(p)), n, c)
  {
    var s' := Step(s, n, Finish(p));
    FinishEffect(s, n, p);
    if p == 0 {
      SendTermsEffect(s.nodes[p].(accum := map[], localSweep := s.rec[p] + 1, terminate := 1), s.net, p, n);
    }
    forall c | 0 < c < n ensures TermOk(s', n, c) {
      assert TermOk(s, n, c);
    }
  }

  lemma FinishKeepsInv(s: System, n: nat, p: nat)
    requires Inv(s, n) && Enabled(s, n, Finish(p))
    ensures Inv(Step(s, n, Finish(p)), n)
  {
    FullMeansAll(s, n, p);
    FinishEffect(s, n, p);
    FinishKeepsEdges(s, n, p);
    FinishKeepsNode(s, n, p);
    FinishKeepsTerms(s, n, p);
  }

  // ---------------------------------------------------------------- preservation: termination

  /** A process terminates only after the root did. */
  lemma {:induction false} RootFirst(s: System, n: nat, p: nat)
    requires Inv(s, n) && p < n && s.mode[p] != Running
    ensures s.mode[0] != Running
    decreases p
  {
    if p > 0 {
      assert TermOk(s, n, p);
      RootFirst(s, n, Parent(p));
    }
  }

  /** Once the root has decided, no sweep is in progress: all processes have recorded the same number
      of sweeps, every down and up channel is empty, and nothing is accumulated. */
  lemma DecidedIsQuiet(s: System, n: nat, p: nat)
    requires Inv(s, n) && s.mode[0] != Running && p < n
    ensures s.rec[p] == s.sweep == Begun(s, n, p)
    ensures p > 0 ==> s.net.down[p].queue == [] && s.net.up[p].queue == []
    ensures s.mode[p] != AtBarrier ==> s.nodes[p].accum == map[]
  {
    OneSweepAtATime(s, n, p);
    if p > 0 {
      OneSweepAtATime(s, n, Parent(p));
      assert EdgeOk(s, n, p);
    }
    LeafMeansLeaf(s, n, p);
    assert NodeOk(s, n, p);
    forall c | (c == 2 * p + 1 || c == 2 * p + 2) && c < n ensures !Arrived(s, n, p, c) {
      OneSweepAtATime(s, n, c);
      assert EdgeOk(s, n, c);
    }
  }

  /** The broadcast, when it is there to be accepted. */
  lemma TermArrives(s: System, n: nat, p: nat)
    requires Inv(s, n) && Enabled(s, n, AcceptTerm(p))
    ensures s.mode[Parent(p)] != Running && s.mode[p] == Running && s.nodes[p].accum == map[]
    ensures s.net.term[p] == Chan(1, [1]) && s.nodes[p].terminate == 0
    ensures forall c | 0 < c < n && Parent(c) == p :: s.net.term[c] == Chan(0, [])
  {
    assert TermOk(s, n, p) && NodeOk(s, n, p);
    RootFirst(s, n, Parent(p));
    DecidedIsQuiet(s, n, p);
    forall c | 0 < c < n && Parent(c) == p ensures s.net.term[c] == Chan(0, []) {
      assert TermOk(s, n, c);
    }
  }

  /** The piece of code on p's own state and the channels. */
  lemma TakeTermEffect(nd: Node, net: Net, p: nat, n: nat)
    requires 0 < p < n == |net.down| == |net.up| == |net.term| && Placed(nd, p, n) && net.term[p] == Chan(1, [1])
    requires forall c | 0 < c < n && Parent(c) == p :: net.term[c] == Chan(0, [])
    ensures Fits(nd, net)
    ensures var l := TakeTerm(Process(nd, net, true));
            && l.ok && l.net == net.(term := l.net.term) && |l.net.term| == n
            && (forall c | 0 < c < n ::
                  l.net.term[c] == if c == p then Chan(1, [])
                                   else if Parent(c) == p then Chan(1, [1]) else net.term[c])
            && l.node == nd.(terminate := 1,
                             broadcastLeft := if nd.left == -1 then None else Some(0),
                             broadcastRight := if nd.right == -1 then None else Some(0))
  {
    assert [1][1..] == [] && [] + [1] == [1];
    var net1 := net.(term := net.term[p := Chan(1, [])]);
    SendTermsEffect(nd.(terminate := 1), net1, p, n);
  }

  lemma AcceptTermEffect(s: System, n: nat, p: nat)
    requires Inv(s, n) && Enabled(s, n, AcceptTerm(p))
    ensures s.mode[Parent(p)] != Running && s.mode[p] == Running && s.nodes[p].accum == map[]
    ensures var s' := Step(s, n, AcceptTerm(p));
            && s' == s.(nodes := s.nodes[p := s'.nodes[p]], net := s.net.(term := s'.net.term),
                        mode := s.mode[p := Waiting])
            && (forall c | 0 < c < n ::
                  s'.net.term[c] == if c == p then Chan(1, [])
                                    else if Parent(c) == p then Chan(1, [1]) else s.net.term[c])
            && s'.nodes[p] == s.nodes[p].(terminate := 1,
                                          broadcastLeft := if s.nodes[p].left == -1 then None else Some(0),
                                          broadcastRight := if s.nodes[p].right == -1 then None else Some(0))
  {
    TermArrives(s, n, p);
    TakeTermEffect(s.nodes[p], s.net, p, n);
  }

  lemma TermTakenKeepsNodes(s: System, s': System, n: nat, p: nat)
    requires Inv(s, n) && Shape(s', n) && 0 < p < n && s.mode[p] == Running && s.nodes[p].accum == map[]
    requires s' == s.(nodes := s.nodes[p := s'.nodes[p]], net := s.net.(term := s'.net.term),
                      mode := s.mode[p := Waiting])
    requires s'.nodes[p] == s.nodes[p].(terminate := 1,
                                        broadcastLeft := if s.nodes[p].left == -1 then None else Some(0),
                                        broadcastRight := if s.nodes[p].right == -1 then None else Some(0))
    ensures forall c | 0 < c < n :: EdgeOk(s', n, c)
    ensures forall q | 0 <= q < n :: NodeOk(s', n, q)
  {
    forall c | 0 < c < n ensures EdgeOk(s', n, c) {
      EdgeFrame(s, s', n, c);
    }
    forall q | 0 <= q < n ensures NodeOk(s', n, q) {
      LeafMeansLeaf(s, n, q);
      assert NodeOk(s, n, q);
      if q != p {
        NodeFrame(s, s', n, q);
      }
    }
  }

  lemma AcceptTermKeepsInv(s: System, n: nat, p: nat)
    requires Inv(s, n) && Enabled(s, n, AcceptTerm(p))
    ensures Inv(Step(s, n, AcceptTerm(p)), n)
  {
    var s' := Step(s, n, AcceptTerm(p));
    AcceptTermEffect(s, n, p);
    TermTakenKeepsNodes(s, s', n, p);
    forall c | 0 < c < n ensures TermOk(s', n, c) {
      assert TermOk(s, n, c);
    }
  }

  /** A process that waits to reset has nothing waiting around it. */
  lemma WaitingIsQuiet(s: System, n: nat, p: nat)
    requires Inv(s, n) && Enabled(s, n, Reset(p))
    ensures p > 0 ==> s.net.up[p].queue == []
    ensures forall c | 0 < c < n && Parent(c) == p :: s.net.down[c].queue == [] && s.mode[c] != Running
  {
    LeafMeansLeaf(s, n, p);
    assert NodeOk(s, n, p);
    RootFirst(s, n, p);
    DecidedIsQuiet(s, n, p);
    forall c | 0 < c < n && Parent(c) == p ensures s.net.down[c].queue == [] && s.mode[c] != Running {
      DecidedIsQuiet(s, n, c);
      assert TermOk(s, n, c);
    }
  }

  /** So its sends are complete. */
  lemma WaitingIsComplete(s: System, n: nat, p: nat)
    requires Inv(s, n) && Enabled(s, n, Reset(p))
    ensures Fits(s.nodes[p], s.net)
    ensures forall d | d in s.nodes[p].downs :: !d.message.up && DownComplete(s.nodes[p], s.net, d)
    ensures forall u | u in s.nodes[p].ups :: u.message.up && UpComplete(s.nodes[p], s.net, u)
  {
    LeafMeansLeaf(s, n, p);
    assert NodeOk(s, n, p);
    WaitingIsQuiet(s, n, p);
  }

  /** None of the exceptions of safe_reset fires, and the process is as constructed afterwards. */
  lemma ResetEffect(s: System, n: nat, p: nat)
    requires Inv(s, n) && Enabled(s, n, Reset(p))
    ensures SafeReset(At(s, n, p)) == Process(Fresh(p, n), s.net, true)
    ensures forall c | 0 < c < n && Parent(c) == p :: s.mode[c] != Running
  {
    LeafMeansLeaf(s, n, p);
    assert NodeOk(s, n, p);
    WaitingIsQuiet(s, n, p);
    WaitingIsComplete(s, n, p);
  }

  lemma ResetKeepsInv(s: System, n: nat, p: nat)
    requires Inv(s, n) && Enabled(s, n, Reset(p))
    ensures Inv(Step(s, n, Reset(p)), n)
  {
    var s' := Step(s, n, Reset(p));
    ResetEffect(s, n, p);
    RootFirst(s, n, p);
    forall c | 0 < c < n ensures EdgeOk(s', n, c) && TermOk(s', n, c) {
      assert TermOk(s, n, c);
      EdgeFrame(s, s', n, c);
    }
    forall q | 0 <= q < n ensures NodeOk(s', n, q) {
      LeafMeansLeaf(s, n, q);
      if q != p {
        NodeFrame(s, s', n, q);
      }
    }
  }

  // ---------------------------------------------------------------- preservation: regular messages

  /** Regular traffic touches only counters the detection reads when it records. */
  lemma TrafficFrame(s: System, s': System, n: nat)
    requires Inv(s, n) && Shape(s', n)
    requires s'.net == s.net && s'.mode == s.mode && s'.rec == s.rec && s'.value == s.value
    requires s'.sweep == s.sweep && s'.ok
    requires forall q | 0 <= q < n ::
               s'.nodes[q] == s.nodes[q]
               || (s.mode[q] == Running
                   && s'.nodes[q] == s.nodes[q].(sends := s'.nodes[q].sends, processed := s'.nodes[q].processed,
                                                 lastRegular := s'.nodes[q].lastRegular))
    ensures Inv(s', n)
  {
    forall c | 0 < c < n ensures EdgeOk(s', n, c) && TermOk(s', n, c) {
      assert TermOk(s, n, c);
      EdgeFrame(s, s', n, c);
    }
    forall q | 0 <= q < n ensures NodeOk(s', n, q) {
      assert NodeOk(s, n, q);
    }
  }

  lemma TrafficKeepsInv(s: System, n: nat, a: Action)
    requires Inv(s, n) && Enabled(s, n, a) && (a.Send? || a.Receive? || a.Rest?)
    ensures Inv(Step(s, n, a), n)
  {
    TrafficFrame(s, Step(s, n, a), n);
  }

  lemma StepKeepsInv(s: System, n: nat, a: Action)
    requires Inv(s, n) && Enabled(s, n, a)
    ensures Inv(Step(s, n, a), n)
  {
    match a
    case CleanDowns(p) => CleanKeepsInv(s, n, a);
    case CleanUps(p) => CleanKeepsInv(s, n, a);
    case Start => StartKeepsInv(s, n);
    case AcceptDown(p) =>
      if IsLeaf(p, n) {
        LeafRecordKeepsInv(s, n, p);
      } else {
        ForwardKeepsInv(s, n, p);
      }
    case AcceptUp(p, c) => AcceptUpKeepsInv(s, n, p, c);
    case Finish(p) => FinishKeepsInv(s, n, p);
    case AcceptTerm(p) => AcceptTermKeepsInv(s, n, p);
    case Reset(p) => ResetKeepsInv(s, n, p);
    case _ => TrafficKeepsInv(s, n, a);
  }

  lemma {:induction false} RunsKeepInv(n: nat, active: seq<bool>, run: seq<Action>)
    requires |active| == n > 1 && After(n, active, run).Some?
    ensures Inv(After(n, active, run).value, n)
  {
    if run == [] {
      InitInv(n, active);
    } else {
      RunsKeepInv(n, active, run[..|run| - 1]);
      StepKeepsInv(After(n, active, run[..|run| - 1]).value, n, run[|run| - 1]);
    }
  }

  // ---------------------------------------------------------------- what every run does

  /** An accumulation is for the next sweep of its process, and counts no more than its children. */
  lemma OneAccumulation(s: System, n: nat, p: nat)
    requires Inv(s, n) && p < n
    ensures |s.nodes[p].accum| <= 1
    ensures forall k | k in s.nodes[p].accum ::
              k == s.rec[p] + 1 && s.nodes[p].accum[k].children <= Children(s.nodes[p])
  {
    LeafMeansLeaf(s, n, p);
    assert NodeOk(s, n, p);
    if s.mode[p] != Running {
      RootFirst(s, n, p);
      DecidedIsQuiet(s, n, p);
    }
  }

  lemma RootTotal(s: System, n: nat)
    requires Inv(s, n) && Enabled(s, n, Finish(0))
    ensures GlobalCount(s.nodes[0]) == Saturating(Step(s, n, Finish(0)).value, 0)
    ensures forall p | 0 <= p < n :: Step(s, n, Finish(0)).rec[p] == s.sweep
  {
    FinishTotal(s, n, 0);
    FullMeansAll(s, n, 0);
    FinishKeepsInv(s, n, 0);
    FinishEffect(s, n, 0);
    forall p | 0 <= p < n ensures Step(s, n, Finish(0)).rec[p] == s.sweep {
      OneSweepAtATime(Step(s, n, Finish(0)), n, p);
    }
  }

  /** Every sweep is a correct tree aggregation, in every run: at most one sweep is in progress, each
      process records each sweep once, the accumulation of a process never holds two sweeps or more
      messages than it has children, and what the root gets when it finishes is the saturating sum of
      the values all processes recorded. No exception is ever thrown. */
  lemma SweepsAggregate(n: nat, active: seq<bool>, run: seq<Action>)
    requires |active| == n > 1 && After(n, active, run).Some?
    ensures var s := After(n, active, run).value;
            && s.ok
            && (forall p | 0 <= p < n :: s.rec[0] <= s.rec[p] <= s.sweep <= s.rec[0] + 1)
            && (forall p | 0 <= p < n ::
                  |s.nodes[p].accum| <= 1
                  && forall k | k in s.nodes[p].accum ::
                       k == s.rec[p] + 1 && s.nodes[p].accum[k].children <= Children(s.nodes[p]))
            && (Enabled(s, n, Finish(0)) ==>
                  && GlobalCount(s.nodes[0]) == Saturating(Step(s, n, Finish(0)).value, 0)
                  && forall p | 0 <= p < n :: Step(s, n, Finish(0)).rec[p] == s.sweep)
  {
    var s := After(n, active, run).value;
    RunsKeepInv(n, active, run);
    forall p | 0 <= p < n
      ensures |s.nodes[p].accum| <= 1
      ensures forall k | k in s.nodes[p].accum ::
                k == s.rec[p] + 1 && s.nodes[p].accum[k].children <= Children(s.nodes[p])
      ensures s.rec[0] <= s.rec[p] <= s.sweep <= s.rec[0] + 1
    {
      OneSweepAtATime(s, n, p);
      OneAccumulation(s, n, p);
    }
    if Enabled(s, n, Finish(0)) {
      RootTotal(s, n);
    }
  }

  /** The termination broadcast, in every run: it goes over every edge exactly once, when the parent
      terminates, and a process terminates exactly when it has taken it. */
  lemma BroadcastOncePerEdge(n: nat, active: seq<bool>, run: seq<Action>, c: nat)
    requires |active| == n > 1 && After(n, active, run).Some? && 0 < c < n
    ensures var s := After(n, active, run).value;
            && s.net.term[c].sent == (if s.mode[Parent(c)] == Running then 0 else 1)
            && (s.mode[c] != Running <==> Received(s.net.term[c]) == 1)
  {
    var s := After(n, active, run).value;
    RunsKeepInv(n, active, run);
    assert TermOk(s, n, c);
  }

  /** In every run, none of the exceptions of safe_reset can fire, and it restores the constructed
      state. */
  lemma ResetNeverThrows(n: nat, active: seq<bool>, run: seq<Action>, p: nat)
    requires |active| == n > 1 && After(n, active, run).Some?
    requires Enabled(After(n, active, run).value, n, Reset(p))
    ensures var s := After(n, active, run).value;
            SafeReset(At(s, n, p)) == Process(Fresh(p, n), s.net, true)
  {
    RunsKeepInv(n, active, run);
    ResetEffect(After(n, active, run).value, n, p);
  }

  /** When all processes are at the barrier, no message of the detection is left in any channel and
      every Global is as it was constructed. */
  lemma BarrierRestoresEverything(n: nat, active: seq<bool>, run: seq<Action>)
    requires |active| == n > 1 && After(n, active, run).Some?
    requires forall p | 0 <= p < n :: After(n, active, run).value.mode[p] == AtBarrier
    ensures var s := After(n, active, run).value;
            forall p | 0 <= p < n ::
              s.nodes[p] == Fresh(p, n)
              && (p > 0 ==> s.net.down[p].queue == [] && s.net.up[p].queue == [] && s.net.term[p].queue == [])
  {
    var s := After(n, active, run).value;
    RunsKeepInv(n, active, run);
    forall p | 0 <= p < n
      ensures s.nodes[p] == Fresh(p, n)
      ensures p > 0 ==> s.net.down[p].queue == [] && s.net.up[p].queue == [] && s.net.term[p].queue == []
    {
      assert NodeOk(s, n, p);
      DecidedIsQuiet(s, n, p);
      if p > 0 {
        assert TermOk(s, n, p);
      }
    }
  }

  /** A terminated detection cannot get stuck: until all processes are at the barrier, some process
      can take the broadcast or reset, provided the running ones become passive. */
  lemma ShutdownProgresses(s: System, n: nat)
    requires Inv(s, n) && s.mode[0] != Running
    requires forall p | 0 <= p < n :: !s.active[p]
    requires exists p | 0 <= p < n :: s.mode[p] != AtBarrier
    ensures exists p: nat :: p < n && (Enabled(s, n, AcceptTerm(p)) || Enabled(s, n, Reset(p)))
  {
    var p :| 0 <= p < n && s.mode[p] != AtBarrier;
    if r: nat :| r < n && s.mode[r] == Running {
      var q := HighestRunning(s, n, r);
      assert TermOk(s, n, q) && NodeOk(s, n, q);
      assert Enabled(s, n, AcceptTerm(q));
    } else {
      LeafMeansLeaf(s, n, p);
      assert NodeOk(s, n, p);
      forall c | (c == 2 * p + 1 || c == 2 * p + 2) && c < n ensures Received(s.net.term[c]) == 1 {
        assert TermOk(s, n, c);
      }
      assert Enabled(s, n, Reset(p));
    }
  }

  lemma {:induction false} HighestRunning(s: System, n: nat, r: nat) returns (q: nat)
    requires Inv(s, n) && s.mode[0] != Running && r < n && s.mode[r] == Running
    ensures 0 < q < n && s.mode[q] == Running && s.mode[Parent(q)] != Running
    decreases r
  {
    if s.mode[Parent(r)] != Running {
      q := r;
    } else {
      q := HighestRunning(s, n, Parent(r));
    }
  }
}

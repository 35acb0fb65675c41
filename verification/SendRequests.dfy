/** The buffers of the detection's sends: as long as a message has not been received, its sender keeps the
    entry that holds it, and an entry is given up once its message has been received. */
module SendRequests {
  import opened Wrappers
  import opened ProcessTree
  import opened GlobalQd
  import opened SweepSystem
  import opened SweepInvariant

  /** The request of the entry for the channel to c. */
  function RequestFor(d: DownData, c: nat): nat {
    if c % 2 == 1 then d.left else d.right
  }

  /** The entry of the message that waits in the channel to c. */
  predicate IsEntryOf(s: System, n: nat, c: nat, d: DownData)
    requires Shape(s, n) && 0 < c < n && s.net.down[c].queue != []
  {
    d.message == s.net.down[c].queue[0] && RequestFor(d, c) == Received(s.net.down[c])
  }

  ghost predicate DownHeld(s: System, n: nat, c: nat)
    requires Shape(s, n) && 0 < c < n
  {
    s.net.down[c].queue != [] ==> exists d :: d in s.nodes[Parent(c)].downs && IsEntryOf(s, n, c, d)
  }

  ghost predicate UpHeld(s: System, n: nat, c: nat)
    requires Shape(s, n) && 0 < c < n
  {
    s.net.up[c].queue != [] ==>
      exists u :: u in s.nodes[c].ups && u.message == s.net.up[c].queue[0] && u.request == Received(s.net.up[c])
  }

  ghost predicate AllHeld(s: System, n: nat)
    requires Shape(s, n)
  {
    forall c: nat | 0 < c < n :: DownHeld(s, n, c) && UpHeld(s, n, c)
  }

  // ---------------------------------------------------------------- the steps

  /** Entries and channels of an edge that the step leaves alone. */
  lemma HeldFrame(s: System, s': System, n: nat, c: nat)
    requires Shape(s, n) && Shape(s', n) && 0 < c < n && DownHeld(s, n, c) && UpHeld(s, n, c)
    requires s'.net.down[c] == s.net.down[c] || s'.net.down[c].queue == []
    requires s'.net.up[c] == s.net.up[c] || s'.net.up[c].queue == []
    requires s.net.down[c].queue != [] ==>
               forall d | d in s.nodes[Parent(c)].downs && IsEntryOf(s, n, c, d) :: d in s'.nodes[Parent(c)].downs
    requires forall u | u in s.nodes[c].ups :: u in s'.nodes[c].ups || Received(s.net.up[c]) > u.request
    ensures DownHeld(s', n, c) && UpHeld(s', n, c)
  {
    if s'.net.down[c].queue != [] {
      var d :| d in s.nodes[Parent(c)].downs && IsEntryOf(s, n, c, d);
      assert IsEntryOf(s', n, c, d);
    }
  }

  /** What cleaning up leaves. */
  lemma CleanKeepsAwaited(s: System, n: nat, a: Action)
    requires Inv(s, n) && Enabled(s, n, a) && (a.CleanDowns? || a.CleanUps?)
    ensures var s' := Step(s, n, a);
            && Fits(s.nodes[a.p], s.net) && s'.net == s.net
            && (forall q | 0 <= q < n && q != a.p :: s'.nodes[q] == s.nodes[q])
            && (forall d | d in s.nodes[a.p].downs && DownAwaited(s.nodes[a.p], s.net, d) :: d in s'.nodes[a.p].downs)
            && (forall u | u in s.nodes[a.p].ups && UpAwaited(s.nodes[a.p], s.net, u) :: u in s'.nodes[a.p].ups)
  {
    LeafMeansLeaf(s, n, a.p);
    assert NodeOk(s, n, a.p);
  }

  /** An entry for a waiting message is awaited. */
  lemma EntryIsAwaited(s: System, n: nat, c: nat, d: DownData)
    requires Shape(s, n) && 0 < c < n && s.net.down[c].queue != [] && IsEntryOf(s, n, c, d)
    ensures Fits(s.nodes[Parent(c)], s.net) && DownAwaited(s.nodes[Parent(c)], s.net, d)
  {
    LeafMeansLeaf(s, n, Parent(c));
  }

  lemma CleanedEdge(s: System, n: nat, a: Action, c: nat)
    requires Inv(s, n) && AllHeld(s, n) && Enabled(s, n, a) && (a.CleanDowns? || a.CleanUps?) && 0 < c < n
    ensures DownHeld(Step(s, n, a), n, c) && UpHeld(Step(s, n, a), n, c)
  {
    CleanKeepsAwaited(s, n, a);
    LeafMeansLeaf(s, n, c);
    if s.net.down[c].queue != [] {
      forall d | d in s.nodes[Parent(c)].downs && IsEntryOf(s, n, c, d)
        ensures d in Step(s, n, a).nodes[Parent(c)].downs
      {
        EntryIsAwaited(s, n, c, d);
      }
    }
    HeldFrame(s, Step(s, n, a), n, c);
  }

  lemma CleanKeepsHeld(s: System, n: nat, a: Action)
    requires Inv(s, n) && AllHeld(s, n) && Enabled(s, n, a) && (a.CleanDowns? || a.CleanUps?)
    ensures AllHeld(Step(s, n, a), n)
  {
    forall c: nat | 0 < c < n ensures DownHeld(Step(s, n, a), n, c) && UpHeld(Step(s, n, a), n, c) {
      CleanedEdge(s, n, a, c);
    }
  }

  /** A process that begins a sweep keeps what it sends down. */
  lemma SpreadingKeepsHeld(s: System, s': System, n: nat, p: nat)
    requires Inv(s, n) && Inv(s', n) && AllHeld(s, n) && p < n && Spreads(s, s', n, p)
    requires p > 0 ==> s'.net.down[p].queue == []
    ensures AllHeld(s', n)
  {
    forall c: nat | 0 < c < n ensures DownHeld(s', n, c) && UpHeld(s', n, c) {
      if c != p && Parent(c) == p {
        SpreadHeld(s, s', n, p, c);
      } else {
        HeldFrame(s, s', n, c);
      }
    }
  }

  /** The channel to c was empty, and now holds what p sends. */
  lemma SpreadChannel(s: System, s': System, n: nat, p: nat, c: nat)
    requires Inv(s, n) && Inv(s', n) && p < n && Spreads(s, s', n, p) && 0 < c < n && c != p && Parent(c) == p
    ensures s.net.down[c].queue == []
    ensures s'.net.down[c] == Chan(s.net.down[c].sent + 1, [Msg(false, s.rec[p] + 1, 0)])
  {
    assert EdgeOk(s, n, c);
    assert s'.net.down[c] == Put(s.net.down[c], Msg(false, s.rec[p] + 1, 0));
  }

  /** The entry for what p sends to c. */
  lemma SpreadEntry(s: System, s': System, n: nat, p: nat, c: nat)
    requires Inv(s, n) && Inv(s', n) && p < n && Spreads(s, s', n, p) && 0 < c < n && c != p && Parent(c) == p
    ensures DownHeld(s', n, c)
  {
    LeafMeansLeaf(s, n, p);
    SpreadChannel(s, s', n, p, c);
    var d := DownData(Msg(false, s.rec[p] + 1, 0), NextRequest(s.net.down, s.nodes[p].left),
                      NextRequest(s.net.down, s.nodes[p].right));
    assert d in s'.nodes[p].downs;
    RequestIsSent(s, n, p, c);
  }

  lemma RequestIsSent(s: System, n: nat, p: nat, c: nat)
    requires Shape(s, n) && p < n && 0 < c < n && Parent(c) == p
    ensures -1 <= s.nodes[p].left < n && -1 <= s.nodes[p].right < n
    ensures NextRequest(s.net.down, if c % 2 == 1 then s.nodes[p].left else s.nodes[p].right) == s.net.down[c].sent
  {
    LeafMeansLeaf(s, n, p);
  }

  lemma SpreadHeld(s: System, s': System, n: nat, p: nat, c: nat)
    requires Inv(s, n) && Inv(s', n) && AllHeld(s, n) && p < n && Spreads(s, s', n, p)
    requires 0 < c < n && c != p && Parent(c) == p
    ensures DownHeld(s', n, c) && UpHeld(s', n, c)
  {
    SpreadEntry(s, s', n, p, c);
    HeldUpFrame(s, s', n, c);
  }

  lemma HeldUpFrame(s: System, s': System, n: nat, c: nat)
    requires Shape(s, n) && Shape(s', n) && 0 < c < n && UpHeld(s, n, c)
    requires s'.net.up[c] == s.net.up[c] && forall u | u in s.nodes[c].ups :: u in s'.nodes[c].ups
    ensures UpHeld(s', n, c)
  {
  }

  /** A process that answers or passes on a total keeps it. */
  lemma SendingUpKeepsHeld(s: System, s': System, n: nat, p: nat)
    requires Inv(s, n) && Inv(s', n) && AllHeld(s, n) && 0 < p < n && s'.net.up[p].sent == s.net.up[p].sent + 1
    requires s.net.up[p].queue == [] && |s'.net.up[p].queue| == 1
    requires s'.nodes[p].ups == s.nodes[p].ups + [UpData(s'.net.up[p].queue[0], s.net.up[p].sent)]
    requires s'.nodes[p].downs == s.nodes[p].downs
    requires forall q | 0 <= q < n && q != p :: s'.nodes[q] == s.nodes[q]
    requires forall c | 0 <= c < n && c != p :: s'.net.up[c] == s.net.up[c]
    requires forall c | 0 <= c < n :: s'.net.down[c] == s.net.down[c] || s'.net.down[c].queue == []
    ensures AllHeld(s', n)
  {
    forall c: nat | 0 < c < n ensures DownHeld(s', n, c) && UpHeld(s', n, c) {
      if c == p {
        DownHeldFrame(s, s', n, c);
      } else {
        HeldFrame(s, s', n, c);
      }
    }
  }

  lemma DownHeldFrame(s: System, s': System, n: nat, c: nat)
    requires Shape(s, n) && Shape(s', n) && 0 < c < n && DownHeld(s, n, c)
    requires s'.net.down[c] == s.net.down[c] || s'.net.down[c].queue == []
    requires s'.nodes[Parent(c)].downs == s.nodes[Parent(c)].downs
    ensures DownHeld(s', n, c)
  {
    if s'.net.down[c].queue != [] {
      var d :| d in s.nodes[Parent(c)].downs && IsEntryOf(s, n, c, d);
      assert IsEntryOf(s', n, c, d);
    }
  }

  /** The entries stay, and channels only lose messages. */
  lemma SameEntriesKeepHeld(s: System, s': System, n: nat)
    requires Shape(s, n) && Shape(s', n) && AllHeld(s, n)
    requires forall q | 0 <= q < n :: s'.nodes[q].downs == s.nodes[q].downs && s'.nodes[q].ups == s.nodes[q].ups
    requires forall c | 0 <= c < n :: s'.net.down[c] == s.net.down[c]
                                      && (s'.net.up[c] == s.net.up[c] || s'.net.up[c].queue == [])
    ensures AllHeld(s', n)
  {
    forall c: nat | 0 < c < n ensures DownHeld(s', n, c) && UpHeld(s', n, c) {
      HeldFrame(s, s', n, c);
    }
  }

  lemma LeafStepKeepsHeld(s: System, n: nat, p: nat)
    requires Inv(s, n) && AllHeld(s, n) && Enabled(s, n, AcceptDown(p)) && IsLeaf(p, n)
    ensures AllHeld(Step(s, n, AcceptDown(p)), n)
  {
    LeafTakesDown(s, n, p);
    StepKeepsInv(s, n, AcceptDown(p));
    DownArrives(s, n, p);
    assert EdgeOk(s, n, p);
    SendingUpKeepsHeld(s, Step(s, n, AcceptDown(p)), n, p);
  }

  lemma InnerStepKeepsHeld(s: System, n: nat, p: nat)
    requires Inv(s, n) && AllHeld(s, n) && Enabled(s, n, AcceptDown(p)) && !IsLeaf(p, n)
    ensures AllHeld(Step(s, n, AcceptDown(p)), n)
  {
    ForwardTakes(s, n, p);
    StepKeepsInv(s, n, AcceptDown(p));
    SpreadingKeepsHeld(s, Step(s, n, AcceptDown(p)), n, p);
  }

  lemma FinishKeepsHeld(s: System, n: nat, p: nat)
    requires Inv(s, n) && AllHeld(s, n) && Enabled(s, n, Finish(p))
    ensures AllHeld(Step(s, n, Finish(p)), n)
  {
    FinishEffect(s, n, p);
    StepKeepsInv(s, n, Finish(p));
    FullMeansAll(s, n, p);
    if p > 0 {
      assert EdgeOk(s, n, p);
      SendingUpKeepsHeld(s, Step(s, n, Finish(p)), n, p);
    } else {
      LeafMeansLeaf(s, n, 0);
      SameEntriesKeepHeld(s, Step(s, n, Finish(p)), n);
    }
  }

  lemma ResetKeepsHeld(s: System, n: nat, p: nat)
    requires Inv(s, n) && AllHeld(s, n) && Enabled(s, n, Reset(p))
    ensures AllHeld(Step(s, n, Reset(p)), n)
  {
    var s' := Step(s, n, Reset(p));
    ResetEffect(s, n, p);
    WaitingIsQuiet(s, n, p);
    forall c: nat | 0 < c < n ensures DownHeld(s', n, c) && UpHeld(s', n, c) {
      assert DownHeld(s, n, c) && UpHeld(s, n, c);
      if c != p && Parent(c) != p {
        HeldFrame(s, s', n, c);
      } else if c != p {
        HeldUpFrame(s, s', n, c);
      } else {
        DownHeldFrame(s, s', n, c);
      }
    }
  }

  lemma OtherStepKeepsHeld(s: System, n: nat, a: Action)
    requires Inv(s, n) && AllHeld(s, n) && Enabled(s, n, a)
    requires a.AcceptUp? || a.AcceptTerm? || a.Send? || a.Receive? || a.Rest?
    ensures AllHeld(Step(s, n, a), n)
  {
    if a.AcceptUp? {
      AcceptUpTakes(s, n, a.p, a.child);
    } else if a.AcceptTerm? {
      AcceptTermEffect(s, n, a.p);
    }
    SameEntriesKeepHeld(s, Step(s, n, a), n);
  }

  lemma StepKeepsHeld(s: System, n: nat, a: Action)
    requires Inv(s, n) && AllHeld(s, n) && Enabled(s, n, a)
    ensures AllHeld(Step(s, n, a), n)
  {
    match a
    case CleanDowns(_) => CleanKeepsHeld(s, n, a);
    case CleanUps(_) => CleanKeepsHeld(s, n, a);
    case Start =>
      StartSpreads(s, n);
      StepKeepsInv(s, n, a);
      SpreadingKeepsHeld(s, Step(s, n, a), n, 0);
    case AcceptDown(p) =>
      if IsLeaf(p, n) {
        LeafStepKeepsHeld(s, n, p);
      } else {
        InnerStepKeepsHeld(s, n, p);
      }
    case Finish(p) => FinishKeepsHeld(s, n, p);
    case Reset(p) => ResetKeepsHeld(s, n, p);
    case _ => OtherStepKeepsHeld(s, n, a);
  }

  /** In every run: while a message of the detection has not been received, its sender holds the entry with
      that message and its request. */
  lemma {:induction false} BuffersAreHeld(n: nat, active: seq<bool>, run: seq<Action>)
    requires |active| == n > 1 && After(n, active, run).Some?
    ensures AllHeld(After(n, active, run).value, n)
  {
    if run != [] {
      var before := run[..|run| - 1];
      BuffersAreHeld(n, active, before);
      RunsKeepInv(n, active, before);
      StepKeepsHeld(After(n, active, before).value, n, run[|run| - 1]);
    }
  }
}

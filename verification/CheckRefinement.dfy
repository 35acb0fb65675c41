/** A whole call of check is a run of the step system: what holds in every run of SweepSystem holds for
    processes that execute Global.RunCheckImpl. */
module CheckRefinement {
  import opened Wrappers
  import opened GlobalQd
  import opened SweepSystem
  import opened SweepInvariant

  /** Repeated steps of any kind. */
  function Iterate<S, A>(next: (S, A) -> Option<S>, s: S, acts: seq<A>): Option<S>
    decreases |acts|
  {
    if acts == [] then Some(s)
    else if next(s, acts[0]).None? then None
    else Iterate(next, next(s, acts[0]).value, acts[1..])
  }

  lemma {:induction false} IterateCompose<S, A>(next: (S, A) -> Option<S>, s: S, a: seq<A>, b: seq<A>)
    requires Iterate(next, s, a).Some?
    ensures Iterate(next, s, a + b) == Iterate(next, Iterate(next, s, a).value, b)
    decreases |a|
  {
    if a == [] {
      assert a + b == b;
    } else {
      IterateCompose(next, next(s, a[0]).value, a[1..], b);
      assert (a + b)[1..] == a[1..] + b;
    }
  }

  lemma IterateOne<S, A>(next: (S, A) -> Option<S>, s: S, a: A)
    requires next(s, a).Some?
    ensures Iterate(next, s, [a]) == next(s, a)
  {
    assert [a][1..] == [];
    assert Iterate(next, next(s, a).value, []) == next(s, a);
  }

  function Next(n: nat): (System, Action) -> Option<System> {
    (s: System, a: Action) => if Shape(s, n) && Enabled(s, n, a) then Some(Step(s, n, a)) else None
  }

  lemma {:induction false} IterateKeepsShape(s: System, n: nat, acts: seq<Action>)
    requires Shape(s, n) && Iterate(Next(n), s, acts).Some?
    ensures Shape(Iterate(Next(n), s, acts).value, n)
    decreases |acts|
  {
    if acts != [] {
      var t := Next(n)(s, acts[0]);
      assert t.Some? && Shape(t.value, n);
      IterateKeepsShape(t.value, n, acts[1..]);
    }
  }

  function Steps(s: System, n: nat, acts: seq<Action>): (r: Option<System>)
    ensures r.Some? && Shape(s, n) ==> Shape(r.value, n)
  {
    if Shape(s, n) && Iterate(Next(n), s, acts).Some? then
      IterateKeepsShape(s, n, acts);
      Iterate(Next(n), s, acts)
    else Iterate(Next(n), s, acts)
  }

  lemma StepsCompose(s: System, n: nat, a: seq<Action>, b: seq<Action>)
    requires Steps(s, n, a).Some?
    ensures Steps(s, n, a + b) == Steps(Steps(s, n, a).value, n, b)
  {
    IterateCompose(Next(n), s, a, b);
  }

  lemma FirstStep(n: nat, active: seq<bool>, run: seq<Action>, s: System, acts: seq<Action>) returns (u: System)
    requires |active| == n > 1 && After(n, active, run) == Some(s)
    requires acts != [] && Steps(s, n, acts).Some?
    ensures After(n, active, run + [acts[0]]) == Some(u)
    ensures Steps(u, n, acts[1..]) == Steps(s, n, acts)
  {
    u := Next(n)(s, acts[0]).value;
    var next := run + [acts[0]];
    assert next[..|next| - 1] == run;
  }

  lemma Regroup<T>(a: seq<T>, b: seq<T>)
    requires b != []
    ensures a + b == a + [b[0]] + b[1..]
  {
  }

  /** Steps extend runs. */
  lemma {:induction false} StepsExtendRuns(n: nat, active: seq<bool>, run: seq<Action>, s: System, acts: seq<Action>)
    requires |active| == n > 1 && After(n, active, run) == Some(s) && Steps(s, n, acts).Some?
    ensures After(n, active, run + acts) == Steps(s, n, acts)
    decreases |acts|
  {
    if acts == [] {
      assert run + acts == run;
    } else {
      var u := FirstStep(n, active, run, s, acts);
      StepsExtendRuns(n, active, run + [acts[0]], u, acts[1..]);
      Regroup(run, acts);
    }
  }

  /** The state after some run with messages between allowed pairs only. */
  ghost predicate Reached(n: nat, active: seq<bool>, allowed: (nat, nat) -> bool, s: System) {
    |active| == n > 1 && Shape(s, n) && exists run :: After(n, active, run) == Some(s) && Follows(run, allowed)
  }

  lemma ReachedInv(n: nat, active: seq<bool>, allowed: (nat, nat) -> bool, s: System)
    requires Reached(n, active, allowed, s)
    ensures Inv(s, n)
  {
    var run :| After(n, active, run) == Some(s) && Follows(run, allowed);
    RunsKeepInv(n, active, run);
  }

  lemma InitReached(n: nat, active: seq<bool>, allowed: (nat, nat) -> bool)
    requires |active| == n > 1
    ensures Reached(n, active, allowed, Init(n, active))
  {
    assert After(n, active, []) == Some(Init(n, active)) && Follows([], allowed);
  }

  lemma StepReaches(n: nat, active: seq<bool>, allowed: (nat, nat) -> bool, s: System, a: Action)
    requires Reached(n, active, allowed, s) && Enabled(s, n, a) && (a.Send? ==> allowed(a.p, a.to))
    ensures Reached(n, active, allowed, Step(s, n, a))
  {
    var run :| After(n, active, run) == Some(s) && Follows(run, allowed);
    var next := run + [a];
    assert next[..|next| - 1] == run;
    assert After(n, active, next) == Some(Step(s, n, a));
  }

  /** Steps of a call send no regular messages. */
  lemma StepsReach(n: nat, active: seq<bool>, allowed: (nat, nat) -> bool, s: System, acts: seq<Action>, t: System)
    requires Reached(n, active, allowed, s) && Steps(s, n, acts) == Some(t)
    requires forall i | 0 <= i < |acts| :: !acts[i].Send?
    ensures Reached(n, active, allowed, t)
  {
    var run :| After(n, active, run) == Some(s) && Follows(run, allowed);
    StepsExtendRuns(n, active, run, s, acts);
    assert After(n, active, run + acts) == Some(t) && Follows(run + acts, allowed);
  }

  /** A step that process p takes inside its own call of check. */
  predicate Own(a: Action, p: nat) {
    match a
    case CleanDowns(q) => q == p
    case CleanUps(q) => q == p
    case Start => p == 0
    case AcceptDown(q) => q == p
    case AcceptUp(q, _) => q == p
    case Finish(q) => q == p
    case AcceptTerm(q) => q == p
    case _ => false
  }

  /** The steps that advance the detection. */
  predicate Advances(a: Action) {
    a.Start? || a.AcceptDown? || a.AcceptUp? || a.Finish?
  }

  /** The steps a check is made of before the decision: those, and cleaning up. */
  predicate Checks(a: Action) {
    Advances(a) || a.CleanDowns? || a.CleanUps?
  }

  predicate Useful(acts: seq<Action>) {
    exists i | 0 <= i < |acts| :: Advances(acts[i])
  }

  lemma UsefulParts(a: seq<Action>, b: seq<Action>)
    ensures Useful(a + b) <==> Useful(a) || Useful(b)
  {
    if i :| 0 <= i < |a| && Advances(a[i]) {
      assert Advances((a + b)[i]);
    }
    if i :| 0 <= i < |b| && Advances(b[i]) {
      assert Advances((a + b)[|a| + i]);
    }
  }

  /** What the down traversal of p needs to do more than clean up. */
  predicate CanGoDown(s: System, n: nat, p: nat, seen: bool)
    requires Shape(s, n) && p < n
  {
    if p == 0 then s.nodes[0].rootDownSweep <= s.nodes[0].localSweep else seen && s.net.down[p].queue != []
  }

  predicate CanReceive(s: System, n: nat, child: int, k: nat)
    requires Shape(s, n)
  {
    0 <= child < n && k > 0 && s.net.up[child].queue != []
  }

  /** What the end of the up traversal needs. */
  predicate CanConclude(s: System, n: nat, p: nat, see: Probes)
    requires Shape(s, n) && p < n
  {
    SweepFull(s.nodes[p]) || (s.nodes[p].accum == map[] && CanGoDown(s, n, p, see.down))
  }

  /** What the up traversal needs. */
  predicate CanAdvance(s: System, n: nat, p: nat, see: Probes)
    requires Shape(s, n) && p < n
  {
    if IsLeaf(p, n) then CanGoDown(s, n, p, see.down)
    else
      || CanReceive(s, n, s.nodes[p].left, see.left) || CanReceive(s, n, s.nodes[p].right, see.right)
      || CanConclude(s, n, p, see)
  }

  /** From s, the process p alone gets to t, and there is in the state l. */
  ghost predicate Performs(s: System, n: nat, p: nat, acts: seq<Action>, t: System, l: Process)
    requires Shape(s, n) && p < n
  {
    && Steps(s, n, acts) == Some(t) && Inv(t, n) && Shape(t, n)
    && l == At(t, n, p) && (forall i | 0 <= i < |acts| :: Own(acts[i], p))
    && t.active == s.active && t.mail == s.mail
    && forall q | 0 <= q < n && q != p :: t.nodes[q] == s.nodes[q] && t.mode[q] == s.mode[q]
  }

  lemma PerformsNothing(s: System, n: nat, p: nat)
    requires Inv(s, n) && p < n
    ensures Performs(s, n, p, [], s, At(s, n, p))
  {
  }

  lemma ThenPerforms(s: System, n: nat, p: nat, a: seq<Action>, t: System, l: Process,
                     b: seq<Action>, u: System, m: Process)
    requires Inv(s, n) && p < n && Performs(s, n, p, a, t, l) && Performs(t, n, p, b, u, m)
    ensures Performs(s, n, p, a + b, u, m)
  {
    StepsCompose(s, n, a, b);
  }

  /** The piece of code that p's step stands for ends in l. */
  predicate Leads(s: System, n: nat, p: nat, a: Action, l: Process)
    requires Shape(s, n) && Enabled(s, n, a) && p < n
  {
    Own(a, p) &&
    match a
    case CleanDowns(_) => l == CleanupDowns(At(s, n, p))
    case CleanUps(_) => l == CleanupUps(At(s, n, p))
    case Start => l == StartSweep(At(s, n, p))
    case AcceptDown(_) => l == TakeDown(At(s, n, p))
    case AcceptUp(_, c) => l == TakeUp(At(s, n, p), c)
    case Finish(_) => l == FinishSweep(At(s, n, p))
    case AcceptTerm(_) => l == TakeTerm(At(s, n, p))
    case _ => false
  }

  /** One of p's own steps. */
  lemma PerformsOne(s: System, n: nat, p: nat, a: Action, l: Process)
    requires Inv(s, n) && Enabled(s, n, a) && p < n
    requires Leads(s, n, p, a, l)
    ensures Performs(s, n, p, [a], Step(s, n, a), l)
    ensures a.AcceptTerm? || (a.Finish? && l.node.terminate == 1) || Step(s, n, a).mode == s.mode
    ensures a.AcceptTerm? || (a.Finish? && l.node.terminate == 1) ==> Step(s, n, a).mode[p] == Waiting
    ensures l.ok
  {
    StepKeepsInv(s, n, a);
    assert Next(n)(s, a) == Some(Step(s, n, a));
    IterateOne(Next(n), s, a);
  }

  lemma DownTraversalIsSteps(s: System, n: nat, p: nat, seen: bool) returns (acts: seq<Action>, t: System)
    requires Inv(s, n) && Checking(s, n, p)
    ensures Performs(s, n, p, acts, t, DownTraversal(At(s, n, p), seen)) && t.mode == s.mode
    ensures CanGoDown(s, n, p, seen) ==> Useful(acts)
    ensures forall a | a in acts :: Checks(a)
  {
    LeafMeansLeaf(s, n, p);
    var a := CleanDowns(p);
    t := Step(s, n, a);
    var l := CleanupDowns(At(s, n, p));
    acts := [a];
    PerformsOne(s, n, p, a, l);
    LeafMeansLeaf(t, n, p);
    var b := if p == 0 then Start else AcceptDown(p);
    var m := DownTraversal(At(s, n, p), seen);
    if Enabled(t, n, b) && (p == 0 || seen) {
      PerformsOne(t, n, p, b, m);
      ThenPerforms(s, n, p, acts, t, l, [b], Step(t, n, b), m);
      acts, t := acts + [b], Step(t, n, b);
      assert Advances(acts[1]);
    }
  }

  lemma ReceiveOneIsStep(s: System, n: nat, p: nat, child: nat) returns (t: System)
    requires Inv(s, n) && Checking(s, n, p) && (child == s.nodes[p].left || child == s.nodes[p].right)
    requires child < n && s.net.up[child].queue != []
    ensures Enabled(s, n, AcceptUp(p, child)) && t == Step(s, n, AcceptUp(p, child))
    ensures Performs(s, n, p, [AcceptUp(p, child)], t, TakeUp(At(s, n, p), child)) && t.mode == s.mode
    ensures Checking(t, n, p) && (child == t.nodes[p].left || child == t.nodes[p].right)
  {
    LeafMeansLeaf(s, n, p);
    var a := AcceptUp(p, child);
    t := Step(s, n, a);
    PerformsOne(s, n, p, a, TakeUp(At(s, n, p), child));
    LeafMeansLeaf(t, n, p);
    assert NodeOk(t, n, p);
  }

  lemma {:induction false} ReceiveUpsIsSteps(s: System, n: nat, p: nat, child: int, k: nat)
    returns (acts: seq<Action>, t: System)
    requires Inv(s, n) && Checking(s, n, p) && (child == s.nodes[p].left || child == s.nodes[p].right)
    ensures Fits(s.nodes[p], s.net) && child < n
    ensures Performs(s, n, p, acts, t, ReceiveUps(At(s, n, p), child, k)) && t.mode == s.mode
    ensures if CanReceive(s, n, child, k) then Useful(acts) else t == s
    ensures forall a | a in acts :: Checks(a)
    decreases k
  {
    LeafMeansLeaf(s, n, p);
    if child < 0 || k == 0 || s.net.up[child].queue == [] {
      acts, t := [], s;
      PerformsNothing(s, n, p);
    } else {
      var u := ReceiveOneIsStep(s, n, p, child);
      acts, t := ReceiveUpsIsSteps(u, n, p, child, k - 1);
      ThenPerforms(s, n, p, [AcceptUp(p, child)], u, At(u, n, p), acts, t, At(t, n, p));
      acts := [AcceptUp(p, child)] + acts;
      assert Advances(acts[0]);
    }
  }

  lemma ReceiveBothIsSteps(s: System, n: nat, p: nat, see: Probes) returns (acts: seq<Action>, t: System)
    requires Inv(s, n) && Checking(s, n, p)
    ensures ReceiveUps.requires(ReceiveUps(At(s, n, p), s.nodes[p].left, see.left), s.nodes[p].right, see.right)
    ensures Performs(s, n, p, acts, t,
                     ReceiveUps(ReceiveUps(At(s, n, p), s.nodes[p].left, see.left), s.nodes[p].right, see.right))
    ensures t.mode == s.mode
    ensures CanReceive(s, n, s.nodes[p].left, see.left) || CanReceive(s, n, s.nodes[p].right, see.right) ==>
              Useful(acts)
    ensures t == s || Useful(acts)
    ensures forall a | a in acts :: Checks(a)
  {
    LeafMeansLeaf(s, n, p);
    var a, u := ReceiveUpsIsSteps(s, n, p, s.nodes[p].left, see.left);
    var b;
    b, t := ReceiveUpsIsSteps(u, n, p, u.nodes[p].right, see.right);
    ThenPerforms(s, n, p, a, u, At(u, n, p), b, t, At(t, n, p));
    acts := a + b;
    UsefulParts(a, b);
  }

  /** The end of up_traversal, once the messages of the children are in. */
  lemma ConcludeIsSteps(s: System, n: nat, p: nat, see: Probes) returns (acts: seq<Action>, t: System)
    requires Inv(s, n) && Checking(s, n, p) && !IsLeaf(p, n)
    ensures var l := At(s, n, p);
            Fits(l.node, l.net) &&
            Performs(s, n, p, acts, t,
                     if l.node.accum == map[] then DownTraversal(l, see.down)
                     else if !SweepFull(l.node) then l
                     else if Root(l.node) && GlobalCount(l.node) != 0 then DownTraversal(FinishSweep(l), see.down)
                     else FinishSweep(l))
    ensures CanConclude(s, n, p, see) ==> Useful(acts)
    ensures forall a | a in acts :: Checks(a)
    ensures t.mode[p] == if At(t, n, p).node.terminate == 1 then Waiting else Running
  {
    var l := At(s, n, p);
    LeafMeansLeaf(s, n, p);
    if l.node.accum == map[] {
      acts, t := DownTraversalIsSteps(s, n, p, see.down);
      assert NodeOk(t, n, p);
    } else if !SweepFull(l.node) {
      acts, t := [], s;
      PerformsNothing(s, n, p);
    } else {
      var a := Finish(p);
      acts, t := [a], Step(s, n, a);
      var m := FinishSweep(l);
      PerformsOne(s, n, p, a, m);
      assert Advances(acts[0]);
      if Root(l.node) && GlobalCount(l.node) != 0 {
        var u := t;
        var b;
        b, t := DownTraversalIsSteps(u, n, p, see.down);
        ThenPerforms(s, n, p, acts, u, m, b, t, DownTraversal(m, see.down));
        UsefulParts(acts, b);
        acts := acts + b;
        assert NodeOk(t, n, p);
      }
    }
  }

  lemma LeafTraversalIsSteps(s: System, n: nat, p: nat, seen: bool) returns (acts: seq<Action>, t: System)
    requires Inv(s, n) && Checking(s, n, p)
    ensures Performs(s, n, p, acts, t, DownTraversal(CleanupUps(At(s, n, p)), seen)) && t.mode[p] == Running
    ensures At(t, n, p).node.terminate == 0
    ensures CanGoDown(s, n, p, seen) ==> Useful(acts)
    ensures forall a | a in acts :: Checks(a)
  {
    var u := Step(s, n, CleanUps(p));
    var l := CleanupUps(At(s, n, p));
    PerformsOne(s, n, p, CleanUps(p), l);
    var b;
    b, t := DownTraversalIsSteps(u, n, p, seen);
    ThenPerforms(s, n, p, [CleanUps(p)], u, l, b, t, At(t, n, p));
    acts := [CleanUps(p)] + b;
    UsefulParts([CleanUps(p)], b);
    assert NodeOk(t, n, p);
  }

  lemma GatherUpsIsSteps(s: System, n: nat, p: nat, see: Probes) returns (acts: seq<Action>, t: System)
    requires Inv(s, n) && Checking(s, n, p) && !IsLeaf(p, n)
    ensures Performs(s, n, p, acts, t, GatherUps(At(s, n, p), see))
    ensures CanAdvance(s, n, p, see) ==> Useful(acts)
    ensures forall a | a in acts :: Checks(a)
    ensures t.mode[p] == if At(t, n, p).node.terminate == 1 then Waiting else Running
  {
    var b, v := ReceiveBothIsSteps(s, n, p, see);
    var c;
    c, t := ConcludeIsSteps(v, n, p, see);
    ThenPerforms(s, n, p, b, v, At(v, n, p), c, t, At(t, n, p));
    acts := b + c;
    UsefulParts(b, c);
  }

  lemma InnerTraversalIsSteps(s: System, n: nat, p: nat, see: Probes) returns (acts: seq<Action>, t: System)
    requires Inv(s, n) && Checking(s, n, p) && !IsLeaf(p, n)
    ensures Performs(s, n, p, acts, t, GatherUps(CleanupUps(At(s, n, p)), see))
    ensures CanAdvance(s, n, p, see) ==> Useful(acts)
    ensures forall a | a in acts :: Checks(a)
    ensures t.mode[p] == if At(t, n, p).node.terminate == 1 then Waiting else Running
  {
    var u := Step(s, n, CleanUps(p));
    var l := CleanupUps(At(s, n, p));
    PerformsOne(s, n, p, CleanUps(p), l);
    var b;
    b, t := GatherUpsIsSteps(u, n, p, see);
    ThenPerforms(s, n, p, [CleanUps(p)], u, l, b, t, At(t, n, p));
    acts := [CleanUps(p)] + b;
    UsefulParts([CleanUps(p)], b);
  }

  lemma UpTraversalIsSteps(s: System, n: nat, p: nat, see: Probes) returns (acts: seq<Action>, t: System)
    requires Inv(s, n) && Checking(s, n, p)
    ensures Fits(s.nodes[p], s.net) && Performs(s, n, p, acts, t, UpTraversal(At(s, n, p), see))
    ensures CanAdvance(s, n, p, see) ==> Useful(acts)
    ensures forall a | a in acts :: Checks(a)
    ensures t.mode[p] == if At(t, n, p).node.terminate == 1 then Waiting else Running
  {
    LeafMeansLeaf(s, n, p);
    PerformsOne(s, n, p, CleanUps(p), CleanupUps(At(s, n, p)));
    if IsLeaf(p, n) {
      acts, t := LeafTraversalIsSteps(s, n, p, see.down);
    } else {
      acts, t := InnerTraversalIsSteps(s, n, p, see);
    }
  }

  /** A call of check by a passive process. */
  lemma CheckPerforms(s: System, n: nat, p: nat, see: Probes) returns (acts: seq<Action>, t: System)
    requires Inv(s, n) && Checking(s, n, p)
    ensures Fits(s.nodes[p], s.net)
    ensures Performs(s, n, p, acts, t, CheckImpl(At(s, n, p), n, see).0)
    ensures t.mode[p] == if CheckImpl(At(s, n, p), n, see).1 then Waiting else Running
    ensures if TermSeen(At(s, n, p), see) then t.mode[p] == Waiting
            else (forall a | a in acts :: Checks(a)) && (CanAdvance(s, n, p, see) ==> Useful(acts))
  {
    LeafMeansLeaf(s, n, p);
    assert NodeOk(s, n, p);
    var l := At(s, n, p);
    if TermSeen(l, see) {
      var a := AcceptTerm(p);
      acts, t := [a], Step(s, n, a);
      PerformsOne(s, n, p, a, TakeTerm(l));
    } else {
      acts, t := UpTraversalIsSteps(s, n, p, see);
    }
  }

  /** In every run, a call of check by a passive process is a sequence of its steps: it throws nothing,
      ends in the state the call computes, and detects quiescence exactly when the process leaves
      the running mode. It advances the detection whenever its probes see something that can. */
  lemma CheckIsSteps(n: nat, active: seq<bool>, run: seq<Action>, p: nat, see: Probes)
    returns (acts: seq<Action>)
    requires |active| == n > 1 && After(n, active, run).Some? && Checking(After(n, active, run).value, n, p)
    ensures var s := After(n, active, run).value;
            && Fits(s.nodes[p], s.net)
            && After(n, active, run + acts).Some? && After(n, active, run + acts) == Steps(s, n, acts)
            && (forall i | 0 <= i < |acts| :: Own(acts[i], p))
            && (TermSeen(At(s, n, p), see) || forall a | a in acts :: Checks(a))
            && var t := After(n, active, run + acts).value;
               && (At(t, n, p), t.mode[p] == Waiting) == CheckImpl(At(s, n, p), n, see)
               && (CanAdvance(s, n, p, see) && !TermSeen(At(s, n, p), see) ==> Useful(acts))
               && t.active == s.active && t.mail == s.mail && t.mode[p] != AtBarrier
               && forall q | 0 <= q < n && q != p :: t.nodes[q] == s.nodes[q] && t.mode[q] == s.mode[q]
  {
    var s := After(n, active, run).value;
    RunsKeepInv(n, active, run);
    var t;
    acts, t := CheckPerforms(s, n, p, see);
    StepsExtendRuns(n, active, run, s, acts);
  }
}

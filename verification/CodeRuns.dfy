/** Runs as the code makes them: whole calls of check and of safe_reset, and regular messages only between
    the calls of a process. Every such run is a run of the step system. */
module CodeRuns {
  import opened Wrappers
  import opened ProcessTree
  import opened GlobalQd
  import opened SweepSystem
  import opened SweepInvariant
  import opened CheckRefinement

  /** A regular message in flight. */
  datatype Letter = Letter(from: nat, to: nat, stamp: nat)

  /** All processes as the code has them: their Global, the channels of the detection, which have work,
      the regular messages, and which are in the final barrier. ok is false once a call has thrown. */
  datatype World = World(nodes: seq<Node>, net: Net, active: seq<bool>, mail: seq<Letter>, done: seq<bool>, ok: bool)

  /** Turn: the process calls check, whose probes see this much, or has detected quiescence and is in
      safe_reset. Post, Take and Settle: it sends a regular message, processes one, or is out of work. */
  datatype Event = Turn(p: nat, see: Probes) | Post(p: nat, to: nat, stamp: nat) | Take(index: nat) | Settle(p: nat)

  function Begin(n: nat, active: seq<bool>): World {
    World(seq(n, p requires 0 <= p < n => Fresh(p, n)),
          Net(seq(n, _ => Chan(0, [])), seq(n, _ => Chan(0, [])), seq(n, _ => Chan(0, []))),
          active, [], seq(n, _ => false), true)
  }

  predicate Exists(w: World, p: nat) {
    p < |w.nodes| && p < |w.active| && p < |w.done| && Fits(w.nodes[p], w.net)
  }

  /** The process is in run_to_quiescence. */
  predicate Works(w: World, p: nat) {
    Exists(w, p) && !w.done[p] && w.nodes[p].terminate != 1
  }

  /** One call of check; after a detection, safe_reset once its wait is over. */
  function TurnOf(w: World, n: nat, p: nat, see: Probes): World {
    if !Exists(w, p) || w.done[p] then w
    else if w.nodes[p].terminate == 1 then
      if !BroadcastReceived(w.nodes[p], w.net) then w
      else
        var l := SafeReset(Process(w.nodes[p], w.net, true));
        w.(nodes := w.nodes[p := l.node], net := l.net, done := w.done[p := true], ok := w.ok && l.ok)
    else
      var l := CheckImpl(Process(w.nodes[p], w.net, true), n, see).0;
      w.(nodes := w.nodes[p := l.node], net := l.net, ok := w.ok && l.ok)
  }

  /** What an event does, if it can happen: check is called only without work. */
  function Happens(w: World, n: nat, e: Event): Option<World> {
    match e
    case Turn(p, see) => if Exists(w, p) && !w.active[p] then Some(TurnOf(w, n, p, see)) else None
    case Post(p, to, stamp) =>
      if Works(w, p) && w.active[p] && Exists(w, to) && p != to
         && (stamp == w.nodes[p].localSweep || (to != 0 && Parent(to) == p && stamp <= w.nodes[p].lastRegular))
      then Some(w.(mail := w.mail + [Letter(p, to, stamp)], nodes := w.nodes[p := CountSend(w.nodes[p])]))
      else None
    case Take(j) =>
      if j < |w.mail| && Works(w, w.mail[j].to) then
        var m := w.mail[j];
        Some(w.(mail := w.mail[..j] + w.mail[j + 1..], active := w.active[m.to := true],
                nodes := w.nodes[m.to := SeeStamp(CountProcessed(w.nodes[m.to]), m.stamp)]))
      else None
    case Settle(p) => if Works(w, p) then Some(w.(active := w.active[p := false])) else None
  }

  function Events(n: nat, active: seq<bool>, events: seq<Event>): Option<World> {
    if events == [] then Some(Begin(n, active))
    else
      var before := Events(n, active, events[..|events| - 1]);
      if before.Some? then Happens(before.value, n, events[|events| - 1]) else None
  }

  /** Regular messages go between allowed pairs only. */
  predicate Along(events: seq<Event>, allowed: (nat, nat) -> bool) {
    forall i | 0 <= i < |events| && events[i].Post? :: allowed(events[i].p, events[i].to)
  }

  // ---------------------------------------------------------------- code runs are runs

  function Letters(mail: seq<Regular>): (r: seq<Letter>)
    ensures |r| == |mail|
  {
    seq(|mail|, i requires 0 <= i < |mail| => Letter(mail[i].from, mail[i].to, mail[i].stamp))
  }

  function AtBarriers(mode: seq<Mode>): (r: seq<bool>)
    ensures |r| == |mode|
  {
    seq(|mode|, p requires 0 <= p < |mode| => mode[p] == AtBarrier)
  }

  /** The step system's state without its history. */
  function WorldOf(s: System): World {
    World(s.nodes, s.net, s.active, Letters(s.mail), AtBarriers(s.mode), s.ok)
  }

  lemma InitIsBegin(n: nat, active: seq<bool>)
    requires |active| == n > 1
    ensures WorldOf(Init(n, active)) == Begin(n, active)
  {
  }

  lemma ExistsAlways(s: System, n: nat, p: nat)
    requires Inv(s, n) && p < n
    ensures Exists(WorldOf(s), p) && (Works(WorldOf(s), p) <==> s.mode[p] == Running)
    ensures WorldOf(s).done[p] <==> s.mode[p] == AtBarrier
    ensures s.mode[p] == Waiting ==> s.nodes[p].terminate == 1
    ensures s.mode[p] == Running ==> s.nodes[p].terminate != 1
  {
    LeafMeansLeaf(s, n, p);
    assert NodeOk(s, n, p);
  }

  /** What a call that ends in l does to the world. */
  lemma CallIsTurn(s: System, t: System, n: nat, p: nat, see: Probes)
    requires Inv(s, n) && Inv(t, n) && p < n && s.mode[p] == Running && t.mode[p] != AtBarrier
    requires Fits(s.nodes[p], s.net) && At(t, n, p) == CheckImpl(At(s, n, p), n, see).0
    requires t.active == s.active && t.mail == s.mail
    requires forall q | 0 <= q < n && q != p :: t.nodes[q] == s.nodes[q] && t.mode[q] == s.mode[q]
    ensures WorldOf(t) == TurnOf(WorldOf(s), n, p, see)
  {
    ExistsAlways(s, n, p);
    assert t.nodes == s.nodes[p := t.nodes[p]];
    assert AtBarriers(t.mode) == AtBarriers(s.mode);
  }

  lemma CheckTurn(s: System, n: nat, p: nat, see: Probes) returns (acts: seq<Action>, t: System)
    requires Inv(s, n) && Checking(s, n, p)
    ensures Some(t) == Steps(s, n, acts) && Inv(t, n) && forall i | 0 <= i < |acts| :: Own(acts[i], p)
    ensures WorldOf(t) == TurnOf(WorldOf(s), n, p, see)
    ensures t.active == s.active && t.mail == s.mail
    ensures t.mode == s.mode || t.mode == s.mode[p := Waiting]
    ensures Fits(s.nodes[p], s.net)
    ensures if TermSeen(At(s, n, p), see) then t.mode[p] == Waiting
            else (forall a | a in acts :: Checks(a)) && (CanAdvance(s, n, p, see) ==> Useful(acts))
  {
    acts, t := CheckPerforms(s, n, p, see);
    CallIsTurn(s, t, n, p, see);
    SameModes(s, t, n, p);
  }

  lemma SameModes(s: System, t: System, n: nat, p: nat)
    requires Shape(s, n) && Shape(t, n) && p < n && s.mode[p] == Running && t.mode[p] != AtBarrier
    requires forall q | 0 <= q < n && q != p :: t.mode[q] == s.mode[q]
    ensures t.mode == s.mode || t.mode == s.mode[p := Waiting]
  {
    assert t.mode == s.mode[p := t.mode[p]];
  }

  /** The reset of a process whose wait is over. */
  lemma ResetTurn(s: System, n: nat, p: nat, see: Probes)
    requires Inv(s, n) && Enabled(s, n, Reset(p))
    ensures var t := Step(s, n, Reset(p));
            && Inv(t, n) && WorldOf(t) == TurnOf(WorldOf(s), n, p, see)
            && t.active == s.active && t.mail == s.mail && t.mode == s.mode[p := AtBarrier]
  {
    StepKeepsInv(s, n, Reset(p));
    ExistsAlways(s, n, p);
    ResetEffect(s, n, p);
    assert AtBarriers(s.mode[p := AtBarrier]) == AtBarriers(s.mode)[p := true];
  }

  /** A turn in safe_reset, or at the barrier. */
  lemma LateTurn(s: System, n: nat, p: nat, see: Probes) returns (acts: seq<Action>, t: System)
    requires Inv(s, n) && p < n && s.mode[p] != Running
    ensures Steps(s, n, acts) == Some(t) && Inv(t, n) && forall i | 0 <= i < |acts| :: !acts[i].Send?
    ensures WorldOf(t) == TurnOf(WorldOf(s), n, p, see)
    ensures t.active == s.active && t.mail == s.mail && t.mode == s.mode[p := t.mode[p]]
    ensures MovesOn(s.mode[p], t.mode[p]) && Fits(s.nodes[p], s.net)
    ensures s.mode[p] == Waiting && BroadcastReceived(s.nodes[p], s.net) ==> t.mode[p] == AtBarrier
  {
    ExistsAlways(s, n, p);
    LeafMeansLeaf(s, n, p);
    if s.mode[p] == Waiting && BroadcastReceived(s.nodes[p], s.net) {
      ResetTurn(s, n, p, see);
      acts, t := [Reset(p)], Step(s, n, Reset(p));
      IterateOne(Next(n), s, Reset(p));
    } else {
      acts, t := [], s;
    }
  }

  /** A turn of a passive process. */
  lemma TurnSteps(s: System, n: nat, p: nat, see: Probes) returns (acts: seq<Action>, t: System)
    requires Inv(s, n) && p < n && !s.active[p]
    ensures Steps(s, n, acts) == Some(t) && Inv(t, n) && forall i | 0 <= i < |acts| :: !acts[i].Send?
    ensures WorldOf(t) == TurnOf(WorldOf(s), n, p, see)
    ensures t.active == s.active && t.mail == s.mail && t.mode == s.mode[p := t.mode[p]]
    ensures MovesOn(s.mode[p], t.mode[p]) && Fits(s.nodes[p], s.net)
    ensures s.mode[p] == Running ==>
              if TermSeen(At(s, n, p), see) then t.mode[p] == Waiting
              else (forall a | a in acts :: Checks(a)) && (CanAdvance(s, n, p, see) ==> Useful(acts))
    ensures s.mode[p] == Waiting && BroadcastReceived(s.nodes[p], s.net) ==> t.mode[p] == AtBarrier
  {
    if s.mode[p] == Running {
      assert NodeOk(s, n, p);
      acts, t := CheckTurn(s, n, p, see);
    } else {
      acts, t := LateTurn(s, n, p, see);
    }
  }

  lemma TurnReaches(n: nat, active: seq<bool>, allowed: (nat, nat) -> bool, s: System, p: nat, see: Probes)
    returns (acts: seq<Action>, t: System)
    requires Reached(n, active, allowed, s) && p < n && !s.active[p]
    ensures Reached(n, active, allowed, t) && Steps(s, n, acts) == Some(t) && Inv(s, n) && Inv(t, n)
    ensures WorldOf(t) == TurnOf(WorldOf(s), n, p, see)
    ensures t.active == s.active && t.mail == s.mail && t.mode == s.mode[p := t.mode[p]]
    ensures MovesOn(s.mode[p], t.mode[p]) && Fits(s.nodes[p], s.net)
    ensures s.mode[p] == Running ==>
              if TermSeen(At(s, n, p), see) then t.mode[p] == Waiting
              else (forall a | a in acts :: Checks(a)) && (CanAdvance(s, n, p, see) ==> Useful(acts))
    ensures s.mode[p] == Waiting && BroadcastReceived(s.nodes[p], s.net) ==> t.mode[p] == AtBarrier
  {
    ReachedInv(n, active, allowed, s);
    acts, t := TurnSteps(s, n, p, see);
    StepsReach(n, active, allowed, s, acts, t);
  }

  /** A process goes from running to waiting to the barrier. */
  predicate MovesOn(a: Mode, b: Mode) {
    a == b || (a == Running && b == Waiting) || (a == Waiting && b == AtBarrier)
  }

  lemma LettersStep(s: System, n: nat, p: nat, to: nat, stamp: nat)
    requires Shape(s, n) && p < n && to < n && p != to
    ensures Letters(SendRegular(s, n, p, to, stamp).mail) == Letters(s.mail) + [Letter(p, to, stamp)]
  {
  }

  lemma TrafficReaches(n: nat, active: seq<bool>, allowed: (nat, nat) -> bool, s: System, e: Event) returns (t: System)
    requires Reached(n, active, allowed, s) && Happens(WorldOf(s), n, e).Some? && !e.Turn?
    requires e.Post? ==> allowed(e.p, e.to)
    ensures Reached(n, active, allowed, t) && Some(WorldOf(t)) == Happens(WorldOf(s), n, e)
    ensures Enabled(s, n, ActionOf(e)) && t == Step(s, n, ActionOf(e))
  {
    ReachedInv(n, active, allowed, s);
    var p := match e
             case Post(p, _, _) => p
             case Take(j) => s.mail[j].to
             case Settle(p) => p;
    assert e.Take? ==> s.mail[e.index] in s.mail;
    ExistsAlways(s, n, p);
    StepReaches(n, active, allowed, s, ActionOf(e));
    t := Step(s, n, ActionOf(e));
    TrafficEffect(s, n, e);
  }

  function ActionOf(e: Event): Action
    requires !e.Turn?
  {
    match e
    case Post(p, to, stamp) => Send(p, to, stamp)
    case Take(j) => Receive(j)
    case Settle(p) => Rest(p)
  }

  lemma TrafficEffect(s: System, n: nat, e: Event)
    requires Shape(s, n) && !e.Turn? && Enabled(s, n, ActionOf(e)) && Happens(WorldOf(s), n, e).Some?
    ensures Some(WorldOf(Step(s, n, ActionOf(e)))) == Happens(WorldOf(s), n, e)
  {
    if e.Post? {
      LettersStep(s, n, e.p, e.to, e.stamp);
    } else if e.Take? {
      var j := e.index;
      assert Letters(s.mail[..j] + s.mail[j + 1..]) == Letters(s.mail)[..j] + Letters(s.mail)[j + 1..];
    }
  }

  /** Every run of the code is a run of the step system, with the same messages. */
  lemma {:induction false} EventsAreRun(n: nat, active: seq<bool>, allowed: (nat, nat) -> bool, events: seq<Event>)
    returns (s: System)
    requires |active| == n > 1 && Events(n, active, events).Some? && Along(events, allowed)
    ensures Reached(n, active, allowed, s) && Some(WorldOf(s)) == Events(n, active, events)
  {
    if events == [] {
      s := Init(n, active);
      InitReached(n, active, allowed);
      InitIsBegin(n, active);
    } else {
      var before, e := events[..|events| - 1], events[|events| - 1];
      s := EventsAreRun(n, active, allowed, before);
      if e.Turn? {
        ReachedInv(n, active, allowed, s);
        var acts;
        acts, s := TurnReaches(n, active, allowed, s, e.p, e.see);
      } else {
        s := TrafficReaches(n, active, allowed, s, e);
      }
    }
  }
}

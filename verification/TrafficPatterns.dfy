/** Which regular messages make the detection safe: a pattern says which processes send to which. */
module TrafficPatterns {
  import opened Wrappers
  import opened ProcessTree
  import opened SweepSystem
  import opened SweepInvariant
  import opened Termination

  /** A message from q can wake p after its record, and p's message, to or from a leaf, can then reach r
      before r's record. */
  predicate Unsafe(n: nat, allowed: (nat, nat) -> bool, q: nat, p: nat, r: nat) {
    && q < n && p < n && r < n && q != p && p != r && allowed(q, p) && allowed(p, r)
    && (IsLeaf(p, n) || IsLeaf(r, n)) && !IsAncestor(p, r)
  }

  ghost predicate SafePattern(n: nat, allowed: (nat, nat) -> bool) {
    forall q: nat, p: nat, r: nat :: !Unsafe(n, allowed, q, p, r)
  }

  ghost predicate Woken(n: nat, allowed: (nat, nat) -> bool, p: nat) {
    exists q: nat :: q < n && q != p && allowed(q, p)
  }

  predicate MailFollows(s: System, n: nat, allowed: (nat, nat) -> bool, m: Regular)
    requires Shape(s, n) && m.from < n
  {
    allowed(m.from, m.to) && m.epoch <= s.rec[m.from]
  }

  /** Who works after its record was woken, and so was who sent a message after its record. */
  ghost predicate WokenOnly(s: System, n: nat, allowed: (nat, nat) -> bool)
    requires Shape(s, n)
  {
    && (forall p: nat | p < n && s.active[p] && s.rec[p] == s.sweep > 0 :: Woken(n, allowed, p))
    && (forall m | m in s.mail ::
          MailFollows(s, n, allowed, m) && (m.epoch == s.sweep > 0 ==> Woken(n, allowed, m.from)))
    && s.leafEarly == 0
  }

  lemma TrafficKeepsWoken(s: System, n: nat, allowed: (nat, nat) -> bool, a: Action)
    requires Inv(s, n) && WokenOnly(s, n, allowed) && Enabled(s, n, a) && (a.Send? || a.Rest?)
    requires a.Send? ==> allowed(a.p, a.to)
    ensures WokenOnly(Step(s, n, a), n, allowed)
  {
    var s' := Step(s, n, a);
    forall m | m in s'.mail
      ensures MailFollows(s', n, allowed, m) && (m.epoch == s.sweep > 0 ==> Woken(n, allowed, m.from))
    {
      if m in s.mail {
        assert MailFollows(s, n, allowed, m);
      }
    }
  }

  /** An early message to or from a leaf needs an unsafe triple. */
  lemma EarlyIsUnsafe(s: System, n: nat, allowed: (nat, nat) -> bool, m: Regular)
    requires Inv(s, n) && WokenOnly(s, n, allowed) && m in s.mail && m.epoch > s.rec[m.to]
    requires IsLeaf(m.from, n) || IsLeaf(m.to, n)
    ensures !SafePattern(n, allowed)
  {
    assert MailFollows(s, n, allowed, m);
    OneSweepAtATime(s, n, m.from);
    OneSweepAtATime(s, n, m.to);
    var q: nat :| q < n && q != m.from && allowed(q, m.from);
    if IsAncestor(m.from, m.to) {
      Monotone(s, n, m.from, m.to);
    }
    assert Unsafe(n, allowed, q, m.from, m.to);
  }

  lemma ReceiveKeepsWoken(s: System, n: nat, allowed: (nat, nat) -> bool, j: nat)
    requires Inv(s, n) && WokenOnly(s, n, allowed) && Enabled(s, n, Receive(j)) && SafePattern(n, allowed)
    ensures WokenOnly(Step(s, n, Receive(j)), n, allowed)
  {
    var s' := Step(s, n, Receive(j));
    var m := s.mail[j];
    assert m in s.mail && MailFollows(s, n, allowed, m);
    assert Woken(n, allowed, m.to);
    if m.epoch > s.rec[m.to] && (IsLeaf(m.from, n) || IsLeaf(m.to, n)) {
      EarlyIsUnsafe(s, n, allowed, m);
    }
    forall k | k in s'.mail
      ensures MailFollows(s', n, allowed, k) && (k.epoch == s.sweep > 0 ==> Woken(n, allowed, k.from))
    {
      assert k in s.mail && MailFollows(s, n, allowed, k);
    }
  }

  /** Steps of the detection: only passive processes record, and a new sweep makes everything old. */
  lemma QuietStepKeepsWoken(s: System, s': System, n: nat, allowed: (nat, nat) -> bool, p: nat)
    requires Inv(s, n) && Inv(s', n) && WokenOnly(s, n, allowed) && p < n && !s.active[p]
    requires s'.mail == s.mail && s'.active == s.active && s'.leafEarly in {0, s.leafEarly}
    requires (s'.sweep == s.sweep && (s'.rec == s.rec || s'.rec == s.rec[p := s.rec[p] + 1]))
             || (s'.sweep == s.sweep + 1 && s'.rec == s.rec)
    ensures WokenOnly(s', n, allowed)
  {
    forall m | m in s'.mail
      ensures MailFollows(s', n, allowed, m) && (m.epoch == s'.sweep > 0 ==> Woken(n, allowed, m.from))
    {
      assert MailFollows(s, n, allowed, m);
      OneSweepAtATime(s, n, m.from);
    }
    forall q: nat | q < n && s'.active[q] && s'.rec[q] == s'.sweep > 0 ensures Woken(n, allowed, q) {
      OneSweepAtATime(s, n, q);
    }
  }

  lemma DetectionKeepsWoken(s: System, n: nat, allowed: (nat, nat) -> bool, a: Action)
    requires Inv(s, n) && WokenOnly(s, n, allowed) && Enabled(s, n, a)
    requires !a.Send? && !a.Receive? && !a.Rest? && !a.AcceptTerm? && !a.Reset?
    ensures WokenOnly(Step(s, n, a), n, allowed)
  {
    StepKeepsInv(s, n, a);
    if a.Start? {
      StartHistory(s, n);
    } else if a.AcceptDown? {
      AcceptDownHistory(s, n, a.p);
    } else if a.Finish? {
      FinishCounts(s, n, a.p);
      FinishEffect(s, n, a.p);
    } else if a.AcceptUp? {
      AcceptUpTakes(s, n, a.p, a.child);
    } else {
      CleanEffect(s, n, a);
    }
    QuietStepKeepsWoken(s, Step(s, n, a), n, allowed, if a.Start? then 0 else a.p);
  }

  lemma ShutdownKeepsWoken(s: System, n: nat, allowed: (nat, nat) -> bool, a: Action)
    requires Inv(s, n) && WokenOnly(s, n, allowed) && Enabled(s, n, a) && (a.AcceptTerm? || a.Reset?)
    ensures WokenOnly(Step(s, n, a), n, allowed)
  {
    var s' := Step(s, n, a);
    assert s'.mail == s.mail && s'.active == s.active && s'.rec == s.rec && s'.sweep == s.sweep;
    forall m | m in s'.mail
      ensures MailFollows(s', n, allowed, m) && (m.epoch == s'.sweep > 0 ==> Woken(n, allowed, m.from))
    {
      assert MailFollows(s, n, allowed, m);
    }
  }

  lemma {:induction false} RunsKeepWoken(n: nat, active: seq<bool>, run: seq<Action>, allowed: (nat, nat) -> bool)
    requires |active| == n > 1 && After(n, active, run).Some? && Follows(run, allowed) && SafePattern(n, allowed)
    ensures WokenOnly(After(n, active, run).value, n, allowed)
  {
    if run != [] {
      var before, a := run[..|run| - 1], run[|run| - 1];
      assert Follows(before, allowed);
      RunsKeepWoken(n, active, before, allowed);
      RunsKeepInv(n, active, before);
      var s := After(n, active, before).value;
      if a.Receive? {
        ReceiveKeepsWoken(s, n, allowed, a.index);
      } else if a.Send? || a.Rest? {
        TrafficKeepsWoken(s, n, allowed, a);
      } else if a.AcceptTerm? || a.Reset? {
        ShutdownKeepsWoken(s, n, allowed, a);
      } else {
        DetectionKeepsWoken(s, n, allowed, a);
      }
    }
  }

  /** With a safe pattern the detection is safe without any other condition, in every run. */
  lemma PatternIsSafe(n: nat, active: seq<bool>, run: seq<Action>, allowed: (nat, nat) -> bool)
    requires |active| == n > 1 && After(n, active, run).Some? && Follows(run, allowed) && SafePattern(n, allowed)
    requires exists p | 0 <= p < n :: After(n, active, run).value.mode[p] != Running
    ensures Quiet(After(n, active, run).value)
  {
    RunsKeepWoken(n, active, run, allowed);
    TerminationSafety(n, active, run);
  }
}

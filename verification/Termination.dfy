/** When the root detects termination: the accounting of regular messages across one sweep. */
module Termination {
  import opened Wrappers
  import opened ProcessTree
  import opened GlobalQd
  import opened SweepSystem
  import opened SweepInvariant

  // ---------------------------------------------------------------- sums

  function Sum(v: seq<int>): int {
    if v == [] then 0 else Sum(v[..|v| - 1]) + v[|v| - 1]
  }

  lemma {:induction false} SumUpdate(v: seq<int>, p: nat, x: int)
    requires p < |v|
    ensures Sum(v[p := x]) == Sum(v) - v[p] + x
  {
    var last := |v| - 1;
    if p < last {
      SumUpdate(v[..last], p, x);
      assert v[p := x][..last] == v[..last][p := x];
    } else {
      assert v[p := x][..last] == v[..last];
    }
  }

  lemma {:induction false} SumZero(v: seq<int>)
    requires forall i | 0 <= i < |v| :: v[i] == 0
    ensures Sum(v) == 0
  {
    if v != [] {
      SumZero(v[..|v| - 1]);
    }
  }

  /** The plain sum over the subtree of p. */
  function TreeSum(v: seq<int>, p: nat): int
    decreases if p < |v| then |v| - p else 0
  {
    if p >= |v| then 0 else v[p] + TreeSum(v, 2 * p + 1) + TreeSum(v, 2 * p + 2)
  }

  lemma {:induction false} TreeSumAppend(v: seq<int>, x: int, p: nat)
    ensures TreeSum(v + [x], p) == TreeSum(v, p) + if IsAncestor(p, |v|) then x else 0
    decreases if p < |v| then |v| - p else 0
  {
    AncestorSplits(p, |v|);
    if p < |v| {
      TreeSumAppend(v, x, 2 * p + 1);
      TreeSumAppend(v, x, 2 * p + 2);
    }
  }

  /** The tree covers every process once. */
  lemma {:induction false} TreeSumIsSum(v: seq<int>)
    ensures TreeSum(v, 0) == Sum(v)
  {
    if v != [] {
      var last := |v| - 1;
      TreeSumIsSum(v[..last]);
      TreeSumAppend(v[..last], v[last], 0);
      RootIsAncestor(last);
      assert v == v[..last] + [v[last]];
    }
  }

  /** An unsaturated total is the plain sum, and no value below it is saturated. */
  lemma {:induction false} UnsaturatedIsSum(v: seq<int>, p: nat)
    requires Saturating(v, p) != INT64_MAX
    ensures Saturating(v, p) == TreeSum(v, p)
    ensures forall q: nat | q < |v| && IsAncestor(p, q) :: v[q] != INT64_MAX
    decreases if p < |v| then |v| - p else 0
  {
    if p < |v| {
      UnsaturatedIsSum(v, 2 * p + 1);
      UnsaturatedIsSum(v, 2 * p + 2);
      forall q: nat | q < |v| && IsAncestor(p, q) ensures v[q] != INT64_MAX {
        AncestorSplits(p, q);
      }
    } else {
      forall q: nat | q < |v| && IsAncestor(p, q) ensures false {
        AncestorSplits(p, q);
      }
    }
  }

  function Abs(x: int): nat {
    if x < 0 then -x else x
  }

  /** The size of what is below p, not counting saturated values. */
  function Weight(v: seq<int>, p: nat): nat
    decreases if p < |v| then |v| - p else 0
  {
    if p >= |v| then 0
    else (if v[p] == INT64_MAX then 0 else Abs(v[p])) + Weight(v, 2 * p + 1) + Weight(v, 2 * p + 2)
  }

  predicate SaturatedBelow(v: seq<int>, p: nat) {
    exists q: nat :: q < |v| && IsAncestor(p, q) && v[q] == INT64_MAX
  }

  lemma SaturatedSplits(v: seq<int>, p: nat)
    requires p < |v|
    ensures SaturatedBelow(v, p) <==>
            v[p] == INT64_MAX || SaturatedBelow(v, 2 * p + 1) || SaturatedBelow(v, 2 * p + 2)
  {
    if v[p] == INT64_MAX {
      assert IsAncestor(p, p);
    }
    forall q: nat | q < |v| && v[q] == INT64_MAX && (IsAncestor(2 * p + 1, q) || IsAncestor(2 * p + 2, q))
      ensures IsAncestor(p, q)
    {
      AncestorSplits(p, q);
    }
    if q: nat :| q < |v| && IsAncestor(p, q) && v[q] == INT64_MAX {
      AncestorSplits(p, q);
    }
  }

  /** With values that cannot overflow an int64 together, the total is INT64_MAX if some value is and
      else the exact sum; every intermediate total is in range. */
  lemma {:induction false} SaturatingSumInRange(v: seq<int>, p: nat)
    requires Weight(v, p) < INT64_MAX
    ensures Saturating(v, p) == INT64_MAX <==> SaturatedBelow(v, p)
    ensures Saturating(v, p) != INT64_MAX ==>
              Saturating(v, p) == TreeSum(v, p) && Abs(Saturating(v, p)) <= Weight(v, p)
    decreases if p < |v| then |v| - p else 0
  {
    if p < |v| {
      SaturatingSumInRange(v, 2 * p + 1);
      SaturatingSumInRange(v, 2 * p + 2);
      SaturatedSplits(v, p);
    } else {
      forall q: nat | q < |v| ensures !IsAncestor(p, q) {
        AncestorSplits(p, q);
      }
    }
  }

  // ---------------------------------------------------------------- accounting of messages

  /** How many messages in flight were sent before the sender recorded sweep k. */
  function SentBefore(mail: seq<Regular>, k: nat): nat {
    if mail == [] then 0
    else SentBefore(mail[..|mail| - 1], k) + if mail[|mail| - 1].epoch < k then 1 else 0
  }

  lemma SentBeforeAppend(mail: seq<Regular>, m: Regular, k: nat)
    ensures SentBefore(mail + [m], k) == SentBefore(mail, k) + if m.epoch < k then 1 else 0
  {
    assert (mail + [m])[..|mail|] == mail;
  }

  lemma {:induction false} SentBeforeRemove(mail: seq<Regular>, j: nat, k: nat)
    requires j < |mail|
    ensures SentBefore(mail[..j] + mail[j + 1..], k) == SentBefore(mail, k) - if mail[j].epoch < k then 1 else 0
  {
    var last := |mail| - 1;
    if j < last {
      SentBeforeRemove(mail[..last], j, k);
      RemoveFromFront(mail, j);
      SentBeforeAppend(mail[..last][..j] + mail[..last][j + 1..], mail[last], k);
    } else {
      assert mail[..j] + mail[j + 1..] == mail[..last];
    }
  }

  lemma RemoveFromFront(mail: seq<Regular>, j: nat)
    requires j < |mail| - 1
    ensures var last := |mail| - 1;
            mail[..j] + mail[j + 1..] == mail[..last][..j] + mail[..last][j + 1..] + [mail[last]]
  {
  }

  lemma {:induction false} AllSentBefore(mail: seq<Regular>, k: nat)
    ensures SentBefore(mail, k) <= |mail|
    ensures (forall m | m in mail :: m.epoch < k) ==> SentBefore(mail, k) == |mail|
    ensures SentBefore(mail, k) == 0 ==> forall m | m in mail :: m.epoch >= k
  {
    if mail != [] {
      AllSentBefore(mail[..|mail| - 1], k);
      assert mail == mail[..|mail| - 1] + [mail[|mail| - 1]];
    }
  }

  function Outstanding(s: System, n: nat): seq<int>
    requires Shape(s, n)
  {
    seq(n, p requires 0 <= p < n => s.nodes[p].sends - s.nodes[p].processed)
  }

  /** What each process counts in the current sweep: its record, or what it would record now. */
  function Counted(s: System, n: nat): seq<int>
    requires Shape(s, n)
  {
    seq(n, p requires 0 <= p < n =>
          if s.rec[p] == s.sweep then s.raw[p] else s.nodes[p].sends - s.nodes[p].processed)
  }

  /** A process that took a message sent after its sender's record before making its own will
      saturate, or has. */
  predicate WillSaturate(s: System, n: nat, p: int)
    requires Shape(s, n)
  {
    && 0 <= p < n && !IsLeaf(p, n)
    && (if s.rec[p] == s.sweep then s.value[p] == INT64_MAX else s.nodes[p].lastRegular > s.rec[p])
  }

  predicate MailOk(s: System, n: nat, m: Regular)
    requires Shape(s, n) && m.from < n && m.to < n
  {
    && m.epoch <= s.rec[m.from]
    && (!IsLeaf(m.from, n) && !(m.to != 0 && Parent(m.to) == m.from) ==> m.stamp == m.epoch)
    && (m.epoch == s.sweep && s.sweep > 0 ==> s.late > 0)
  }

  predicate RecordOk(s: System, n: nat, p: nat)
    requires Shape(s, n) && p < n
  {
    s.rec[p] == s.sweep > 0 ==>
      && (s.value[p] == s.raw[p] || s.value[p] == INT64_MAX)
      && (s.active[p] ==> s.late > 0)
  }

  ghost predicate Balanced(s: System, n: nat)
    requires Shape(s, n)
  {
    && Sum(Outstanding(s, n)) == |s.mail|
    && (s.sweep > 0 ==> Sum(Counted(s, n)) == SentBefore(s.mail, s.sweep) + s.late - s.early)
    && (forall m | m in s.mail :: MailOk(s, n, m))
    && (forall p | 0 <= p < n :: RecordOk(s, n, p))
    && s.leafEarly <= s.early
    && (s.leafEarly < s.early ==> WillSaturate(s, n, s.taint))
  }

  predicate Quiet(s: System) {
    s.mail == [] && forall p | 0 <= p < |s.active| :: !s.active[p]
  }

  ghost predicate Accounted(s: System, n: nat)
    requires Shape(s, n)
  {
    if s.mode[0] == Running then Balanced(s, n) else s.leafEarly == 0 ==> Quiet(s)
  }

  // ---------------------------------------------------------------- preservation

  lemma InitAccounted(n: nat, active: seq<bool>)
    requires |active| == n > 1
    ensures Accounted(Init(n, active), n)
  {
    SumZero(Outstanding(Init(n, active), n));
  }

  /** Same counters and stamps at every process. */
  predicate SameCounters(s: System, s': System, n: nat)
    requires Shape(s, n) && Shape(s', n)
  {
    forall q | 0 <= q < n :: s'.nodes[q].sends == s.nodes[q].sends && s'.nodes[q].processed == s.nodes[q].processed
                             && s'.nodes[q].lastRegular == s.nodes[q].lastRegular
  }

  lemma StartHistory(s: System, n: nat)
    requires Inv(s, n) && Enabled(s, n, Start)
    ensures var s' := Step(s, n, Start);
            && SameCounters(s, s', n) && s.sweep == s.rec[0] && s'.sweep == s.sweep + 1
            && s'.mail == s.mail && s'.active == s.active && s'.rec == s.rec && s'.value == s.value && s'.raw == s.raw
            && s'.late == s'.early == s'.leafEarly == 0
  {
    LeafMeansLeaf(s, n, 0);
    assert NodeOk(s, n, 0);
  }

  lemma StartAccounted(s: System, n: nat)
    requires Inv(s, n) && Balanced(s, n) && Enabled(s, n, Start)
    ensures Balanced(Step(s, n, Start), n)
  {
    StartHistory(s, n);
    forall p | 0 <= p < n ensures s.rec[p] == s.sweep {
      OneSweepAtATime(s, n, p);
    }
    NewSweepBalanced(s, Step(s, n, Start), n);
  }

  /** A sweep begins in which nobody has recorded yet. */
  lemma NewSweepBalanced(s: System, s': System, n: nat)
    requires Shape(s, n) && Balanced(s, n) && Shape(s', n) && SameCounters(s, s', n)
    requires s'.mail == s.mail && s'.active == s.active && s'.rec == s.rec && s'.value == s.value && s'.raw == s.raw
    requires s'.late == s'.early == s'.leafEarly == 0
    requires s'.sweep == s.sweep + 1 && forall p | 0 <= p < n :: s.rec[p] == s.sweep
    ensures Balanced(s', n)
  {
    assert Outstanding(s', n) == Outstanding(s, n) == Counted(s', n);
    forall m | m in s.mail ensures m.epoch < s'.sweep {
      assert MailOk(s, n, m);
    }
    AllSentBefore(s.mail, s'.sweep);
  }

  /** Recording, by a leaf or by an inner process that passes its total on. */
  lemma RecordAccounted(s: System, s': System, n: nat, p: nat, x: int)
    requires Inv(s, n) && Balanced(s, n) && Shape(s', n) && p < n && !s.active[p]
    requires s.rec[p] < s.sweep
    requires s'.mail == s.mail && s'.active == s.active && s'.sweep == s.sweep
    requires s'.late == s.late && s'.early == s.early && s'.leafEarly == s.leafEarly && s'.taint == s.taint
    requires s'.rec == s.rec[p := s.rec[p] + 1] && s'.value == s.value[p := x]
    requires s'.raw == s.raw[p := s.nodes[p].sends - s.nodes[p].processed]
    requires SameCounters(s, s', n)
    requires x == s'.raw[p] || x == INT64_MAX
    requires !IsLeaf(p, n) && s.nodes[p].lastRegular > s.rec[p] ==> x == INT64_MAX
    ensures Balanced(s', n)
  {
    OneSweepAtATime(s, n, p);
    assert Outstanding(s', n) == Outstanding(s, n);
    assert Counted(s', n) == Counted(s, n);
    forall m | m in s'.mail ensures MailOk(s', n, m) {
      assert MailOk(s, n, m);
    }
    forall q | 0 <= q < n ensures RecordOk(s', n, q) {
      assert RecordOk(s, n, q);
    }
  }

  lemma AcceptDownHistory(s: System, n: nat, p: nat)
    requires Inv(s, n) && Enabled(s, n, AcceptDown(p))
    ensures var s' := Step(s, n, AcceptDown(p));
            && SameCounters(s, s', n) && s'.mail == s.mail && s'.active == s.active && s'.sweep == s.sweep
            && s'.late == s.late && s'.early == s.early && s'.leafEarly == s.leafEarly && s'.taint == s.taint
            && (!IsLeaf(p, n) ==> s'.rec == s.rec && s'.value == s.value && s'.raw == s.raw)
            && (IsLeaf(p, n) ==>
                  && s'.raw == s.raw[p := s.nodes[p].sends - s.nodes[p].processed]
                  && s'.rec == s.rec[p := s.rec[p] + 1]
                  && s'.value == s.value[p := s.nodes[p].sends - s.nodes[p].processed])
  {
    LeafMeansLeaf(s, n, p);
  }

  lemma AcceptDownAccounted(s: System, n: nat, p: nat)
    requires Inv(s, n) && Balanced(s, n) && Enabled(s, n, AcceptDown(p))
    ensures Balanced(Step(s, n, AcceptDown(p)), n)
  {
    var s' := Step(s, n, AcceptDown(p));
    AcceptDownHistory(s, n, p);
    DownArrives(s, n, p);
    OneSweepAtATime(s, n, Parent(p));
    if IsLeaf(p, n) {
      RecordAccounted(s, s', n, p, s.nodes[p].sends - s.nodes[p].processed);
    } else {
      SameAccounts(s, s', n);
    }
  }

  /** Steps that change no counter and no message. */
  lemma SameAccounts(s: System, s': System, n: nat)
    requires Shape(s, n) && Shape(s', n) && Balanced(s, n)
    requires s'.mail == s.mail && s'.active == s.active && s'.sweep == s.sweep && s'.rec == s.rec
    requires s'.value == s.value && s'.raw == s.raw
    requires s'.late == s.late && s'.early == s.early && s'.leafEarly == s.leafEarly && s'.taint == s.taint
    requires SameCounters(s, s', n)
    ensures Balanced(s', n)
  {
    assert Outstanding(s', n) == Outstanding(s, n);
    assert Counted(s', n) == Counted(s, n);
    forall m | m in s'.mail ensures MailOk(s', n, m) {
      assert MailOk(s, n, m);
    }
    forall q | 0 <= q < n ensures RecordOk(s', n, q) {
      assert RecordOk(s, n, q);
    }
  }

  lemma FinishAccounted(s: System, n: nat, p: nat)
    requires Inv(s, n) && Balanced(s, n) && Enabled(s, n, Finish(p))
    ensures Balanced(Step(s, n, Finish(p)), n)
  {
    FinishEffect(s, n, p);
    FullAccumulation(s, n, p);
    FullMeansAll(s, n, p);
    FinishCounts(s, n, p);
    OneSweepAtATime(s, n, p);
    if p > 0 {
      OneSweepAtATime(s, n, Parent(p));
    }
    RecordAccounted(s, Step(s, n, Finish(p)), n, p, LocalCount(s.nodes[p]));
  }

  /** Finishing leaves the message counters alone, also at the root that decides. */
  lemma FinishCounts(s: System, n: nat, p: nat)
    requires Inv(s, n) && Enabled(s, n, Finish(p))
    ensures var s' := Step(s, n, Finish(p));
            && s'.raw == s.raw[p := s.nodes[p].sends - s.nodes[p].processed]
            && s'.mail == s.mail && s'.active == s.active
            && s'.late == s.late && s'.early == s.early && s'.leafEarly == s.leafEarly && s'.taint == s.taint
            && SameCounters(s, s', n)
  {
    FinishEffect(s, n, p);
  }

  /** Process p has d more outstanding messages. */
  lemma OutstandingAfter(s: System, s': System, n: nat, p: nat, d: int)
    requires Shape(s, n) && Shape(s', n) && p < n
    requires forall q | 0 <= q < n && q != p :: s'.nodes[q] == s.nodes[q]
    requires s'.nodes[p].sends - s'.nodes[p].processed == s.nodes[p].sends - s.nodes[p].processed + d
    ensures Sum(Outstanding(s', n)) == Sum(Outstanding(s, n)) + d
  {
    var v := Outstanding(s, n);
    assert Outstanding(s', n) == v[p := v[p] + d];
    SumUpdate(v, p, v[p] + d);
  }

  /** It counts them unless it has made its record. */
  lemma CountedAfter(s: System, s': System, n: nat, p: nat, d: int)
    requires Shape(s, n) && Shape(s', n) && p < n
    requires s'.rec == s.rec && s'.raw == s.raw && s'.sweep == s.sweep
    requires forall q | 0 <= q < n && q != p :: s'.nodes[q] == s.nodes[q]
    requires s'.nodes[p].sends - s'.nodes[p].processed == s.nodes[p].sends - s.nodes[p].processed + d
    ensures Sum(Counted(s', n)) == Sum(Counted(s, n)) + if s.rec[p] == s.sweep then 0 else d
  {
    var v := Counted(s, n);
    if s.rec[p] == s.sweep {
      assert Counted(s', n) == v;
    } else {
      assert Counted(s', n) == v[p := v[p] + d];
      SumUpdate(v, p, v[p] + d);
    }
  }

  lemma SendSums(s: System, n: nat, p: nat, to: nat, stamp: nat)
    requires Inv(s, n) && Balanced(s, n) && Enabled(s, n, Send(p, to, stamp))
    ensures var s' := Step(s, n, Send(p, to, stamp));
            && Sum(Outstanding(s', n)) == |s'.mail|
            && (s'.sweep > 0 ==> Sum(Counted(s', n)) == SentBefore(s'.mail, s'.sweep) + s'.late - s'.early)
  {
    var s' := Step(s, n, Send(p, to, stamp));
    OneSweepAtATime(s, n, p);
    OutstandingAfter(s, s', n, p, 1);
    CountedAfter(s, s', n, p, 1);
    SentBeforeAppend(s.mail, Regular(p, to, stamp, s.rec[p]), s.sweep);
  }

  lemma SendAccounted(s: System, n: nat, p: nat, to: nat, stamp: nat)
    requires Inv(s, n) && Balanced(s, n) && Enabled(s, n, Send(p, to, stamp))
    ensures Balanced(Step(s, n, Send(p, to, stamp)), n)
  {
    var s' := Step(s, n, Send(p, to, stamp));
    SendSums(s, n, p, to, stamp);
    assert RecordOk(s, n, p) && NodeOk(s, n, p);
    forall k | k in s'.mail ensures MailOk(s', n, k) {
      assert k == Regular(p, to, stamp, s.rec[p]) || (k in s.mail && MailOk(s, n, k));
    }
    forall q | 0 <= q < n ensures RecordOk(s', n, q) {
      assert RecordOk(s, n, q);
    }
  }

  /** A message between two non-leaf processes that is early carries a stamp that makes the receiver
      saturate: forwards to a child are never early. */
  lemma EarlyTaints(s: System, n: nat, m: Regular)
    requires Inv(s, n) && m.from < n && m.to < n && MailOk(s, n, m)
    requires m.epoch > s.rec[m.to] && !IsLeaf(m.from, n)
    ensures m.stamp > s.rec[m.to]
    ensures s.rec[m.to] < s.sweep
  {
    OneSweepAtATime(s, n, m.from);
    assert m.to != 0 ==> EdgeOk(s, n, m.to);
  }

  lemma ReceiveSums(s: System, n: nat, j: nat)
    requires Inv(s, n) && Balanced(s, n) && Enabled(s, n, Receive(j))
    ensures var s' := Step(s, n, Receive(j));
            && Sum(Outstanding(s', n)) == |s'.mail|
            && (s'.sweep > 0 ==> Sum(Counted(s', n)) == SentBefore(s'.mail, s'.sweep) + s'.late - s'.early)
  {
    var s' := Step(s, n, Receive(j));
    var m := s.mail[j];
    assert MailOk(s, n, m);
    OneSweepAtATime(s, n, m.from);
    OneSweepAtATime(s, n, m.to);
    OutstandingAfter(s, s', n, m.to, -1);
    CountedAfter(s, s', n, m.to, -1);
    SentBeforeRemove(s.mail, j, s.sweep);
  }

  /** The messages that stay are as they were. */
  lemma ReceiveKeepsMail(s: System, n: nat, j: nat)
    requires Inv(s, n) && Balanced(s, n) && Enabled(s, n, Receive(j))
    ensures forall m | m in Step(s, n, Receive(j)).mail :: MailOk(Step(s, n, Receive(j)), n, m)
  {
    forall k | k in Step(s, n, Receive(j)).mail ensures MailOk(Step(s, n, Receive(j)), n, k) {
      assert k in s.mail && MailOk(s, n, k);
    }
  }

  /** A message that wakes a process after its record is late. */
  lemma ReceiveKeepsRecords(s: System, n: nat, j: nat)
    requires Inv(s, n) && Balanced(s, n) && Enabled(s, n, Receive(j))
    ensures forall q | 0 <= q < n :: RecordOk(Step(s, n, Receive(j)), n, q)
  {
    var m := s.mail[j];
    assert MailOk(s, n, m);
    OneSweepAtATime(s, n, m.from);
    forall q | 0 <= q < n ensures RecordOk(Step(s, n, Receive(j)), n, q) {
      assert RecordOk(s, n, q);
    }
  }

  lemma ReceiveAccounted(s: System, n: nat, j: nat)
    requires Inv(s, n) && Balanced(s, n) && Enabled(s, n, Receive(j))
    ensures Balanced(Step(s, n, Receive(j)), n)
  {
    var m := s.mail[j];
    ReceiveSums(s, n, j);
    ReceiveKeepsMail(s, n, j);
    ReceiveKeepsRecords(s, n, j);
    assert MailOk(s, n, m);
    if m.epoch > s.rec[m.to] && !IsLeaf(m.from, n) {
      EarlyTaints(s, n, m);
    }
  }

  lemma RestAccounted(s: System, n: nat, p: nat)
    requires Balanced.requires(s, n) && Balanced(s, n) && Enabled(s, n, Rest(p))
    ensures Balanced(Step(s, n, Rest(p)), n)
  {
    var s' := Step(s, n, Rest(p));
    assert Outstanding(s', n) == Outstanding(s, n) && Counted(s', n) == Counted(s, n);
    forall m | m in s'.mail ensures MailOk(s', n, m) {
      assert MailOk(s, n, m);
    }
    forall q | 0 <= q < n ensures RecordOk(s', n, q) {
      assert RecordOk(s, n, q);
    }
  }

  /** Cleaning up, taking a message from a child. */
  lemma HousekeepingAccounted(s: System, n: nat, a: Action)
    requires Inv(s, n) && Balanced(s, n) && Enabled(s, n, a) && (a.CleanDowns? || a.CleanUps? || a.AcceptUp?)
    ensures Balanced(Step(s, n, a), n)
  {
    if a.AcceptUp? {
      AcceptUpEffect(s, n, a.p, a.child);
    } else {
      LeafMeansLeaf(s, n, a.p);
    }
    SameAccounts(s, Step(s, n, a), n);
  }

  // ---------------------------------------------------------------- the decision

  /** When the root's total is 0, the messages that were sent before the sender's record and not
      processed before the receiver's are exactly matched by early messages to or from a leaf. */
  lemma DecisionBalance(s: System, n: nat)
    requires Inv(s, n) && Balanced(s, n) && s.sweep > 0
    requires forall p | 0 <= p < n :: s.rec[p] == s.sweep
    requires Saturating(s.value, 0) == 0
    ensures SentBefore(s.mail, s.sweep) + s.late == s.leafEarly == s.early
  {
    UnsaturatedIsSum(s.value, 0);
    TreeSumIsSum(s.value);
    forall p: nat | p < n ensures s.value[p] == s.raw[p] != INT64_MAX {
      RootIsAncestor(p);
      assert RecordOk(s, n, p);
    }
    assert s.value == s.raw == Counted(s, n);
  }

  /** The records are a consistent cut exactly when no message to or from a leaf was early, and then the
      whole system is quiet. */
  lemma DecisionQuiet(s: System, n: nat)
    requires Inv(s, n) && Balanced(s, n) && s.sweep > 0
    requires forall p | 0 <= p < n :: s.rec[p] == s.sweep
    requires Saturating(s.value, 0) == 0
    ensures s.leafEarly == 0 <==> s.mail == [] && s.late == 0
    ensures s.leafEarly == 0 ==> Quiet(s)
  {
    DecisionBalance(s, n);
    AllSentBefore(s.mail, s.sweep);
    assert s.mail != [] ==> s.mail[0] in s.mail && MailOk(s, n, s.mail[0]);
    forall p | 0 <= p < n ensures s.late == 0 ==> !s.active[p] {
      assert RecordOk(s, n, p);
    }
  }

  /** The step at which the root decides. */
  lemma FinishDecides(s: System, n: nat)
    requires Inv(s, n) && Balanced(s, n) && Enabled(s, n, Finish(0))
    ensures var s' := Step(s, n, Finish(0));
            && (s'.mode[0] != Running <==> Saturating(s'.value, 0) == 0)
            && (s'.mode[0] != Running ==>
                  && (s'.leafEarly == 0 <==> s'.mail == [] && s'.late == 0)
                  && (s'.leafEarly == 0 ==> Quiet(s')))
  {
    var s' := Step(s, n, Finish(0));
    FinishEffect(s, n, 0);
    FinishTotal(s, n, 0);
    FullMeansAll(s, n, 0);
    FinishKeepsInv(s, n, 0);
    FinishAccounted(s, n, 0);
    forall p | 0 <= p < n ensures s'.rec[p] == s'.sweep {
      OneSweepAtATime(s', n, p);
    }
    if Saturating(s'.value, 0) == 0 {
      DecisionQuiet(s', n);
    }
  }

  /** After the decision a quiet system stays quiet, and an early message stays on record. */
  lemma DecidedStepAccounted(s: System, n: nat, a: Action)
    requires Inv(s, n) && s.mode[0] != Running && Accounted(s, n) && Enabled(s, n, a)
    ensures Step(s, n, a).mode[0] != Running
    ensures Step(s, n, a).leafEarly == 0 ==> Quiet(Step(s, n, a))
  {
  }

  lemma OnlyAfterDecision(s: System, n: nat, a: Action)
    requires Inv(s, n) && Enabled(s, n, a) && (a.AcceptTerm? || a.Reset?)
    ensures s.mode[0] != Running
  {
    if a.AcceptTerm? {
      assert TermOk(s, n, a.p);
      RootFirst(s, n, Parent(a.p));
    } else {
      RootFirst(s, n, a.p);
    }
  }

  lemma OnlyFinishDecides(s: System, n: nat, a: Action)
    requires Inv(s, n) && Enabled(s, n, a) && a != Finish(0) && !a.AcceptTerm? && !a.Reset?
    ensures Step(s, n, a).mode == s.mode
  {
    if a.Finish? {
      FinishEffect(s, n, a.p);
    }
  }

  /** Before the decision every step but the deciding one keeps the balance. */
  lemma UndecidedStepAccounted(s: System, n: nat, a: Action)
    requires Inv(s, n) && Balanced(s, n) && Enabled(s, n, a) && !a.AcceptTerm? && !a.Reset?
    ensures Balanced(Step(s, n, a), n)
  {
    match a
    case Start => StartAccounted(s, n);
    case AcceptDown(p) => AcceptDownAccounted(s, n, p);
    case Finish(p) => FinishAccounted(s, n, p);
    case Send(p, to, stamp) => SendAccounted(s, n, p, to, stamp);
    case Receive(j) => ReceiveAccounted(s, n, j);
    case Rest(p) => RestAccounted(s, n, p);
    case _ => HousekeepingAccounted(s, n, a);
  }

  lemma StepAccounted(s: System, n: nat, a: Action)
    requires Inv(s, n) && Accounted(s, n) && Enabled(s, n, a)
    ensures Accounted(Step(s, n, a), n)
  {
    if s.mode[0] != Running {
      DecidedStepAccounted(s, n, a);
    } else if a.AcceptTerm? || a.Reset? {
      OnlyAfterDecision(s, n, a);
    } else {
      UndecidedStepAccounted(s, n, a);
      if a == Finish(0) {
        FinishDecides(s, n);
      } else {
        OnlyFinishDecides(s, n, a);
      }
    }
  }

  lemma {:induction false} RunsAccounted(n: nat, active: seq<bool>, run: seq<Action>)
    requires |active| == n > 1 && After(n, active, run).Some?
    ensures Accounted(After(n, active, run).value, n)
  {
    if run == [] {
      InitAccounted(n, active);
    } else {
      var before := run[..|run| - 1];
      RunsKeepInv(n, active, before);
      RunsAccounted(n, active, before);
      StepAccounted(After(n, active, before).value, n, run[|run| - 1]);
    }
  }

  // ---------------------------------------------------------------- what every run does

  /** Safety of the detection, in every run: once the root has detected quiescence, no regular message
      is in flight and every process is passive, provided that in the deciding sweep no message to or
      from a leaf was sent after its sender's record and processed before its receiver's. For
      messages between two non-leaf processes, stamps and saturation rule this out. */
  lemma TerminationSafety(n: nat, active: seq<bool>, run: seq<Action>)
    requires |active| == n > 1 && After(n, active, run).Some?
    requires exists p | 0 <= p < n :: After(n, active, run).value.mode[p] != Running
    requires After(n, active, run).value.leafEarly == 0
    ensures Quiet(After(n, active, run).value)
  {
    var s := After(n, active, run).value;
    RunsKeepInv(n, active, run);
    RunsAccounted(n, active, run);
    var p :| 0 <= p < n && s.mode[p] != Running;
    RootFirst(s, n, p);
  }

  /** Exactly when the decision is about a consistent cut, in every run: when the root gets a total of 0,
      every message sent before its sender's record was processed before its receiver's, and none is in
      flight, if and only if no message to or from a leaf was early. Then the whole system is quiet; it
      can also be quiet without. */
  lemma DecisionIsConsistentCutIff(n: nat, active: seq<bool>, run: seq<Action>)
    requires |active| == n > 1 && After(n, active, run).Some?
    requires Enabled(After(n, active, run).value, n, Finish(0))
    requires Saturating(Step(After(n, active, run).value, n, Finish(0)).value, 0) == 0
    ensures var s := Step(After(n, active, run).value, n, Finish(0));
            && s.mode[0] != Running
            && (s.leafEarly == 0 <==> s.mail == [] && s.late == 0)
            && (s.leafEarly == 0 ==> Quiet(s))
  {
    RunsKeepInv(n, active, run);
    RunsAccounted(n, active, run);
    FinishDecides(After(n, active, run).value, n);
  }

  /** The run sends no regular message to or from a leaf. */
  predicate InnerTraffic(run: seq<Action>, n: nat) {
    forall i | 0 <= i < |run| && run[i].Send? :: !IsLeaf(run[i].p, n) && !IsLeaf(run[i].to, n)
  }

  lemma {:induction false} InnerTrafficNeverEarly(n: nat, active: seq<bool>, run: seq<Action>)
    requires |active| == n > 1 && After(n, active, run).Some? && InnerTraffic(run, n)
    ensures var s := After(n, active, run).value;
            s.leafEarly == 0 && forall m | m in s.mail :: !IsLeaf(m.from, n) && !IsLeaf(m.to, n)
  {
    if run != [] {
      var before := run[..|run| - 1];
      assert InnerTraffic(before, n);
      InnerTrafficNeverEarly(n, active, before);
      InnerStep(After(n, active, before).value, n, run[|run| - 1]);
    }
  }

  lemma InnerStep(s: System, n: nat, a: Action)
    requires Shape(s, n) && Enabled(s, n, a) && s.leafEarly == 0
    requires forall m | m in s.mail :: !IsLeaf(m.from, n) && !IsLeaf(m.to, n)
    requires a.Send? ==> !IsLeaf(a.p, n) && !IsLeaf(a.to, n)
    ensures var s' := Step(s, n, a);
            s'.leafEarly == 0 && forall m | m in s'.mail :: !IsLeaf(m.from, n) && !IsLeaf(m.to, n)
  {
    if a.Receive? {
      assert s.mail[a.index] in s.mail;
    }
  }

  /** When leaves exchange no regular messages, the detection is safe without any condition. */
  lemma InnerTrafficIsSafe(n: nat, active: seq<bool>, run: seq<Action>)
    requires |active| == n > 1 && After(n, active, run).Some? && InnerTraffic(run, n)
    requires exists p | 0 <= p < n :: After(n, active, run).value.mode[p] != Running
    ensures Quiet(After(n, active, run).value)
  {
    InnerTrafficNeverEarly(n, active, run);
    TerminationSafety(n, active, run);
  }
}

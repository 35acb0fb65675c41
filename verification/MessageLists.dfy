/** The driver's lists of messages MPI is still busy with. Finished entries are taken out with
    remove_if, which keeps the unfinished ones in order and moves them to the front in place. */
module MessageLists {
  import opened Wrappers

  /** An entry of a list; a message that was moved away leaves None. */
  datatype Entry<M> = Entry(request: int, message: Option<M>)

  function MovedFrom<M>(e: Entry<M>): Entry<M> {
    e.(message := None)
  }

  /** The entries whose flag has the given value, in order. */
  function Select<M>(s: seq<Entry<M>>, flags: seq<bool>, flag: bool): (r: seq<Entry<M>>)
    requires |flags| == |s|
    ensures |r| <= |s|
  {
    if s == [] then []
    else
      var last := |s| - 1;
      Select(s[..last], flags[..last], flag) + if flags[last] == flag then [s[last]] else []
  }

  lemma SelectNext<M>(s: seq<Entry<M>>, flags: seq<bool>, i: nat, flag: bool)
    requires |flags| == |s| && i < |s|
    ensures Select(s[..i + 1], flags[..i + 1], flag) ==
            Select(s[..i], flags[..i], flag) + if flags[i] == flag then [s[i]] else []
  {
    assert s[..i + 1][..i] == s[..i] && flags[..i + 1][..i] == flags[..i];
  }

  /** How many flags have the value. */
  function Count(flags: seq<bool>, flag: bool): nat {
    if flags == [] then 0 else Count(flags[..|flags| - 1], flag) + if flags[|flags| - 1] == flag then 1 else 0
  }

  /** Selecting loses no entry, repeats none and keeps the order: each selected one comes behind as many as
      were selected before it. */
  lemma {:induction false} SelectAt<M>(s: seq<Entry<M>>, flags: seq<bool>, flag: bool, i: nat)
    requires |flags| == |s|
    ensures |Select(s, flags, flag)| == Count(flags, flag)
    ensures i < |s| && flags[i] == flag ==>
              var k := Count(flags[..i], flag);
              k < |Select(s, flags, flag)| && Select(s, flags, flag)[k] == s[i]
  {
    if s != [] {
      var last := |s| - 1;
      SelectAt(s[..last], flags[..last], flag, i);
      if i < last {
        assert flags[..last][..i] == flags[..i];
      }
    }
  }

  /** The search with which remove_if begins: entries before the first finished one stay put. */
  method FindFinished(finished: seq<bool>) returns (first: nat)
    ensures first <= |finished| && forall i | 0 <= i < first :: !finished[i]
    ensures first < |finished| ==> finished[first]
  {
    first := 0;
    while first < |finished| && !finished[first]
      invariant first <= |finished| && forall i | 0 <= i < first :: !finished[i]
    {
      first := first + 1;
    }
  }

  /** What RemoveFinished leaves behind the unfinished entries. */
  function Tail<M>(s: seq<Entry<M>>, finished: seq<bool>): seq<Entry<M>>
    requires |finished| == |s|
  {
    var first := |Select(s, finished, false)|;
    seq(|s| - first, k requires 0 <= k < |s| - first =>
      if finished[first + k] then s[first + k] else MovedFrom(s[first + k]))
  }

  /** After i tests: the unfinished entries at the front, then what they and the finished ones left. */
  ghost predicate Compacted<M>(now: seq<Entry<M>>, was: seq<Entry<M>>, finished: seq<bool>, first: nat, i: nat) {
    && |now| == |was| == |finished| && first <= i <= |was|
    && now[..first] == Select(was[..i], finished[..i], false)
    && (forall j | first <= j < i :: now[j] == if finished[j] then was[j] else MovedFrom(was[j]))
    && now[i..] == was[i..]
  }

  lemma CompactStep<M>(now: seq<Entry<M>>, was: seq<Entry<M>>, finished: seq<bool>, first: nat, i: nat)
    requires Compacted(now, was, finished, first, i) && first < i < |was|
    ensures finished[i] ==> Compacted(now, was, finished, first, i + 1)
    ensures !finished[i] ==>
              Compacted(now[first := now[i]][i := MovedFrom(now[i])], was, finished, first + 1, i + 1)
  {
    SelectNext(was, finished, i, false);
    assert now[i] == now[i..][0] == was[i..][0] == was[i];
    assert now[i + 1..] == now[i..][1..] == was[i + 1..];
    if !finished[i] {
      var next := now[first := now[i]][i := MovedFrom(now[i])];
      assert next[..first + 1] == now[..first] + [was[i]];
      assert next[i + 1..] == now[i + 1..];
    }
  }

  lemma CompactStart<M>(was: seq<Entry<M>>, finished: seq<bool>, first: nat)
    requires |finished| == |was| && first < |was| && finished[first] && forall i | 0 <= i < first :: !finished[i]
    ensures Compacted(was, was, finished, first, first + 1)
  {
    AllSelected(was[..first], finished[..first], false);
    SelectNext(was, finished, first, false);
  }

  lemma CompactEnd<M>(now: seq<Entry<M>>, was: seq<Entry<M>>, finished: seq<bool>, first: nat)
    requires Compacted(now, was, finished, first, |was|)
    ensures now[..first] == Select(was, finished, false)
    ensures now[first..] == Tail(was, finished)
  {
    assert was[..|was|] == was && finished[..|was|] == finished;
  }

  /** remove_if on the list: finished[i] is what the test of entry i answers. From `first` on lies what
      the moves left there: finished entries in place, and the shells of entries moved forward. */
  method RemoveFinished<M>(a: array<Entry<M>>, finished: seq<bool>) returns (first: nat)
    requires |finished| == a.Length
    modifies a
    ensures first <= a.Length
    ensures a[..first] == Select(old(a[..]), finished, false)
    ensures a[first..] == Tail(old(a[..]), finished)
  {
    ghost var was := a[..];
    first := FindFinished(finished);
    if first == a.Length {
      AllSelected(was, finished, false);
      assert a[..first] == was;
      return;
    }
    var i := first + 1;
    CompactStart(was, finished, first);
    while i < a.Length
      invariant first < i <= a.Length
      invariant Compacted(a[..], was, finished, first, i)
    {
      CompactStep(a[..], was, finished, first, i);
      if !finished[i] {
        a[first] := a[i];
        a[i] := MovedFrom(a[i]);
        first := first + 1;
      }
      i := i + 1;
    }
    CompactEnd(a[..], was, finished, first);
    assert a[..][..first] == a[..first] && a[..][first..] == a[first..];
  }

  /** No unfinished entry comes after a finished one. */
  predicate FinishedLast(finished: seq<bool>) {
    forall i, j | 0 <= i < j < |finished| :: finished[i] ==> finished[j]
  }

  lemma {:induction false} AllFinished<M>(s: seq<Entry<M>>, finished: seq<bool>, k: nat)
    requires |finished| == |s| && k <= |s|
    requires forall j | k <= j < |s| :: finished[j]
    requires |Select(s, finished, false)| == k
    ensures forall i | 0 <= i < k :: !finished[i]
    decreases |s|
  {
    if s != [] {
      var last := |s| - 1;
      if k < |s| {
        AllFinished(s[..last], finished[..last], k);
      } else if finished[last] {
        assert false;
      } else {
        AllFinished(s[..last], finished[..last], last);
      }
    }
  }

  lemma {:induction false} AllSelected<M>(s: seq<Entry<M>>, flags: seq<bool>, flag: bool)
    requires |flags| == |s| && forall i | 0 <= i < |s| :: flags[i] == flag
    ensures Select(s, flags, flag) == s && Select(s, flags, !flag) == []
  {
    if s != [] {
      AllSelected(s[..|s| - 1], flags[..|s| - 1], flag);
    }
  }

  /** With the finished entries at the end, selecting cuts the list in two. */
  lemma {:induction false} SuffixSelection<M>(s: seq<Entry<M>>, finished: seq<bool>, k: nat)
    requires |finished| == |s| && k <= |s|
    requires forall i | 0 <= i < |s| :: finished[i] <==> k <= i
    ensures Select(s, finished, false) == s[..k] && Select(s, finished, true) == s[k..]
    decreases |s|
  {
    if k == |s| {
      AllSelected(s, finished, false);
    } else {
      var last := |s| - 1;
      SuffixSelection(s[..last], finished[..last], k);
      CutAt(s, k);
    }
  }

  lemma CutAt<T>(s: seq<T>, k: nat)
    requires k < |s|
    ensures s[..|s| - 1][..k] == s[..k] && s[..|s| - 1][k..] + [s[|s| - 1]] == s[k..]
  {
  }

  lemma FinishedTail<M>(s: seq<Entry<M>>, finished: seq<bool>)
    requires |finished| == |s| && FinishedLast(finished)
    ensures Tail(s, finished) == Select(s, finished, true)
  {
    SplitPoint(s, finished);
    SuffixSelection(s, finished, |Select(s, finished, false)|);
  }

  lemma ShellInTail<M>(s: seq<Entry<M>>, finished: seq<bool>) returns (j: nat)
    requires |finished| == |s| && !FinishedLast(finished)
    ensures |Select(s, finished, false)| <= j < |s| && !finished[j]
    ensures MovedFrom(s[j]) in Tail(s, finished)
  {
    var k := |Select(s, finished, false)|;
    if forall j | k <= j < |s| :: finished[j] {
      AllFinished(s, finished, k);
      assert false;
    }
    j :| k <= j < |s| && !finished[j];
    assert Tail(s, finished)[j - k] == MovedFrom(s[j]);
  }

  /** The incoming list treats what lies behind the unfinished entries as the received messages. It is
      the received messages, in order, if and only if no entry still unfinished comes after a received
      one in the list. Otherwise it contains the shell of a message, and a received one is gone. */
  lemma TailIsReceivedIff<M>(s: seq<Entry<M>>, finished: seq<bool>)
    requires |finished| == |s| && forall i | 0 <= i < |s| :: s[i].message.Some?
    ensures Tail(s, finished) == Select(s, finished, true) <==> FinishedLast(finished)
    ensures !FinishedLast(finished) ==> exists e :: e in Tail(s, finished) && e.message.None?
  {
    if FinishedLast(finished) {
      FinishedTail(s, finished);
    } else {
      SelectedAreOriginals(s, finished, true);
      var j := ShellInTail(s, finished);
      assert MovedFrom(s[j]).message.None?;
    }
  }

  /** Exactly which received messages are lost, when each entry has its own request: those whose place is
      among the first k, where k entries are unfinished. The others are dispatched. */
  lemma LostExactly<M>(s: seq<Entry<M>>, finished: seq<bool>, j: nat)
    requires |finished| == |s| && j < |s| && finished[j]
    requires forall i, k | 0 <= i < k < |s| :: s[i].request != s[k].request
    ensures s[j] in Tail(s, finished) <==> Count(finished, false) <= j
  {
    SelectAt(s, finished, false, j);
    var first := |Select(s, finished, false)|;
    if first <= j {
      assert Tail(s, finished)[j - first] == s[j];
    } else {
      forall k | 0 <= k < |s| - first ensures Tail(s, finished)[k] != s[j] {
        assert Tail(s, finished)[k].request == s[first + k].request;
      }
    }
  }

  lemma {:induction false} SplitPoint<M>(s: seq<Entry<M>>, finished: seq<bool>)
    requires |finished| == |s| && FinishedLast(finished)
    ensures forall i | 0 <= i < |s| :: finished[i] <==> |Select(s, finished, false)| <= i
  {
    if s != [] {
      var last := |s| - 1;
      SplitPoint(s[..last], finished[..last]);
      if !finished[last] {
        SuffixSelection(s[..last], finished[..last], last);
      }
    }
  }

  lemma {:induction false} SelectedAreOriginals<M>(s: seq<Entry<M>>, flags: seq<bool>, flag: bool)
    requires |flags| == |s|
    ensures forall e | e in Select(s, flags, flag) :: e in s
  {
    if s != [] {
      SelectedAreOriginals(s[..|s| - 1], flags[..|s| - 1], flag);
    }
  }

  /** The smallest list on which it goes wrong: the first of two receives completes before the second. */
  lemma EarlierCompletionIsLost(first: Entry<nat>, second: Entry<nat>)
    requires first.message == Some(1) && second.message == Some(2)
    ensures Select([first, second], [true, false], true) == [first]
    ensures Tail([first, second], [true, false]) == [MovedFrom(second)]
  {
    assert [first, second][..1] == [first] && [true, false][..1] == [true];
    assert [first][..0] == [] && [true][..0] == [];
    assert Select([first, second], [true, false], false) == [second];
  }

  /** clean_outgoing_mpi_messages: the finished sends are erased, the others stay in order. */
  method CleanOutgoing<M>(list: seq<Entry<M>>, finished: seq<bool>) returns (rest: seq<Entry<M>>)
    requires |finished| == |list|
    ensures rest == Select(list, finished, false)
  {
    var a := new Entry<M>[|list|](i requires 0 <= i < |list| => list[i]);
    assert a[..] == list;
    var first := RemoveFinished(a, finished);
    rest := a[..first];
    assert rest == Select(list, finished, false);
  }

  /** clean_incoming_mpi_messages up to the dispatch: what stays in the list, and what is dispatched. */
  method TakeReceived<M>(list: seq<Entry<M>>, finished: seq<bool>)
    returns (rest: seq<Entry<M>>, dispatched: seq<Entry<M>>)
    requires |finished| == |list|
    ensures rest == Select(list, finished, false)
    ensures dispatched == Tail(list, finished)
  {
    var a := new Entry<M>[|list|](i requires 0 <= i < |list| => list[i]);
    assert a[..] == list;
    var first := RemoveFinished(a, finished);
    rest, dispatched := a[..first], a[first..];
    assert rest == Select(list, finished, false);
    assert dispatched == Tail(list, finished);
  }
}

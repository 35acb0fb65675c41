/** The implicit heap-shaped binary tree over the process ids 0 .. total-1. */
module ProcessTree {
  import opened Wrappers

  datatype ParentAndChildren = ParentAndChildren(self: int, parent: int, left: int, right: int)

  datatype TreeError = NegativeProcess | NegativeTotal | ProcessOutOfRange

  /** The links of one process; -1 stands for "no parent" and "no child". */
  function Links(p: int, total: int): (r: Result<ParentAndChildren, TreeError>)
    ensures r.Success? <==> 0 <= p < total
    ensures r == Failure(NegativeProcess) <==> p < 0
    ensures r == Failure(NegativeTotal) <==> p >= 0 && total < 0
    ensures r == Failure(ProcessOutOfRange) <==> 0 <= total <= p
  {
    if p < 0 then Failure(NegativeProcess)
    else if total < 0 then Failure(NegativeTotal)
    else if p + 1 > total then Failure(ProcessOutOfRange)
    else
      Success(ParentAndChildren(
                p,
                if p == 0 then -1 else if p % 2 == 0 then (p - 2) / 2 else (p - 1) / 2,
                if 2 * p + 1 < total then 2 * p + 1 else -1,
                if 2 * p + 2 < total then 2 * p + 2 else -1))
  }

  function Parent(q: nat): (p: nat)
    requires 0 < q
    ensures p < q && (q == 2 * p + 1 || q == 2 * p + 2)
  {
    (q - 1) / 2
  }

  /** The parent link and the child links are inverse to each other, for every pair of processes. */
  lemma LinksAreInverse(p: int, q: int, total: int)
    requires 0 <= p < total && 0 <= q < total
    ensures Links(q, total).value.parent == p <==>
            (Links(p, total).value.left == q || Links(p, total).value.right == q)
    ensures Links(q, total).value.parent == -1 <==> q == 0
    ensures 0 < q ==> Links(q, total).value.parent == Parent(q)
  {
  }

  /** a is q or lies above q. */
  predicate IsAncestor(a: nat, q: nat)
    decreases q
  {
    a == q || (a < q && IsAncestor(a, Parent(q)))
  }

  lemma {:induction false} RootIsAncestor(q: nat)
    ensures IsAncestor(0, q)
    decreases q
  {
    if q > 0 {
      RootIsAncestor(Parent(q));
    }
  }

  /** Below a means below one of its two children, and never below both. */
  lemma {:induction false} AncestorSplits(a: nat, q: nat)
    ensures IsAncestor(a, q) <==> a == q || IsAncestor(2 * a + 1, q) || IsAncestor(2 * a + 2, q)
    ensures !(IsAncestor(2 * a + 1, q) && IsAncestor(2 * a + 2, q))
    ensures IsAncestor(a, q) ==> a <= q
    decreases q
  {
    if q > 0 {
      AncestorSplits(a, Parent(q));
    }
  }

  // ---------------------------------------------------------------- the upward walk

  /** The nearest strictly higher process that satisfies pred, or -1. */
  function NearestAbove(q: nat, pred: nat -> bool): (r: int)
    ensures -1 <= r < q
    decreases q
  {
    if q == 0 then -1
    else if pred(Parent(q)) then Parent(q)
    else NearestAbove(Parent(q), pred)
  }

  /** No process strictly between p and q satisfies pred, and p lies above q. */
  predicate ClearPath(p: nat, q: nat, pred: nat -> bool)
    requires p < q
    decreases q
  {
    Parent(q) == p || (Parent(q) > p && !pred(Parent(q)) && ClearPath(p, Parent(q), pred))
  }

  /** NearestAbove in terms of ancestry: it is the contributing process above q with nothing
      contributing in between, and -1 exactly when no process above q contributes. */
  lemma {:induction false} NearestAboveMeaning(q: nat, pred: nat -> bool)
    ensures forall p: nat | p < q && pred(p) :: NearestAbove(q, pred) == p <==> ClearPath(p, q, pred)
    ensures NearestAbove(q, pred) >= 0 ==>
              pred(NearestAbove(q, pred)) && IsAncestor(NearestAbove(q, pred), q)
    ensures forall a: nat | a < q && IsAncestor(a, q) && pred(a) :: a <= NearestAbove(q, pred)
    decreases q
  {
    if q > 0 {
      NearestAboveMeaning(Parent(q), pred);
      forall a: nat | a < q && IsAncestor(a, q) ensures a <= Parent(q) && IsAncestor(a, Parent(q)) {
        AncestorSplits(a, Parent(q));
      }
      forall p: nat | p < q && pred(p) ensures NearestAbove(q, pred) == p <==> ClearPath(p, q, pred) {
      }
    }
  }

  lemma {:induction false} RootSeesAll(q: nat, pred: nat -> bool)
    requires 0 < q && !pred(0)
    ensures NearestAbove(q, pred) == -1 <==> ClearPath(0, q, pred)
    decreases q
  {
    if Parent(q) > 0 {
      RootSeesAll(Parent(q), pred);
    }
  }

  /** The upward loop, started anywhere. Only the process -1 or one in range is not an error. */
  method FindFirstParent(process: int, total: int, pred: nat -> bool)
    returns (r: Result<int, TreeError>)
    ensures r.Success? <==> process == -1 || 0 <= process < total
    ensures r.Failure? ==> r.error == Links(process, total).error
    ensures process == -1 ==> r.value == -1
    ensures 0 <= process < total ==> r.value == NearestAbove(process, pred)
  {
    var pid := process;
    while true
      invariant pid == process || -1 <= pid < total
      invariant process == -1 ==> pid == -1
      invariant pid != process ==> 0 <= process < total
      invariant 0 <= process < total && pid == -1 ==> NearestAbove(process, pred) == -1
      invariant 0 <= process < total && pid >= 0 ==> NearestAbove(process, pred) == NearestAbove(pid, pred)
      decreases pid
    {
      if pid == -1 {
        return Success(-1);
      }
      var pc := Links(pid, total);
      if pc.Failure? {
        return Failure(pc.error);
      }
      if pc.value.parent != -1 && pred(pc.value.parent) {
        return Success(pc.value.parent);
      }
      pid := pc.value.parent;
    }
  }

  // ---------------------------------------------------------------- the downward search

  /** The processes below p that satisfy pred and have nothing satisfying pred between p and them. */
  function FirstDescendants(p: nat, total: nat, pred: nat -> bool): set<nat> {
    set q: nat | p < q < total && pred(q) && ClearPath(p, q, pred)
  }

  /** Those of FirstDescendants that a search entering the subtree at q finds there. */
  function Frontier(q: nat, total: nat, pred: nat -> bool): set<nat>
    decreases if q < total then total - q else 0
  {
    if q >= total then {}
    else if pred(q) then {q}
    else Frontier(2 * q + 1, total, pred) + Frontier(2 * q + 2, total, pred)
  }

  lemma {:induction false} FrontierBelow(q: nat, total: nat, pred: nat -> bool, x: nat)
    requires x in Frontier(q, total, pred)
    ensures x < total && pred(x) && IsAncestor(q, x)
    ensures x != q ==> q < x && !pred(q) && ClearPath(q, x, pred)
    decreases if q < total then total - q else 0
  {
    if !pred(q) {
      var c := if x in Frontier(2 * q + 1, total, pred) then 2 * q + 1 else 2 * q + 2;
      FrontierBelow(c, total, pred, x);
      AncestorSplits(q, x);
      AncestorSplits(c, x);
      if x != c {
        ClearPathExtends(q, c, x, pred);
      }
    }
  }

  lemma {:induction false} ClearPathExtends(p: nat, c: nat, x: nat, pred: nat -> bool)
    requires p < c < x && Parent(c) == p && !pred(c)
    requires ClearPath(c, x, pred)
    ensures ClearPath(p, x, pred)
    decreases x
  {
    if Parent(x) != c {
      ClearPathExtends(p, c, Parent(x), pred);
    }
  }

  lemma {:induction false} FrontierComplete(q: nat, total: nat, pred: nat -> bool, x: nat)
    requires x < total && pred(x)
    requires x == q || (q < x && !pred(q) && ClearPath(q, x, pred))
    ensures x in Frontier(q, total, pred)
    decreases if q < total then total - q else 0
  {
    if x != q {
      var c := ChildTowards(q, x, pred);
      FrontierComplete(c, total, pred, x);
    }
  }

  /** The child of p on a clear path from p down to x. */
  lemma {:induction false} ChildTowards(p: nat, x: nat, pred: nat -> bool) returns (c: nat)
    requires p < x && ClearPath(p, x, pred)
    ensures p < c && Parent(c) == p
    ensures x == c || (c < x && !pred(c) && ClearPath(c, x, pred))
    decreases x
  {
    if Parent(x) == p {
      c := x;
    } else {
      c := ChildTowards(p, Parent(x), pred);
    }
  }

  lemma FrontierIsFirst(p: nat, c: nat, total: nat, pred: nat -> bool, x: nat)
    requires (c == 2 * p + 1 || c == 2 * p + 2) && x in Frontier(c, total, pred)
    ensures x in FirstDescendants(p, total, pred)
  {
    FrontierBelow(c, total, pred, x);
    if x != c {
      ClearPathExtends(p, c, x, pred);
    }
  }

  lemma InAFrontier(p: nat, total: nat, pred: nat -> bool, x: nat)
    ensures x in FirstDescendants(p, total, pred) <==>
            x in Frontier(2 * p + 1, total, pred) || x in Frontier(2 * p + 2, total, pred)
  {
    if x in FirstDescendants(p, total, pred) {
      var c := ChildTowards(p, x, pred);
      FrontierComplete(c, total, pred, x);
    }
    if x in Frontier(2 * p + 1, total, pred) {
      FrontierIsFirst(p, 2 * p + 1, total, pred, x);
    } else if x in Frontier(2 * p + 2, total, pred) {
      FrontierIsFirst(p, 2 * p + 2, total, pred, x);
    }
  }

  lemma FrontiersMakeFirstDescendants(p: nat, total: nat, pred: nat -> bool)
    ensures FirstDescendants(p, total, pred) ==
            Frontier(2 * p + 1, total, pred) + Frontier(2 * p + 2, total, pred)
    ensures Frontier(2 * p + 1, total, pred) !! Frontier(2 * p + 2, total, pred)
  {
    var l, r := Frontier(2 * p + 1, total, pred), Frontier(2 * p + 2, total, pred);
    forall x: nat ensures x in FirstDescendants(p, total, pred) <==> x in l + r {
      InAFrontier(p, total, pred, x);
    }
    forall x | x in l && x in r ensures false {
      FrontierBelow(2 * p + 1, total, pred, x);
      FrontierBelow(2 * p + 2, total, pred, x);
      AncestorSplits(p, x);
    }
  }

  /** Up and down agree: for a contributing p, and for a non-contributing root, the processes the
      downward search counts are exactly those whose upward walk ends there. */
  lemma UpDownDuality(p: nat, total: nat, pred: nat -> bool)
    ensures pred(p) ==>
              FirstDescendants(p, total, pred) ==
              set q: nat | q < total && pred(q) && NearestAbove(q, pred) == p
    ensures !pred(0) ==>
              FirstDescendants(0, total, pred) ==
              set q: nat | q < total && pred(q) && NearestAbove(q, pred) == -1
  {
    if pred(p) {
      forall q: nat | q < total && pred(q)
        ensures q in FirstDescendants(p, total, pred) <==> NearestAbove(q, pred) == p
      {
        NearestAboveMeaning(q, pred);
      }
    }
    if !pred(0) {
      forall q: nat | q < total && pred(q)
        ensures q in FirstDescendants(0, total, pred) <==> NearestAbove(q, pred) == -1
      {
        RootSeesAll(q, pred);
      }
    }
  }

  /** How many processes a search entering the subtree at q counts. */
  ghost function Found(q: nat, total: nat, pred: nat -> bool): nat {
    |Frontier(q, total, pred)|
  }

  lemma FoundSteps(q: nat, total: nat, pred: nat -> bool)
    ensures q >= total ==> Found(q, total, pred) == 0
    ensures q < total && pred(q) ==> Found(q, total, pred) == 1
    ensures q < total && !pred(q) ==>
              Found(q, total, pred) == Found(2 * q + 1, total, pred) + Found(2 * q + 2, total, pred)
    ensures |FirstDescendants(q, total, pred)| == Found(2 * q + 1, total, pred) + Found(2 * q + 2, total, pred)
  {
    FrontiersMakeFirstDescendants(q, total, pred);
  }

  /** What is still to be counted from the processes on the search stack. */
  ghost function Pending(stack: seq<nat>, total: nat, pred: nat -> bool): nat {
    if stack == [] then 0
    else Pending(stack[..|stack| - 1], total, pred) + Found(stack[|stack| - 1], total, pred)
  }

  /** A bound on the search steps still to come: the sizes of the subtrees on the stack. */
  ghost function SubtreeSize(q: nat, total: nat): nat
    decreases if q < total then total - q else 0
  {
    if q >= total then 0 else 1 + SubtreeSize(2 * q + 1, total) + SubtreeSize(2 * q + 2, total)
  }

  ghost function StackSize(stack: seq<nat>, total: nat): nat {
    if stack == [] then 0
    else StackSize(stack[..|stack| - 1], total) + SubtreeSize(stack[|stack| - 1], total)
  }

  lemma TopCounts(rest: seq<nat>, q: nat, total: nat, pred: nat -> bool)
    ensures Pending(rest + [q], total, pred) == Pending(rest, total, pred) + Found(q, total, pred)
    ensures StackSize(rest + [q], total) == StackSize(rest, total) + SubtreeSize(q, total)
  {
    assert (rest + [q])[..|rest|] == rest;
  }

  /** The children of x that exist. */
  function ExistingChildren(x: nat, total: nat): seq<nat> {
    (if 2 * x + 1 < total then [2 * x + 1] else []) + (if 2 * x + 2 < total then [2 * x + 2] else [])
  }

  /** The stack with the existing children of q pushed, left and then right. */
  function PushChildren(stack: seq<nat>, q: nat, total: nat): seq<nat> {
    stack + ExistingChildren(q, total)
  }

  lemma PushCounts(stack: seq<nat>, q: nat, total: nat, pred: nat -> bool)
    ensures Pending(PushChildren(stack, q, total), total, pred) ==
            Pending(stack, total, pred) + Found(2 * q + 1, total, pred) + Found(2 * q + 2, total, pred)
    ensures StackSize(PushChildren(stack, q, total), total) ==
            StackSize(stack, total) + SubtreeSize(2 * q + 1, total) + SubtreeSize(2 * q + 2, total)
  {
    var s1 := if 2 * q + 1 < total then stack + [2 * q + 1] else stack;
    if 2 * q + 1 < total {
      TopCounts(stack, 2 * q + 1, total, pred);
    }
    if 2 * q + 2 < total {
      TopCounts(s1, 2 * q + 2, total, pred);
    }
    assert PushChildren(stack, q, total) == if 2 * q + 2 < total then s1 + [2 * q + 2] else s1;
    FoundSteps(2 * q + 1, total, pred);
    FoundSteps(2 * q + 2, total, pred);
  }

  /** What one turn of the search does to the count. */
  lemma SearchTurn(stack: seq<nat>, total: nat, pred: nat -> bool)
    requires stack != [] && stack[|stack| - 1] < total
    ensures var rest, current := stack[..|stack| - 1], stack[|stack| - 1];
            && Pending(stack, total, pred) ==
               (if pred(current) then 1 + Pending(rest, total, pred)
                else Pending(PushChildren(rest, current, total), total, pred))
            && StackSize(rest, total) < StackSize(stack, total)
            && StackSize(PushChildren(rest, current, total), total) < StackSize(stack, total)
  {
    var rest, current := stack[..|stack| - 1], stack[|stack| - 1];
    PushCounts(rest, current, total, pred);
    FoundSteps(current, total, pred);
  }

  predicate AllBelow(list: seq<nat>, total: int) {
    forall k | 0 <= k < |list| :: list[k] < total
  }

  /** Appends the children that exist; added tells whether there is one. */
  method PushExisting(stack: seq<nat>, pc: ParentAndChildren, total: int) returns (longer: seq<nat>, added: bool)
    requires 0 <= pc.self < total && Links(pc.self, total) == Success(pc)
    ensures longer == PushChildren(stack, pc.self, total) && (added <==> |longer| > |stack|)
    ensures AllBelow(stack, total) ==> AllBelow(longer, total)
  {
    longer, added := stack, false;
    if pc.left != -1 {
      longer, added := longer + [pc.left], true;
    }
    if pc.right != -1 {
      longer, added := longer + [pc.right], true;
    }
  }

  /** The depth-first search with an explicit stack. */
  method CountFirstDescendants(process: int, total: int, pred: nat -> bool)
    returns (r: Result<nat, TreeError>)
    ensures r.Success? <==> 0 <= process < total
    ensures r.Failure? ==> r.error == Links(process, total).error
    ensures r.Success? ==> r.value == |FirstDescendants(process, total, pred)|
  {
    var pc := Links(process, total);
    if pc.Failure? {
      return Failure(pc.error);
    }
    var count: nat := 0;
    var stack: seq<nat>, _ := PushExisting([], pc.value, total);
    PushCounts([], process, total, pred);
    ghost var goal := Pending(stack, total, pred);
    while stack != []
      invariant AllBelow(stack, total)
      invariant count + Pending(stack, total, pred) == goal
      decreases StackSize(stack, total)
    {
      SearchTurn(stack, total, pred);
      var current: nat := stack[|stack| - 1];
      stack := stack[..|stack| - 1];
      if pred(current) {
        count := count + 1;
        continue;
      }
      var longer, _ := PushExisting(stack, Links(current, total).value, total);
      stack := longer;
    }
    FoundSteps(process, total, pred);
    return Success(count);
  }

  // ---------------------------------------------------------------- the subtree of a process

  predicate StrictlyIncreasing(s: seq<nat>) {
    forall i, j | 0 <= i < j < |s| :: s[i] < s[j]
  }

  /** The first done elements of the list have their children in it too, and everything in the list
      is there because its parent is p or one of those. */
  ghost predicate Expanded(s: seq<nat>, done: nat, p: nat, total: nat)
    requires done <= |s|
  {
    && (forall q: nat :: q in s <==> p < q < total && (Parent(q) == p || Parent(q) in s[..done]))
    && StrictlyIncreasing(s)
    && (forall k | 0 <= k < |s| :: s[k] <= if done == 0 then 2 * p + 2 else 2 * s[done - 1] + 2)
    && (forall k | 0 <= k < |s| :: p < s[k])
  }

  lemma {:induction false} FullyExpanded(s: seq<nat>, p: nat, total: nat, q: nat)
    requires Expanded(s, |s|, p, total)
    ensures q in s <==> p < q < total && IsAncestor(p, q)
    decreases q
  {
    assert s[..|s|] == s;
    AncestorSplits(p, q);
    if p < q {
      FullyExpanded(s, p, total, Parent(q));
    }
  }

  lemma ExpandMembers(s: seq<nat>, done: nat, p: nat, total: nat)
    requires done < |s| && Expanded(s, done, p, total) && p < total
    ensures forall q: nat :: q in s + ExistingChildren(s[done], total) <==>
              p < q < total && (Parent(q) == p || Parent(q) in s[..done + 1])
  {
    assert s[..done + 1] == s[..done] + [s[done]];
    forall q: nat ensures q in ExistingChildren(s[done], total) <==> 0 < q < total && Parent(q) == s[done] {
    }
  }

  lemma ExpandNext(s: seq<nat>, done: nat, p: nat, total: nat, s': seq<nat>)
    requires done < |s| && Expanded(s, done, p, total) && p < total && s' == PushChildren(s, s[done], total)
    ensures Expanded(s', done + 1, p, total)
  {
    ExpandMembers(s, done, p, total);
    assert s'[..done + 1] == s[..done + 1];
    assert forall k | 0 <= k < |s| :: s[k] <= 2 * s[done] by {
      if done > 0 {
        assert s[done - 1] < s[done];
      }
    }
  }

  lemma {:induction false} IncreasingIsShort(s: seq<nat>, bound: nat)
    requires StrictlyIncreasing(s) && forall k | 0 <= k < |s| :: s[k] < bound
    ensures |s| <= bound
  {
    if |s| > 0 {
      var last := |s| - 1;
      IncreasingIsShort(s[..last], s[last]);
    }
  }

  lemma ExpandedIsShort(s: seq<nat>, done: nat, p: nat, total: nat)
    requires done <= |s| && Expanded(s, done, p, total) && 0 < total
    ensures |s| <= total
  {
    forall k | 0 <= k < |s| ensures s[k] < total {
      assert s[k] in s;
    }
    IncreasingIsShort(s, total);
  }

  lemma ExpandedIsSubtree(s: seq<nat>, p: nat, total: nat)
    requires Expanded(s, |s|, p, total)
    ensures forall q: nat :: q in s <==> p < q < total && IsAncestor(p, q)
  {
    forall q: nat ensures q in s <==> p < q < total && IsAncestor(p, q) {
      FullyExpanded(s, p, total, q);
    }
  }

  lemma ElementBelow(s: seq<nat>, done: nat, p: nat, total: nat, i: nat)
    requires done <= |s| && i < |s| && Expanded(s, done, p, total)
    ensures s[i] < total
  {
    assert s[i] in s;
  }

  lemma ExpandedStart(p: nat, total: nat)
    ensures Expanded(PushChildren([], p, total), 0, p, total)
  {
  }

  /** Appends the children of the layer that begins at start. */
  method ExpandLayer(list: seq<nat>, start: nat, process: nat, total: nat) returns (result: seq<nat>, someAdded: bool)
    requires start <= |list| && process < total && Expanded(list, start, process, total)
    ensures |list| <= |result| && (someAdded <==> |list| < |result|)
    ensures Expanded(result, |list|, process, total)
  {
    result, someAdded := list, false;
    for i := start to |list|
      invariant |list| <= |result| && (someAdded <==> |list| < |result|)
      invariant Expanded(result, i, process, total)
    {
      ElementBelow(result, i, process, total, i);
      var longer, added := PushExisting(result, Links(result[i], total).value, total);
      ExpandNext(result, i, process, total, longer);
      result, someAdded := longer, someAdded || added;
    }
  }

  /** Layer by layer; the result is the strict descendants of the process, each once and in order. */
  method ChildrenInSubtree(process: int, total: int)
    returns (r: Result<seq<nat>, TreeError>)
    ensures r.Success? <==> 0 <= process < total
    ensures r.Failure? ==> r.error == Links(process, total).error
    ensures r.Success? ==> StrictlyIncreasing(r.value)
    ensures r.Success? ==> forall q: nat :: q in r.value <==> process < q < total && IsAncestor(process, q)
  {
    var pc0 := Links(process, total);
    if pc0.Failure? {
      return Failure(pc0.error);
    }
    ExpandedStart(process, total);
    var result: seq<nat>, _ := PushExisting([], pc0.value, total);
    var start := 0;
    while true
      invariant 0 <= start <= |result|
      invariant Expanded(result, start, process, total)
      decreases total - |result|
    {
      ExpandedIsShort(result, start, process, total);
      var longer, someAdded := ExpandLayer(result, start, process, total);
      ExpandedIsShort(longer, |result|, process, total);
      if !someAdded {
        ExpandedIsSubtree(longer, process, total);
        return Success(longer);
      }
      start, result := |result|, longer;
    }
  }
}

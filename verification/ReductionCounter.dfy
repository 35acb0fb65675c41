/** The table of reduction::detail::Counter: its construction, and the probing loop of increment. The loop
    starts at the key and runs until the index is the key minus one, but the index is masked and the
    bound is not. */
module ReductionCounter {
  import opened Arithmetic
  import opened Wrappers
  import opened ProbeTable

  datatype CounterError = NotPowerOfTwo

  /** The constructor accepts exactly the powers of two; all keys and counters are 0. */
  method NewCounter(maxEntries: nat) returns (r: Result<seq<Slot<int>>, CounterError>)
    ensures r.Success? <==> IsPow2(maxEntries)
    ensures r.Success? ==> |r.value| == maxEntries && forall i | 0 <= i < maxEntries :: r.value[i] == Slot(0, 0)
  {
    if maxEntries == 0 {
      return Failure(NotPowerOfTwo);
    }
    PowerOfTwoTest(maxEntries);
    if BitAnd(maxEntries, maxEntries - 1) != 0 {
      return Failure(NotPowerOfTwo);
    }
    return Success(seq(maxEntries, _ => Slot(0, 0)));
  }

  /** The answer of the search; StillProbing if it was watched for too few looks. */
  datatype Answer = KeyIsZero | At(slot: nat) | ContainerFull | StillProbing

  /** Only for small keys can the masked index ever be the key minus one. */
  predicate GivesUp(key: nat, n: nat) {
    2 <= key <= n + 1
  }

  /** How many slots the loop looks at before it gives up; or how many there are. */
  function Limit(key: nat, n: nat): nat
    requires 0 < n
  {
    if GivesUp(key, n) && n > 1 then n - 1 else n
  }

  predicate Usable<M>(s: seq<Slot<M>>, key: nat, i: nat)
    requires i < |s|
  {
    s[i].id == key || s[i].id == 0
  }

  /** None of the first c slots in probe order is usable. */
  predicate NoneWithin<M>(s: seq<Slot<M>>, key: nat, c: nat)
    requires c <= |s|
  {
    forall d: nat | d < c :: !Usable(s, key, Probe(key, d, |s|))
  }

  /** No slot the search looks at within so many looks is usable. */
  predicate StillLooking<M>(s: seq<Slot<M>>, key: nat, looks: nat)
    requires 0 < |s|
  {
    NoneWithin(s, key, if looks < Limit(key, |s|) then looks else Limit(key, |s|))
  }

  /** Every slot holds another key, but for the one before the key's home slot if that is another slot. */
  predicate OthersTaken<M>(s: seq<Slot<M>>, key: nat)
    requires 0 < |s| && 0 < key
  {
    forall i: nat | i < |s| && (|s| == 1 || i != (key - 1) % |s|) :: !Usable(s, key, i)
  }

  /** The loop condition after the c-th slot. */
  lemma ExitTest(key: nat, c: nat, n: nat)
    requires 0 < key && 0 < c <= n
    ensures Probe(key, c - 1, n) + 1 == key - 1 <==> GivesUp(key, n) && c == Limit(key, n)
  {
    if GivesUp(key, n) {
      RemainderUnique(key, n, if key < n then 0 else if n == 1 then key else 1,
                      if key < n then key else if n == 1 then 0 else key - n);
      ProbeVisitsAll(key, key - 2, c - 1, n);
    }
  }

  /** The slot that is never looked at by a search that gives up is the one before the home slot, if there
      is more than one. */
  lemma GivesUpOnOthers<M>(s: seq<Slot<M>>, key: nat)
    requires 0 < |s| && 0 < key && GivesUp(key, |s|)
    ensures NoneWithin(s, key, Limit(key, |s|)) <==> OthersTaken(s, key)
  {
    var n := |s|;
    if n > 1 {
      RemainderUnique(key, n, if key < n then 0 else 1, if key < n then key else key - n);
      RemainderUnique(key - 1, n, if key - 1 < n then 0 else 1, if key - 1 < n then key - 1 else key - 1 - n);
    }
    forall i: nat | i < n ensures Dist(key, i, n) < Limit(key, n) <==> n == 1 || i != (key - 1) % n {
    }
    if NoneWithin(s, key, Limit(key, n)) {
      forall i: nat | i < n && (n == 1 || i != (key - 1) % n) ensures !Usable(s, key, i) {
        assert !Usable(s, key, Probe(key, Dist(key, i, n), n));
      }
    }
    if OthersTaken(s, key) {
      forall d: nat | d < Limit(key, n) ensures !Usable(s, key, Probe(key, d, n)) {
        ProbeVisitsAll(key, Probe(key, d, n), d, n);
      }
    }
  }

  lemma AllVisited<M>(s: seq<Slot<M>>, key: nat)
    ensures NoneWithin(s, key, |s|) <==> forall i: nat | i < |s| :: !Usable(s, key, i)
  {
    if NoneWithin(s, key, |s|) {
      forall i: nat | i < |s| ensures !Usable(s, key, i) {
        assert !Usable(s, key, Probe(key, Dist(key, i, |s|), |s|));
      }
    }
  }

  /** How far the loop has come after `looked` slots: the next one is number p in probe order. */
  ghost predicate Probing<M>(s: seq<Slot<M>>, key: nat, index: nat, looked: nat, p: nat)
    requires 0 < |s|
  {
    && p < |s| && (looked < |s| ==> p == looked)
    && index == (if looked == 0 then key else Probe(key, if p == 0 then |s| - 1 else p - 1, |s|) + 1)
    && (GivesUp(key, |s|) ==> looked <= Limit(key, |s|))
    && NoneWithin(s, key, if looked < |s| then looked else |s|)
  }

  /** The loop ends after exactly Limit slots, and only if the key is small. */
  lemma ProbingEnds<M>(s: seq<Slot<M>>, key: nat, index: nat, looked: nat, p: nat)
    requires 0 < |s| && 0 < key && Probing(s, key, index, looked, p)
    ensures index == key - 1 <==> GivesUp(key, |s|) && looked == Limit(key, |s|)
  {
    if looked > 0 {
      ExitTest(key, if p == 0 then |s| else p, |s|);
    }
  }

  /** The slot the masked index means. */
  lemma ProbingLooksAt<M>(s: seq<Slot<M>>, key: nat, index: nat, looked: nat, p: nat)
    requires IsPow2(|s|) && Probing(s, key, index, looked, p)
    ensures BitAnd(index, |s| - 1) == Probe(key, p, |s|)
  {
    if looked == 0 {
      ProbeStart(key, |s|);
    } else {
      ProbeNext(index, |s|);
    }
  }

  /** The loop finds a usable slot. */
  lemma ProbingFinds<M>(s: seq<Slot<M>>, key: nat, index: nat, looked: nat, p: nat, looks: nat)
    requires 0 < |s| && 0 < key && Probing(s, key, index, looked, p) && index != key - 1 && looked < looks
    requires StopFrom(s, key, if looked < |s| then looked else |s|) == StopFrom(s, key, 0)
    requires Usable(s, key, Probe(key, p, |s|))
    ensures var i := Probe(key, p, |s|);
            && StopFrom(s, key, 0) == Some(i) && Dist(key, i, |s|) == p < Limit(key, |s|)
            && !(GivesUp(key, |s|) && OthersTaken(s, key)) && !StillLooking(s, key, looks)
  {
    ProbingEnds(s, key, index, looked, p);
    ProbeVisitsAll(key, Probe(key, p, |s|), p, |s|);
    if GivesUp(key, |s|) {
      GivesUpOnOthers(s, key);
    }
  }

  /** The loop goes on to the next slot. */
  lemma ProbingGoesOn<M>(s: seq<Slot<M>>, key: nat, index: nat, looked: nat, p: nat)
    requires 0 < |s| && 0 < key && Probing(s, key, index, looked, p) && index != key - 1
    requires !Usable(s, key, Probe(key, p, |s|))
    ensures Probing(s, key, Probe(key, p, |s|) + 1, looked + 1, if p + 1 == |s| then 0 else p + 1)
    ensures StopFrom(s, key, if looked < |s| then looked else |s|) ==
            StopFrom(s, key, if looked + 1 < |s| then looked + 1 else |s|)
  {
    ProbingEnds(s, key, index, looked, p);
  }

  /** The loop ends, or is watched no longer. */
  lemma ProbingStops<M>(s: seq<Slot<M>>, key: nat, index: nat, looked: nat, p: nat, looks: nat)
    requires 0 < |s| && 0 < key && Probing(s, key, index, looked, p) && looked <= looks
    requires index == key - 1 || looked == looks
    ensures index == key - 1 <==> GivesUp(key, |s|) && looks >= Limit(key, |s|) && OthersTaken(s, key)
    ensures index != key - 1 <==> StillLooking(s, key, looks) && (looks < Limit(key, |s|) || !GivesUp(key, |s|))
  {
    ProbingEnds(s, key, index, looked, p);
    if GivesUp(key, |s|) {
      GivesUpOnOthers(s, key);
    }
  }

  /** The search for the slot of a key, watched for a number of looks, in a table that nobody changes
      meanwhile. It gives the first usable slot. It reports a full container if and only if the key is
      small and every slot it looks at holds another key: in a table of one slot that one, and else all
      but the one before the home slot. For any other key and a table without a usable slot it goes on
      for ever. */
  method FindSlot<M>(s: seq<Slot<M>>, key: nat, looks: nat) returns (r: Answer)
    requires IsPow2(|s|)
    ensures r == KeyIsZero <==> key == 0
    ensures r.At? ==> StopFrom(s, key, 0) == Some(r.slot) && Dist(key, r.slot, |s|) < Limit(key, |s|)
    ensures r == ContainerFull <==> key != 0 && GivesUp(key, |s|) && looks >= Limit(key, |s|) && OthersTaken(s, key)
    ensures r == StillProbing <==>
              key != 0 && StillLooking(s, key, looks) && (looks < Limit(key, |s|) || !GivesUp(key, |s|))
  {
    if key == 0 {
      return KeyIsZero;
    }
    var index := key;
    var looked := 0;
    ghost var p: nat := 0;
    while index != key - 1 && looked < looks
      invariant looked <= looks && Probing(s, key, index, looked, p)
      invariant StopFrom(s, key, if looked < |s| then looked else |s|) == StopFrom(s, key, 0)
      decreases looks - looked
    {
      ghost var before := index;
      ProbingLooksAt(s, key, index, looked, p);
      index := BitAnd(index, |s| - 1);
      if Usable(s, key, index) {
        ProbingFinds(s, key, before, looked, p, looks);
        return At(index);
      }
      ProbingGoesOn(s, key, before, looked, p);
      index, looked := index + 1, looked + 1;
      p := if p + 1 == |s| then 0 else p + 1;
    }
    ProbingStops(s, key, index, looked, p, looks);
    return if index == key - 1 then ContainerFull else StillProbing;
  }

  /** So a container of four slots with a free one is reported full for key 5. */
  lemma FullWithFreeSlot(a: Slot<int>, b: Slot<int>, c: Slot<int>)
    requires a.id == 1 && b.id == 2 && c.id == 3
    ensures var s := [Slot(0, 0), a, b, c];
            GivesUp(5, |s|) && Usable(s, 5, 0) && OthersTaken(s, 5)
  {
  }

  /** For any other key the search looks at every slot, so if and only if none is usable there is no
      number of looks after which it has ended. */
  lemma LargeKeysNeverEnd<M>(s: seq<Slot<M>>, key: nat)
    requires 0 < |s| && !GivesUp(key, |s|)
    ensures (forall looks: nat :: StillLooking(s, key, looks)) <==> forall i: nat | i < |s| :: !Usable(s, key, i)
  {
    AllVisited(s, key);
    if forall looks: nat :: StillLooking(s, key, looks) {
      assert StillLooking(s, key, |s|);
    }
  }
}

/** broadcast_to: one packed message per remote process with the ids of the matching elements, filled
    in a second pass over the collection after a first one counted them. */
module BroadcastTo {
  import opened Arithmetic
  import opened Wrappers
  import opened Bytes
  import opened Collections

  const HEADER_SIZE := 64

  /** A BroadcastTo message: the parts of the header that matter here, and all bytes. The metadata words
      after the header are the target process, the number of ids so far, and the ids. */
  datatype Packet = Packet(destination: nat, dataOffset: nat, alignment: nat, bytes: seq<byte>)

  /** PastTheEnd stands for a read behind the last byte, which the code does not prevent. */
  datatype PacketError = WrongProcess | TooManyElements | UnknownElement | PastTheEnd

  // ---------------------------------------------------------------- layout

  /** The offset of the data as the code computes it, in 32-bit unsigned arithmetic. */
  function DataOffset(count: nat, alignment: nat): nat
    requires 0 < alignment
  {
    var extra := 8 * (2 + count) % TWO32;
    (HEADER_SIZE + extra + (alignment - (HEADER_SIZE + extra) % alignment)) % TWO32
  }

  /** Rounding up to the next multiple, never to the number itself. */
  lemma NextMultiple(end: nat, alignment: nat)
    requires 0 < alignment
    ensures (end + (alignment - end % alignment)) % alignment == 0
    ensures end < end + (alignment - end % alignment) <= end + alignment
  {
    var q := end / alignment;
    assert end + (alignment - end % alignment) == alignment * (q + 1);
    RemainderUnique(alignment * (q + 1), alignment, q + 1, 0);
  }

  /** The data starts aligned, behind all the slots, with at most one alignment of padding. */
  lemma DataBehindSlots(count: nat, alignment: nat)
    requires 0 < alignment && HEADER_SIZE + 8 * (2 + count) + alignment < TWO32
    ensures DataOffset(count, alignment) % alignment == 0
    ensures HEADER_SIZE + 8 * (2 + count) < DataOffset(count, alignment) <= HEADER_SIZE + 8 * (2 + count) + alignment
  {
    var extra := 8 * (2 + count);
    RemainderUnique(extra, TWO32, 0, extra);
    var end := HEADER_SIZE + extra;
    NextMultiple(end, alignment);
    var offset := end + (alignment - end % alignment);
    RemainderUnique(offset, TWO32, 0, offset);
  }

  /** create_broadcast_to_message; memory is what the fresh allocation happens to contain. */
  function NewPacket(pid: nat, count: nat, alignment: nat, data: seq<byte>, memory: seq<byte>): Packet
    requires 0 < alignment && HEADER_SIZE + 8 * (2 + count) + alignment < TWO32
    requires |memory| == DataOffset(count, alignment) + |data|
  {
    DataBehindSlots(count, alignment);
    var offset := DataOffset(count, alignment);
    var b := PutWord(PutWord(memory, HEADER_SIZE, pid), HEADER_SIZE + 8, 0);
    Packet(pid, offset, alignment, b[..offset] + data)
  }

  /** Writing one more id, as the filling pass does. */
  function Fill(p: Packet, id: nat): Packet
    requires HEADER_SIZE + 16 <= |p.bytes| && HEADER_SIZE + 8 * (3 + Word(p.bytes, HEADER_SIZE + 8)) <= |p.bytes|
  {
    var n := Word(p.bytes, HEADER_SIZE + 8);
    var b := PutWord(p.bytes, HEADER_SIZE + 8 * (2 + n), id);
    p.(bytes := PutWord(b, HEADER_SIZE + 8, n + 1))
  }

  /** The packet is for pid, has room for count ids, lists these ids, and carries the data aligned. */
  predicate Holds(p: Packet, pid: nat, count: nat, ids: seq<nat>, alignment: nat, data: seq<byte>) {
    && p.destination == pid && p.alignment == alignment > 0 && p.dataOffset % alignment == 0
    && HEADER_SIZE + 8 * (2 + count) <= p.dataOffset
    && |p.bytes| == p.dataOffset + |data| && p.bytes[p.dataOffset..] == data
    && |ids| <= count
    && Word(p.bytes, HEADER_SIZE) == pid && Word(p.bytes, HEADER_SIZE + 8) == |ids|
    && forall k | 0 <= k < |ids| :: Word(p.bytes, HEADER_SIZE + 8 * (2 + k)) == ids[k]
  }

  lemma NewPacketHolds(pid: nat, count: nat, alignment: nat, data: seq<byte>, memory: seq<byte>)
    requires 0 < alignment && HEADER_SIZE + 8 * (2 + count) + alignment < TWO32
    requires |memory| == DataOffset(count, alignment) + |data| && pid < TWO64
    ensures Holds(NewPacket(pid, count, alignment, data, memory), pid, count, [], alignment, data)
  {
    DataBehindSlots(count, alignment);
    var p := NewPacket(pid, count, alignment, data, memory);
    var b := PutWord(memory, HEADER_SIZE, pid);
    PutThenWord(memory, HEADER_SIZE, pid);
    PutElsewhere(b, HEADER_SIZE + 8, 0, HEADER_SIZE, HEADER_SIZE + 8);
    PutThenWord(b, HEADER_SIZE + 8, 0);
    assert p.bytes[HEADER_SIZE..HEADER_SIZE + 8] == PutWord(b, HEADER_SIZE + 8, 0)[HEADER_SIZE..HEADER_SIZE + 8];
    assert p.bytes[HEADER_SIZE + 8..HEADER_SIZE + 16] ==
           PutWord(b, HEADER_SIZE + 8, 0)[HEADER_SIZE + 8..HEADER_SIZE + 16];
  }

  /** The two writes of one id leave every other range of bytes alone. */
  lemma FillElsewhere(p: Packet, id: nat, lo: nat, hi: nat)
    requires Fill.requires(p, id) && Word(p.bytes, HEADER_SIZE + 8) < TWO32 && id < TWO64
    requires lo <= hi <= |p.bytes| && (hi <= HEADER_SIZE + 8 || HEADER_SIZE + 16 <= lo)
    requires var at := HEADER_SIZE + 8 * (2 + Word(p.bytes, HEADER_SIZE + 8)); hi <= at || at + 8 <= lo
    ensures Fill(p, id).bytes[lo..hi] == p.bytes[lo..hi]
  {
    var n := Word(p.bytes, HEADER_SIZE + 8);
    var at := HEADER_SIZE + 8 * (2 + n);
    var b := PutWord(p.bytes, at, id);
    PutElsewhere(p.bytes, at, id, lo, hi);
    PutElsewhere(b, HEADER_SIZE + 8, n + 1, lo, hi);
  }

  lemma FillWrites(p: Packet, id: nat)
    requires Fill.requires(p, id) && Word(p.bytes, HEADER_SIZE + 8) < TWO32 && id < TWO64
    ensures var n := Word(p.bytes, HEADER_SIZE + 8);
            && |Fill(p, id).bytes| == |p.bytes|
            && Word(Fill(p, id).bytes, HEADER_SIZE + 8) == n + 1
            && Word(Fill(p, id).bytes, HEADER_SIZE + 8 * (2 + n)) == id
  {
    var n := Word(p.bytes, HEADER_SIZE + 8);
    var at := HEADER_SIZE + 8 * (2 + n);
    var b := PutWord(p.bytes, at, id);
    PutThenWord(p.bytes, at, id);
    PutThenWord(b, HEADER_SIZE + 8, n + 1);
    PutElsewhere(b, HEADER_SIZE + 8, n + 1, at, at + 8);
  }

  /** Filling a slot that was counted overwrites neither another slot nor the data. */
  lemma FillAppends(p: Packet, pid: nat, count: nat, ids: seq<nat>, alignment: nat, data: seq<byte>, id: nat)
    requires Holds(p, pid, count, ids, alignment, data) && |ids| < count && id < TWO64 && count < TWO32
    ensures Holds(Fill(p, id), pid, count, ids + [id], alignment, data)
  {
    var q := Fill(p, id);
    FillWrites(p, id);
    FillElsewhere(p, id, HEADER_SIZE, HEADER_SIZE + 8);
    FillElsewhere(p, id, p.dataOffset, |p.bytes|);
    forall k | 0 <= k < |ids| ensures Word(q.bytes, HEADER_SIZE + 8 * (2 + k)) == ids[k] {
      var slot := HEADER_SIZE + 8 * (2 + k);
      FillElsewhere(p, id, slot, slot + 8);
    }
  }

  // ---------------------------------------------------------------- the two passes

  /** The matching elements of process p, in iteration order. */
  function Chosen(order: seq<nat>, owners: map<nat, nat>, p: nat, pred: nat -> bool): (r: seq<nat>)
    requires forall id | id in order :: id in owners
    ensures |r| <= |order|
    ensures forall id | id in r :: id in order
  {
    if order == [] then []
    else
      var id := order[|order| - 1];
      Chosen(order[..|order| - 1], owners, p, pred) + if pred(id) && owners[id] == p then [id] else []
  }

  lemma {:induction false} ChosenMeaning(order: seq<nat>, owners: map<nat, nat>, p: nat, pred: nat -> bool)
    requires NoDuplicates(order) && forall id | id in order :: id in owners
    ensures NoDuplicates(Chosen(order, owners, p, pred))
    ensures forall id :: id in Chosen(order, owners, p, pred) <==> id in order && owners[id] == p && pred(id)
  {
    if order != [] {
      ChosenMeaning(order[..|order| - 1], owners, p, pred);
      assert order[|order| - 1] !in order[..|order| - 1];
    }
  }

  /** Whatever order the two passes iterate in, they see as many elements of each process. */
  lemma PassesAgree(first: seq<nat>, second: seq<nat>, owners: map<nat, nat>, p: nat, pred: nat -> bool)
    requires Enumerates(first, owners) && Enumerates(second, owners)
    ensures |Chosen(first, owners, p, pred)| == |Chosen(second, owners, p, pred)|
  {
    ChosenMeaning(first, owners, p, pred);
    ChosenMeaning(second, owners, p, pred);
    DistinctLength(Chosen(first, owners, p, pred));
    DistinctLength(Chosen(second, owners, p, pred));
    assert Elements(Chosen(first, owners, p, pred)) == Elements(Chosen(second, owners, p, pred));
  }

  lemma ChosenNext(order: seq<nat>, owners: map<nat, nat>, i: nat, p: nat, pred: nat -> bool)
    requires i < |order| && forall id | id in order :: id in owners
    ensures Chosen(order[..i + 1], owners, p, pred) ==
            Chosen(order[..i], owners, p, pred) + if pred(order[i]) && owners[order[i]] == p then [order[i]] else []
  {
    assert order[..i + 1][..i] == order[..i];
  }

  lemma {:induction false} ChosenPrefix(order: seq<nat>, owners: map<nat, nat>, i: nat, p: nat, pred: nat -> bool)
    requires i <= |order| && forall id | id in order :: id in owners
    ensures |Chosen(order[..i], owners, p, pred)| <= |Chosen(order, owners, p, pred)|
    decreases |order| - i
  {
    if i < |order| {
      ChosenNext(order, owners, i, p, pred);
      ChosenPrefix(order, owners, i + 1, p, pred);
    } else {
      assert order[..i] == order;
    }
  }

  method ComputeElementsPerPid(order: seq<nat>, owners: map<nat, nat>, processes: nat, pred: nat -> bool)
    returns (counts: seq<nat>)
    requires Enumerates(order, owners) && forall id | id in owners :: owners[id] < processes
    ensures |counts| == processes
    ensures forall p: nat | p < processes :: counts[p] == |Chosen(order, owners, p, pred)|
  {
    counts := seq(processes, _ => 0);
    for i := 0 to |order|
      invariant |counts| == processes
      invariant forall p: nat | p < processes :: counts[p] == |Chosen(order[..i], owners, p, pred)|
    {
      forall p: nat | p < processes
        ensures |Chosen(order[..i + 1], owners, p, pred)| ==
                |Chosen(order[..i], owners, p, pred)| + if pred(order[i]) && owners[order[i]] == p then 1 else 0
      {
        ChosenNext(order, owners, i, p, pred);
      }
      if pred(order[i]) {
        counts := counts[owners[order[i]] := counts[owners[order[i]]] + 1];
      }
    }
    assert order[..|order|] == order;
  }

  /** What a sender has for process p after i elements of the filling pass. */
  predicate Progress(m: Option<Packet>, p: nat, self: nat, count: nat, ids: seq<nat>, alignment: nat, data: seq<byte>) {
    if p == self || count == 0 then m == None
    else m.Some? && Holds(m.value, p, count, ids, alignment, data)
  }

  /** The bounds on sizes of the 32- and 64-bit fields. */
  predicate Fits(owners: map<nat, nat>, alignment: nat) {
    && 0 < alignment && HEADER_SIZE + 8 * (2 + |owners|) + alignment < TWO32
    && forall id | id in owners :: id < TWO64 && owners[id] < TWO64
  }

  lemma ChosenBounded(order: seq<nat>, owners: map<nat, nat>, p: nat, pred: nat -> bool)
    requires Enumerates(order, owners)
    ensures |Chosen(order, owners, p, pred)| <= |owners|
  {
    DistinctLength(order);
    assert Elements(order) == owners.Keys;
  }

  /** The messages of the creating pass: none for this process or one without matching elements. */
  method CreateMessages(counts: seq<nat>, self: nat, alignment: nat, data: seq<byte>, memory: nat -> byte)
    returns (messages: seq<Option<Packet>>)
    requires 0 < alignment && |counts| < TWO64
    requires forall p | 0 <= p < |counts| :: HEADER_SIZE + 8 * (2 + counts[p]) + alignment < TWO32
    ensures |messages| == |counts|
    ensures forall p: nat | p < |counts| :: Progress(messages[p], p, self, counts[p], [], alignment, data)
  {
    messages := [];
    for pid := 0 to |counts|
      invariant |messages| == pid
      invariant forall p: nat | p < pid :: Progress(messages[p], p, self, counts[p], [], alignment, data)
    {
      if counts[pid] == 0 || pid == self {
        messages := messages + [None];
      } else {
        var room: seq<byte> := seq(DataOffset(counts[pid], alignment) + |data|, i requires 0 <= i => memory(i));
        NewPacketHolds(pid, counts[pid], alignment, data, room);
        messages := messages + [Some(NewPacket(pid, counts[pid], alignment, data, room))];
      }
    }
  }

  predicate AllProgress(messages: seq<Option<Packet>>, counts: seq<nat>, seen: seq<nat>, owners: map<nat, nat>,
                        self: nat, pred: nat -> bool, alignment: nat, data: seq<byte>)
    requires forall id | id in seen :: id in owners
  {
    && |messages| == |counts|
    && forall p: nat | p < |counts| ::
         Progress(messages[p], p, self, counts[p], Chosen(seen, owners, p, pred), alignment, data)
  }

  lemma ChosenSnoc(seen: seq<nat>, id: nat, owners: map<nat, nat>, p: nat, pred: nat -> bool)
    requires (forall k | k in seen :: k in owners) && id in owners
    ensures Chosen(seen + [id], owners, p, pred) ==
            Chosen(seen, owners, p, pred) + if pred(id) && owners[id] == p then [id] else []
  {
    assert (seen + [id])[..|seen|] == seen;
  }

  /** An element that is local or does not match leaves the messages alone. */
  lemma SkipStep(messages: seq<Option<Packet>>, counts: seq<nat>, seen: seq<nat>, id: nat, owners: map<nat, nat>,
                 self: nat, pred: nat -> bool, alignment: nat, data: seq<byte>)
    requires (forall k | k in seen :: k in owners) && id in owners && (!pred(id) || owners[id] == self)
    requires AllProgress(messages, counts, seen, owners, self, pred, alignment, data)
    ensures AllProgress(messages, counts, seen + [id], owners, self, pred, alignment, data)
  {
    forall p: nat | p < |counts|
      ensures Progress(messages[p], p, self, counts[p], Chosen(seen + [id], owners, p, pred), alignment, data)
    {
      ChosenSnoc(seen, id, owners, p, pred);
    }
  }

  /** Another one goes into the message of its process, and the others stay. */
  lemma FillStep(messages: seq<Option<Packet>>, counts: seq<nat>, seen: seq<nat>, id: nat, owners: map<nat, nat>,
                 self: nat, pred: nat -> bool, alignment: nat, data: seq<byte>)
    requires (forall k | k in seen :: k in owners) && id in owners && pred(id) && owners[id] != self
    requires AllProgress(messages, counts, seen, owners, self, pred, alignment, data)
    requires owners[id] < |counts| && id < TWO64
    requires |Chosen(seen, owners, owners[id], pred)| < counts[owners[id]] < TWO32
    ensures var p := owners[id];
            && messages[p].Some? && Fill.requires(messages[p].value, id)
            && AllProgress(messages[p := Some(Fill(messages[p].value, id))], counts, seen + [id], owners, self, pred,
                           alignment, data)
  {
    var q := owners[id];
    assert Progress(messages[q], q, self, counts[q], Chosen(seen, owners, q, pred), alignment, data);
    FillAppends(messages[q].value, q, counts[q], Chosen(seen, owners, q, pred), alignment, data, id);
    var next := messages[q := Some(Fill(messages[q].value, id))];
    forall p: nat | p < |counts|
      ensures Progress(next[p], p, self, counts[p], Chosen(seen + [id], owners, p, pred), alignment, data)
    {
      ChosenSnoc(seen, id, owners, p, pred);
      assert p != q ==> Progress(messages[p], p, self, counts[p], Chosen(seen, owners, p, pred), alignment, data);
    }
  }

  /** One round of the filling pass. */
  lemma FillRound(messages: seq<Option<Packet>>, counts: seq<nat>, order: seq<nat>, i: nat, owners: map<nat, nat>,
                  self: nat, pred: nat -> bool, alignment: nat, data: seq<byte>)
    requires Enumerates(order, owners) && Fits(owners, alignment) && i < |order|
    requires forall id | id in owners :: owners[id] < |counts|
    requires forall p: nat | p < |counts| :: counts[p] == |Chosen(order, owners, p, pred)| <= |owners|
    requires AllProgress(messages, counts, order[..i], owners, self, pred, alignment, data)
    ensures Chosen(order[..i + 1], owners, self, pred) ==
            Chosen(order[..i], owners, self, pred)
            + if pred(order[i]) && owners[order[i]] == self then [order[i]] else []
    ensures !pred(order[i]) || owners[order[i]] == self ==>
              AllProgress(messages, counts, order[..i + 1], owners, self, pred, alignment, data)
    ensures pred(order[i]) && owners[order[i]] != self ==>
              var p := owners[order[i]];
              && messages[p].Some? && Fill.requires(messages[p].value, order[i])
              && AllProgress(messages[p := Some(Fill(messages[p].value, order[i]))], counts, order[..i + 1], owners,
                             self, pred, alignment, data)
  {
    var id := order[i];
    assert order[..i + 1] == order[..i] + [id];
    ChosenNext(order, owners, i, self, pred);
    if pred(id) && owners[id] != self {
      RoomLeft(order, owners, i, counts, pred);
      FillStep(messages, counts, order[..i], id, owners, self, pred, alignment, data);
    } else {
      SkipStep(messages, counts, order[..i], id, owners, self, pred, alignment, data);
    }
  }

  /** The message of a matching element's process was made large enough. */
  lemma RoomLeft(order: seq<nat>, owners: map<nat, nat>, i: nat, counts: seq<nat>, pred: nat -> bool)
    requires Enumerates(order, owners) && i < |order| && pred(order[i]) && owners[order[i]] < |counts|
    requires forall p: nat | p < |counts| :: counts[p] == |Chosen(order, owners, p, pred)| <= |owners|
    ensures |Chosen(order[..i], owners, owners[order[i]], pred)| < counts[owners[order[i]]]
  {
    ChosenNext(order, owners, i, owners[order[i]], pred);
    ChosenPrefix(order, owners, i + 1, owners[order[i]], pred);
  }

  /** The filling pass. */
  method FillMessages(created: seq<Option<Packet>>, counts: seq<nat>, order: seq<nat>, owners: map<nat, nat>,
                      self: nat, pred: nat -> bool, alignment: nat, data: seq<byte>)
    returns (messages: seq<Option<Packet>>, tasks: seq<nat>)
    requires Enumerates(order, owners) && Fits(owners, alignment)
    requires forall id | id in owners :: owners[id] < |counts|
    requires forall p: nat | p < |counts| :: counts[p] == |Chosen(order, owners, p, pred)| <= |owners|
    requires AllProgress(created, counts, [], owners, self, pred, alignment, data)
    ensures tasks == Chosen(order, owners, self, pred)
    ensures AllProgress(messages, counts, order, owners, self, pred, alignment, data)
  {
    messages, tasks := created, [];
    assert order[..0] == [];
    for i := 0 to |order|
      invariant tasks == Chosen(order[..i], owners, self, pred)
      invariant AllProgress(messages, counts, order[..i], owners, self, pred, alignment, data)
    {
      var id := order[i];
      FillRound(messages, counts, order, i, owners, self, pred, alignment, data);
      if pred(id) {
        var p := owners[id];
        if p == self {
          tasks := tasks + [id];
        } else {
          messages := messages[p := Some(Fill(messages[p].value, id))];
        }
      }
    }
    assert order[..|order|] == order;
  }

  /** The whole of broadcast_to: the local tasks and the messages to send. */
  method SendBroadcastTo(first: seq<nat>, second: seq<nat>, owners: map<nat, nat>, processes: nat, self: nat,
                         pred: nat -> bool, alignment: nat, data: seq<byte>, memory: nat -> byte)
    returns (messages: seq<Option<Packet>>, tasks: seq<nat>)
    requires Enumerates(first, owners) && Enumerates(second, owners) && Fits(owners, alignment)
    requires self < processes < TWO64 && forall id | id in owners :: owners[id] < processes
    ensures |messages| == processes
    ensures tasks == Chosen(second, owners, self, pred)
    ensures forall p: nat | p < processes ::
              var ids := Chosen(second, owners, p, pred);
              Progress(messages[p], p, self, |ids|, ids, alignment, data)
  {
    var counts := ComputeElementsPerPid(first, owners, processes, pred);
    forall p: nat | p < processes ensures counts[p] == |Chosen(second, owners, p, pred)| <= |owners| {
      PassesAgree(first, second, owners, p, pred);
      ChosenBounded(second, owners, p, pred);
    }
    messages := CreateMessages(counts, self, alignment, data, memory);
    messages, tasks := FillMessages(messages, counts, second, owners, self, pred, alignment, data);
  }

  // ---------------------------------------------------------------- the receiver

  /** The tasks for the first k listed ids. */
  function Tasks(p: Packet, owners: map<nat, nat>, k: nat): Result<seq<nat>, PacketError> {
    if k == 0 then Success([])
    else
      var before := Tasks(p, owners, k - 1);
      if before.Failure? then before
      else if |p.bytes| < HEADER_SIZE + 8 * (2 + k) then Failure(PastTheEnd)
      else
        var id := Word(p.bytes, HEADER_SIZE + 8 * (1 + k));
        if id !in owners then Failure(PacketError.UnknownElement) else Success(before.value + [id])
  }

  lemma {:induction false} FailurePersists(p: Packet, owners: map<nat, nat>, k: nat, m: nat)
    requires k <= m && Tasks(p, owners, k).Failure?
    ensures Tasks(p, owners, m) == Tasks(p, owners, k)
  {
    if k < m {
      FailurePersists(p, owners, k, m - 1);
    }
  }

  /** What the receiver makes of any packet whatever. */
  function Expanded(p: Packet, self: nat, local: int, owners: map<nat, nat>): Result<seq<nat>, PacketError> {
    if |p.bytes| < HEADER_SIZE + 16 then Failure(PastTheEnd)
    else if Word(p.bytes, HEADER_SIZE) != self then Failure(WrongProcess)
    else if Word(p.bytes, HEADER_SIZE + 8) > local then Failure(TooManyElements)
    else Tasks(p, owners, Word(p.bytes, HEADER_SIZE + 8))
  }

  /** Slot i of the list lies within the packet, and names a registered element. */
  predicate SlotThere(p: Packet, i: nat) {
    HEADER_SIZE + 8 * (3 + i) <= |p.bytes|
  }

  predicate SlotKnown(p: Packet, owners: map<nat, nat>, i: nat) {
    SlotThere(p, i) && Word(p.bytes, HEADER_SIZE + 8 * (2 + i)) in owners
  }

  /** The first slot that is not in order. */
  predicate FirstBad(p: Packet, owners: map<nat, nat>, i: nat) {
    !SlotKnown(p, owners, i) && forall j | 0 <= j < i :: SlotKnown(p, owners, j)
  }

  lemma {:induction false} TasksMeaning(p: Packet, owners: map<nat, nat>, k: nat)
    ensures var r := Tasks(p, owners, k);
            && (r.Success? <==> forall i | 0 <= i < k :: SlotKnown(p, owners, i))
            && (r.Success? ==>
                  |r.value| == k
                  && forall i | 0 <= i < k :: SlotThere(p, i) && r.value[i] == Word(p.bytes, HEADER_SIZE + 8 * (2 + i)))
            && (r == Failure(PacketError.UnknownElement) <==>
                  exists i :: 0 <= i < k && FirstBad(p, owners, i) && SlotThere(p, i))
            && (r == Failure(PastTheEnd) <==> exists i :: 0 <= i < k && FirstBad(p, owners, i) && !SlotThere(p, i))
  {
    if k > 0 {
      TasksMeaning(p, owners, k - 1);
      if Tasks(p, owners, k - 1).Success? {
        assert HEADER_SIZE + 8 * (2 + (k - 1)) == HEADER_SIZE + 8 * (1 + k);
        assert !SlotKnown(p, owners, k - 1) ==> FirstBad(p, owners, k - 1);
      } else {
        assert forall i, j | 0 <= i < k && 0 <= j < k && FirstBad(p, owners, i) && FirstBad(p, owners, j) :: i == j;
      }
    }
  }

  /** Exactly which packets the receiver rejects, for what reason, and what it makes of the others: the
      target and the count are tested first, then each listed id. */
  lemma ExpandedMeaning(p: Packet, self: nat, local: int, owners: map<nat, nat>)
    requires HEADER_SIZE + 16 <= |p.bytes|
    ensures var target, n := Word(p.bytes, HEADER_SIZE), Word(p.bytes, HEADER_SIZE + 8);
            var r := Expanded(p, self, local, owners);
            && (r == Failure(WrongProcess) <==> target != self)
            && (r == Failure(TooManyElements) <==> target == self && n > local)
            && (target == self && n <= local ==>
                  && (r.Success? <==> forall i | 0 <= i < n :: SlotKnown(p, owners, i))
                  && (r == Failure(PacketError.UnknownElement) <==>
                        exists i :: 0 <= i < n && FirstBad(p, owners, i) && SlotThere(p, i))
                  && (r.Success? ==>
                        |r.value| == n && forall i | 0 <= i < n ::
                          SlotThere(p, i) && r.value[i] == Word(p.bytes, HEADER_SIZE + 8 * (2 + i))))
  {
    TasksMeaning(p, owners, Word(p.bytes, HEADER_SIZE + 8));
    TasksReasons(p, owners, Word(p.bytes, HEADER_SIZE + 8));
  }

  lemma {:induction false} TasksReasons(p: Packet, owners: map<nat, nat>, k: nat)
    ensures var r := Tasks(p, owners, k);
            r.Success? || r == Failure(PacketError.UnknownElement) || r == Failure(PastTheEnd)
  {
    if k > 0 {
      TasksReasons(p, owners, k - 1);
    }
  }

  /** The receiving process checks the target and the count, and makes one task per id. */
  method ExpandPacket(p: Packet, self: nat, local: int, owners: map<nat, nat>)
    returns (r: Result<seq<nat>, PacketError>)
    ensures r == Expanded(p, self, local, owners)
  {
    if |p.bytes| < HEADER_SIZE + 16 {
      return Failure(PastTheEnd);
    }
    if Word(p.bytes, HEADER_SIZE) != self {
      return Failure(WrongProcess);
    }
    var count := Word(p.bytes, HEADER_SIZE + 8);
    if count > local {
      return Failure(TooManyElements);
    }
    var tasks: seq<nat> := [];
    for i := 0 to count
      invariant Tasks(p, owners, i) == Success(tasks)
    {
      if |p.bytes| < HEADER_SIZE + 8 * (3 + i) {
        FailurePersists(p, owners, i + 1, count);
        return Failure(PastTheEnd);
      }
      var id := Word(p.bytes, HEADER_SIZE + 8 * (2 + i));
      if id !in owners {
        FailurePersists(p, owners, i + 1, count);
        return Failure(PacketError.UnknownElement);
      }
      tasks := tasks + [id];
    }
    return Success(tasks);
  }

  lemma {:induction false} PackedTasks(m: Packet, p: nat, count: nat, ids: seq<nat>, alignment: nat, data: seq<byte>,
                                       owners: map<nat, nat>, k: nat)
    requires Holds(m, p, count, ids, alignment, data) && k <= |ids| && forall id | id in ids :: id in owners
    ensures Tasks(m, owners, k) == Success(ids[..k])
  {
    if k > 0 {
      PackedTasks(m, p, count, ids, alignment, data, owners, k - 1);
      assert Word(m.bytes, HEADER_SIZE + 8 * (2 + (k - 1))) == ids[k - 1];
      assert ids[..k] == ids[..k - 1] + [ids[k - 1]];
    }
  }

  /** What the sender packs for process p, its receiver on p accepts and expands to exactly the matching
      elements of p, each once, with the sender's data. */
  lemma DeliversExactly(m: Packet, p: nat, r: Registry, order: seq<nat>, pred: nat -> bool, alignment: nat,
                        data: seq<byte>)
    requires Consistent(r, p) && Enumerates(order, r.owners)
    requires Holds(m, p, |Chosen(order, r.owners, p, pred)|, Chosen(order, r.owners, p, pred), alignment, data)
    ensures var got := Expanded(m, p, r.local, r.owners);
            && got.Success? && NoDuplicates(got.value)
            && (forall id: nat :: id in got.value <==> id in r.owners && r.owners[id] == p && pred(id))
            && m.bytes[m.dataOffset..] == data
  {
    var ids := Chosen(order, r.owners, p, pred);
    ChosenMeaning(order, r.owners, p, pred);
    AllSeen(r, p, ids);
    PackedTasks(m, p, |ids|, ids, alignment, data, r.owners, |ids|);
    assert ids[..|ids|] == ids;
  }
}

/** Two encodings in machine words: member function pointers relative to an anchor, and the message of
    the global quiescence detection. */
module PointersAndCodes {
  import opened Arithmetic
  import opened Bytes

  // ---------------------------------------------------------------- member function pointers

  type word = x: int | 0 <= x < TWO64

  const TWO128 := TWO64 * TWO64

  datatype MemberFunctionPtr = MemberFunctionPtr(lower: word, upper: word)

  /** The two words read as one 128-bit number. */
  function Value(p: MemberFunctionPtr): (v: nat)
    ensures v < TWO128
  {
    p.upper * TWO64 + p.lower
  }

  function Wrap(x: int): word {
    x % TWO64
  }

  function Minus(lhs: MemberFunctionPtr, rhs: MemberFunctionPtr): MemberFunctionPtr {
    var lower := Wrap(lhs.lower - rhs.lower);
    MemberFunctionPtr(lower, Wrap(Wrap(lhs.upper - rhs.upper) - if lower > lhs.lower then 1 else 0))
  }

  function Plus(lhs: MemberFunctionPtr, rhs: MemberFunctionPtr): MemberFunctionPtr {
    var lower := Wrap(lhs.lower + rhs.lower);
    MemberFunctionPtr(lower, Wrap(Wrap(lhs.upper + rhs.upper) + if lower < lhs.lower then 1 else 0))
  }

  /** How often the low words wrapped around. */
  lemma WrapOnce(x: int)
    requires -TWO64 <= x < 2 * TWO64
    ensures Wrap(x) == if x < 0 then x + TWO64 else if x < TWO64 then x else x - TWO64
  {
    RemainderUnique(x, TWO64, if x < 0 then -1 else if x < TWO64 then 0 else 1,
              if x < 0 then x + TWO64 else if x < TWO64 then x else x - TWO64);
  }

  lemma MinusIsExact(a: MemberFunctionPtr, b: MemberFunctionPtr)
    ensures Value(Minus(a, b)) == (Value(a) - Value(b)) % TWO128
  {
    WrapOnce(a.lower - b.lower);
    var borrow := if a.lower < b.lower then 1 else 0;
    assert (Wrap(a.lower - b.lower) > a.lower) == (borrow == 1);
    WrapOnce(a.upper - b.upper);
    WrapOnce(Wrap(a.upper - b.upper) - borrow);
    var m := Minus(a, b);
    var below := if a.upper - b.upper - borrow < 0 then 1 else 0;
    assert m.lower == a.lower - b.lower + borrow * TWO64;
    assert m.upper == a.upper - b.upper - borrow + below * TWO64;
    RemainderUnique(Value(a) - Value(b), TWO128, -below, Value(m));
  }

  lemma PlusIsExact(a: MemberFunctionPtr, b: MemberFunctionPtr)
    ensures Value(Plus(a, b)) == (Value(a) + Value(b)) % TWO128
  {
    WrapOnce(a.lower + b.lower);
    var carry := if a.lower + b.lower >= TWO64 then 1 else 0;
    assert (Wrap(a.lower + b.lower) < a.lower) == (carry == 1);
    WrapOnce(a.upper + b.upper);
    WrapOnce(Wrap(a.upper + b.upper) + carry);
    var m := Plus(a, b);
    var over := if a.upper + b.upper + carry >= TWO64 then 1 else 0;
    assert m.lower == a.lower + b.lower - carry * TWO64;
    assert m.upper == a.upper + b.upper + carry - over * TWO64;
    RemainderUnique(Value(a) + Value(b), TWO128, over, Value(m));
  }

  lemma ValueInjective(a: MemberFunctionPtr, b: MemberFunctionPtr)
    ensures Value(a) == Value(b) <==> a == b
  {
  }

  /** A pointer sent relative to the sender's anchor arrives as the pointer shifted by the difference of
      the anchors; it is the same pointer exactly when the anchors agree. */
  lemma RelativePointer(f: MemberFunctionPtr, sender: MemberFunctionPtr, receiver: MemberFunctionPtr)
    ensures var got := Plus(Minus(f, sender), receiver);
            && Value(got) == (Value(f) + (Value(receiver) - Value(sender))) % TWO128
            && (got == f <==> sender == receiver)
  {
    var got := Plus(Minus(f, sender), receiver);
    var v, s, r := Value(f), Value(sender), Value(receiver);
    MinusIsExact(f, sender);
    PlusIsExact(Minus(f, sender), receiver);
    RemainderUnique(v - s, TWO128, if v < s then -1 else 0, if v < s then v - s + TWO128 else v - s);
    var x := v + (r - s);
    var w := if x < 0 then x + TWO128 else if x < TWO128 then x else x - TWO128;
    RemainderUnique(x, TWO128, if x < 0 then -1 else if x < TWO128 then 0 else 1, w);
    var y := Value(Minus(f, sender)) + r;
    RemainderUnique(y, TWO128, if y < TWO128 then 0 else 1, if y < TWO128 then y else y - TWO128);
    ValueInjective(got, f);
    ValueInjective(sender, receiver);
  }

  // ---------------------------------------------------------------- quiescence messages

  const UP_BIT: bv64 := 0x8000_0000_0000_0000

  /** Global::Message: the direction is the highest bit of the word with the sweep number. */
  datatype Coded = Coded(directionAndSweep: bv64, count: int)

  /** Direction and sweep number can be read back, for every sweep number below 2^63. */
  function Create(up: bool, sweep: bv64, count: int): (m: Coded)
    ensures sweep & UP_BIT == 0 <==> SweepNumber(m) == sweep
    ensures sweep & UP_BIT == 0 ==> UpTraversal(m) == up
    ensures m.count == count
  {
    if up then Coded(sweep | UP_BIT, count) else Coded(sweep, count)
  }

  predicate UpTraversal(m: Coded) {
    m.directionAndSweep & UP_BIT != 0
  }

  function SweepNumber(m: Coded): bv64 {
    (m.directionAndSweep << 1) >> 1
  }
}

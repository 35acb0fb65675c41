/** The consistency check after insertions: every process serializes which components it registered and
    where it thinks each collection element is, and compares its buffer with those of its children. */
module Accounting {
  import opened Wrappers
  import opened Bytes
  import opened Collections
  import opened ProcessTree

  datatype Component =
    | RegularComponent(name: seq<byte>)
    | CollectionComponent(name: seq<byte>, owners: map<nat, nat>)

  datatype Element = Element(id: nat, process: nat)

  datatype Listing = Listing(name: seq<byte>, elements: seq<Element>)

  // ---------------------------------------------------------------- what is registered

  function RegularNames(objects: seq<Component>): seq<seq<byte>> {
    if objects == [] then []
    else
      var o := objects[|objects| - 1];
      RegularNames(objects[..|objects| - 1]) + if o.RegularComponent? then [o.name] else []
  }

  datatype Placement = Placement(name: seq<byte>, owners: map<nat, nat>)

  function Placements(objects: seq<Component>): seq<Placement> {
    if objects == [] then []
    else
      var o := objects[|objects| - 1];
      Placements(objects[..|objects| - 1]) + if o.CollectionComponent? then [Placement(o.name, o.owners)] else []
  }

  /** What is registered, component by component, in the order of registration. */
  lemma {:induction false} RegisteredInOrder(a: seq<Component>, b: seq<Component>)
    ensures RegularNames(a + b) == RegularNames(a) + RegularNames(b)
    ensures Placements(a + b) == Placements(a) + Placements(b)
  {
    if b == [] {
      assert a + b == a;
    } else {
      var front, o := b[..|b| - 1], b[|b| - 1];
      RegisteredInOrder(a, front);
      assert (a + b)[..|a + b| - 1] == a + front && (a + b)[|a + b| - 1] == o;
    }
  }

  lemma OneRegistered(o: Component)
    ensures o.RegularComponent? ==> RegularNames([o]) == [o.name] && Placements([o]) == []
    ensures o.CollectionComponent? ==> RegularNames([o]) == [] && Placements([o]) == [Placement(o.name, o.owners)]
  {
    assert [o][..0] == [];
  }

  /** Two processes agree: the same regular components in the same order, the same collections in the
      same order, every element on the same process. */
  predicate Agree(a: seq<Component>, b: seq<Component>) {
    RegularNames(a) == RegularNames(b) && Placements(a) == Placements(b)
  }

  // ---------------------------------------------------------------- sorting by id

  predicate Increasing(s: seq<Element>) {
    forall i, j | 0 <= i < j < |s| :: s[i].id < s[j].id
  }

  function InsertById(s: seq<Element>, e: Element): (r: seq<Element>)
    ensures |r| == |s| + 1 && forall x :: x in r <==> x in s || x == e
  {
    if s == [] || e.id <= s[0].id then [e] + s
    else
      assert s == [s[0]] + s[1..];
      [s[0]] + InsertById(s[1..], e)
  }

  /** sort with the comparison of ids. */
  function SortById(s: seq<Element>): (r: seq<Element>)
    ensures |r| == |s| && forall x :: x in r <==> x in s
  {
    if s == [] then []
    else
      assert s == s[..|s| - 1] + [s[|s| - 1]];
      InsertById(SortById(s[..|s| - 1]), s[|s| - 1])
  }

  lemma {:induction false} InsertKeepsIncreasing(s: seq<Element>, e: Element)
    requires Increasing(s) && forall x | x in s :: x.id != e.id
    ensures Increasing(InsertById(s, e))
  {
    if s != [] && e.id > s[0].id {
      InsertKeepsIncreasing(s[1..], e);
      forall x | x in InsertById(s[1..], e) ensures s[0].id < x.id {
        assert x in s[1..] || x == e;
      }
    }
  }

  lemma {:induction false} SortIsIncreasing(s: seq<Element>)
    requires forall i, j | 0 <= i < j < |s| :: s[i].id != s[j].id
    ensures Increasing(SortById(s))
  {
    if s != [] {
      var front, e := s[..|s| - 1], s[|s| - 1];
      SortIsIncreasing(front);
      forall x | x in SortById(front) ensures x.id != e.id {
        assert x in front;
      }
      InsertKeepsIncreasing(SortById(front), e);
    }
  }

  lemma {:induction false} IncreasingIsUnique(a: seq<Element>, b: seq<Element>)
    requires Increasing(a) && Increasing(b) && forall x :: x in a <==> x in b
    ensures a == b
  {
    assert b != [] ==> b[0] in b;
    if a != [] {
      assert a[0] in a && b != [];
      assert a[0] == b[0];
      forall x ensures x in a[1..] <==> x in b[1..] {
        assert x in a[1..] <==> x in a && x != a[0];
        assert x in b[1..] <==> x in b && x != b[0];
      }
      IncreasingIsUnique(a[1..], b[1..]);
    }
  }

  /** The elements in the order the map is iterated. */
  function ElementsIn(order: seq<nat>, owners: map<nat, nat>): (r: seq<Element>)
    requires forall id | id in order :: id in owners
  {
    seq(|order|, i requires 0 <= i < |order| => Element(order[i], owners[order[i]]))
  }

  /** However the map is iterated, sorting gives the same list, and that list gives the map back. */
  lemma SortedListing(o1: seq<nat>, m1: map<nat, nat>, o2: seq<nat>, m2: map<nat, nat>)
    requires Enumerates(o1, m1) && Enumerates(o2, m2)
    ensures SortById(ElementsIn(o1, m1)) == SortById(ElementsIn(o2, m2)) <==> m1 == m2
  {
    ListingMeaning(o1, m1);
    ListingMeaning(o2, m2);
    var s1, s2 := SortById(ElementsIn(o1, m1)), SortById(ElementsIn(o2, m2));
    if m1 == m2 {
      IncreasingIsUnique(s1, s2);
    }
    if s1 == s2 {
      forall id ensures id in m1 ==> id in m2 && m1[id] == m2[id] {
        assert id in m1 ==> Element(id, m1[id]) in s2;
      }
      forall id ensures id in m2 ==> id in m1 {
        assert id in m2 ==> Element(id, m2[id]) in s1;
      }
      assert m1 == m2;
    }
  }

  lemma ListingMeaning(order: seq<nat>, owners: map<nat, nat>)
    requires Enumerates(order, owners)
    ensures var s := SortById(ElementsIn(order, owners));
            && Increasing(s) && |s| == |owners|
            && forall e: Element :: e in s <==> e.id in owners && owners[e.id] == e.process
  {
    var es := ElementsIn(order, owners);
    SortIsIncreasing(es);
    DistinctLength(order);
    assert Elements(order) == owners.Keys;
    forall e: Element ensures e in es <==> e.id in owners && owners[e.id] == e.process {
      if e.id in owners && owners[e.id] == e.process {
        var i :| 0 <= i < |order| && order[i] == e.id;
        assert es[i] == e;
      }
    }
  }

  // ---------------------------------------------------------------- the buffer

  function EncodeName(name: seq<byte>): seq<byte> {
    Encode(|name|, 4) + name
  }

  /** The encodings of all items, one after the other. */
  function Flatten<T>(encode: T -> seq<byte>, s: seq<T>): seq<byte> {
    if s == [] then [] else encode(s[0]) + Flatten(encode, s[1..])
  }

  lemma {:induction false} FlattenBack<T>(encode: T -> seq<byte>, s: seq<T>, x: T)
    ensures Flatten(encode, s + [x]) == Flatten(encode, s) + encode(x)
  {
    if s == [] {
      assert s + [x] == [x] && Flatten(encode, [x][1..]) == [];
    } else {
      FlattenBack(encode, s[1..], x);
      assert (s + [x])[1..] == s[1..] + [x];
      Assoc(encode(s[0]), Flatten(encode, s[1..]), encode(x));
    }
  }

  lemma FlattenFront<T>(encode: T -> seq<byte>, s: seq<T>, rest: seq<byte>)
    ensures s == [] ==> Flatten(encode, s) + rest == rest
    ensures s != [] ==> Flatten(encode, s) + rest == encode(s[0]) + (Flatten(encode, s[1..]) + rest)
  {
  }

  lemma Assoc(a: seq<byte>, b: seq<byte>, c: seq<byte>)
    ensures a + b + c == a + (b + c)
  {
  }

  function EncodeNames(names: seq<seq<byte>>): seq<byte> {
    Flatten(EncodeName, names)
  }

  function EncodeElement(e: Element): seq<byte> {
    Encode(e.id, 8) + Encode(e.process, 4)
  }

  function EncodeElements(es: seq<Element>): seq<byte> {
    Flatten(EncodeElement, es)
  }

  function EncodeListing(c: Listing): seq<byte> {
    EncodeName(c.name) + Encode(|c.elements|, 8) + EncodeElements(c.elements)
  }

  function EncodeListings(cs: seq<Listing>): seq<byte> {
    Flatten(EncodeListing, cs)
  }

  /** The collections as they are written: sorted, whatever the iteration orders. */
  function Listings(objects: seq<Component>, orders: seq<seq<nat>>): (r: seq<Listing>)
    requires Ordered(objects, orders)
    ensures |r| == |Placements(objects)|
  {
    if objects == [] then []
    else
      var last := |objects| - 1;
      Listings(objects[..last], orders[..last]) +
      if objects[last].CollectionComponent?
      then [Listing(objects[last].name, SortById(ElementsIn(orders[last], objects[last].owners)))] else []
  }

  /** orders[i] is an iteration order of the map of collection i. */
  ghost predicate Ordered(objects: seq<Component>, orders: seq<seq<nat>>) {
    |orders| == |objects|
    && forall i | 0 <= i < |objects| && objects[i].CollectionComponent? :: Enumerates(orders[i], objects[i].owners)
  }

  function Serialized(names: seq<seq<byte>>, listings: seq<Listing>): seq<byte> {
    Encode(|names|, 4) + Encode(|listings|, 4) + EncodeNames(names) + EncodeListings(listings)
  }

  // ---------------------------------------------------------------- the comparison

  datatype Mismatch = OneIsEmpty | RegularCount | CollectionCount | RegularName | CollectionName
                    | ElementCount | ElementId | ElementProcess
                    | PastEnd // the buffer ends in the middle of a field; the code would read on

  /** Where two buffers differ first, or what is left of both after the compared part. */
  datatype Outcome = Same(restA: seq<byte>, restB: seq<byte>) | Differ(what: Mismatch)

  function CompareName(a: seq<byte>, b: seq<byte>, what: Mismatch): Outcome {
    if |a| < 4 || |b| < 4 then Differ(PastEnd)
    else
      var n, m := Decode(a[..4]), Decode(b[..4]);
      if |a| < 4 + n || |b| < 4 + m then Differ(PastEnd)
      else if a[4..4 + n] != b[4..4 + m] then Differ(what)
      else Same(a[4 + n..], b[4 + m..])
  }

  function CompareNames(k: nat, a: seq<byte>, b: seq<byte>): Outcome {
    if k == 0 then Same(a, b)
    else
      match CompareName(a, b, RegularName)
      case Differ(what) => Differ(what)
      case Same(a', b') => CompareNames(k - 1, a', b')
  }

  function CompareElement(a: seq<byte>, b: seq<byte>): Outcome {
    if |a| < 12 || |b| < 12 then Differ(PastEnd)
    else if Decode(a[..8]) != Decode(b[..8]) then Differ(ElementId)
    else if Decode(a[8..12]) != Decode(b[8..12]) then Differ(ElementProcess)
    else Same(a[12..], b[12..])
  }

  function CompareElements(k: nat, a: seq<byte>, b: seq<byte>): Outcome {
    if k == 0 then Same(a, b)
    else
      match CompareElement(a, b)
      case Differ(what) => Differ(what)
      case Same(a', b') => CompareElements(k - 1, a', b')
  }

  /** The number of elements, and the elements. */
  function CompareCounted(a: seq<byte>, b: seq<byte>): Outcome {
    if |a| < 8 || |b| < 8 then Differ(PastEnd)
    else if Decode(a[..8]) != Decode(b[..8]) then Differ(ElementCount)
    else CompareElements(Decode(a[..8]), a[8..], b[8..])
  }

  function CompareListing(a: seq<byte>, b: seq<byte>): Outcome {
    match CompareName(a, b, CollectionName)
    case Differ(what) => Differ(what)
    case Same(a', b') => CompareCounted(a', b')
  }

  function CompareListings(k: nat, a: seq<byte>, b: seq<byte>): Outcome {
    if k == 0 then Same(a, b)
    else
      match CompareListing(a, b)
      case Differ(what) => Differ(what)
      case Same(a', b') => CompareListings(k - 1, a', b')
  }

  function CompareBodies(names: nat, listings: nat, a: seq<byte>, b: seq<byte>): Outcome {
    match CompareNames(names, a, b)
    case Differ(what) => Differ(what)
    case Same(a', b') => CompareListings(listings, a', b')
  }

  function Compare(a: seq<byte>, b: seq<byte>): Outcome {
    if (a == []) != (b == []) then Differ(OneIsEmpty)
    else if |a| < 8 || |b| < 8 then Differ(PastEnd)
    else if Decode(a[..4]) != Decode(b[..4]) then Differ(RegularCount)
    else if Decode(a[4..8]) != Decode(b[4..8]) then Differ(CollectionCount)
    else CompareBodies(Decode(a[..4]), Decode(a[4..8]), a[8..], b[8..])
  }

  // ---------------------------------------------------------------- comparison of serialized accountings

  /** The sizes fit their fields. */
  predicate Sized(names: seq<seq<byte>>, listings: seq<Listing>) {
    && |names| < TWO32 && |listings| < TWO32
    && (forall i | 0 <= i < |names| :: |names[i]| < TWO32)
    && AllSized(listings)
  }

  predicate AllSized(listings: seq<Listing>) {
    forall i | 0 <= i < |listings| :: SizedListing(listings[i])
  }

  predicate SizedListing(c: Listing) {
    && |c.name| < TWO32 && |c.elements| < TWO32
    && forall i | 0 <= i < |c.elements| :: c.elements[i].id < TWO64 && c.elements[i].process < TWO32
  }

  /** Reading a field back from the front of a buffer. */
  lemma FieldRead(w: nat, n: nat, rest: seq<byte>)
    requires w < Pow256(n)
    ensures Decode((Encode(w, n) + rest)[..n]) == w && (Encode(w, n) + rest)[n..] == rest
  {
    DecodeEncode(w, n);
    assert (Encode(w, n) + rest)[..n] == Encode(w, n);
  }

  lemma NameCompared(x: seq<byte>, y: seq<byte>, a: seq<byte>, b: seq<byte>, what: Mismatch)
    requires |x| < TWO32 && |y| < TWO32
    ensures CompareName(EncodeName(x) + a, EncodeName(y) + b, what) == if x == y then Same(a, b) else Differ(what)
  {
    Widths();
    NameRead(x, a);
    NameRead(y, b);
  }

  lemma NameRead(x: seq<byte>, a: seq<byte>)
    requires |x| < TWO32
    ensures var s := EncodeName(x) + a;
            |s| >= 4 + |x| && Decode(s[..4]) == |x| && s[4..4 + |x|] == x && s[4 + |x|..] == a
  {
    Widths();
    FieldRead(|x|, 4, x + a);
    assert EncodeName(x) + a == Encode(|x|, 4) + (x + a);
  }

  lemma ConsEqual<T>(s: seq<T>, t: seq<T>)
    requires s != [] && t != []
    ensures s == t <==> s[0] == t[0] && s[1..] == t[1..]
  {
    assert s == [s[0]] + s[1..] && t == [t[0]] + t[1..];
  }

  lemma {:induction false} NamesCompared(x: seq<seq<byte>>, y: seq<seq<byte>>, a: seq<byte>, b: seq<byte>)
    requires |x| == |y| && forall i | 0 <= i < |x| :: |x[i]| < TWO32 && |y[i]| < TWO32
    ensures CompareNames(|x|, EncodeNames(x) + a, EncodeNames(y) + b) ==
            if x == y then Same(a, b) else Differ(RegularName)
  {
    FlattenFront(EncodeName, x, a);
    FlattenFront(EncodeName, y, b);
    if x != [] {
      ConsEqual(x, y);
      NameCompared(x[0], y[0], EncodeNames(x[1..]) + a, EncodeNames(y[1..]) + b, RegularName);
      NamesCompared(x[1..], y[1..], a, b);
    }
  }

  lemma ElementRead(e: Element, a: seq<byte>)
    requires e.id < TWO64 && e.process < TWO32
    ensures var s := EncodeElement(e) + a;
            Decode(s[..8]) == e.id && Decode(s[8..12]) == e.process && s[12..] == a
  {
    Widths();
    FieldRead(e.id, 8, Encode(e.process, 4) + a);
    FieldRead(e.process, 4, a);
    var s := EncodeElement(e) + a;
    assert s == Encode(e.id, 8) + (Encode(e.process, 4) + a);
    assert s[8..][..4] == s[8..12] && s[8..][4..] == s[12..];
  }

  /** The position of the first difference, or where the shorter list ends. */
  function Agreeing<T(==)>(x: seq<T>, y: seq<T>): (i: nat)
    ensures i <= |x| && i <= |y| && x[..i] == y[..i]
    ensures i < |x| && i < |y| ==> x[i] != y[i]
    ensures |x| == |y| ==> (i == |x| <==> x == y)
  {
    if x == [] || y == [] || x[0] != y[0] then 0
    else
      AgreeingStep(x, y);
      var rest := Agreeing(x[1..], y[1..]);
      assert x[..rest + 1] == [x[0]] + x[1..][..rest] && y[..rest + 1] == [y[0]] + y[1..][..rest];
      1 + rest
  }

  lemma AgreeingStep<T>(x: seq<T>, y: seq<T>)
    requires x != [] && y != [] && x[0] == y[0]
    ensures x == y <==> x[1..] == y[1..]
  {
    ConsEqual(x, y);
  }

  /** What differs in two lists of elements of the same length: the ids or the processes at the first
      difference. */
  predicate ElementsDiffer(what: Mismatch, x: seq<Element>, y: seq<Element>)
    requires |x| == |y|
  {
    var i := Agreeing(x, y);
    i < |x| && what == if x[i].id != y[i].id then ElementId else ElementProcess
  }

  predicate ListingDiffers(what: Mismatch, x: Listing, y: Listing) {
    if x.name != y.name then what == CollectionName
    else if |x.elements| != |y.elements| then what == ElementCount
    else ElementsDiffer(what, x.elements, y.elements)
  }

  /** What differs in two lists of collections of the same length: something in the first pair that does. */
  predicate ListingsDiffer(what: Mismatch, x: seq<Listing>, y: seq<Listing>)
    requires |x| == |y|
  {
    var k := Agreeing(x, y);
    k < |x| && ListingDiffers(what, x[k], y[k])
  }

  /** Elements of listings of the same length, compared one by one: equal, or the first difference. */
  lemma {:induction false} ElementsCompared(x: seq<Element>, y: seq<Element>, a: seq<byte>, b: seq<byte>)
    requires |x| == |y|
    requires forall i | 0 <= i < |x| :: x[i].id < TWO64 && x[i].process < TWO32
    requires forall i | 0 <= i < |y| :: y[i].id < TWO64 && y[i].process < TWO32
    ensures var r := CompareElements(|x|, EncodeElements(x) + a, EncodeElements(y) + b);
            if x == y then r == Same(a, b) else r.Differ? && ElementsDiffer(r.what, x, y)
  {
    FlattenFront(EncodeElement, x, a);
    FlattenFront(EncodeElement, y, b);
    if x != [] {
      ConsEqual(x, y);
      ElementRead(x[0], EncodeElements(x[1..]) + a);
      ElementRead(y[0], EncodeElements(y[1..]) + b);
      ElementsCompared(x[1..], y[1..], a, b);
    }
  }

  lemma CountedCompared(x: seq<Element>, y: seq<Element>, a: seq<byte>, b: seq<byte>)
    requires |x| < TWO32 && |y| < TWO32
    requires forall i | 0 <= i < |x| :: x[i].id < TWO64 && x[i].process < TWO32
    requires forall i | 0 <= i < |y| :: y[i].id < TWO64 && y[i].process < TWO32
    ensures var r := CompareCounted(Encode(|x|, 8) + (EncodeElements(x) + a), Encode(|y|, 8) + (EncodeElements(y) + b));
            if x == y then r == Same(a, b)
            else r.Differ? && if |x| != |y| then r.what == ElementCount else ElementsDiffer(r.what, x, y)
  {
    Widths();
    FieldRead(|x|, 8, EncodeElements(x) + a);
    FieldRead(|y|, 8, EncodeElements(y) + b);
    if |x| == |y| {
      ElementsCompared(x, y, a, b);
    }
  }

  lemma ListingFront(x: Listing, a: seq<byte>)
    ensures EncodeListing(x) + a == EncodeName(x.name) + (Encode(|x.elements|, 8) + (EncodeElements(x.elements) + a))
  {
  }

  lemma ListingCompared(x: Listing, y: Listing, a: seq<byte>, b: seq<byte>)
    requires SizedListing(x) && SizedListing(y)
    ensures var r := CompareListing(EncodeListing(x) + a, EncodeListing(y) + b);
            if x == y then r == Same(a, b) else r.Differ? && ListingDiffers(r.what, x, y)
  {
    ListingFront(x, a);
    ListingFront(y, b);
    NameCompared(x.name, y.name, Encode(|x.elements|, 8) + (EncodeElements(x.elements) + a),
                 Encode(|y.elements|, 8) + (EncodeElements(y.elements) + b), CollectionName);
    CountedCompared(x.elements, y.elements, a, b);
  }

  /** The front listings decide, or the rest does. */
  lemma ListingsStep(x: Listing, y: Listing, k: nat, a: seq<byte>, b: seq<byte>)
    requires SizedListing(x) && SizedListing(y)
    ensures x == y ==> CompareListings(k + 1, EncodeListing(x) + a, EncodeListing(y) + b) == CompareListings(k, a, b)
    ensures x != y ==> var r := CompareListings(k + 1, EncodeListing(x) + a, EncodeListing(y) + b);
                       r.Differ? && ListingDiffers(r.what, x, y)
  {
    ListingCompared(x, y, a, b);
  }

  lemma RestSized(x: seq<Listing>)
    requires AllSized(x) && x != []
    ensures SizedListing(x[0]) && AllSized(x[1..])
  {
  }

  lemma {:induction false} ListingsCompared(x: seq<Listing>, y: seq<Listing>, a: seq<byte>, b: seq<byte>)
    requires |x| == |y| && AllSized(x) && AllSized(y)
    ensures var r := CompareListings(|x|, EncodeListings(x) + a, EncodeListings(y) + b);
            if x == y then r == Same(a, b) else r.Differ? && ListingsDiffer(r.what, x, y)
  {
    FlattenFront(EncodeListing, x, a);
    FlattenFront(EncodeListing, y, b);
    if x != [] {
      RestSized(x);
      RestSized(y);
      ConsEqual(x, y);
      ListingsCompared(x[1..], y[1..], a, b);
      ListingsStep(x[0], y[0], |x| - 1, EncodeListings(x[1..]) + a, EncodeListings(y[1..]) + b);
    }
  }

  lemma BodiesCompared(n1: seq<seq<byte>>, l1: seq<Listing>, n2: seq<seq<byte>>, l2: seq<Listing>)
    requires Sized(n1, l1) && Sized(n2, l2) && |n1| == |n2| && |l1| == |l2|
    ensures var r := CompareNames(|n1|, EncodeNames(n1) + EncodeListings(l1), EncodeNames(n2) + EncodeListings(l2));
            if n1 == n2 then r == Same(EncodeListings(l1), EncodeListings(l2)) else r == Differ(RegularName)
    ensures var r := CompareListings(|l1|, EncodeListings(l1), EncodeListings(l2));
            if l1 == l2 then r == Same([], []) else r.Differ? && ListingsDiffer(r.what, l1, l2)
  {
    NamesCompared(n1, n2, EncodeListings(l1), EncodeListings(l2));
    ListingsCompared(l1, l2, [], []);
    assert EncodeListings(l1) + [] == EncodeListings(l1) && EncodeListings(l2) + [] == EncodeListings(l2);
  }

  /** s is the buffer of these names and listings. */
  predicate IsBuffer(s: seq<byte>, names: seq<seq<byte>>, listings: seq<Listing>) {
    && |s| >= 8 && Decode(s[..4]) == |names| && Decode(s[4..8]) == |listings|
    && s[8..] == EncodeNames(names) + EncodeListings(listings)
  }

  lemma WholeBodiesCompared(n1: seq<seq<byte>>, l1: seq<Listing>, n2: seq<seq<byte>>, l2: seq<Listing>)
    requires Sized(n1, l1) && Sized(n2, l2) && |n1| == |n2| && |l1| == |l2|
    ensures var r := CompareBodies(|n1|, |l1|, EncodeNames(n1) + EncodeListings(l1),
                                   EncodeNames(n2) + EncodeListings(l2));
            if n1 == n2 && l1 == l2 then r == Same([], [])
            else r.Differ? && if n1 != n2 then r.what == RegularName else ListingsDiffer(r.what, l1, l2)
  {
    BodiesCompared(n1, l1, n2, l2);
  }

  /** Only a buffer without anything against one with something is reported as that. */
  lemma EmptyBuffers(a: seq<byte>, b: seq<byte>)
    ensures Compare(a, b) == Differ(OneIsEmpty) <==> (a == []) != (b == [])
  {
    if |a| >= 8 && |b| >= 8 {
      BodiesNeverEmpty(Decode(a[..4]), Decode(a[4..8]), a[8..], b[8..]);
    }
  }

  lemma {:induction false} NamesNeverEmpty(k: nat, a: seq<byte>, b: seq<byte>)
    ensures CompareNames(k, a, b) != Differ(OneIsEmpty)
  {
    if k > 0 && CompareName(a, b, RegularName).Same? {
      var next := CompareName(a, b, RegularName);
      NamesNeverEmpty(k - 1, next.restA, next.restB);
    }
  }

  lemma {:induction false} ElementsNeverEmpty(k: nat, a: seq<byte>, b: seq<byte>)
    ensures CompareElements(k, a, b) != Differ(OneIsEmpty)
  {
    if k > 0 && CompareElement(a, b).Same? {
      ElementsNeverEmpty(k - 1, CompareElement(a, b).restA, CompareElement(a, b).restB);
    }
  }

  lemma {:induction false} ListingsNeverEmpty(k: nat, a: seq<byte>, b: seq<byte>)
    ensures CompareListings(k, a, b) != Differ(OneIsEmpty)
  {
    var name := CompareName(a, b, CollectionName);
    if k > 0 && name.Same? {
      if |name.restA| >= 8 && |name.restB| >= 8 {
        ElementsNeverEmpty(Decode(name.restA[..8]), name.restA[8..], name.restB[8..]);
      }
      var next := CompareListing(a, b);
      if next.Same? {
        ListingsNeverEmpty(k - 1, next.restA, next.restB);
      }
    }
  }

  lemma BodiesNeverEmpty(names: nat, listings: nat, a: seq<byte>, b: seq<byte>)
    ensures CompareBodies(names, listings, a, b) != Differ(OneIsEmpty)
  {
    NamesNeverEmpty(names, a, b);
    var rest := CompareNames(names, a, b);
    if rest.Same? {
      ListingsNeverEmpty(listings, rest.restA, rest.restB);
    }
  }

  /** The comparison of two buffers, given what follows their counts. */
  lemma ComparedAfterHeader(a: seq<byte>, b: seq<byte>, restA: seq<byte>, restB: seq<byte>)
    requires |a| >= 8 && a[8..] == restA && |b| >= 8 && b[8..] == restB
    ensures var k, m := Decode(a[..4]), Decode(a[4..8]);
            Compare(a, b) == if Decode(b[..4]) != k then Differ(RegularCount)
                             else if Decode(b[4..8]) != m then Differ(CollectionCount)
                             else CompareBodies(k, m, restA, restB)
  {
  }

  /** The first difference, in the order in which everything is listed. */
  predicate FirstDifference(what: Mismatch, n1: seq<seq<byte>>, l1: seq<Listing>,
                            n2: seq<seq<byte>>, l2: seq<Listing>)
  {
    if |n1| != |n2| then what == RegularCount
    else if |l1| != |l2| then what == CollectionCount
    else if n1 != n2 then what == RegularName
    else ListingsDiffer(what, l1, l2)
  }

  lemma BuffersCompared(a: seq<byte>, n1: seq<seq<byte>>, l1: seq<Listing>,
                        b: seq<byte>, n2: seq<seq<byte>>, l2: seq<Listing>)
    requires Sized(n1, l1) && Sized(n2, l2) && IsBuffer(a, n1, l1) && IsBuffer(b, n2, l2)
    ensures var r := Compare(a, b);
            && (r.Same? <==> n1 == n2 && l1 == l2)
            && (r.Differ? ==> FirstDifference(r.what, n1, l1, n2, l2))
            && (r.Same? ==> r == Same([], []))
  {
    ComparedAfterHeader(a, b, EncodeNames(n1) + EncodeListings(l1), EncodeNames(n2) + EncodeListings(l2));
    if |n1| == |n2| && |l1| == |l2| {
      WholeBodiesCompared(n1, l1, n2, l2);
    }
  }

  lemma HeaderRead(v: nat, w: nat, rest: seq<byte>)
    requires v < TWO32 && w < TWO32
    ensures var s := Encode(v, 4) + Encode(w, 4) + rest;
            Decode(s[..4]) == v && Decode(s[4..8]) == w && s[8..] == rest
  {
    Widths();
    FieldRead(v, 4, Encode(w, 4) + rest);
    FieldRead(w, 4, rest);
    var s := Encode(v, 4) + Encode(w, 4) + rest;
    assert s == Encode(v, 4) + (Encode(w, 4) + rest);
    assert s[4..][..4] == s[4..8] && s[4..][4..] == s[8..];
  }

  lemma SerializedIsBuffer(names: seq<seq<byte>>, listings: seq<Listing>)
    requires Sized(names, listings)
    ensures IsBuffer(Serialized(names, listings), names, listings)
  {
    var rest := EncodeNames(names) + EncodeListings(listings);
    HeaderRead(|names|, |listings|, rest);
    assert Serialized(names, listings) == Encode(|names|, 4) + Encode(|listings|, 4) + rest;
  }

  // ---------------------------------------------------------------- accountings

  /** The bounds of the fields, on the registered components. */
  predicate Small(objects: seq<Component>) {
    && |objects| < TWO32
    && forall i | 0 <= i < |objects| ::
         && |objects[i].name| < TWO32
         && (objects[i].CollectionComponent? ==>
               |objects[i].owners| < TWO32
               && forall id | id in objects[i].owners :: id < TWO64 && objects[i].owners[id] < TWO32)
  }

  lemma ListingIsSized(name: seq<byte>, order: seq<nat>, owners: map<nat, nat>)
    requires Enumerates(order, owners) && |name| < TWO32 && |owners| < TWO32
    requires forall id | id in owners :: id < TWO64 && owners[id] < TWO32
    ensures SizedListing(Listing(name, SortById(ElementsIn(order, owners))))
  {
    ListingMeaning(order, owners);
    var es := SortById(ElementsIn(order, owners));
    forall i | 0 <= i < |es| ensures es[i].id < TWO64 && es[i].process < TWO32 {
      assert es[i] in es;
    }
  }

  lemma {:induction false} SmallIsSized(objects: seq<Component>, orders: seq<seq<nat>>)
    requires Small(objects) && Ordered(objects, orders)
    ensures Sized(RegularNames(objects), Listings(objects, orders))
    ensures |RegularNames(objects)| + |Listings(objects, orders)| == |objects|
  {
    if objects != [] {
      var last := |objects| - 1;
      SmallIsSized(objects[..last], orders[..last]);
      if objects[last].CollectionComponent? {
        ListingIsSized(objects[last].name, orders[last], objects[last].owners);
      }
    }
  }

  /** Lists of collections are equal exactly when their sorted listings are. */
  lemma {:induction false} ListingsFaithful(a: seq<Component>, oa: seq<seq<nat>>, b: seq<Component>, ob: seq<seq<nat>>)
    requires Ordered(a, oa) && Ordered(b, ob)
    ensures Listings(a, oa) == Listings(b, ob) <==> Placements(a) == Placements(b)
    decreases |a| + |b|
  {
    if a != [] && !a[|a| - 1].CollectionComponent? {
      ListingsFaithful(a[..|a| - 1], oa[..|a| - 1], b, ob);
    } else if b != [] && !b[|b| - 1].CollectionComponent? {
      ListingsFaithful(a, oa, b[..|b| - 1], ob[..|b| - 1]);
    } else if a != [] && b != [] {
      ListingsFaithful(a[..|a| - 1], oa[..|a| - 1], b[..|b| - 1], ob[..|b| - 1]);
      LastListings(a, oa, b, ob);
    }
  }

  /** Two lists that end with a collection. */
  lemma LastListings(a: seq<Component>, oa: seq<seq<nat>>, b: seq<Component>, ob: seq<seq<nat>>)
    requires Ordered(a, oa) && Ordered(b, ob) && a != [] && b != []
    requires a[|a| - 1].CollectionComponent? && b[|b| - 1].CollectionComponent?
    requires Listings(a[..|a| - 1], oa[..|a| - 1]) == Listings(b[..|b| - 1], ob[..|b| - 1])
             <==> Placements(a[..|a| - 1]) == Placements(b[..|b| - 1])
    ensures Listings(a, oa) == Listings(b, ob) <==> Placements(a) == Placements(b)
  {
    var i, j := |a| - 1, |b| - 1;
    SortedListing(oa[i], a[i].owners, ob[j], b[j].owners);
    SnocEqual(Listings(a[..i], oa[..i]), Listing(a[i].name, SortById(ElementsIn(oa[i], a[i].owners))),
              Listings(b[..j], ob[..j]), Listing(b[j].name, SortById(ElementsIn(ob[j], b[j].owners))));
    SnocEqual(Placements(a[..i]), Placement(a[i].name, a[i].owners),
              Placements(b[..j]), Placement(b[j].name, b[j].owners));
  }

  lemma SnocEqual<T>(s: seq<T>, x: T, t: seq<T>, y: T)
    ensures s + [x] == t + [y] <==> s == t && x == y
  {
    if s + [x] == t + [y] {
      assert (s + [x])[..|s|] == s && (t + [y])[..|t|] == t;
      assert (s + [x])[|s|] == x && (t + [y])[|t|] == y;
    }
  }

  /** The comparison is sound and complete: it accepts the buffers of two processes if and only if they
      registered the same components in the same order and place every element alike. It never reads
      past the end of such a buffer. */
  lemma CompareIsExact(a: seq<Component>, oa: seq<seq<nat>>, b: seq<Component>, ob: seq<seq<nat>>)
    requires Ordered(a, oa) && Ordered(b, ob) && Small(a) && Small(b)
    ensures var r := Compare(Serialized(RegularNames(a), Listings(a, oa)),
                             Serialized(RegularNames(b), Listings(b, ob)));
            && (r.Same? <==> Agree(a, b))
            && (r.Differ? ==> r.what != PastEnd && r.what != OneIsEmpty)
            && forall what :: r == Differ(what) <==>
                 FirstDifference(what, RegularNames(a), Listings(a, oa), RegularNames(b), Listings(b, ob))
  {
    SmallIsSized(a, oa);
    SmallIsSized(b, ob);
    SerializedIsBuffer(RegularNames(a), Listings(a, oa));
    SerializedIsBuffer(RegularNames(b), Listings(b, ob));
    BuffersCompared(Serialized(RegularNames(a), Listings(a, oa)), RegularNames(a), Listings(a, oa),
                    Serialized(RegularNames(b), Listings(b, ob)), RegularNames(b), Listings(b, ob));
    ListingsFaithful(a, oa, b, ob);
  }

  /** Both maps say the same about the id. */
  predicate SameAt(m1: map<nat, nat>, m2: map<nat, nat>, id: nat) {
    (id in m1 <==> id in m2) && (id in m1 ==> m1[id] == m2[id])
  }

  /** Where the sorted elements of two collections of the same size first differ is where the maps do: at
      the smallest id with different entries. The ids differ there if only one map has it, and the
      processes if both do. */
  lemma SmallestDifference(o1: seq<nat>, m1: map<nat, nat>, o2: seq<nat>, m2: map<nat, nat>, id: nat)
    requires Enumerates(o1, m1) && Enumerates(o2, m2) && |m1| == |m2|
    requires !SameAt(m1, m2, id) && forall k: nat | k < id :: SameAt(m1, m2, k)
    ensures var x, y := SortById(ElementsIn(o1, m1)), SortById(ElementsIn(o2, m2));
            && |x| == |y|
            && (ElementsDiffer(ElementId, x, y) <==> (id in m1) != (id in m2))
            && (ElementsDiffer(ElementProcess, x, y) <==> id in m1 && id in m2)
  {
    ListingMeaning(o1, m1);
    ListingMeaning(o2, m2);
    SortedListing(o1, m1, o2, m2);
    var x, y := SortById(ElementsIn(o1, m1)), SortById(ElementsIn(o2, m2));
    var i := Agreeing(x, y);
    FirstIsSmallest(x, m1, y, m2, i);
    FirstIsSmallest(y, m2, x, m1, i);
    var d := if x[i].id <= y[i].id then x[i].id else y[i].id;
    assert forall k: nat | k < d :: SameAt(m1, m2, k);
    SmallestIsUnique(m1, m2, id, d);
  }

  lemma SmallestIsUnique(m1: map<nat, nat>, m2: map<nat, nat>, id: nat, d: nat)
    requires !SameAt(m1, m2, id) && forall k: nat | k < id :: SameAt(m1, m2, k)
    requires !SameAt(m1, m2, d) && forall k: nat | k < d :: SameAt(m1, m2, k)
    ensures id == d
  {
  }

  /** An element of y is not the smaller element at the first difference. */
  lemma NotTheSmaller(x: seq<Element>, y: seq<Element>, i: nat, e: Element)
    requires Increasing(x) && Increasing(y) && i < |x| && i < |y| && x[..i] == y[..i]
    requires e in y && x[i].id < y[i].id
    ensures e.id != x[i].id
  {
    var k :| 0 <= k < |y| && y[k] == e;
    if k < i {
      assert x[..i][k] == y[..i][k];
    }
  }

  /** Ids below that of x at the first difference are in both lists. */
  lemma AgreeingIsBelow(x: seq<Element>, y: seq<Element>, i: nat, e: Element)
    requires Increasing(x) && i < |x| && i <= |y| && x[..i] == y[..i] && e in x && e.id < x[i].id
    ensures e in y
  {
    var k :| 0 <= k < |x| && x[k] == e;
    assert k < i && x[..i][k] == y[..i][k];
  }

  /** The smaller id at the first difference is not in the other list, or is there with another process. */
  lemma FirstIsSmallest(x: seq<Element>, m1: map<nat, nat>, y: seq<Element>, m2: map<nat, nat>, i: nat)
    requires Increasing(x) && Increasing(y) && i < |x| && i < |y| && x[..i] == y[..i] && x[i] != y[i]
    requires forall e: Element :: e in x <==> e.id in m1 && m1[e.id] == e.process
    requires forall e: Element :: e in y <==> e.id in m2 && m2[e.id] == e.process
    ensures x[i].id in m1 && m1[x[i].id] == x[i].process
    ensures x[i].id < y[i].id ==> x[i].id !in m2
    ensures forall k: nat | k in m1 && k < x[i].id :: k in m2 && m2[k] == m1[k]
  {
    assert x[i] in x;
    forall e | e in y && x[i].id < y[i].id ensures e.id != x[i].id {
      NotTheSmaller(x, y, i, e);
    }
    assert x[i].id in m2 ==> Element(x[i].id, m2[x[i].id]) in y;
    forall k: nat | k in m1 && k < x[i].id ensures k in m2 && m2[k] == m1[k] {
      AgreeingIsBelow(x, y, i, Element(k, m1[k]));
    }
  }

  /** What process p sends to its parent. */
  function BufferOf(objects: seq<seq<Component>>, orders: seq<seq<seq<nat>>>, p: nat): seq<byte>
    requires p < |objects| == |orders| && Ordered(objects[p], orders[p])
  {
    Serialized(RegularNames(objects[p]), Listings(objects[p], orders[p]))
  }

  /** Comparing along the tree edges is enough: no process rejects a child if and only if all processes
      have the same accounting. */
  lemma TreeCheckIsExact(objects: seq<seq<Component>>, orders: seq<seq<seq<nat>>>)
    requires |objects| == |orders|
    requires forall p | 0 <= p < |objects| :: Ordered(objects[p], orders[p]) && Small(objects[p])
    ensures (forall c | 0 < c < |objects| ::
               Compare(BufferOf(objects, orders, Parent(c)), BufferOf(objects, orders, c)).Same?)
            <==> (forall p, q | 0 <= p < |objects| && 0 <= q < |objects| :: Agree(objects[p], objects[q]))
  {
    forall c | 0 < c < |objects|
      ensures Compare(BufferOf(objects, orders, Parent(c)), BufferOf(objects, orders, c)).Same?
              <==> Agree(objects[Parent(c)], objects[c])
    {
      CompareIsExact(objects[Parent(c)], orders[Parent(c)], objects[c], orders[c]);
    }
    if forall c | 0 < c < |objects| ::
         Compare(BufferOf(objects, orders, Parent(c)), BufferOf(objects, orders, c)).Same? {
      forall p | 0 <= p < |objects| ensures Agree(objects[0], objects[p]) {
        AgreesWithRoot(objects, p);
      }
    }
  }

  lemma {:induction false} AgreesWithRoot(objects: seq<seq<Component>>, p: nat)
    requires p < |objects| && forall c | 0 < c < |objects| :: Agree(objects[Parent(c)], objects[c])
    ensures Agree(objects[0], objects[p])
    decreases p
  {
    if p > 0 {
      AgreesWithRoot(objects, Parent(p));
    }
  }

  // ---------------------------------------------------------------- the code

  method AppendName(buffer: seq<byte>, name: seq<byte>) returns (r: seq<byte>)
    ensures r == buffer + EncodeName(name)
  {
    r := buffer + Encode(|name|, 4);
    r := r + name;
  }

  /** Collects the elements in iteration order, sorts them, and appends them with their number. */
  method AppendElements(buffer: seq<byte>, order: seq<nat>, owners: map<nat, nat>) returns (r: seq<byte>)
    requires Enumerates(order, owners)
    ensures var es := SortById(ElementsIn(order, owners));
            r == buffer + Encode(|es|, 8) + EncodeElements(es)
  {
    var elements: seq<Element> := [];
    for i := 0 to |order|
      invariant elements == ElementsIn(order, owners)[..i]
    {
      elements := elements + [Element(order[i], owners[order[i]])];
    }
    assert ElementsIn(order, owners)[..|order|] == ElementsIn(order, owners);
    elements := SortById(elements);
    r := buffer + Encode(|elements|, 8);
    r := AppendSorted(r, elements);
  }

  method AppendSorted(start: seq<byte>, elements: seq<Element>) returns (r: seq<byte>)
    ensures r == start + EncodeElements(elements)
  {
    r := start;
    for i := 0 to |elements|
      invariant r == start + EncodeElements(elements[..i])
    {
      FlattenBack(EncodeElement, elements[..i], elements[i]);
      assert elements[..i + 1] == elements[..i] + [elements[i]];
      Assoc(start, EncodeElements(elements[..i]), EncodeElement(elements[i]));
      Assoc(r, Encode(elements[i].id, 8), Encode(elements[i].process, 4));
      r := r + Encode(elements[i].id, 8);
      r := r + Encode(elements[i].process, 4);
    }
    assert elements[..|elements|] == elements;
  }

  /** Appends one collection: name, number of elements, elements. */
  method AppendListing(buffer: seq<byte>, name: seq<byte>, order: seq<nat>, owners: map<nat, nat>)
    returns (r: seq<byte>)
    requires Enumerates(order, owners)
    ensures r == buffer + EncodeListing(Listing(name, SortById(ElementsIn(order, owners))))
  {
    var es := SortById(ElementsIn(order, owners));
    r := AppendName(buffer, name);
    r := AppendElements(r, order, owners);
    Assoc(buffer, EncodeName(name), Encode(|es|, 8));
    Assoc(buffer, EncodeName(name) + Encode(|es|, 8), EncodeElements(es));
  }

  method SerializeComponentAccounting(objects: seq<Component>, orders: seq<seq<nat>>) returns (buffer: seq<byte>)
    requires Ordered(objects, orders)
    ensures buffer == Serialized(RegularNames(objects), Listings(objects, orders))
  {
    var regular, collections := 0, 0;
    assert objects[..|objects|] == objects && orders[..|objects|] == orders;
    for i := 0 to |objects|
      invariant regular == |RegularNames(objects[..i])| && collections == |Listings(objects[..i], orders[..i])|
    {
      assert objects[..i + 1][..i] == objects[..i] && orders[..i + 1][..i] == orders[..i];
      if objects[i].RegularComponent? {
        regular := regular + 1;
      } else {
        collections := collections + 1;
      }
    }
    buffer := Encode(regular, 4);
    buffer := buffer + Encode(collections, 4);
    buffer := AppendNames(buffer, objects);
    buffer := AppendListings(buffer, objects, orders);
  }

  method AppendNames(start: seq<byte>, objects: seq<Component>) returns (buffer: seq<byte>)
    ensures buffer == start + EncodeNames(RegularNames(objects))
  {
    buffer := start;
    for i := 0 to |objects|
      invariant buffer == start + EncodeNames(RegularNames(objects[..i]))
    {
      assert objects[..i + 1][..i] == objects[..i];
      assert objects[i].CollectionComponent? ==> RegularNames(objects[..i + 1]) == RegularNames(objects[..i]);
      if objects[i].RegularComponent? {
        FlattenBack(EncodeName, RegularNames(objects[..i]), objects[i].name);
        Assoc(start, EncodeNames(RegularNames(objects[..i])), EncodeName(objects[i].name));
        buffer := AppendName(buffer, objects[i].name);
      }
    }
    assert objects[..|objects|] == objects;
  }

  method AppendListings(start: seq<byte>, objects: seq<Component>, orders: seq<seq<nat>>) returns (buffer: seq<byte>)
    requires Ordered(objects, orders)
    ensures buffer == start + EncodeListings(Listings(objects, orders))
  {
    buffer := start;
    for i := 0 to |objects|
      invariant buffer == start + EncodeListings(Listings(objects[..i], orders[..i]))
    {
      assert objects[..i + 1][..i] == objects[..i] && orders[..i + 1][..i] == orders[..i];
      assert objects[i].RegularComponent? ==>
               Listings(objects[..i + 1], orders[..i + 1]) == Listings(objects[..i], orders[..i]);
      if objects[i].CollectionComponent? {
        ghost var c := Listing(objects[i].name, SortById(ElementsIn(orders[i], objects[i].owners)));
        FlattenBack(EncodeListing, Listings(objects[..i], orders[..i]), c);
        Assoc(start, EncodeListings(Listings(objects[..i], orders[..i])), EncodeListing(c));
        buffer := AppendListing(buffer, objects[i].name, orders[i], objects[i].owners);
      }
    }
    assert objects[..|objects|] == objects && orders[..|objects|] == orders;
  }

  /** What the comparison found at two read positions. */
  predicate Found(o: Outcome, r: Option<Mismatch>, a: seq<byte>, i: nat, b: seq<byte>, j: nat) {
    if r.Some? then o == Differ(r.value) else i <= |a| && j <= |b| && o == Same(a[i..], b[j..])
  }

  method CompareNameAt(a: seq<byte>, i: nat, b: seq<byte>, j: nat, what: Mismatch)
    returns (r: Option<Mismatch>, i': nat, j': nat)
    requires i <= |a| && j <= |b|
    ensures Found(CompareName(a[i..], b[j..], what), r, a, i', b, j')
  {
    i', j' := i, j;
    if |a| < i + 4 || |b| < j + 4 {
      return Some(PastEnd), i', j';
    }
    assert a[i..][..4] == a[i..i + 4] && b[j..][..4] == b[j..j + 4];
    var n, m := Decode(a[i..i + 4]), Decode(b[j..j + 4]);
    i', j' := i + 4, j + 4;
    if |a| < i' + n || |b| < j' + m {
      return Some(PastEnd), i', j';
    }
    assert a[i..][4..4 + n] == a[i'..i' + n] && b[j..][4..4 + m] == b[j'..j' + m];
    if a[i'..i' + n] != b[j'..j' + m] {
      return Some(what), i', j';
    }
    return None, i' + n, j' + m;
  }

  method CompareNamesAt(k: nat, a: seq<byte>, i: nat, b: seq<byte>, j: nat)
    returns (r: Option<Mismatch>, i': nat, j': nat)
    requires i <= |a| && j <= |b|
    ensures Found(CompareNames(k, a[i..], b[j..]), r, a, i', b, j')
  {
    i', j' := i, j;
    for c := 0 to k
      invariant i' <= |a| && j' <= |b|
      invariant CompareNames(k - c, a[i'..], b[j'..]) == CompareNames(k, a[i..], b[j..])
    {
      r, i', j' := CompareNameAt(a, i', b, j', RegularName);
      if r.Some? {
        return;
      }
    }
    r := None;
  }

  method CompareElementsAt(k: nat, a: seq<byte>, i: nat, b: seq<byte>, j: nat)
    returns (r: Option<Mismatch>, i': nat, j': nat)
    requires i <= |a| && j <= |b|
    ensures Found(CompareElements(k, a[i..], b[j..]), r, a, i', b, j')
  {
    i', j' := i, j;
    for c := 0 to k
      invariant i' <= |a| && j' <= |b|
      invariant CompareElements(k - c, a[i'..], b[j'..]) == CompareElements(k, a[i..], b[j..])
    {
      r, i', j' := CompareElementAt(a, i', b, j');
      if r.Some? {
        return;
      }
    }
    r := None;
  }

  method CompareElementAt(a: seq<byte>, i: nat, b: seq<byte>, j: nat)
    returns (r: Option<Mismatch>, i': nat, j': nat)
    requires i <= |a| && j <= |b|
    ensures Found(CompareElement(a[i..], b[j..]), r, a, i', b, j')
  {
    i', j' := i, j;
    if |a| < i + 12 || |b| < j + 12 {
      return Some(PastEnd), i', j';
    }
    assert a[i..][..8] == a[i..i + 8] && b[j..][..8] == b[j..j + 8];
    assert a[i..][8..12] == a[i + 8..i + 12] && b[j..][8..12] == b[j + 8..j + 12];
    if Decode(a[i..i + 8]) != Decode(b[j..j + 8]) {
      return Some(ElementId), i', j';
    }
    if Decode(a[i + 8..i + 12]) != Decode(b[j + 8..j + 12]) {
      return Some(ElementProcess), i', j';
    }
    return None, i + 12, j + 12;
  }

  method CompareListingAt(a: seq<byte>, i: nat, b: seq<byte>, j: nat)
    returns (r: Option<Mismatch>, i': nat, j': nat)
    requires i <= |a| && j <= |b|
    ensures Found(CompareListing(a[i..], b[j..]), r, a, i', b, j')
  {
    r, i', j' := CompareNameAt(a, i, b, j, CollectionName);
    if r.Some? {
      return;
    }
    if |a| < i' + 8 || |b| < j' + 8 {
      return Some(PastEnd), i', j';
    }
    assert a[i'..][..8] == a[i'..i' + 8] && b[j'..][..8] == b[j'..j' + 8];
    var n, m := Decode(a[i'..i' + 8]), Decode(b[j'..j' + 8]);
    if n != m {
      return Some(ElementCount), i', j';
    }
    assert a[i'..][8..] == a[i' + 8..] && b[j'..][8..] == b[j' + 8..];
    r, i', j' := CompareElementsAt(n, a, i' + 8, b, j' + 8);
  }

  /** compare_component_accounting_buffers with its two read pointers. */
  method CompareComponentAccountingBuffers(a: seq<byte>, b: seq<byte>) returns (r: Option<Mismatch>)
    ensures r.None? <==> Compare(a, b).Same?
    ensures r.Some? ==> Compare(a, b) == Differ(r.value)
  {
    if (a == [] && b != []) || (b == [] && a != []) {
      return Some(OneIsEmpty);
    }
    if |a| < 8 || |b| < 8 {
      return Some(PastEnd);
    }
    var regular := Decode(a[..4]);
    if regular != Decode(b[..4]) {
      return Some(RegularCount);
    }
    var collections := Decode(a[4..8]);
    if collections != Decode(b[4..8]) {
      return Some(CollectionCount);
    }
    var i, j;
    r, i, j := CompareNamesAt(regular, a, 8, b, 8);
    if r.Some? {
      return;
    }
    r, i, j := CompareListingsAt(collections, a, i, b, j);
  }

  method CompareListingsAt(k: nat, a: seq<byte>, i: nat, b: seq<byte>, j: nat)
    returns (r: Option<Mismatch>, i': nat, j': nat)
    requires i <= |a| && j <= |b|
    ensures Found(CompareListings(k, a[i..], b[j..]), r, a, i', b, j')
  {
    i', j' := i, j;
    for c := 0 to k
      invariant i' <= |a| && j' <= |b|
      invariant CompareListings(k - c, a[i'..], b[j'..]) == CompareListings(k, a[i..], b[j..])
    {
      r, i', j' := CompareListingAt(a, i', b, j');
      if r.Some? {
        return;
      }
    }
    r := None;
  }
}

/** Two-way byte formats: a writer and a strict reader that undo each other, and the ways to combine them. */
module Formats {
  import opened Base
  import opened ByteStrings

  datatype Fault = Invalid | OverLimit | UnsupportedVersion | OtherScope

  type Decoded<T> = Result<(T, Octets), Fault>

  /** `dec` reads one value off the front and returns what is left; `fits` says which values `enc` can write. */
  datatype Format<!T> = Format(enc: T -> Octets, dec: Octets -> Decoded<T>, fits: T -> bool)

  ghost predicate WritesOne<T>(f: Format<T>, x: T, rest: Octets) {
    f.fits(x) ==> f.dec(f.enc(x) + rest) == Ok((x, rest))
  }

  ghost predicate ReadsOne<T>(f: Format<T>, bytes: Octets) {
    f.dec(bytes).Ok? ==> f.fits(f.dec(bytes).value.0) && bytes == f.enc(f.dec(bytes).value.0) + f.dec(bytes).value.1
  }

  /** Written values read back, and whatever is read is exactly what writing the result produces. */
  ghost predicate Lawful<T(!new)>(f: Format<T>) {
    && (forall x, rest :: WritesOne(f, x, rest))
    && (forall bytes :: ReadsOne(f, bytes))
  }

  ghost predicate Bounded<T(!new)>(f: Format<T>, limit: nat) {
    forall x :: f.fits(x) ==> |f.enc(x)| <= limit
  }

  // Taking bytes

  function Take(bytes: Octets, count: nat): Decoded<Octets> {
    if count <= |bytes| then Ok((bytes[..count], bytes[count..])) else Err(Invalid)
  }

  lemma Taken(a: Octets, rest: Octets)
    ensures Take(a + rest, |a|) == Ok((a, rest))
  {
    assert (a + rest)[..|a|] == a && (a + rest)[|a|..] == rest;
  }

  lemma TookAll(bytes: Octets, count: nat)
    requires count <= |bytes|
    ensures bytes == bytes[..count] + bytes[count..]
  {
  }

  // Fixed widths

  function Fixed(width: nat): Format<Octets> {
    Format(x => x, bytes => Take(bytes, width), x => |x| == width)
  }

  lemma FixedLawful(width: nat)
    ensures Lawful(Fixed(width)) && Bounded(Fixed(width), width)
  {
    var f := Fixed(width);
    forall x, rest ensures WritesOne(f, x, rest) { Taken(x, rest); }
    forall bytes ensures ReadsOne(f, bytes) { if width <= |bytes| { TookAll(bytes, width); } }
  }

  function ReadNumber(bytes: Octets, width: nat): Decoded<nat> {
    var taken :- Take(bytes, width);
    Ok((FromBig(taken.0), taken.1))
  }

  /** An unsigned big-endian number. */
  function Number(width: nat): Format<nat> {
    Format(n => ToBig(n, width), bytes => ReadNumber(bytes, width), n => n < Pow256(width))
  }

  lemma {:induction false} NumberWritten(n: nat, width: nat, rest: Octets)
    requires n < Pow256(width)
    ensures ReadNumber(ToBig(n, width) + rest, width) == Ok((n, rest))
  {
    Taken(ToBig(n, width), rest);
    BigRoundTrip(n, width);
  }

  lemma {:induction false} NumberRead(bytes: Octets, width: nat)
    requires ReadNumber(bytes, width).Ok?
    ensures var r := ReadNumber(bytes, width).value; r.0 < Pow256(width) && bytes == ToBig(r.0, width) + r.1
  {
    BigRestores(bytes[..width]);
    TookAll(bytes, width);
  }

  lemma NumberLawful(width: nat)
    ensures Lawful(Number(width)) && Bounded(Number(width), width)
  {
    hide ReadNumber, ToBig;
    var f := Number(width);
    forall n: nat, rest ensures WritesOne(f, n, rest) { if n < Pow256(width) { NumberWritten(n, width, rest); } }
    forall bytes ensures ReadsOne(f, bytes) { if ReadNumber(bytes, width).Ok? { NumberRead(bytes, width); } }
  }

  // Pairs and renaming

  function ReadPair<A, B>(f: Format<A>, g: Format<B>, bytes: Octets): Decoded<(A, B)> {
    var a :- f.dec(bytes);
    var b :- g.dec(a.1);
    Ok(((a.0, b.0), b.1))
  }

  function Pair<A, B>(f: Format<A>, g: Format<B>): Format<(A, B)> {
    Format((p: (A, B)) => f.enc(p.0) + g.enc(p.1), bytes => ReadPair(f, g, bytes), (p: (A, B)) => f.fits(p.0)
      && g.fits(p.1))
  }

  lemma {:induction false} PairLawful<A(!new), B(!new)>(f: Format<A>, g: Format<B>, m: nat, n: nat)
    requires Lawful(f) && Lawful(g) && Bounded(f, m) && Bounded(g, n)
    ensures Lawful(Pair(f, g)) && Bounded(Pair(f, g), m + n)
  {
    var h := Pair(f, g);
    forall p: (A, B), rest ensures WritesOne(h, p, rest) {
      assert WritesOne(f, p.0, g.enc(p.1) + rest) && WritesOne(g, p.1, rest);
      assert h.enc(p) + rest == f.enc(p.0) + (g.enc(p.1) + rest);
    }
    forall p: (A, B) | h.fits(p) ensures |h.enc(p)| <= m + n { assert f.fits(p.0) && g.fits(p.1); }
    forall bytes ensures ReadsOne(h, bytes) {
      assert ReadsOne(f, bytes);
      if f.dec(bytes).Ok? {
        var a := f.dec(bytes).value;
        assert ReadsOne(g, a.1);
        if g.dec(a.1).Ok? {
          var b := g.dec(a.1).value;
          assert f.enc(a.0) + (g.enc(b.0) + b.1) == (f.enc(a.0) + g.enc(b.0)) + b.1;
        }
      }
    }
  }

  /** How one type is written as another, with a check when reading. */
  datatype View<!A, !B> = View(to: A -> Result<B, Fault>, from: B -> A, fits: B -> bool)

  function ReadMapped<A, B>(f: Format<A>, v: View<A, B>, bytes: Octets): Decoded<B> {
    var a :- f.dec(bytes);
    var b :- v.to(a.0);
    Ok((b, a.1))
  }

  /** The same bytes seen as another type. */
  function Mapped<A, B>(f: Format<A>, v: View<A, B>): Format<B> {
    Format((b: B) => f.enc(v.from(b)), bytes => ReadMapped(f, v, bytes), v.fits)
  }

  /** Conversion is exact: fitting values convert there and back, and accepted ones come from fitting values. */
  ghost predicate Exact<A(!new), B(!new)>(f: Format<A>, v: View<A, B>) {
    && (forall b :: v.fits(b) ==> f.fits(v.from(b)) && v.to(v.from(b)) == Ok(b))
    && (forall a :: f.fits(a) && v.to(a).Ok? ==> v.fits(v.to(a).value) && v.from(v.to(a).value) == a)
  }

  lemma {:induction false} MappedLawful<A(!new), B(!new)>(f: Format<A>, v: View<A, B>, n: nat)
    requires Lawful(f) && Bounded(f, n) && Exact(f, v)
    ensures Lawful(Mapped(f, v)) && Bounded(Mapped(f, v), n)
  {
    var h := Mapped(f, v);
    forall b, rest ensures WritesOne(h, b, rest) { assert WritesOne(f, v.from(b), rest); }
    forall bytes ensures ReadsOne(h, bytes) { assert ReadsOne(f, bytes); }
  }

  // Alternatives told apart by a first byte

  function ReadArm<T>(arm: nat -> Option<Format<T>>, bytes: Octets): Decoded<T> {
    var tag :- ReadNumber(bytes, 1);
    match arm(tag.0)
    case None => Err(Invalid)
    case Some(f) => f.dec(tag.1)
  }

  function WriteArm<T>(arm: nat -> Option<Format<T>>, tagOf: T -> nat, x: T): Octets {
    ToBig(tagOf(x), 1) + (if arm(tagOf(x)).Some? then arm(tagOf(x)).value.enc(x) else [])
  }

  function Tagged<T>(arm: nat -> Option<Format<T>>, tagOf: T -> nat): Format<T> {
    Format((x: T) => WriteArm(arm, tagOf, x), bytes => ReadArm(arm, bytes), (x: T) => tagOf(x) < 256
      && arm(tagOf(x)).Some? && arm(tagOf(x)).value.fits(x))
  }

  /** Every arm is lawful, and reads only values that carry its tag. */
  ghost predicate ArmsLawful<T(!new)>(arm: nat -> Option<Format<T>>, tagOf: T -> nat, n: nat) {
    && (forall tag :: arm(tag).Some? ==> Lawful(arm(tag).value) && Bounded(arm(tag).value, n))
    && (forall tag, x :: arm(tag).Some? && arm(tag).value.fits(x) ==> tagOf(x) == tag)
  }

  lemma {:induction false} TaggedWritten<T(!new)>(arm: nat -> Option<Format<T>>, tagOf: T -> nat, n: nat, x: T,
      rest: Octets)
    requires ArmsLawful(arm, tagOf, n)
    ensures WritesOne(Tagged(arm, tagOf), x, rest)
  {
    hide ReadNumber, ToBig;
    var h := Tagged(arm, tagOf);
    if h.fits(x) {
      var f := arm(tagOf(x)).value;
      assert WritesOne(f, x, rest);
      assert Pow256(1) == 256 * Pow256(0) == 256;
      NumberWritten(tagOf(x), 1, f.enc(x) + rest);
      assert h.enc(x) + rest == ToBig(tagOf(x), 1) + (f.enc(x) + rest);
    }
  }

  lemma {:induction false} TaggedRead<T(!new)>(arm: nat -> Option<Format<T>>, tagOf: T -> nat, n: nat, bytes: Octets)
    requires ArmsLawful(arm, tagOf, n)
    ensures ReadsOne(Tagged(arm, tagOf), bytes)
  {
    hide ReadNumber, ToBig;
    var h := Tagged(arm, tagOf);
    if h.dec(bytes).Ok? {
      NumberRead(bytes, 1);
      assert Pow256(1) == 256 * Pow256(0) == 256;
      var tag := ReadNumber(bytes, 1).value;
      var f := arm(tag.0).value;
      assert ReadsOne(f, tag.1);
      var x := f.dec(tag.1).value;
      assert ToBig(tag.0, 1) + (f.enc(x.0) + x.1) == (ToBig(tag.0, 1) + f.enc(x.0)) + x.1;
    }
  }

  lemma {:induction false} TaggedLawful<T(!new)>(arm: nat -> Option<Format<T>>, tagOf: T -> nat, n: nat)
    requires ArmsLawful(arm, tagOf, n)
    ensures Lawful(Tagged(arm, tagOf)) && Bounded(Tagged(arm, tagOf), 1 + n)
  {
    hide WritesOne, ReadsOne, ToBig;
    var h := Tagged(arm, tagOf);
    forall x, rest ensures WritesOne(h, x, rest) { TaggedWritten(arm, tagOf, n, x, rest); }
    forall bytes ensures ReadsOne(h, bytes) { TaggedRead(arm, tagOf, n, bytes); }
  }

  lemma TaggedFits<T>(arm: nat -> Option<Format<T>>, tagOf: T -> nat, x: T)
    ensures Tagged(arm, tagOf).fits(x) <==> tagOf(x) < 256 && arm(tagOf(x)).Some? && arm(tagOf(x)).value.fits(x)
  {
  }

  // Constants, flags and options

  /** Nothing on the wire: the value is known from its place. */
  function Constant<T(==)>(v: T): Format<T> {
    Format((x: T) => [], bytes => Ok((v, bytes)), (x: T) => x == v)
  }

  lemma ConstantLawful<T(!new)>(v: T)
    ensures Lawful(Constant(v)) && Bounded(Constant(v), 0)
  {
    var f := Constant(v);
    forall x, rest: Octets ensures WritesOne(f, x, rest) { assert [] + rest == rest; }
    forall bytes: Octets ensures ReadsOne(f, bytes) { assert [] + bytes == bytes; }
  }

  lemma ConstantFits<T>(v: T, x: T)
    ensures Constant(v).fits(x) <==> x == v
  {
  }

  /** An enumeration written as the position of its value, counted from one. */
  function Enum<T(==)>(values: seq<T>, tagOf: T -> nat): Format<T> {
    Tagged(tag => if 1 <= tag <= |values| then Some(Constant(values[tag - 1])) else None, tagOf)
  }

  lemma {:induction false} EnumLawful<T(!new)>(values: seq<T>, tagOf: T -> nat)
    requires forall i :: 0 <= i < |values| ==> tagOf(values[i]) == i + 1
    ensures Lawful(Enum(values, tagOf)) && Bounded(Enum(values, tagOf), 1)
  {
    hide Lawful, Bounded;
    var arm: nat -> Option<Format<T>> := tag => if 1 <= tag <= |values| then Some(Constant(values[tag - 1])) else None;
    forall tag | arm(tag).Some?
      ensures Lawful(arm(tag).value) && Bounded(arm(tag).value, 0)
    {
      ConstantLawful(values[tag - 1]);
    }
    TaggedLawful(arm, tagOf, 0);
  }

  function FlagArm(tag: nat): Option<Format<bool>> {
    if tag == 0 then Some(Constant(false)) else if tag == 1 then Some(Constant(true)) else None
  }

  function FlagTag(b: bool): nat {
    if b then 1 else 0
  }

  /** A strict boolean byte: exactly zero or one. */
  function Flag(): Format<bool> {
    Tagged(FlagArm, FlagTag)
  }

  lemma {:induction false} FlagLawful()
    ensures Lawful(Flag()) && Bounded(Flag(), 1)
    ensures forall b :: Flag().fits(b)
  {
    hide Lawful, Bounded;
    ConstantLawful(false);
    ConstantLawful(true);
    TaggedLawful(FlagArm, FlagTag, 0);
    forall b ensures Flag().fits(b) {
      TaggedFits(FlagArm, FlagTag, b);
      assert FlagArm(FlagTag(b)).Some?;
    }
  }

  function ReadSome<T>(f: Format<T>, bytes: Octets): Decoded<Option<T>> {
    var x :- f.dec(bytes);
    Ok((Some(x.0), x.1))
  }

  function SomeOf<T>(f: Format<T>): Format<Option<T>> {
    Format((o: Option<T>) => if o.Some? then f.enc(o.value)
      else [], bytes => ReadSome(f, bytes), (o: Option<T>) => o.Some? && f.fits(o.value))
  }

  lemma {:induction false} SomeLawful<T(!new)>(f: Format<T>, n: nat)
    requires Lawful(f) && Bounded(f, n)
    ensures Lawful(SomeOf(f)) && Bounded(SomeOf(f), n)
  {
    var h := SomeOf(f);
    forall o: Option<T>, rest ensures WritesOne(h, o, rest) { if o.Some? { assert WritesOne(f, o.value, rest); } }
    forall bytes ensures ReadsOne(h, bytes) { assert ReadsOne(f, bytes); }
  }

  function OptionArm<T(==)>(f: Format<T>): nat -> Option<Format<Option<T>>> {
    tag => if tag == 0 then Some(Constant(None)) else if tag == 1 then Some(SomeOf(f)) else None
  }

  function OptionTag<T>(o: Option<T>): nat {
    if o.Some? then 1 else 0
  }

  /** A presence byte, then the value when there is one. */
  function Optional<T(==)>(f: Format<T>): Format<Option<T>> {
    Tagged(OptionArm(f), OptionTag)
  }

  lemma {:induction false} OptionalLawful<T(!new)>(f: Format<T>, n: nat)
    requires Lawful(f) && Bounded(f, n)
    ensures Lawful(Optional(f)) && Bounded(Optional(f), 1 + n)
  {
    ConstantLawful<Option<T>>(None);
    SomeLawful(f, n);
    TaggedLawful(OptionArm(f), OptionTag, n);
  }

  lemma OptionalFits<T>(f: Format<T>, o: Option<T>)
    ensures Optional(f).fits(o) <==> (o.Some? ==> f.fits(o.value))
  {
    TaggedFits(OptionArm(f), OptionTag, o);
    if o.None? {
      ConstantFits<Option<T>>(None, o);
      assert OptionArm(f)(0).value == Constant<Option<T>>(None);
    } else {
      assert OptionArm(f)(1).value == SomeOf(f);
      assert SomeOf(f).fits(o) <==> f.fits(o.value);
    }
  }

  // Lists

  function WriteEach<T>(f: Format<T>, items: seq<T>): Octets {
    if items == [] then [] else f.enc(items[0]) + WriteEach(f, items[1..])
  }

  function ReadEach<T>(f: Format<T>, count: nat, bytes: Octets): Decoded<seq<T>> {
    if count == 0 then Ok(([], bytes))
    else
      var first :- f.dec(bytes);
      var others :- ReadEach(f, count - 1, first.1);
      Ok(([first.0] + others.0, others.1))
  }

  lemma {:induction false} EachWritten<T(!new)>(f: Format<T>, items: seq<T>, rest: Octets)
    requires Lawful(f) && forall i :: 0 <= i < |items| ==> f.fits(items[i])
    ensures ReadEach(f, |items|, WriteEach(f, items) + rest) == Ok((items, rest))
    decreases |items|
  {
    if items == [] {
      assert [] + rest == rest;
    } else {
      var others := items[1..];
      EachWritten(f, others, rest);
      assert WritesOne(f, items[0], WriteEach(f, others) + rest);
      assert WriteEach(f, items) + rest == f.enc(items[0]) + (WriteEach(f, others) + rest);
      assert [items[0]] + others == items;
    }
  }

  lemma {:induction false} EachRead<T(!new)>(f: Format<T>, count: nat, bytes: Octets)
    requires Lawful(f) && ReadEach(f, count, bytes).Ok?
    ensures var r := ReadEach(f, count, bytes).value;
      |r.0| == count && (forall i :: 0 <= i < count ==> f.fits(r.0[i])) && bytes == WriteEach(f, r.0) + r.1
    decreases count
  {
    if count == 0 {
      assert [] + bytes == bytes;
    } else {
      assert ReadsOne(f, bytes);
      var first := f.dec(bytes).value;
      EachRead(f, count - 1, first.1);
      var others := ReadEach(f, count - 1, first.1).value;
      var all := [first.0] + others.0;
      assert all[1..] == others.0;
      assert f.enc(first.0) + (WriteEach(f, others.0) + others.1)
        == (f.enc(first.0) + WriteEach(f, others.0)) + others.1;
    }
  }

  lemma {:induction false} EachBounded<T(!new)>(f: Format<T>, items: seq<T>, n: nat)
    requires Bounded(f, n) && forall i :: 0 <= i < |items| ==> f.fits(items[i])
    ensures |WriteEach(f, items)| <= |items| * n
    decreases |items|
  {
    if items != [] {
      EachBounded(f, items[1..], n);
      assert |items| * n == n + (|items| - 1) * n;
    }
  }

  function ReadCounted<T>(f: Format<T>, maximum: nat, bytes: Octets): Decoded<seq<T>> {
    var count :- ReadNumber(bytes, 2);
    if count.0 > maximum then Err(OverLimit) else ReadEach(f, count.0, count.1)
  }

  /** A 16-bit count, then that many values; longer lists are refused before any value is read. */
  function Counted<T>(f: Format<T>, maximum: nat): Format<seq<T>> {
    Format((items: seq<T>) => ToBig(|items|, 2) + WriteEach(f, items), bytes => ReadCounted(f, maximum, bytes),
           (items: seq<T>) => |items| <= maximum && |items| < Pow256(2) && forall i :: 0 <= i < |items| ==>
             f.fits(items[i]))
  }

  lemma {:induction false} CountedWritten<T(!new)>(f: Format<T>, maximum: nat, items: seq<T>, rest: Octets)
    requires Lawful(f)
    ensures WritesOne(Counted(f, maximum), items, rest)
  {
    hide Lawful, ReadNumber, ToBig, Pow256, WriteEach, ReadEach;
    var h := Counted(f, maximum);
    if h.fits(items) {
      EachWritten(f, items, rest);
      NumberWritten(|items|, 2, WriteEach(f, items) + rest);
      assert h.enc(items) + rest == ToBig(|items|, 2) + (WriteEach(f, items) + rest);
    }
  }

  lemma {:induction false} CountedRead<T(!new)>(f: Format<T>, maximum: nat, bytes: Octets)
    requires Lawful(f)
    ensures ReadsOne(Counted(f, maximum), bytes)
  {
    hide Lawful, ReadNumber, ToBig, Pow256, WriteEach, ReadEach;
    var h := Counted(f, maximum);
    if h.dec(bytes).Ok? {
      NumberRead(bytes, 2);
      var count := ReadNumber(bytes, 2).value;
      EachRead(f, count.0, count.1);
      var r := ReadEach(f, count.0, count.1).value;
      assert ToBig(count.0, 2) + (WriteEach(f, r.0) + r.1) == (ToBig(count.0, 2) + WriteEach(f, r.0)) + r.1;
    }
  }

  lemma {:induction false} CountedBounded<T(!new)>(f: Format<T>, maximum: nat, n: nat, items: seq<T>)
    requires Bounded(f, n) && Counted(f, maximum).fits(items)
    ensures |Counted(f, maximum).enc(items)| <= 2 + maximum * n
  {
    hide Bounded, ToBig, Pow256, WriteEach;
    EachBounded(f, items, n);
    assert |items| * n <= maximum * n;
  }

  lemma {:induction false} CountedLawful<T(!new)>(f: Format<T>, maximum: nat, n: nat)
    requires Lawful(f) && Bounded(f, n)
    ensures Lawful(Counted(f, maximum)) && Bounded(Counted(f, maximum), 2 + maximum * n)
  {
    hide Counted, WritesOne, ReadsOne;
    var h := Counted(f, maximum);
    forall items: seq<T>, rest ensures WritesOne(h, items, rest) { CountedWritten(f, maximum, items, rest); }
    forall bytes ensures ReadsOne(h, bytes) { CountedRead(f, maximum, bytes); }
    forall items: seq<T> | h.fits(items)
      ensures |h.enc(items)| <= 2 + maximum * n
    {
      CountedBounded(f, maximum, n, items);
    }
  }

  // Text

  predicate Continuation(b: Byte) {
    0x80 <= b < 0xC0
  }

  /** Well-formed UTF-8 (section 4 of RFC 3629). */
  predicate Utf8(bytes: Octets) {
    if bytes == [] then true
    else if bytes[0] < 0x80 then Utf8(bytes[1..])
    else if 0xC2 <= bytes[0] < 0xE0 then |bytes| >= 2 && Continuation(bytes[1]) && Utf8(bytes[2..])
    else if 0xE0 <= bytes[0] < 0xF0 then
      && |bytes| >= 3 && Continuation(bytes[1]) && Continuation(bytes[2])
      && (bytes[0] == 0xE0 ==> bytes[1] >= 0xA0) && (bytes[0] == 0xED ==> bytes[1] < 0xA0)
      && Utf8(bytes[3..])
    else if 0xF0 <= bytes[0] < 0xF5 then
      && |bytes| >= 4 && Continuation(bytes[1]) && Continuation(bytes[2]) && Continuation(bytes[3])
      && (bytes[0] == 0xF0 ==> bytes[1] >= 0x90) && (bytes[0] == 0xF4 ==> bytes[1] < 0x90)
      && Utf8(bytes[4..])
    else false
  }

  function ReadText(bytes: Octets, maximum: nat): Decoded<Octets> {
    var length :- ReadNumber(bytes, 4);
    if length.0 > maximum then Err(OverLimit)
    else
      var taken :- Take(length.1, length.0);
      if Utf8(taken.0) then Ok(taken) else Err(Invalid)
  }

  /** A 32-bit length, then that many bytes of UTF-8. */
  function Text(maximum: nat): Format<Octets> {
    Format(x => ToBig(|x|, 4) + x, bytes => ReadText(bytes, maximum), x => |x| <= maximum && |x| < Pow256(4) && Utf8(x))
  }

  lemma {:induction false} TextWritten(maximum: nat, x: Octets, rest: Octets)
    ensures WritesOne(Text(maximum), x, rest)
  {
    hide Utf8, ReadNumber, ToBig, Pow256;
    var h := Text(maximum);
    if h.fits(x) {
      NumberWritten(|x|, 4, x + rest);
      Taken(x, rest);
      assert h.enc(x) + rest == ToBig(|x|, 4) + (x + rest);
    }
  }

  lemma {:induction false} TextRead(maximum: nat, bytes: Octets)
    ensures ReadsOne(Text(maximum), bytes)
  {
    hide Utf8, ReadNumber, ToBig, Pow256;
    var h := Text(maximum);
    if h.dec(bytes).Ok? {
      NumberRead(bytes, 4);
      var length := ReadNumber(bytes, 4).value;
      TookAll(length.1, length.0);
      var x, rest := length.1[..length.0], length.1[length.0..];
      assert ToBig(length.0, 4) + (x + rest) == (ToBig(length.0, 4) + x) + rest;
    }
  }

  lemma {:induction false} TextLawful(maximum: nat)
    ensures Lawful(Text(maximum)) && Bounded(Text(maximum), 4 + maximum)
  {
    hide Utf8, ToBig, Pow256, WritesOne, ReadsOne;
    var h := Text(maximum);
    forall x: Octets, rest ensures WritesOne(h, x, rest) { TextWritten(maximum, x, rest); }
    forall bytes ensures ReadsOne(h, bytes) { TextRead(maximum, bytes); }
  }
}

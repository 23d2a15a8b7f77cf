/** The crit-bit ordered commitment: a prefix-free bit encoding of keys, the tree it induces on a sorted item list,
    and the root digest (scripts/check_ordered_commitment_vectors.py:6-44). */
module OrderedCommitment {
  import opened Base
  import opened ByteStrings

  // Keys as bits

  type Bits = seq<bool>

  /** The low `width` bits of a number, most significant first. */
  function BitsOf(n: nat, width: nat): (r: Bits)
    ensures |r| == width
  {
    if width == 0 then [] else BitsOf(n / 2, width - 1) + [n % 2 == 1]
  }

  /** Each byte is announced by a one and followed by its bits; a zero ends the key. */
  function KeyBits(key: Octets): (r: Bits)
    ensures |r| == 9 * |key| + 1
  {
    if key == [] then [false] else [true] + BitsOf(key[0], 8) + KeyBits(key[1..])
  }

  /** `key_bits`, growing its result byte by byte. */
  method ComputeKeyBits(key: Octets) returns (result: Bits)
    ensures result == KeyBits(key)
  {
    result := [];
    for i := 0 to |key|
      invariant result + KeyBits(key[i..]) == KeyBits(key)
    {
      assert key[i..][1..] == key[i + 1..];
      assert result + ([true] + BitsOf(key[i], 8) + KeyBits(key[i + 1..]))
        == (result + [true] + BitsOf(key[i], 8)) + KeyBits(key[i + 1..]);
      result := result + [true];
      result := result + BitsOf(key[i], 8);
    }
    result := result + [false];
  }

  /** Byte strings in their usual order. */
  predicate KeyLess(a: Octets, b: Octets) {
    b != [] && (a == [] || a[0] < b[0] || (a[0] == b[0] && KeyLess(a[1..], b[1..])))
  }

  lemma {:induction false} KeysAreTotal(a: Octets, b: Octets)
    ensures a == b || KeyLess(a, b) || KeyLess(b, a)
    decreases |a|
  {
    if a != [] && b != [] && a[0] == b[0] {
      KeysAreTotal(a[1..], b[1..]);
      assert a == [a[0]] + a[1..] && b == [b[0]] + b[1..];
    }
  }

  /** `x` and `y` agree below `n`, where `x` has a zero and `y` a one. */
  predicate Diverge(x: Bits, y: Bits, n: nat) {
    n < |x| && n < |y| && x[..n] == y[..n] && !x[n] && y[n]
  }

  lemma {:induction false} BitsDiverge(a: nat, b: nat, width: nat) returns (n: nat)
    requires a < b < Power(width)
    ensures Diverge(BitsOf(a, width), BitsOf(b, width), n)
    decreases width
  {
    var x, y := BitsOf(a, width), BitsOf(b, width);
    var xs, ys := BitsOf(a / 2, width - 1), BitsOf(b / 2, width - 1);
    assert x[..width - 1] == xs && y[..width - 1] == ys;
    if a / 2 < b / 2 {
      n := BitsDiverge(a / 2, b / 2, width - 1);
      assert x[..n] == xs[..n] && y[..n] == ys[..n] && x[n] == xs[n] && y[n] == ys[n];
    } else {
      n := width - 1;
    }
  }

  function Power(width: nat): nat {
    if width == 0 then 1 else 2 * Power(width - 1)
  }

  lemma Power8()
    ensures Power(8) == 256
  {
    assert Power(8) == 2 * Power(7) == 4 * Power(6) == 8 * Power(5) == 16 * Power(4);
  }

  lemma DivergeAfter(x: Bits, y: Bits, n: nat, common: Bits)
    requires Diverge(x, y, n)
    ensures Diverge(common + x, common + y, |common| + n)
  {
    assert (common + x)[..|common| + n] == common + x[..n];
    assert (common + y)[..|common| + n] == common + y[..n];
  }

  lemma DivergeBefore(x: Bits, y: Bits, n: nat, xs: Bits, ys: Bits)
    requires Diverge(x, y, n)
    ensures Diverge(x + xs, y + ys, n)
  {
    assert (x + xs)[..n] == x[..n] && (y + ys)[..n] == y[..n];
  }

  lemma KeyBitsStep(key: Octets)
    requires key != []
    ensures KeyBits(key) == [true] + (BitsOf(key[0], 8) + KeyBits(key[1..]))
      == ([true] + BitsOf(key[0], 8)) + KeyBits(key[1..])
  {
    hide BitsOf;
  }

  lemma NoKeyBits()
    ensures KeyBits([]) == [false]
  {
  }

  /** The encoding keeps the order: a smaller key has a zero where the two first differ. */
  lemma {:induction false} OrderedKeysDiverge(a: Octets, b: Octets) returns (n: nat)
    requires KeyLess(a, b)
    ensures Diverge(KeyBits(a), KeyBits(b), n)
    decreases |b|
  {
    hide KeyBits, BitsOf, Diverge;
    KeyBitsStep(b);
    if a == [] {
      NoKeyBits();
      n := 0;
      StartsLow([false], [true] + (BitsOf(b[0], 8) + KeyBits(b[1..])));
    } else {
      KeyBitsStep(a);
      var x, y := BitsOf(a[0], 8), BitsOf(b[0], 8);
      if a[0] < b[0] {
        Power8();
        var m := BitsDiverge(a[0], b[0], 8);
        DivergeBefore(x, y, m, KeyBits(a[1..]), KeyBits(b[1..]));
        DivergeAfter(x + KeyBits(a[1..]), y + KeyBits(b[1..]), m, [true]);
        n := 1 + m;
      } else {
        var m := OrderedKeysDiverge(a[1..], b[1..]);
        DivergeAfter(KeyBits(a[1..]), KeyBits(b[1..]), m, [true] + x);
        n := 9 + m;
      }
    }
  }

  lemma StartsLow(x: Bits, y: Bits)
    requires x != [] && y != [] && !x[0] && y[0]
    ensures Diverge(x, y, 0)
  {
  }

  /** The order of keys is the order of their encodings. */
  lemma {:induction false} OrderIsBitOrder(a: Octets, b: Octets)
    ensures KeyLess(a, b) <==> Diverges(KeyBits(a), KeyBits(b))
  {
    hide KeyBits, KeyLess;
    if KeyLess(a, b) {
      var n := OrderedKeysDiverge(a, b);
      assert Diverge(KeyBits(a), KeyBits(b), n);
    } else if n :| 0 <= n < |KeyBits(a)| && Diverge(KeyBits(a), KeyBits(b), n) {
      KeysAreTotal(a, b);
      if KeyLess(b, a) {
        var m := OrderedKeysDiverge(b, a);
        NoBothWays(KeyBits(a), KeyBits(b), n, m);
      }
    }
  }

  lemma NoBothWays(x: Bits, y: Bits, n: nat, m: nat)
    requires Diverge(x, y, n)
    ensures !Diverge(y, x, m)
  {
    if m < n { assert x[..n][m] == x[m] && y[..n][m] == y[m]; }
    if n < m && m < |x| && m < |y| { assert x[..m][n] == x[n] && y[..m][n] == y[n]; }
  }

  /** No key's encoding is a prefix of another's. */
  lemma {:induction false} EncodingIsPrefixFree(a: Octets, b: Octets)
    requires KeyBits(a) <= KeyBits(b)
    ensures a == b
  {
    hide KeyBits, KeyLess;
    KeysAreTotal(a, b);
    if KeyLess(a, b) { var n := OrderedKeysDiverge(a, b); }
    if KeyLess(b, a) { var n := OrderedKeysDiverge(b, a); }
  }

  // Splitting a sorted list

  datatype Item = Item(key: Octets, value: Octets)

  predicate SortedItems(items: seq<Item>) {
    forall i, j :: 0 <= i < j < |items| ==> KeyLess(items[i].key, items[j].key)
  }

  function BitsAt(items: seq<Item>, i: nat): Bits
    requires i < |items|
  {
    KeyBits(items[i].key)
  }

  function Padded(x: Bits, length: nat): (r: Bits)
    ensures |r| == if |x| >= length then |x| else length
    ensures x <= r
  {
    if |x| >= length then x else x + seq(length - |x|, i => false)
  }

  function FirstDifference(x: Bits, y: Bits, i: nat): (n: nat)
    requires i <= |x| == |y| && exists k :: i <= k < |x| && x[k] != y[k]
    ensures i <= n < |x| && x[n] != y[n] && forall k :: i <= k < n ==> x[k] == y[k]
    decreases |x| - i
  {
    if x[i] != y[i] then i else FirstDifference(x, y, i + 1)
  }

  predicate Diverges(x: Bits, y: Bits) {
    exists n :: 0 <= n < |x| && Diverge(x, y, n)
  }

  lemma PaddedDiffer(first: Bits, last: Bits, length: nat)
    requires Diverges(first, last) && |first| <= length && |last| <= length
    ensures exists k :: 0 <= k < length && Padded(first, length)[k] != Padded(last, length)[k]
  {
    var n :| 0 <= n < |first| && Diverge(first, last, n);
    var x, y := Padded(first, length), Padded(last, length);
    assert x[n] == first[n] && y[n] == last[n];
  }

  /** The bit that tells the first key from the last; a shorter encoding is padded with zeros. */
  function Branch(first: Bits, last: Bits): nat
    requires Diverges(first, last)
  {
    var length := if |first| > |last| then |first| else |last|;
    PaddedDiffer(first, last, length);
    FirstDifference(Padded(first, length), Padded(last, length), 0)
  }

  lemma {:induction false} BranchDiverges(first: Bits, last: Bits)
    requires Diverges(first, last)
    ensures Diverge(first, last, Branch(first, last))
  {
    var n :| 0 <= n < |first| && Diverge(first, last, n);
    var length := if |first| > |last| then |first| else |last|;
    var x, y := Padded(first, length), Padded(last, length);
    var b := Branch(first, last);
    assert forall k :: 0 <= k < n ==> x[k] == first[..n][k] && y[k] == last[..n][k];
    assert x[n] == first[n] && y[n] == last[n];
    assert b == n;
  }

  lemma EndsDiverge(items: seq<Item>)
    requires SortedItems(items) && |items| >= 2
    ensures Diverges(BitsAt(items, 0), BitsAt(items, |items| - 1))
  {
    hide KeyBits, KeyLess;
    var n := OrderedKeysDiverge(items[0].key, items[|items| - 1].key);
    assert Diverge(BitsAt(items, 0), BitsAt(items, |items| - 1), n);
  }

  /** A string between two diverging ones shares what they share, and is long enough to have the branch bit. */
  lemma {:induction false} BetweenShares(x: Bits, y: Bits, z: Bits, a: nat, b: nat, n: nat)
    requires Diverge(x, z, n) && Diverge(x, y, a) && Diverge(y, z, b)
    ensures a >= n && n < |y| && y[..n] == x[..n]
  {
    assert a >= n;
    assert y[..n] == y[..a][..n] == x[..a][..n];
  }

  lemma {:induction false} EveryKeyHasBranchBit(items: seq<Item>, n: nat, i: nat)
    requires SortedItems(items) && i < |items| && |items| >= 2
      && Diverge(BitsAt(items, 0), BitsAt(items, |items| - 1), n)
    ensures n < |BitsAt(items, i)| && BitsAt(items, i)[..n] == BitsAt(items, 0)[..n]
  {
    hide KeyBits, KeyLess;
    if 0 < i < |items| - 1 {
      var a := OrderedKeysDiverge(items[0].key, items[i].key);
      var b := OrderedKeysDiverge(items[i].key, items[|items| - 1].key);
      BetweenShares(BitsAt(items, 0), BitsAt(items, i), BitsAt(items, |items| - 1), a, b, n);
    }
  }

  predicate HaveBit(items: seq<Item>, n: nat) {
    forall i :: 0 <= i < |items| ==> n < |BitsAt(items, i)|
  }

  lemma AllHaveBranchBit(items: seq<Item>, n: nat)
    requires SortedItems(items) && |items| >= 2 && Diverge(BitsAt(items, 0), BitsAt(items, |items| - 1), n)
    ensures HaveBit(items, n)
  {
    hide KeyBits, KeyLess;
    forall i | 0 <= i < |items| ensures n < |BitsAt(items, i)| { EveryKeyHasBranchBit(items, n, i); }
  }

  /** The first item from `i` on whose branch bit is one. */
  function SplitFrom(items: seq<Item>, n: nat, i: nat): (s: nat)
    requires HaveBit(items, n) && i < |items| && BitsAt(items, |items| - 1)[n]
    ensures i <= s < |items| && BitsAt(items, s)[n] && forall k :: i <= k < s ==> !BitsAt(items, k)[n]
    decreases |items| - i
  {
    if BitsAt(items, i)[n] then i else SplitFrom(items, n, i + 1)
  }

  /** Once a branch bit is one it stays one. */
  lemma {:induction false} BranchBitsRise(items: seq<Item>, n: nat, i: nat, j: nat)
    requires SortedItems(items) && |items| >= 2 && Diverge(BitsAt(items, 0), BitsAt(items, |items| - 1), n)
      && HaveBit(items, n)
    requires i < j < |items| && BitsAt(items, i)[n]
    ensures BitsAt(items, j)[n]
  {
    hide KeyBits, KeyLess;
    EveryKeyHasBranchBit(items, n, i);
    EveryKeyHasBranchBit(items, n, j);
    var m := OrderedKeysDiverge(items[i].key, items[j].key);
    var x, y := BitsAt(items, i), BitsAt(items, j);
    if m > n { assert x[..m][n] == y[..m][n]; }
  }

  datatype Split = Split(branch: nat, at: nat)

  /** Where a list of at least two items divides. */
  function SplitOf(items: seq<Item>): (s: Split)
    requires SortedItems(items) && |items| >= 2
    ensures 0 < s.at < |items|
  {
    EndsDiverge(items);
    var first, last := BitsAt(items, 0), BitsAt(items, |items| - 1);
    var n := Branch(first, last);
    BranchDiverges(first, last);
    AllHaveBranchBit(items, n);
    Split(n, SplitFrom(items, n, 0))
  }

  /** The branch bit exists in every key, is zero exactly below the split, and the split is strictly inside. */
  lemma {:induction false} SplitIsExact(items: seq<Item>)
    requires SortedItems(items) && |items| >= 2
    ensures var s := SplitOf(items);
      && 0 < s.at < |items| && HaveBit(items, s.branch)
      && forall i :: 0 <= i < |items| ==> (BitsAt(items, i)[s.branch] <==> i >= s.at)
  {
    hide KeyBits, KeyLess;
    EndsDiverge(items);
    var first, last := BitsAt(items, 0), BitsAt(items, |items| - 1);
    BranchDiverges(first, last);
    var s := SplitOf(items);
    AllHaveBranchBit(items, s.branch);
    forall i | s.at < i < |items| ensures BitsAt(items, i)[s.branch] { BranchBitsRise(items, s.branch, s.at, i); }
  }

  // Frames and digests

  /** Frame content: octets, and digests of frames. A hash is a frame wrapped whole, so it is one-to-one. */
  datatype Token = Octet(value: Byte) | Hash(frame: seq<Token>)

  type Frame = seq<Token>

  function Raw(bytes: Octets): (r: Frame)
    ensures |r| == |bytes|
  {
    seq(|bytes|, i requires 0 <= i < |bytes| => Octet(bytes[i]))
  }

  lemma RawInjective(a: Octets, b: Octets)
    requires Raw(a) == Raw(b)
    ensures a == b
  {
    assert |a| == |b|;
    forall i | 0 <= i < |a| ensures a[i] == b[i] { assert Raw(a)[i] == Raw(b)[i]; }
  }

  function Ascii(text: string): Octets {
    seq(|text|, i requires 0 <= i < |text| => if text[i] < 256 as char then text[i] as int else 0)
  }

  function Repeated(b: Byte, count: nat): Octets {
    seq(count, i => b)
  }

  function Prefix(): Octets {
    Ascii("USTE-ORDERED-COMMITMENT-V1") + [0] + Repeated(1, 16) + Repeated(2, 16) + Repeated(3, 32) + [7]
  }

  /** `struct.pack` of an unsigned number, which fails when the number does not fit. */
  function Pack(n: nat, width: nat): Option<Octets> {
    if n < Pow256(width) then Some(ToBig(n, width)) else None
  }

  lemma PackInjective(a: nat, b: nat, width: nat)
    requires Pack(a, width).Some? && Pack(a, width) == Pack(b, width)
    ensures a == b
  {
    BigInjective(a, b, width);
  }

  function ValueDigest(value: Octets): Option<Token> {
    var length := Pack(|value|, 8);
    if length.None? then None
      else Some(Hash(Raw(Ascii("USTE-ORDERED-COMMITMENT-VALUE-V1") + [0] + length.value + value)))
  }

  datatype Summary = Summary(count: nat, size: nat, digest: Token)

  function SummaryFrame(s: Summary): Option<Frame> {
    var count, size := Pack(s.count, 8), Pack(s.size, 8);
    if count.None? || size.None? then None else Some(Raw(count.value + size.value) + [s.digest])
  }

  function EmptyFrame(): Frame {
    Raw(Prefix() + [0])
  }

  function LeafFrame(item: Item): Option<Frame> {
    var keyLength, valueLength, value := Pack(|item.key|, 4), Pack(|item.value|, 8), ValueDigest(item.value);
    if keyLength.None? || valueLength.None? || value.None? then None
    else Some(Raw(Prefix() + [1] + keyLength.value + item.key + valueLength.value) + [value.value])
  }

  function BranchFrame(branch: nat, left: Summary, right: Summary): Option<Frame> {
    var packed, l, r := Pack(branch, 4), SummaryFrame(left), SummaryFrame(right);
    if packed.None? || l.None? || r.None? then None else Some(Raw(Prefix() + [2] + packed.value) + l.value + r.value)
  }

  function Summarize(count: nat, size: nat, frame: Option<Frame>): Option<Summary> {
    if frame.None? then None else Some(Summary(count, size, Hash(frame.value)))
  }

  lemma SortedParts(items: seq<Item>, at: nat)
    requires SortedItems(items) && at <= |items|
    ensures SortedItems(items[..at]) && SortedItems(items[at..])
  {
    hide KeyLess;
  }

  /** `reconstruct`: no summary when a length, a count or a branch index does not fit its field. */
  function Reconstruct(items: seq<Item>): Option<Summary>
    requires SortedItems(items)
    decreases |items|
  {
    if items == [] then Summarize(0, 0, Some(EmptyFrame()))
    else if |items| == 1 then Summarize(1, |items[0].key| + |items[0].value|, LeafFrame(items[0]))
    else
      var s := SplitOf(items);
      SortedParts(items, s.at);
      var left, right := Reconstruct(items[..s.at]), Reconstruct(items[s.at..]);
      if left.None? || right.None? then None
      else Summarize(left.value.count + right.value.count, left.value.size
        + right.value.size, BranchFrame(s.branch, left.value, right.value))
  }

  // Totals

  function TotalSize(items: seq<Item>): nat {
    if items == [] then 0 else TotalSize(items[..|items| - 1]) + |items[|items| - 1].key| + |items[|items| - 1].value|
  }

  lemma {:induction false} SizeOfParts(items: seq<Item>, at: nat)
    requires at <= |items|
    ensures TotalSize(items) == TotalSize(items[..at]) + TotalSize(items[at..])
    decreases |items|
  {
    if at == |items| {
      assert items[..at] == items && items[at..] == [];
    } else {
      var front := items[..|items| - 1];
      SizeOfParts(front, at);
      assert front[..at] == items[..at] && items[at..][..|items| - at - 1] == front[at..];
    }
  }

  /** Count and size are the totals over the items. */
  lemma {:induction false} SummaryTotals(items: seq<Item>)
    requires SortedItems(items) && Reconstruct(items).Some?
    ensures Reconstruct(items).value.count == |items| && Reconstruct(items).value.size == TotalSize(items)
    decreases |items|
  {
    hide KeyLess, SplitOf, BranchFrame, LeafFrame, EmptyFrame;
    if |items| >= 2 {
      var s := SplitOf(items);
      SortedParts(items, s.at);
      SummaryTotals(items[..s.at]);
      SummaryTotals(items[s.at..]);
      SizeOfParts(items, s.at);
    }
  }

  // When a summary exists

  const MAXIMUM_KEY_BYTES := 477_218_588

  lemma {:induction false} SplitBranchBounded(items: seq<Item>)
    requires SortedItems(items) && |items| >= 2
    ensures SplitOf(items).branch <= 9 * |items[0].key|
  {
    hide KeyLess, Branch, SplitFrom;
    SplitIsExact(items);
    assert SplitOf(items).branch < |BitsAt(items, 0)|;
  }

  lemma LeafFits(item: Item)
    requires |item.key| <= MAXIMUM_KEY_BYTES && |item.value| < Pow256(8)
    ensures LeafFrame(item).Some?
  {
    hide Pow256, ToBig, Prefix, Raw;
    Widths();
  }

  lemma BranchFits(branch: nat, left: Summary, right: Summary)
    requires branch <= 9 * MAXIMUM_KEY_BYTES
    requires left.count < Pow256(8) && left.size < Pow256(8) && right.count < Pow256(8) && right.size < Pow256(8)
    ensures BranchFrame(branch, left, right).Some?
  {
    hide Pow256, ToBig, Prefix, Raw;
    Widths();
  }

  /** Keys short enough for the 32-bit branch index, and totals that fit 64 bits, always have a summary. */
  lemma {:induction false} SummaryExists(items: seq<Item>)
    requires SortedItems(items) && (forall i :: 0 <= i < |items| ==> |items[i].key| <= MAXIMUM_KEY_BYTES)
    requires |items| < Pow256(8) && TotalSize(items) < Pow256(8)
    ensures Reconstruct(items).Some?
    decreases |items|
  {
    hide KeyLess, SplitOf, Pow256, BranchFrame, LeafFrame, EmptyFrame;
    if |items| == 1 {
      assert items[..0] == [];
      LeafFits(items[0]);
    } else if |items| >= 2 {
      var s := SplitOf(items);
      SortedParts(items, s.at);
      SizeOfParts(items, s.at);
      SummaryExists(items[..s.at]);
      SummaryExists(items[s.at..]);
      SummaryTotals(items[..s.at]);
      SummaryTotals(items[s.at..]);
      SplitBranchBounded(items);
      BranchFits(s.branch, Reconstruct(items[..s.at]).value, Reconstruct(items[s.at..]).value);
    }
  }

  // The root determines the items

  lemma Cut(a: Frame, b: Frame, c: Frame, d: Frame)
    requires a + b == c + d && |a| == |c|
    ensures a == c && b == d
  {
    assert a == (a + b)[..|a|] && c == (c + d)[..|c|];
    assert b == (a + b)[|a|..] && d == (c + d)[|c|..];
  }

  lemma RawParts(a: Octets, b: Octets, c: Octets, d: Octets)
    requires Raw(a + b) == Raw(c + d) && |a| == |c|
    ensures a == c && b == d
  {
    RawInjective(a + b, c + d);
    assert a == (a + b)[..|a|] && c == (c + d)[..|c|];
    assert b == (a + b)[|a|..] && d == (c + d)[|c|..];
  }

  lemma TagAt(tag: Byte, rest: Octets, tail: Frame)
    ensures var frame := Raw(Prefix() + [tag] + rest) + tail;
      |frame| > |Prefix()| && frame[|Prefix()|] == Octet(tag)
  {
    hide Prefix;
  }

  /** The first token after the prefix tells an empty list, one item and a branch apart. */
  lemma {:induction false} FrameTag(items: seq<Item>)
    requires SortedItems(items) && Reconstruct(items).Some?
    ensures var digest := Reconstruct(items).value.digest;
      && digest.Hash? && |digest.frame| > |Prefix()|
      && digest.frame[|Prefix()|] == Octet(if items == [] then 0 else if |items| == 1 then 1 else 2)
  {
    hide KeyLess, SplitOf, Prefix, Raw, ValueDigest, Pack, SummaryFrame;
    if items == [] {
      TagAt(0, [], []);
      assert Prefix() + [0] + [] == Prefix() + [0];
      assert EmptyFrame() + [] == EmptyFrame();
    } else if |items| == 1 {
      var item := items[0];
      var k, v := Pack(|item.key|, 4).value, Pack(|item.value|, 8).value;
      TagAt(1, k + item.key + v, [ValueDigest(item.value).value]);
      assert Prefix() + [1] + (k + item.key + v) == Prefix() + [1] + k + item.key + v;
    } else {
      var s := SplitOf(items);
      SortedParts(items, s.at);
      var l, r := SummaryFrame(Reconstruct(items[..s.at]).value).value,
        SummaryFrame(Reconstruct(items[s.at..]).value).value;
      TagAt(2, Pack(s.branch, 4).value, l + r);
      var head := Raw(Prefix() + [2] + Pack(s.branch, 4).value);
      assert head + (l + r) == head + l + r;
    }
  }

  lemma {:induction false} ValueBinds(a: Octets, b: Octets)
    requires ValueDigest(a).Some? && ValueDigest(a) == ValueDigest(b)
    ensures a == b
  {
    hide Pow256, ToBig, Raw;
    var p := Ascii("USTE-ORDERED-COMMITMENT-VALUE-V1") + [0];
    var la, lb := Pack(|a|, 8).value, Pack(|b|, 8).value;
    assert p + la + a == (p + la) + a && p + lb + b == (p + lb) + b;
    RawParts(p + la, a, p + lb, b);
  }

  lemma {:induction false} LeafBinds(a: Item, b: Item)
    requires LeafFrame(a).Some? && LeafFrame(a) == LeafFrame(b)
    ensures a == b
  {
    hide Pow256, ToBig, Raw, Prefix, ValueDigest;
    var ka, kb, va, vb := Pack(|a.key|, 4).value, Pack(|b.key|, 4).value, Pack(|a.value|, 8).value,
      Pack(|b.value|, 8).value;
    var ha, hb := Prefix() + [1] + ka + a.key + va, Prefix() + [1] + kb + b.key + vb;
    assert |Raw(ha)| == |Raw(hb)| by {
      assert |LeafFrame(a).value| == |Raw(ha)| + 1 && |LeafFrame(b).value| == |Raw(hb)| + 1;
    }
    Cut(Raw(ha), [ValueDigest(a.value).value], Raw(hb), [ValueDigest(b.value).value]);
    assert |a.key| == |b.key|;
    assert ha == (Prefix() + [1] + ka) + (a.key + va) && hb == (Prefix() + [1] + kb) + (b.key + vb);
    RawParts(Prefix() + [1] + ka, a.key + va, Prefix() + [1] + kb, b.key + vb);
    assert a.key == (a.key + va)[..|a.key|] && b.key == (b.key + vb)[..|b.key|];
    assert [ValueDigest(a.value).value][0] == [ValueDigest(b.value).value][0];
    ValueBinds(a.value, b.value);
  }

  lemma {:induction false} SummaryBinds(a: Summary, b: Summary)
    requires SummaryFrame(a).Some? && SummaryFrame(a) == SummaryFrame(b)
    ensures a == b
  {
    hide Pow256, ToBig, Raw;
    var ca, cb, sa, sb := Pack(a.count, 8).value, Pack(b.count, 8).value, Pack(a.size, 8).value, Pack(b.size, 8).value;
    Cut(Raw(ca + sa), [a.digest], Raw(cb + sb), [b.digest]);
    assert [a.digest][0] == [b.digest][0];
    RawParts(ca, sa, cb, sb);
    PackInjective(a.count, b.count, 8);
    PackInjective(a.size, b.size, 8);
  }

  lemma SummaryWidth(s: Summary)
    requires SummaryFrame(s).Some?
    ensures |SummaryFrame(s).value| == 17
  {
  }

  lemma {:induction false} BranchBinds(n: nat, a: Summary, b: Summary, m: nat, c: Summary, d: Summary)
    requires BranchFrame(n, a, b).Some? && BranchFrame(n, a, b) == BranchFrame(m, c, d)
    ensures n == m && a == c && b == d
  {
    hide Pow256, ToBig, Raw, Prefix, SummaryFrame;
    var hn, hm := Prefix() + [2] + Pack(n, 4).value, Prefix() + [2] + Pack(m, 4).value;
    var fa, fb, fc, fd := SummaryFrame(a).value, SummaryFrame(b).value, SummaryFrame(c).value, SummaryFrame(d).value;
    SummaryWidth(a);
    SummaryWidth(c);
    assert Raw(hn) + fa + fb == Raw(hn) + (fa + fb) && Raw(hm) + fc + fd == Raw(hm) + (fc + fd);
    Cut(Raw(hn), fa + fb, Raw(hm), fc + fd);
    Cut(fa, fb, fc, fd);
    RawParts(Prefix() + [2], Pack(n, 4).value, Prefix() + [2], Pack(m, 4).value);
    PackInjective(n, m, 4);
    SummaryBinds(a, c);
    SummaryBinds(b, d);
  }

  /** Under a one-to-one hash, equal roots come from equal item lists. */
  lemma {:induction false} RootBindsItems(a: seq<Item>, b: seq<Item>)
    requires SortedItems(a) && SortedItems(b) && Reconstruct(a).Some? && Reconstruct(b).Some?
    requires Reconstruct(a).value.digest == Reconstruct(b).value.digest
    ensures a == b
    decreases |a|
  {
    hide KeyLess, SplitOf, Prefix, LeafFrame, BranchFrame, EmptyFrame;
    FrameTag(a);
    FrameTag(b);
    if |a| == 1 {
      assert |b| == 1;
      LeafBinds(a[0], b[0]);
    } else if |a| >= 2 {
      assert |b| >= 2;
      var s, t := SplitOf(a), SplitOf(b);
      SortedParts(a, s.at);
      SortedParts(b, t.at);
      BranchBinds(s.branch, Reconstruct(a[..s.at]).value, Reconstruct(a[s.at..]).value,
                  t.branch, Reconstruct(b[..t.at]).value, Reconstruct(b[t.at..]).value);
      RootBindsItems(a[..s.at], b[..t.at]);
      RootBindsItems(a[s.at..], b[t.at..]);
      assert a == a[..s.at] + a[s.at..] && b == b[..t.at] + b[t.at..];
    }
  }
}

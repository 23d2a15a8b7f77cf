/** Fixed-width integers as byte strings. */
module ByteStrings {

  type Byte = b: int | 0 <= b < 256

  type Octets = seq<Byte>

  function Pow256(width: nat): nat {
    if width == 0 then 1 else 256 * Pow256(width - 1)
  }

  lemma Widths()
    ensures Pow256(2) == 0x1_0000 && Pow256(4) == 0x1_0000_0000 && Pow256(8) == 0x1_0000_0000_0000_0000
  {
    assert Pow256(2) == 256 * Pow256(1) == 0x1_0000;
    assert Pow256(4) == 256 * Pow256(3) == 256 * 256 * Pow256(2);
    assert Pow256(8) == 256 * Pow256(7) == 256 * 256 * Pow256(6) == 256 * 256 * 256 * Pow256(5)
      == 256 * 256 * 256 * 256 * Pow256(4);
  }

  // Little-endian

  function ToLittle(n: nat, width: nat): (r: Octets)
    ensures |r| == width
  {
    if width == 0 then [] else [n % 256] + ToLittle(n / 256, width - 1)
  }

  function FromLittle(bytes: Octets): (n: nat)
    ensures n < Pow256(|bytes|)
  {
    if bytes == [] then 0 else bytes[0] + 256 * FromLittle(bytes[1..])
  }

  lemma {:induction false} LittleRoundTrip(n: nat, width: nat)
    requires n < Pow256(width)
    ensures FromLittle(ToLittle(n, width)) == n
    decreases width
  {
    if width > 0 {
      LittleRoundTrip(n / 256, width - 1);
      assert ToLittle(n, width)[1..] == ToLittle(n / 256, width - 1);
    }
  }

  lemma {:induction false} LittleRestores(bytes: Octets)
    ensures ToLittle(FromLittle(bytes), |bytes|) == bytes
    decreases |bytes|
  {
    if bytes != [] {
      var first, rest := bytes[0], bytes[1..];
      LittleRestores(rest);
      assert FromLittle(bytes) / 256 == FromLittle(rest) && FromLittle(bytes) % 256 == first;
      assert bytes == [first] + rest;
    }
  }

  // Big-endian

  function ToBig(n: nat, width: nat): (r: Octets)
    ensures |r| == width
  {
    if width == 0 then [] else ToBig(n / 256, width - 1) + [n % 256]
  }

  function FromBig(bytes: Octets): (n: nat)
    ensures n < Pow256(|bytes|)
  {
    if bytes == [] then 0 else 256 * FromBig(bytes[..|bytes| - 1]) + bytes[|bytes| - 1]
  }

  lemma {:induction false} BigRoundTrip(n: nat, width: nat)
    requires n < Pow256(width)
    ensures FromBig(ToBig(n, width)) == n
    decreases width
  {
    if width > 0 {
      BigRoundTrip(n / 256, width - 1);
      assert ToBig(n, width)[..width - 1] == ToBig(n / 256, width - 1);
    }
  }

  lemma {:induction false} BigRestores(bytes: Octets)
    ensures ToBig(FromBig(bytes), |bytes|) == bytes
    decreases |bytes|
  {
    if bytes != [] {
      var front, last := bytes[..|bytes| - 1], bytes[|bytes| - 1];
      BigRestores(front);
      assert FromBig(bytes) / 256 == FromBig(front) && FromBig(bytes) % 256 == last;
      assert bytes == front + [last];
    }
  }

  lemma {:induction false} BigInjective(a: nat, b: nat, width: nat)
    requires a < Pow256(width) && b < Pow256(width) && ToBig(a, width) == ToBig(b, width)
    ensures a == b
  {
    BigRoundTrip(a, width);
    BigRoundTrip(b, width);
  }
}

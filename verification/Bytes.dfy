/** Fixed-width little-endian words. */
module Bytes {
  import opened Base

  function Pow256(n: nat): (r: nat)
    ensures r > 0
  {
    if n == 0 then 1 else 256 * Pow256(n - 1)
  }

  /** The low `n` bytes of a value, least significant first; higher bytes are lost. */
  function LittleEndian(value: nat, n: nat): (r: seq<byte>)
    ensures |r| == n
  {
    if n == 0 then [] else [(value % 256) as byte] + LittleEndian(value / 256, n - 1)
  }

  function FromLittleEndian(bytes: seq<byte>): nat {
    if bytes == [] then 0 else bytes[0] as nat + 256 * FromLittleEndian(bytes[1..])
  }

  /** Reading back a word gives the value reduced to the word's width. */
  lemma {:induction false} WordRoundTrip(value: nat, n: nat)
    ensures FromLittleEndian(LittleEndian(value, n)) == value % Pow256(n)
  {
    if n > 0 {
      WordRoundTrip(value / 256, n - 1);
      assert LittleEndian(value, n)[1..] == LittleEndian(value / 256, n - 1);
      ModSplit(value, Pow256(n - 1));
    }
  }

  lemma ModSplit(value: nat, p: nat)
    requires p > 0
    ensures value % (256 * p) == value % 256 + 256 * (value / 256 % p)
  {
    var hi, lo := value / 256, value % 256;
    var q, r := hi / p, hi % p;
    assert hi == q * p + r;
    assert value == q * (256 * p) + (256 * r + lo) by {
      assert 256 * (q * p) == q * (256 * p);
    }
    Remainder(value, q, 256 * p, 256 * r + lo);
  }

  lemma Remainder(value: nat, q: nat, d: nat, r: nat)
    requires d > 0 && r < d && value == q * d + r
    ensures value % d == r
  {
    var k := value / d - q;
    assert k * d == r - value % d by {
      assert value == value / d * d + value % d;
      assert k * d == value / d * d - q * d;
    }
    Multiple(k, d);
    Multiple(-k, d);
  }

  lemma Multiple(k: int, d: nat)
    requires d > 0
    ensures k >= 1 ==> k * d >= d
    ensures (-k) * d == -(k * d)
  {
  }

  lemma {:induction false} FromBounded(bytes: seq<byte>)
    ensures FromLittleEndian(bytes) < Pow256(|bytes|)
  {
    if bytes != [] {
      FromBounded(bytes[1..]);
    }
  }

  /** A word that fits is read back as it was. */
  lemma WordFits(value: nat, n: nat)
    requires value < Pow256(n)
    ensures FromLittleEndian(LittleEndian(value, n)) == value
  {
    WordRoundTrip(value, n);
    Remainder(value, 0, Pow256(n), value);
  }

  lemma Widths()
    ensures Pow256(2) == U16_LIMIT && Pow256(4) == U32_LIMIT && Pow256(8) == U64_LIMIT
  {
    assert Pow256(1) == 256;
    assert Pow256(3) == 0x100_0000;
    assert Pow256(5) == 0x100_0000_0000;
    assert Pow256(6) == 0x1_0000_0000_0000;
    assert Pow256(7) == 0x100_0000_0000_0000;
  }
}

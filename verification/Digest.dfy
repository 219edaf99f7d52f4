/** Streaming SHA-256: however a message is cut into pieces, the digest is the compression
    function folded over the message padded as section 5.1.1 of FIPS 180-4 prescribes.
    The compression function and the initial state are parameters. */
module Digest {
  import opened Base
  import Bytes

  const BLOCK: nat := 64

  // ------------------------------------------------------------ the standard

  /** Section 6.2.2: one compression per block, in order. */
  ghost function Fold<S>(compress: (S, seq<byte>) -> S, state: S, bytes: seq<byte>): S
    requires |bytes| % BLOCK == 0
    decreases |bytes|
  {
    if bytes == [] then state else Fold(compress, compress(state, bytes[..BLOCK]), bytes[BLOCK..])
  }

  /** A 64-bit word, most significant byte first. */
  function BigEndian(value: nat, bytes: nat): (r: seq<byte>)
    ensures |r| == bytes
  {
    if bytes == 0 then [] else BigEndian(value / 256, bytes - 1) + [(value % 256) as byte]
  }

  /** Section 5.1.1: the smallest number of zero bytes that makes the padded length, with the
      one bit's byte and the eight length bytes, a whole number of blocks. */
  ghost predicate IsZeroCount(length: nat, k: nat) {
    EndsBlock(length, k) && forall j: nat :: EndsBlock(length, j) ==> k <= j
  }

  predicate EndsBlock(length: nat, k: nat) {
    (length + 1 + k + 8) % BLOCK == 0
  }

  function ZeroCount(length: nat): nat {
    (BLOCK - (length + 1 + 8) % BLOCK) % BLOCK
  }

  lemma ZeroCountIs(length: nat)
    ensures IsZeroCount(length, ZeroCount(length)) && ZeroCount(length) < BLOCK
  {
    var n := length + 1 + 8;
    var q, r, k := n / BLOCK, n % BLOCK, ZeroCount(length);
    assert n == q * BLOCK + r && n + k == (if r == 0 then q else q + 1) * BLOCK;
    Bytes.Remainder(n + k, if r == 0 then q else q + 1, BLOCK, 0);
    forall j: nat ensures EndsBlock(length, j) ==> k <= j {
      if j < k {
        Bytes.Remainder(n + j, q, BLOCK, r + j);
      }
    }
  }

  function Padding(length: nat): (r: seq<byte>) {
    [0x80] + Zeros(ZeroCount(length)) + BigEndian(8 * length % U64_LIMIT, 8)
  }

  /** The padded message; its length field is exact for messages shorter than 2^64 bits. */
  ghost function Padded(message: seq<byte>): (r: seq<byte>)
    ensures |r| % BLOCK == 0
  {
    ZeroCountIs(|message|);
    message + Padding(|message|)
  }

  /** Byte `i` of a big-endian word is the digit of its weight. */
  lemma {:induction false} BigEndianAt(value: nat, bytes: nat, i: nat)
    requires i < bytes
    ensures BigEndian(value, bytes)[i] as nat == value / Bytes.Pow256(bytes - 1 - i) % 256
  {
    if i < bytes - 1 {
      BigEndianAt(value / 256, bytes - 1, i);
      DivideTwice(value, 256, Bytes.Pow256(bytes - 2 - i));
    }
  }

  lemma DivideTwice(v: nat, a: nat, b: nat)
    requires a > 0 && b > 0
    ensures v / a / b == v / (a * b)
  {
    var q, r := v / a / b, v / a % b;
    var rest := v % a + a * r;
    assert v == a * (b * q + r) + v % a == q * (a * b) + rest by {
      assert v / a == b * q + r;
      assert a * (b * q) == q * (a * b);
    }
    assert 0 <= rest < a * b by {
      assert a * r <= a * (b - 1);
    }
    Quotient(v, q, a * b, rest);
  }

  lemma Quotient(value: nat, q: nat, d: nat, r: nat)
    requires d > 0 && r < d && value == q * d + r
    ensures value / d == q
  {
    Bytes.Remainder(value, q, d, r);
    var k := value / d;
    assert value == k * d + r;
    assert (k - q) * d == 0;
  }

  /** The padded message as section 5.1.1 spells it: the message, the byte 0x80, fewer than 64 zero
      bytes, and the length in bits as eight bytes, the most significant first. */
  lemma PaddedIs(message: seq<byte>)
    ensures var p, n := Padded(message), |message|;
            && n + 9 <= |p| < n + 9 + BLOCK && |p| % BLOCK == 0
            && var word := p[|p| - 8..];
            && p[..n] == message && p[n] == 0x80
            && (forall i :: n < i < |p| - 8 ==> p[i] == 0)
            && (forall i :: 0 <= i < 8 ==> word[i] as nat == 8 * n % U64_LIMIT / Bytes.Pow256(7 - i) % 256)
  {
    hide BigEndian, ZeroCount, IsZeroCount;
    var p, n := Padded(message), |message|;
    ZeroCountIs(n);
    var word := BigEndian(8 * n % U64_LIMIT, 8);
    assert p == message + ([0x80] + Zeros(ZeroCount(n)) + word);
    assert p[|p| - 8..] == word;
    forall i | 0 <= i < 8 ensures word[i] as nat == 8 * n % U64_LIMIT / Bytes.Pow256(7 - i) % 256 {
      BigEndianAt(8 * n % U64_LIMIT, 8, i);
    }
  }

  // ------------------------------------------------------- folding in pieces

  lemma {:induction false} FoldConcat<S>(compress: (S, seq<byte>) -> S, state: S, a: seq<byte>, b: seq<byte>)
    requires |a| % BLOCK == 0 && |b| % BLOCK == 0
    ensures (|a| + |b|) % BLOCK == 0
    ensures Fold(compress, state, a + b) == Fold(compress, Fold(compress, state, a), b)
    decreases |a|
  {
    if a == [] {
      assert a + b == b;
    } else {
      assert (a + b)[..BLOCK] == a[..BLOCK];
      assert (a + b)[BLOCK..] == a[BLOCK..] + b;
      FoldConcat(compress, compress(state, a[..BLOCK]), a[BLOCK..], b);
    }
  }

  lemma FoldOne<S>(compress: (S, seq<byte>) -> S, state: S, block: seq<byte>)
    requires |block| == BLOCK
    ensures Fold(compress, state, block) == compress(state, block)
  {
    assert block[..BLOCK] == block && block[BLOCK..] == [];
  }

  /** The whole blocks of a message. */
  ghost function Whole(message: seq<byte>): (r: seq<byte>)
    ensures |r| % BLOCK == 0
  {
    message[..|message| - |message| % BLOCK]
  }

  /** A hasher has absorbed `m`: whole blocks are compressed, the rest is buffered. */
  ghost predicate Holding<S>(compress: (S, seq<byte>) -> S, initial: S, state: S, buffer: seq<byte>, buffered: nat, m: seq<byte>) {
    && |buffer| == BLOCK && buffered == |m| % BLOCK
    && state == Fold(compress, initial, Whole(m))
    && buffer[..buffered] == m[|m| - buffered..]
  }

  // -------------------------------------------------------------- the hasher

  class Sha256<S> {
    const compress: (S, seq<byte>) -> S
    const initial: S
    var state: S
    var buffer: array<byte>
    var buffered: nat
    var bits: nat
    ghost var message: seq<byte>

    ghost predicate Absorbed(m: seq<byte>)
      reads this, buffer
    {
      buffer.Length == BLOCK && Holding(compress, initial, state, buffer[..], buffered, m)
    }

    ghost predicate Valid()
      reads this, buffer
    {
      Absorbed(message) && bits == 8 * |message| % U64_LIMIT
    }

    constructor (compress: (S, seq<byte>) -> S, initial: S)
      ensures Valid() && message == [] && this.compress == compress && this.initial == initial && fresh(buffer)
    {
      this.compress, this.initial, state := compress, initial, initial;
      buffer := new byte[BLOCK](i => 0);
      buffered, bits, message := 0, 0, [];
      new;
      assert Whole([]) == [];
    }

    method Update(bytes: seq<byte>)
      requires Valid()
      modifies this, buffer
      ensures Valid() && message == old(message) + bytes && buffer == old(buffer)
    {
      hide Holding;
      bits := (bits + |bytes| * 8 % U64_LIMIT) % U64_LIMIT;
      BitsAdd(|message|, |bytes|);
      ghost var before := message;
      message := message + bytes;
      var taken := 0;
      if buffered > 0 {
        taken := TopUp(bytes, before);
        if buffered > 0 {
          assert bytes[..taken] == bytes;
          return;
        }
      }
      assert before + bytes[..taken] + bytes[taken..] == message;
      assert taken == 0 ==> before + bytes[..taken] == before;
      Absorb(bytes[taken..], before + bytes[..taken]);
    }

    /** Fills a part-full buffer first; a full one is compressed at once. */
    method TopUp(bytes: seq<byte>, ghost before: seq<byte>) returns (taken: nat)
      requires Absorbed(before) && buffered > 0
      modifies this`state, this`buffered, buffer
      ensures taken <= |bytes| && Absorbed(before + bytes[..taken])
      ensures buffered > 0 ==> taken == |bytes|
    {
      taken := Min(BLOCK - buffered, |bytes|);
      ghost var m := before + bytes[..taken];
      Fill(buffered, bytes[..taken]);
      if buffered + taken < BLOCK {
        WholeStays(before, bytes[..taken]);
        buffered := buffered + taken;
        return;
      }
      WholeGrows(before, bytes[..taken]);
      assert buffer[..] == before[|before| - buffered..] + bytes[..taken];
      FoldConcat(compress, initial, Whole(before), buffer[..]);
      FoldOne(compress, Fold(compress, initial, Whole(before)), buffer[..]);
      state := compress(state, buffer[..]);
      buffered := 0;
    }

    /** Copies a piece into the buffer at `at`. */
    method Fill(at: nat, piece: seq<byte>)
      requires at + |piece| <= buffer.Length
      modifies buffer
      ensures buffer[..at + |piece|] == old(buffer[..at]) + piece
      ensures buffer[..] == old(buffer[..at]) + piece + old(buffer[at + |piece|..])
    {
      forall i | 0 <= i < |piece| {
        buffer[at + i] := piece[i];
      }
    }

    /** Compresses the whole blocks of `rest` and keeps the remainder in the buffer. */
    method Absorb(rest: seq<byte>, ghost eaten: seq<byte>)
      requires Absorbed(eaten) && buffered == 0
      modifies this`state, this`buffered, buffer
      ensures Absorbed(eaten + rest)
    {
      hide Fold;
      assert Whole(eaten) == eaten;
      assert eaten + rest[..0] == eaten;
      var i := 0;
      while i + BLOCK <= |rest|
        invariant 0 <= i <= |rest| && (|eaten| + i) % BLOCK == 0
        invariant state == Fold(compress, initial, eaten + rest[..i])
      {
        var block := rest[i..i + BLOCK];
        assert eaten + rest[..i + BLOCK] == (eaten + rest[..i]) + block;
        FoldConcat(compress, initial, eaten + rest[..i], block);
        FoldOne(compress, state, block);
        state := compress(state, block);
        i := i + BLOCK;
      }
      assert eaten + rest[..i] == Whole(eaten + rest);
      Fill(0, rest[i..]);
      buffered := |rest| - i;
    }

    /** The padding always ends on a block boundary and fits its 72-byte buffer. */
    method Finish() returns (r: S)
      requires Valid()
      modifies this, buffer
      ensures r == Fold(compress, initial, Padded(old(message)))
    {
      ghost var m := message;
      var zeros := (if buffered + 1 <= 56 then 56 - (buffered + 1) else U64_LIMIT + 56 - (buffered + 1)) % BLOCK;
      TailZeros(|m|, buffered, zeros);
      var end := 1 + zeros;
      assert end + 8 <= 72;
      var tail := [0x80 as byte] + Zeros(zeros) + BigEndian(bits, 8);
      assert tail == Padding(|m|);
      Update(tail);
      assert message == Padded(m);
      assert Whole(message) == message;
      r := state;
    }
  }

  lemma WholeStays(m: seq<byte>, piece: seq<byte>)
    requires |m| % BLOCK + |piece| < BLOCK
    ensures Whole(m + piece) == Whole(m) && |m + piece| % BLOCK == |m| % BLOCK + |piece|
  {
    var n := |m| - |m| % BLOCK;
    Bytes.Remainder(|m| + |piece|, |m| / BLOCK, BLOCK, |m| % BLOCK + |piece|);
    assert (m + piece)[..n] == m[..n];
  }

  lemma WholeGrows(m: seq<byte>, piece: seq<byte>)
    requires |m| % BLOCK + |piece| == BLOCK
    ensures Whole(m + piece) == m + piece == Whole(m) + (m[|m| - |m| % BLOCK..] + piece) && |m + piece| % BLOCK == 0
  {
  }

  lemma BitsAdd(a: nat, b: nat)
    ensures (8 * a % U64_LIMIT + b * 8 % U64_LIMIT) % U64_LIMIT == 8 * (a + b) % U64_LIMIT
  {
    assert 8 * (a + b) == 8 * a + b * 8;
    RemaindersAdd(8 * a, b * 8, U64_LIMIT);
  }

  lemma RemaindersAdd(x: nat, y: nat, d: nat)
    requires d > 0
    ensures (x % d + y % d) % d == (x + y) % d
  {
    var r := x % d + y % d;
    var q := x / d + y / d + r / d;
    assert q * d == x / d * d + y / d * d + r / d * d;
    assert x == x / d * d + x % d && y == y / d * d + y % d && r == r / d * d + r % d;
    Bytes.Remainder(x + y, q, d, r % d);
  }

  lemma TailZeros(length: nat, buffered: nat, zeros: nat)
    requires buffered == length % BLOCK
    requires zeros == (if buffered + 1 <= 56 then 56 - (buffered + 1) else U64_LIMIT + 56 - (buffered + 1)) % BLOCK
    ensures zeros == ZeroCount(length)
  {
    assert (length + 9) % BLOCK == (buffered + 9) % BLOCK by { ModShift(length, 9); }
    if buffered + 1 > 56 {
      assert (U64_LIMIT + 56 - (buffered + 1)) % BLOCK == (BLOCK + 56 - (buffered + 1)) % BLOCK by {
        ModShift(U64_LIMIT, 56 - (buffered + 1) + BLOCK);
        ModShift(BLOCK, 56 - (buffered + 1) + BLOCK);
      }
    }
  }

  lemma ModShift(a: nat, b: nat)
    ensures (a + b) % BLOCK == (a % BLOCK + b) % BLOCK
  {
  }

  /** The digest depends on the message alone, not on how it was cut. */
  method HashPieces<S>(compress: (S, seq<byte>) -> S, initial: S, pieces: seq<seq<byte>>) returns (r: S)
    ensures r == Fold(compress, initial, Padded(Join(pieces)))
  {
    var hasher := new Sha256<S>(compress, initial);
    for i := 0 to |pieces|
      invariant hasher.Valid() && hasher.message == Join(pieces[..i])
      invariant fresh(hasher) && fresh(hasher.buffer) && hasher.compress == compress && hasher.initial == initial
    {
      assert pieces[..i + 1][..i] == pieces[..i];
      hasher.Update(pieces[i]);
    }
    assert pieces[..|pieces|] == pieces;
    r := hasher.Finish();
  }

  function Join(pieces: seq<seq<byte>>): seq<byte> {
    if pieces == [] then [] else Join(pieces[..|pieces| - 1]) + pieces[|pieces| - 1]
  }
}

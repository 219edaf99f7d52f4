/** Byte strings: their order, splitting and joining at a separator, and numerals. */
module Text {
  import opened Base

  // ------------------------------------------------------------------ order

  /** Lexicographic order. */
  predicate Less(a: seq<byte>, b: seq<byte>) {
    b != [] && (a == [] || a[0] < b[0] || (a[0] == b[0] && Less(a[1..], b[1..])))
  }

  lemma {:induction false} LessTotal(a: seq<byte>, b: seq<byte>)
    ensures Less(a, b) || Less(b, a) || a == b
    ensures !(Less(a, b) && Less(b, a)) && (a == b ==> !Less(a, b))
  {
    if a != [] && b != [] {
      LessTotal(a[1..], b[1..]);
      assert a == [a[0]] + a[1..] && b == [b[0]] + b[1..];
    }
  }

  lemma {:induction false} LessTransitive(a: seq<byte>, b: seq<byte>, c: seq<byte>)
    requires Less(a, b) && Less(b, c)
    ensures Less(a, c)
  {
    if a != [] && a[0] == b[0] == c[0] {
      LessTransitive(a[1..], b[1..], c[1..]);
    }
  }

  // --------------------------------------------------- splitting and joining

  /** The pieces between separators: always at least one, possibly empty. */
  function Split(s: seq<byte>, sep: byte): (r: seq<seq<byte>>)
    ensures |r| >= 1
  {
    if s == [] then [[]]
    else
      var rest := Split(s[1..], sep);
      if s[0] == sep then [[]] + rest else [[s[0]] + rest[0]] + rest[1..]
  }

  function Join(parts: seq<seq<byte>>, sep: byte): seq<byte>
    requires |parts| >= 1
  {
    if |parts| == 1 then parts[0] else parts[0] + ([sep] + Join(parts[1..], sep))
  }

  predicate Free(part: seq<byte>, sep: byte) {
    forall i :: 0 <= i < |part| ==> part[i] != sep
  }

  predicate AllFree(parts: seq<seq<byte>>, sep: byte) {
    forall i :: 0 <= i < |parts| ==> Free(parts[i], sep)
  }

  /** Splitting loses nothing. */
  lemma {:induction false} JoinSplit(s: seq<byte>, sep: byte)
    ensures Join(Split(s, sep), sep) == s && AllFree(Split(s, sep), sep)
  {
    if s != [] {
      JoinSplit(s[1..], sep);
      var rest, all := Split(s[1..], sep), Split(s, sep);
      assert s == [s[0]] + s[1..];
      assert all[1..] == if s[0] == sep then rest else rest[1..];
      if s[0] != sep {
        assert |rest| > 1 ==> [s[0]] + (rest[0] + ([sep] + Join(rest[1..], sep))) == ([s[0]] + rest[0]) + ([sep] + Join(rest[1..], sep));
      }
    }
  }

  /** Pieces free of the separator come back from their joining. */
  lemma {:induction false} SplitJoin(parts: seq<seq<byte>>, sep: byte)
    requires |parts| >= 1 && AllFree(parts, sep)
    ensures Split(Join(parts, sep), sep) == parts
    decreases |parts|, |parts[0]|
  {
    var s := Join(parts, sep);
    if parts[0] == [] {
      if |parts| > 1 {
        assert s[1..] == Join(parts[1..], sep);
        SplitJoin(parts[1..], sep);
      }
    } else {
      var shorter := [parts[0][1..]] + parts[1..];
      assert Free(parts[0], sep) && Free(parts[0][1..], sep);
      assert shorter[1..] == parts[1..] && [parts[0][0]] + parts[0][1..] == parts[0];
      assert s[0] == parts[0][0] && s[1..] == Join(shorter, sep);
      SplitJoin(shorter, sep);
    }
  }

  lemma {:induction false} JoinFree(parts: seq<seq<byte>>, sep: byte, other: byte)
    requires |parts| >= 1 && AllFree(parts, other) && sep != other
    ensures Free(Join(parts, sep), other)
  {
    if |parts| > 1 {
      JoinFree(parts[1..], sep, other);
    }
  }

  /** One byte more at the front of a split text. */
  function Fronted(c: byte, parts: seq<seq<byte>>, sep: byte): seq<seq<byte>>
    requires |parts| >= 1
  {
    if c == sep then [[]] + parts else [[c] + parts[0]] + parts[1..]
  }

  lemma SplitFronted(c: byte, s: seq<byte>, sep: byte)
    ensures Split([c] + s, sep) == Fronted(c, Split(s, sep), sep)
  {
    assert ([c] + s)[1..] == s;
  }

  lemma FrontedAppend(c: byte, parts: seq<seq<byte>>, more: seq<seq<byte>>, sep: byte)
    requires |parts| >= 1
    ensures Fronted(c, parts + more, sep) == Fronted(c, parts, sep) + more
  {
    assert (parts + more)[1..] == parts[1..] + more;
  }

  lemma {:induction false} SplitAppend(a: seq<byte>, b: seq<byte>, sep: byte)
    ensures Split(a + ([sep] + b), sep) == Split(a, sep) + Split(b, sep)
  {
    hide Split, Fronted;
    if a == [] {
      SplitFronted(sep, b, sep);
      FrontedSep(Split(b, sep), sep);
      assert a + ([sep] + b) == [sep] + b;
      assert Split(a, sep) == [[]] by { SplitEmpty(sep); }
    } else {
      SplitAppend(a[1..], b, sep);
      assert a == [a[0]] + a[1..] && a + ([sep] + b) == [a[0]] + (a[1..] + ([sep] + b));
      SplitFronted(a[0], a[1..], sep);
      SplitFronted(a[0], a[1..] + ([sep] + b), sep);
      FrontedAppend(a[0], Split(a[1..], sep), Split(b, sep), sep);
    }
  }

  lemma FrontedSep(parts: seq<seq<byte>>, sep: byte)
    requires |parts| >= 1
    ensures Fronted(sep, parts, sep) == [[]] + parts
  {
  }

  lemma SplitEmpty(sep: byte)
    ensures Split([], sep) == [[]]
  {
  }

  lemma {:induction false} SplitFree(name: seq<byte>, sep: byte)
    requires Free(name, sep)
    ensures Split(name, sep) == [name]
  {
    if name != [] {
      SplitFree(name[1..], sep);
      assert [name[0]] + name[1..] == name;
    }
  }

  // --------------------------------------------------------------- numerals

  const PLUS: byte := 43
  const MINUS: byte := 45

  /** The digit for a value below sixteen, in lower case. */
  function Digit(value: nat): byte
    requires value < 16
  {
    if value < 10 then (48 + value) as byte else (87 + value) as byte
  }

  /** The value of a digit; letters count in either case. */
  function DigitValue(c: byte): Option<nat> {
    if 48 <= c <= 57 then Some(c as nat - 48)
    else if 97 <= c <= 102 then Some(c as nat - 87)
    else if 65 <= c <= 70 then Some(c as nat - 55)
    else None
  }

  /** The shortest spelling of a number. */
  function Digits(value: nat, base: nat): (r: seq<byte>)
    requires 2 <= base <= 16
    ensures |r| >= 1
  {
    if value < base then [Digit(value)] else Digits(value / base, base) + [Digit(value % base)]
  }

  /** Reads digits of a base, most significant first. */
  function Number(text: seq<byte>, base: nat): Option<nat>
    requires 2 <= base <= 16
  {
    if text == [] then Some(0)
    else
      var high :- Number(text[..|text| - 1], base);
      var low :- DigitValue(text[|text| - 1]);
      if low >= base then None else Some(high * base + low)
  }

  /** An unsigned number below `limit` as the standard library reads it: an optional plus sign
      and at least one digit. */
  function FromRadix(text: seq<byte>, base: nat, limit: nat): Option<nat>
    requires 2 <= base <= 16
  {
    var digits := if text != [] && text[0] == PLUS then text[1..] else text;
    if digits == [] then None
    else
      var value :- Number(digits, base);
      if value >= limit then None else Some(value)
  }

  /** A signed 64-bit decimal. */
  function FromSigned(text: seq<byte>): Option<int> {
    if text != [] && text[0] == MINUS then
      if text[1..] == [] then None
      else
        var value :- Number(text[1..], 10);
        if value > U63_LIMIT then None else Some(0 - value)
    else FromRadix(text, 10, U63_LIMIT)
  }

  function Decimal(value: int): seq<byte> {
    if value < 0 then [MINUS] + Digits(0 - value, 10) else Digits(value, 10)
  }

  lemma DigitBack(value: nat)
    requires value < 16
    ensures DigitValue(Digit(value)) == Some(value)
    ensures Digit(value) in {48, 49, 50, 51, 52, 53, 54, 55, 56, 57, 97, 98, 99, 100, 101, 102}
  {
  }

  predicate Lower(text: seq<byte>) {
    forall i :: 0 <= i < |text| ==> 48 <= text[i] <= 57 || 97 <= text[i] <= 102
  }

  lemma NumberAppend(text: seq<byte>, c: byte, base: nat)
    requires 2 <= base <= 16
    ensures Number(text + [c], base) ==
            if Number(text, base).Some? && DigitValue(c).Some? && DigitValue(c).value < base
            then Some(Number(text, base).value * base + DigitValue(c).value) else None
  {
    assert (text + [c])[..|text|] == text;
  }

  lemma Divided(value: nat, base: nat)
    requires base > 0
    ensures value == value / base * base + value % base && value % base < base
  {
  }

  lemma {:induction false} DigitsBack(value: nat, base: nat)
    requires 2 <= base <= 16
    ensures Number(Digits(value, base), base) == Some(value) && Lower(Digits(value, base))
  {
    hide Number, Digit, DigitValue;
    if value < base {
      DigitBack(value);
      NumberEmpty(base);
      NumberAppend([], Digit(value), base);
      assert [] + [Digit(value)] == [Digit(value)];
    } else {
      DigitsBack(value / base, base);
      Divided(value, base);
      DigitBack(value % base);
      NumberAppend(Digits(value / base, base), Digit(value % base), base);
    }
  }

  lemma NumberEmpty(base: nat)
    requires 2 <= base <= 16
    ensures Number([], base) == Some(0)
  {
  }

  /** The spelling that reads back as itself is the shortest one. */
  lemma UnsignedSpelling(text: seq<byte>, base: nat, limit: nat, value: nat)
    requires 2 <= base <= 16
    ensures FromRadix(text, base, limit) == Some(value) && Digits(value, base) == text
            <==> value < limit && text == Digits(value, base)
  {
    hide Number, Digits;
    DigitsBack(value, base);
  }

  lemma SignedSpelling(text: seq<byte>, value: int)
    ensures FromSigned(text) == Some(value) && Decimal(value) == text
            <==> 0 - U63_LIMIT <= value < U63_LIMIT && text == Decimal(value)
  {
    hide Number, Digits;
    if value < 0 {
      DigitsBack(0 - value, 10);
      var digits := Digits(0 - value, 10);
      assert ([MINUS] + digits)[1..] == digits;
    } else {
      DigitsBack(value, 10);
    }
  }

  lemma DecimalPlain(value: int, sep: byte)
    requires sep < 45
    ensures Free(Decimal(value), sep)
  {
    hide Digits;
    DigitsBack(if value < 0 then 0 - value else value, 10);
  }

  // -------------------------------------------------------------------- hex

  function Hex(bytes: seq<byte>): (r: seq<byte>)
    ensures |r| == 2 * |bytes|
  {
    if bytes == [] then []
    else [Digit(bytes[0] as nat / 16), Digit(bytes[0] as nat % 16)] + Hex(bytes[1..])
  }

  function HexDigit(c: byte): Option<nat> {
    if 48 <= c <= 57 then Some(c as nat - 48) else if 97 <= c <= 102 then Some(c as nat - 87) else None
  }

  /** Pairs of lower-case digits. */
  function DecodeHex(text: seq<byte>): Option<seq<byte>> {
    if text == [] then Some([])
    else if |text| == 1 then None
    else
      var high :- HexDigit(text[0]);
      var low :- HexDigit(text[1]);
      var rest :- DecodeHex(text[2..]);
      Some([(high * 16 + low) as byte] + rest)
  }

  lemma HexPair(c: byte, d: byte, b: byte)
    ensures HexDigit(c).Some? && HexDigit(d).Some? && HexDigit(c).value * 16 + HexDigit(d).value == b as nat
            <==> c == Digit(b as nat / 16) && d == Digit(b as nat % 16)
  {
  }

  /** Hex text and bytes determine each other. */
  lemma {:induction false} HexSpelling(text: seq<byte>, bytes: seq<byte>)
    ensures DecodeHex(text) == Some(bytes) <==> text == Hex(bytes)
    decreases |text|
  {
    if |text| >= 2 && bytes != [] {
      HexPair(text[0], text[1], bytes[0]);
      HexSpelling(text[2..], bytes[1..]);
      assert text == [text[0], text[1]] + text[2..] && bytes == [bytes[0]] + bytes[1..];
      assert Hex(bytes)[..2] == [Digit(bytes[0] as nat / 16), Digit(bytes[0] as nat % 16)] && Hex(bytes)[2..] == Hex(bytes[1..]);
    }
  }

  lemma {:induction false} HexLower(bytes: seq<byte>)
    ensures Lower(Hex(bytes))
  {
    if bytes != [] {
      DigitBack(bytes[0] as nat / 16);
      DigitBack(bytes[0] as nat % 16);
      HexLower(bytes[1..]);
    }
  }

  lemma LowerFree(text: seq<byte>, sep: byte)
    requires Lower(text) && sep < 48
    ensures Free(text, sep)
  {
  }

  /** A number in exactly `width` lower-case hex digits. */
  function HexWord(value: nat, width: nat): (r: seq<byte>)
    ensures |r| == width
  {
    if width == 0 then [] else HexWord(value / 16, width - 1) + [Digit(value % 16)]
  }

  function Pow16(n: nat): nat {
    if n == 0 then 1 else 16 * Pow16(n - 1)
  }

  /** Lower-case digits and the number they spell determine each other. */
  lemma {:induction false} WordSpelling(text: seq<byte>, value: nat)
    ensures Number(text, 16) == Some(value) && Lower(text)
            <==> value < Pow16(|text|) && text == HexWord(value, |text|)
    decreases |text|
  {
    hide Number, Digit, DigitValue, Lower;
    if text == [] {
      NumberEmpty(16);
      assert Lower(text) by { LowerEmpty(); }
    } else {
      var n := |text| - 1;
      var front, c := text[..n], text[n];
      assert text == front + [c];
      NumberAppend(front, c, 16);
      LowerAppend(front, c);
      Divided(value, 16);
      LastDigit(c, value % 16);
      WordSpelling(front, value / 16);
      if Number(text, 16) == Some(value) && Lower(text) {
        Quotient(Number(front, 16).value, DigitValue(c).value, value);
      }
    }
  }

  lemma LowerEmpty()
    ensures Lower([])
  {
  }

  lemma LowerAppend(text: seq<byte>, c: byte)
    ensures Lower(text + [c]) <==> Lower(text) && Lower([c])
  {
    var whole := text + [c];
    if Lower(whole) {
      assert forall i :: 0 <= i < |text| ==> text[i] == whole[i];
      assert [c][0] == whole[|text|];
    }
    if Lower(text) && Lower([c]) {
      assert [c][0] == c;
    }
  }

  lemma Quotient(high: nat, low: nat, value: nat)
    requires low < 16 && high * 16 + low == value
    ensures high == value / 16 && low == value % 16
  {
  }

  lemma LastDigit(c: byte, low: nat)
    requires low < 16
    ensures DigitValue(c) == Some(low) && Lower([c]) <==> c == Digit(low)
    ensures Lower([c]) && DigitValue(c).Some? ==> DigitValue(c).value < 16
  {
    assert [c][0] == c;
  }
}

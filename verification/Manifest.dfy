/** The canonical text of a chunk-backed image: one line per path, in path order. */
module Manifest {
  import opened Base
  import opened Chunks
  import opened Text

  const NEWLINE: byte := 10
  const SPACE: byte := 32
  const COMMA: byte := 44
  const SLASH: byte := 47
  const MODE_LIMIT: nat := 0x1000

  /** "webtos-chunk-manifest 1". */
  const HEADER: seq<byte> := [
    119, 101, 98, 116, 111, 115, 45, 99, 104, 117, 110, 107, 45, 109, 97, 110, 105, 102, 101, 115, 116, 32, 49]

  const ROOT: seq<byte> := [SLASH]
  const DOT: seq<byte> := [46]
  const DOTDOT: seq<byte> := [46, 46]
  const TAG_DIR: seq<byte> := [100]
  const TAG_LINK: seq<byte> := [108]
  const TAG_FILE: seq<byte> := [102]

  datatype Kind = Dir | Symlink(target: seq<byte>) | File(file: ChunkedFile, fnv: nat)

  datatype Entry = Entry(path: seq<byte>, mode: nat, mtime: int, kind: Kind)

  // ------------------------------------------------------ well-formed lists

  /** Absolute, free of NUL, with no empty, dot or dot-dot part and no closing slash. */
  predicate CanonicalPath(path: seq<byte>) {
    && path != [] && path[0] == SLASH && Free(path, 0)
    && !(|path| > 1 && path[|path| - 1] == SLASH)
    && (forall i :: 0 <= i < |path| - 1 ==> !(path[i] == SLASH && path[i + 1] == SLASH))
    && (forall i :: 0 <= i < |Split(path, SLASH)| ==> Split(path, SLASH)[i] != DOT && Split(path, SLASH)[i] != DOTDOT)
  }

  predicate ValidFile(file: ChunkedFile) {
    && Layout(file) && file.size < U64_LIMIT && file.chunkSize < U32_LIMIT
    && forall i :: 0 <= i < |file.chunks| ==> |file.chunks[i]| == 32
  }

  predicate ValidKind(kind: Kind) {
    match kind
    case Dir => true
    case Symlink(target) => target != [] && Free(target, 0)
    case File(file, fnv) => ValidFile(file) && fnv < U64_LIMIT
  }

  predicate ValidEntry(e: Entry) {
    e.mode < MODE_LIMIT && 0 - U63_LIMIT <= e.mtime < U63_LIMIT && CanonicalPath(e.path) && ValidKind(e.kind)
  }

  predicate InOrder(entries: seq<Entry>) {
    forall i :: 0 < i < |entries| ==> Less(entries[i - 1].path, entries[i].path)
  }

  function LastSlash(path: seq<byte>): (r: nat)
    ensures path != [] ==> r < |path|
  {
    if path == [] then 0
    else if path[|path| - 1] == SLASH then |path| - 1
    else LastSlash(path[..|path| - 1])
  }

  function Parent(path: seq<byte>): seq<byte> {
    if path == [] || LastSlash(path) == 0 then ROOT else path[..LastSlash(path)]
  }

  predicate Names(entries: seq<Entry>, dir: seq<byte>) {
    exists j :: 0 <= j < |entries| && entries[j].kind.Dir? && entries[j].path == dir
  }

  /** The entry's parent is the root or a directory of the list. */
  predicate Housed(entries: seq<Entry>, e: Entry) {
    e.path == ROOT || Parent(e.path) == ROOT || Names(entries, Parent(e.path))
  }

  predicate AllValid(entries: seq<Entry>) {
    forall i :: 0 <= i < |entries| ==> ValidEntry(entries[i])
  }

  predicate AllHoused(entries: seq<Entry>) {
    forall i :: 0 <= i < |entries| ==> Housed(entries, entries[i])
  }

  /** The lists a manifest can hold. */
  predicate WellFormed(entries: seq<Entry>) {
    entries != [] && AllValid(entries) && InOrder(entries) && AllHoused(entries)
  }

  // --------------------------------------------------------------- printing

  function Hashes(hashes: seq<Hash>): seq<seq<byte>> {
    if hashes == [] then [] else [Hex(hashes[0])] + Hashes(hashes[1..])
  }

  function HashList(hashes: seq<Hash>): seq<byte> {
    if hashes == [] then [] else Join(Hashes(hashes), COMMA)
  }

  function Tag(kind: Kind): seq<byte> {
    match kind case Dir => TAG_DIR case Symlink(_) => TAG_LINK case File(_, _) => TAG_FILE
  }

  function KindFields(kind: Kind): seq<seq<byte>> {
    match kind
    case Dir => []
    case Symlink(target) => [Hex(target)]
    case File(file, fnv) =>
      [Digits(file.size, 10), Digits(file.chunkSize, 10), HexWord(fnv, 16), HashList(file.chunks)]
  }

  function Fields(e: Entry): (r: seq<seq<byte>>)
    ensures |r| >= 4
  {
    [Tag(e.kind), Digits(e.mode, 8), Decimal(e.mtime), Hex(e.path)] + KindFields(e.kind)
  }

  function PrintLine(e: Entry): seq<byte> {
    Join(Fields(e), SPACE)
  }

  function PrintLines(entries: seq<Entry>): (r: seq<seq<byte>>)
    ensures |r| == |entries|
  {
    if entries == [] then [] else [PrintLine(entries[0])] + PrintLines(entries[1..])
  }

  function Print(entries: seq<Entry>): seq<byte> {
    Join([HEADER] + PrintLines(entries), NEWLINE) + [NEWLINE]
  }

  // ---------------------------------------------------------------- parsing

  function ParseOctal(text: seq<byte>): Option<nat> {
    var value :- FromRadix(text, 8, U32_LIMIT);
    if value >= MODE_LIMIT || Digits(value, 8) != text then None else Some(value)
  }

  function ParseUnsigned(text: seq<byte>, limit: nat): Option<nat> {
    var value :- FromRadix(text, 10, limit);
    if Digits(value, 10) != text then None else Some(value)
  }

  function ParseSigned(text: seq<byte>): Option<int> {
    var value :- FromSigned(text);
    if Decimal(value) != text then None else Some(value)
  }

  function ParseFnv(text: seq<byte>): Option<nat> {
    var value :- FromRadix(text, 16, U64_LIMIT);
    if |text| != 16 || !Lower(text) then None else Some(value)
  }

  function ParseHashes(parts: seq<seq<byte>>): Option<seq<Hash>> {
    if parts == [] then Some([])
    else
      var hash :- DecodeHex(parts[0]);
      if |hash| != 32 then None
      else
        var rest :- ParseHashes(parts[1..]);
        Some([hash] + rest)
  }

  function ParseHashList(text: seq<byte>): Option<seq<Hash>> {
    if text == [] then Some([]) else ParseHashes(Split(text, COMMA))
  }

  function ParseFile(fields: seq<seq<byte>>): Option<Kind>
    requires |fields| == 8
  {
    var size :- ParseUnsigned(fields[4], U64_LIMIT);
    var chunkSize :- ParseUnsigned(fields[5], U32_LIMIT);
    var fnv :- ParseFnv(fields[6]);
    var hashes :- ParseHashList(fields[7]);
    var file := NewFile(size, chunkSize, hashes);
    if file.Err? then None else Some(File(file.value, fnv))
  }

  function ParseLink(fields: seq<seq<byte>>): Option<Kind>
    requires |fields| == 5
  {
    var target :- DecodeHex(fields[4]);
    if target == [] || !Free(target, 0) then None else Some(Symlink(target))
  }

  function ParseKind(fields: seq<seq<byte>>): Option<Kind>
    requires |fields| >= 4
  {
    if fields[0] == TAG_DIR && |fields| == 4 then Some(Dir)
    else if fields[0] == TAG_LINK && |fields| == 5 then ParseLink(fields)
    else if fields[0] == TAG_FILE && |fields| == 8 then ParseFile(fields)
    else None
  }

  function ParseFields(fields: seq<seq<byte>>): Option<Entry> {
    if |fields| < 4 then None
    else
      var mode :- ParseOctal(fields[1]);
      var mtime :- ParseSigned(fields[2]);
      var path :- DecodeHex(fields[3]);
      if !CanonicalPath(path) then None
      else
        var kind :- ParseKind(fields);
        Some(Entry(path, mode, mtime, kind))
  }

  function ParseLine(line: seq<byte>): Option<Entry> {
    ParseFields(Split(line, SPACE))
  }

  /** Reads the lines after `before`, each path above the one before it. */
  function ParseLines(lines: seq<seq<byte>>, before: seq<Entry>): Option<seq<Entry>>
    decreases |lines|
  {
    if lines == [] then Some(before)
    else
      var e :- ParseLine(lines[0]);
      if before != [] && !Less(before[|before| - 1].path, e.path) then None
      else ParseLines(lines[1..], before + [e])
  }

  function Parse(bytes: seq<byte>): Option<seq<Entry>> {
    if bytes == [] || bytes[|bytes| - 1] != NEWLINE then None
    else
      var lines := Split(bytes[..|bytes| - 1], NEWLINE);
      if lines[0] != HEADER then None
      else
        var entries :- ParseLines(lines[1..], []);
        if entries == [] || !AllHoused(entries) then None else Some(entries)
  }

  // ------------------------------------------------- one spelling per entry
  //
  // Each parser accepts a text for a value exactly when the value is valid and the text is its
  // printing.

  lemma OctalSpelling(text: seq<byte>, value: nat)
    ensures ParseOctal(text) == Some(value) <==> value < MODE_LIMIT && text == Digits(value, 8)
  {
    hide FromRadix, Digits;
    UnsignedSpelling(text, 8, U32_LIMIT, value);
  }

  lemma DecimalSpelling(text: seq<byte>, limit: nat, value: nat)
    ensures ParseUnsigned(text, limit) == Some(value) <==> value < limit && text == Digits(value, 10)
  {
    hide FromRadix, Digits;
    UnsignedSpelling(text, 10, limit, value);
  }

  lemma MtimeSpelling(text: seq<byte>, value: int)
    ensures ParseSigned(text) == Some(value) <==> 0 - U63_LIMIT <= value < U63_LIMIT && text == Decimal(value)
  {
    hide FromSigned, Decimal;
    SignedSpelling(text, value);
  }

  lemma Pow16Sixteen()
    ensures Pow16(16) == U64_LIMIT
  {
    assert Pow16(4) == 0x1_0000;
    assert Pow16(8) == 0x1_0000_0000;
    assert Pow16(12) == 0x1_0000_0000_0000;
  }

  lemma FnvSpelling(text: seq<byte>, value: nat)
    ensures ParseFnv(text) == Some(value) <==> value < U64_LIMIT && text == HexWord(value, 16)
  {
    hide Number, HexWord, Pow16;
    Pow16Sixteen();
    WordSpelling(text, value);
    if |text| == 16 && Lower(text) {
      assert text[0] != PLUS;
    }
  }

  predicate AllHash(hashes: seq<Hash>) {
    forall i :: 0 <= i < |hashes| ==> |hashes[i]| == 32
  }

  lemma {:induction false} HashesSpelling(parts: seq<seq<byte>>, hashes: seq<Hash>)
    ensures ParseHashes(parts) == Some(hashes) <==> AllHash(hashes) && parts == Hashes(hashes)
  {
    hide DecodeHex, Hex;
    if parts != [] && hashes != [] {
      HexSpelling(parts[0], hashes[0]);
      HashesSpelling(parts[1..], hashes[1..]);
      assert parts == [parts[0]] + parts[1..] && hashes == [hashes[0]] + hashes[1..];
      assert Hashes(hashes)[0] == Hex(hashes[0]) && Hashes(hashes)[1..] == Hashes(hashes[1..]);
      assert AllHash(hashes) <==> |hashes[0]| == 32 && AllHash(hashes[1..]);
    }
  }

  lemma {:induction false} HashesFree(hashes: seq<Hash>, sep: byte)
    requires sep < 48
    ensures AllFree(Hashes(hashes), sep)
  {
    if hashes != [] {
      HexLower(hashes[0]);
      LowerFree(Hex(hashes[0]), sep);
      HashesFree(hashes[1..], sep);
    }
  }

  lemma HashListSpelling(text: seq<byte>, hashes: seq<Hash>)
    ensures ParseHashList(text) == Some(hashes) <==> AllHash(hashes) && text == HashList(hashes)
  {
    hide ParseHashes, Split, Hex;
    HashesSpelling(Split(text, COMMA), hashes);
    JoinSplit(text, COMMA);
    if hashes != [] {
      HashesFree(hashes, COMMA);
      SplitJoin(Hashes(hashes), COMMA);
      assert AllHash(hashes) ==> |Hashes(hashes)[0]| == 64;
    }
  }

  lemma FileSpelling(fields: seq<seq<byte>>, file: ChunkedFile, fnv: nat)
    requires |fields| == 8
    ensures ParseFile(fields) == Some(File(file, fnv)) <==>
            ValidKind(File(file, fnv)) && fields[4..] == KindFields(File(file, fnv))
    ensures ParseFile(fields).Some? ==> ParseFile(fields).value.File?
  {
    hide ParseUnsigned, ParseFnv, ParseHashList, NewFile, Layout, Digits, HexWord, HashList;
    DecimalSpelling(fields[4], U64_LIMIT, file.size);
    DecimalSpelling(fields[5], U32_LIMIT, file.chunkSize);
    FnvSpelling(fields[6], fnv);
    HashListSpelling(fields[7], file.chunks);
    assert fields[4..] == [fields[4], fields[5], fields[6], fields[7]];
  }

  lemma KindSpelling(fields: seq<seq<byte>>, kind: Kind)
    requires |fields| >= 4
    ensures ParseKind(fields) == Some(kind) <==>
            ValidKind(kind) && fields[0] == Tag(kind) && fields[4..] == KindFields(kind)
  {
    hide ParseFile, DecodeHex, Hex, Digits, HexWord, HashList, ValidFile;
    if |fields| == 8 && kind.File? {
      FileSpelling(fields, kind.file, kind.fnv);
    } else if |fields| == 8 {
      FileSpelling(fields, ChunkedFile(0, 0, []), 0);
    } else if |fields| == 5 && kind.Symlink? {
      HexSpelling(fields[4], kind.target);
      assert fields[4..] == [fields[4]];
    }
  }

  lemma FieldsSpelling(fields: seq<seq<byte>>, e: Entry)
    ensures ParseFields(fields) == Some(e) <==> ValidEntry(e) && fields == Fields(e)
  {
    hide ParseOctal, ParseSigned, DecodeHex, ParseKind, CanonicalPath, ValidKind, Digits, Decimal, Hex, KindFields, Tag;
    if |fields| >= 4 {
      OctalSpelling(fields[1], e.mode);
      MtimeSpelling(fields[2], e.mtime);
      HexSpelling(fields[3], e.path);
      KindSpelling(fields, e.kind);
      assert fields == [fields[0], fields[1], fields[2], fields[3]] + fields[4..];
      assert Fields(e)[4..] == KindFields(e.kind);
    }
  }

  lemma DigitsFree(value: nat, base: nat, sep: byte)
    requires 2 <= base <= 16 && sep < 45
    ensures Free(Digits(value, base), sep)
  {
    hide Digits;
    DigitsBack(value, base);
    LowerFree(Digits(value, base), sep);
  }

  lemma HexFree(bytes: seq<byte>, sep: byte)
    requires sep < 45
    ensures Free(Hex(bytes), sep)
  {
    hide Hex;
    HexLower(bytes);
    LowerFree(Hex(bytes), sep);
  }

  lemma WordFree(value: nat, sep: byte)
    requires value < U64_LIMIT && sep < 45
    ensures Free(HexWord(value, 16), sep)
  {
    hide HexWord, Pow16;
    Pow16Sixteen();
    WordSpelling(HexWord(value, 16), value);
    LowerFree(HexWord(value, 16), sep);
  }

  lemma HashListFree(hashes: seq<Hash>, sep: byte)
    requires sep < COMMA
    ensures Free(HashList(hashes), sep)
  {
    hide Hashes, Join;
    if hashes != [] {
      HashesFree(hashes, sep);
      assert |Hashes(hashes)| >= 1 by { HashesSize(hashes); }
      JoinFree(Hashes(hashes), COMMA, sep);
    }
  }

  lemma {:induction false} HashesSize(hashes: seq<Hash>)
    ensures |Hashes(hashes)| == |hashes|
  {
    if hashes != [] {
      HashesSize(hashes[1..]);
    }
  }

  /** The fields of an entry fit their types, whether or not the entry is one a manifest can
      hold. */
  predicate Typed(e: Entry) {
    && 0 - U63_LIMIT <= e.mtime < U63_LIMIT
    && (e.kind.File? ==> e.kind.fnv < U64_LIMIT && AllHash(e.kind.file.chunks))
  }

  predicate AllTyped(entries: seq<Entry>) {
    forall i :: 0 <= i < |entries| ==> Typed(entries[i])
  }

  lemma ValidIsTyped(e: Entry)
    requires ValidEntry(e)
    ensures Typed(e)
  {
    hide CanonicalPath, Layout;
  }

  lemma AllValidTyped(entries: seq<Entry>)
    requires AllValid(entries)
    ensures AllTyped(entries)
  {
    hide ValidEntry, Typed;
    forall i | 0 <= i < |entries| ensures Typed(entries[i]) {
      ValidIsTyped(entries[i]);
    }
  }

  lemma FieldsFree(e: Entry, sep: byte)
    requires Typed(e) && (sep == SPACE || sep == NEWLINE)
    ensures AllFree(Fields(e), sep)
  {
    hide Digits, Decimal, Hex, HexWord, HashList;
    DigitsFree(e.mode, 8, sep);
    DecimalPlain(e.mtime, sep);
    HexFree(e.path, sep);
    match e.kind
    case Dir =>
    case Symlink(target) => HexFree(target, sep);
    case File(file, fnv) =>
      DigitsFree(file.size, 10, sep);
      DigitsFree(file.chunkSize, 10, sep);
      WordFree(fnv, sep);
      HashListFree(file.chunks, sep);
  }

  /** A line is accepted for an entry exactly when the entry is valid and the line is its
      printing. */
  lemma LineSpelling(line: seq<byte>, e: Entry)
    ensures ParseLine(line) == Some(e) <==> ValidEntry(e) && line == PrintLine(e)
  {
    hide ParseFields, Split, Join, Fields, ValidEntry;
    FieldsSpelling(Split(line, SPACE), e);
    JoinSplit(line, SPACE);
    if ValidEntry(e) {
      ValidIsTyped(e);
      FieldsFree(e, SPACE);
      SplitJoin(Fields(e), SPACE);
    }
  }

  lemma {:induction false} LinesSpelling(lines: seq<seq<byte>>, before: seq<Entry>, entries: seq<Entry>)
    ensures ParseLines(lines, before) == Some(entries) <==> Continues(lines, before, entries)
    decreases |lines|
  {
    hide ParseLine, PrintLine, ValidEntry;
    var n := |before|;
    if lines == [] {
      if Continues(lines, before, entries) {
        assert entries[..n] == entries;
      }
      if entries == before {
        assert entries[..n] == before && entries[n..] == [];
      }
    } else if n < |entries| {
      var e := entries[n];
      LineSpelling(lines[0], e);
      ContinuesStep(lines, before, entries);
      if ParseLine(lines[0]).Some? {
        var first := ParseLine(lines[0]).value;
        LinesSpelling(lines[1..], before + [first], entries);
        if Continues(lines[1..], before + [first], entries) {
          assert entries[..n + 1][n] == first;
        }
      }
    } else {
      LinesGrow(lines, before);
    }
  }

  /** The entries after `before` print as these lines, and all paths ascend from there. */
  predicate Continues(lines: seq<seq<byte>>, before: seq<Entry>, entries: seq<Entry>) {
    && |before| <= |entries| && entries[..|before|] == before
    && AllValid(entries[|before|..]) && lines == PrintLines(entries[|before|..])
    && forall i :: |before| <= i < |entries| && i > 0 ==> Less(entries[i - 1].path, entries[i].path)
  }

  lemma ContinuesStep(lines: seq<seq<byte>>, before: seq<Entry>, entries: seq<Entry>)
    requires lines != [] && |before| < |entries|
    ensures var e := entries[|before|];
            Continues(lines, before, entries) <==>
              && ValidEntry(e) && lines[0] == PrintLine(e)
              && (before != [] ==> Less(before[|before| - 1].path, e.path))
              && Continues(lines[1..], before + [e], entries)
  {
    hide PrintLine, ValidEntry, Less;
    var n := |before|;
    var e := entries[n];
    var tail := entries[n..];
    assert tail[0] == e && tail[1..] == entries[n + 1..] && tail == [e] + tail[1..];
    assert lines == [lines[0]] + lines[1..];
    assert PrintLines(tail)[0] == PrintLine(e) && PrintLines(tail)[1..] == PrintLines(tail[1..]);
    assert AllValid(tail) <==> ValidEntry(e) && AllValid(tail[1..]) by { ValidSplit(e, tail[1..]); }
    assert entries[..n + 1] == entries[..n] + [e];
    if entries[..n + 1] == before + [e] {
      assert entries[..n] == entries[..n + 1][..n] == before;
    }
    if entries[..n] == before && before != [] {
      assert entries[n - 1] == entries[..n][n - 1];
    }
  }

  lemma ValidSplit(e: Entry, rest: seq<Entry>)
    ensures AllValid([e] + rest) <==> ValidEntry(e) && AllValid(rest)
  {
    hide ValidEntry;
    var all := [e] + rest;
    if AllValid(all) {
      assert all[0] == e;
      forall i | 0 <= i < |rest| ensures ValidEntry(rest[i]) {
        assert all[i + 1] == rest[i];
      }
    }
  }

  lemma {:induction false} LinesGrow(lines: seq<seq<byte>>, before: seq<Entry>)
    ensures var r := ParseLines(lines, before); r.Some? ==> |r.value| == |before| + |lines|
    decreases |lines|
  {
    hide ParseLine, Less;
    if lines != [] && ParseLine(lines[0]).Some? {
      LinesGrow(lines[1..], before + [ParseLine(lines[0]).value]);
    }
  }

  lemma {:induction false} PrintedFree(entries: seq<Entry>)
    requires AllTyped(entries)
    ensures AllFree(PrintLines(entries), NEWLINE)
  {
    hide Typed, PrintLine, Free;
    if entries != [] {
      var e := entries[0];
      assert Free(PrintLine(e), NEWLINE) by { LineFree(e); }
      PrintedFree(entries[1..]);
    }
  }

  lemma LineFree(e: Entry)
    requires Typed(e)
    ensures Free(PrintLine(e), NEWLINE)
  {
    hide Fields, Typed, Join;
    FieldsFree(e, NEWLINE);
    JoinFree(Fields(e), SPACE, NEWLINE);
  }

  lemma ListSpelling(lines: seq<seq<byte>>, entries: seq<Entry>)
    ensures ParseLines(lines, []) == Some(entries) <==>
            AllValid(entries) && InOrder(entries) && lines == PrintLines(entries)
  {
    hide ParseLines, AllValid, PrintLines, Less;
    LinesSpelling(lines, [], entries);
    assert entries[0..] == entries && entries[..0] == [];
  }

  /** The parser accepts exactly one byte string for each well-formed list of entries, namely its
      printing, and no byte string for anything else. */
  lemma ParsePrints(bytes: seq<byte>, entries: seq<Entry>)
    ensures Parse(bytes) == Some(entries) <==> WellFormed(entries) && bytes == Print(entries)
  {
    hide ParseLines, AllValid, AllTyped, InOrder, AllHoused, PrintLines, Split, Join;
    var printed := [HEADER] + PrintLines(entries);
    if AllValid(entries) {
      AllValidTyped(entries);
      PrintedFree(entries);
      AllFreeHeader(PrintLines(entries));
      SplitJoin(printed, NEWLINE);
    }
    assert Print(entries)[..|Print(entries)| - 1] == Join(printed, NEWLINE);
    if bytes != [] && bytes[|bytes| - 1] == NEWLINE {
      var body := bytes[..|bytes| - 1];
      assert bytes == body + [NEWLINE];
      var lines := Split(body, NEWLINE);
      JoinSplit(body, NEWLINE);
      ListSpelling(lines[1..], entries);
      assert lines == [lines[0]] + lines[1..];
      assert printed[0] == HEADER && printed[1..] == PrintLines(entries);
    }
  }

  lemma AllFreeHeader(lines: seq<seq<byte>>)
    requires AllFree(lines, NEWLINE)
    ensures AllFree([HEADER] + lines, NEWLINE)
  {
  }

  // ------------------------------------------------------- one entry per text

  lemma DigitsUnique(a: nat, b: nat, base: nat)
    requires 2 <= base <= 16 && Digits(a, base) == Digits(b, base)
    ensures a == b
  {
    hide Digits, FromRadix;
    UnsignedSpelling(Digits(a, base), base, Max(a, b) + 1, a);
    UnsignedSpelling(Digits(a, base), base, Max(a, b) + 1, b);
  }

  lemma KindUnique(a: Entry, b: Entry)
    requires Typed(a) && Typed(b) && Tag(a.kind) == Tag(b.kind) && KindFields(a.kind) == KindFields(b.kind)
    ensures a.kind == b.kind
  {
    hide Digits, Hex, HexWord, HashList, DecodeHex, ParseFnv, ParseHashList;
    match a.kind
    case Dir =>
    case Symlink(target) =>
      assert KindFields(a.kind)[0] == KindFields(b.kind)[0];
      HexSpelling(Hex(target), target);
      HexSpelling(Hex(target), b.kind.target);
    case File(file, fnv) =>
      var x, y := KindFields(a.kind), KindFields(b.kind);
      assert x[0] == y[0] && x[1] == y[1] && x[2] == y[2] && x[3] == y[3];
      DigitsUnique(file.size, b.kind.file.size, 10);
      DigitsUnique(file.chunkSize, b.kind.file.chunkSize, 10);
      FnvSpelling(HexWord(fnv, 16), fnv);
      FnvSpelling(HexWord(fnv, 16), b.kind.fnv);
      HashListSpelling(HashList(file.chunks), file.chunks);
      HashListSpelling(HashList(file.chunks), b.kind.file.chunks);
  }

  /** Two entries print alike only if they are the same. */
  lemma LineUnique(a: Entry, b: Entry)
    requires Typed(a) && Typed(b) && PrintLine(a) == PrintLine(b)
    ensures a == b
  {
    hide Split, Join, Digits, Decimal, Hex, KindFields, Tag, Typed, DecodeHex, ParseSigned;
    FieldsFree(a, SPACE);
    FieldsFree(b, SPACE);
    SplitJoin(Fields(a), SPACE);
    SplitJoin(Fields(b), SPACE);
    var x, y := Fields(a), Fields(b);
    assert x[0] == y[0] && x[1] == y[1] && x[2] == y[2] && x[3] == y[3] && x[4..] == y[4..];
    assert x[4..] == KindFields(a.kind) && y[4..] == KindFields(b.kind);
    KindUnique(a, b);
    DigitsUnique(a.mode, b.mode, 8);
    HexSpelling(Hex(a.path), a.path);
    HexSpelling(Hex(a.path), b.path);
    MtimeUnique(a, b);
  }

  lemma MtimeUnique(a: Entry, b: Entry)
    requires Typed(a) && Typed(b) && Decimal(a.mtime) == Decimal(b.mtime)
    ensures a.mtime == b.mtime
  {
    hide Decimal, ParseSigned;
    MtimeSpelling(Decimal(a.mtime), a.mtime);
    MtimeSpelling(Decimal(a.mtime), b.mtime);
  }

  lemma {:induction false} LinesUnique(a: seq<Entry>, b: seq<Entry>)
    requires AllTyped(a) && AllTyped(b) && PrintLines(a) == PrintLines(b)
    ensures a == b
  {
    hide Typed, PrintLine;
    assert |PrintLines(a)| == |PrintLines(b)|;
    if a != [] {
      assert PrintLines(a)[0] == PrintLines(b)[0] && PrintLines(a)[1..] == PrintLines(b)[1..];
      LineUnique(a[0], b[0]);
      LinesUnique(a[1..], b[1..]);
      assert a == [a[0]] + a[1..] && b == [b[0]] + b[1..];
    }
  }

  /** Printing is injective, on lists a manifest can hold and on others alike. */
  lemma PrintUnique(a: seq<Entry>, b: seq<Entry>)
    requires AllTyped(a) && AllTyped(b) && Print(a) == Print(b)
    ensures a == b
  {
    hide AllTyped, PrintLines, Split, Join;
    var x, y := [HEADER] + PrintLines(a), [HEADER] + PrintLines(b);
    PrintedFree(a);
    PrintedFree(b);
    AllFreeHeader(PrintLines(a));
    AllFreeHeader(PrintLines(b));
    SplitJoin(x, NEWLINE);
    SplitJoin(y, NEWLINE);
    assert Join(x, NEWLINE) == Print(a)[..|Print(a)| - 1] == Print(b)[..|Print(b)| - 1] == Join(y, NEWLINE);
    assert x[1..] == PrintLines(a) && y[1..] == PrintLines(b);
    LinesUnique(a, b);
  }

  /** Two accepted texts with the same entries are the same bytes. */
  lemma UniqueSpelling(a: seq<byte>, b: seq<byte>)
    requires Parse(a).Some? && Parse(a) == Parse(b)
    ensures a == b
  {
    hide Parse, Print;
    ParsePrints(a, Parse(a).value);
    ParsePrints(b, Parse(a).value);
  }

  // -------------------------------------------------------- the parsing loop

  /** Parses a manifest line by line. No path can be found to be named twice, because paths
      ascend. */
  method ParseManifest(bytes: seq<byte>) returns (r: Option<seq<Entry>>)
    ensures r == Parse(bytes)
  {
    hide ParseLine, Split, Less, Housed;
    if bytes == [] || bytes[|bytes| - 1] != NEWLINE {
      return None;
    }
    var lines := Split(bytes[..|bytes| - 1], NEWLINE);
    if lines[0] != HEADER {
      return None;
    }
    var entries: seq<Entry> := [];
    var paths: set<seq<byte>> := {};
    var previous: Option<seq<byte>> := None;
    for i := 1 to |lines|
      invariant ParseLines(lines[i..], entries) == ParseLines(lines[1..], [])
      invariant previous == if entries == [] then None else Some(entries[|entries| - 1].path)
      invariant previous.None? ==> paths == {}
      invariant previous.Some? ==> forall p :: p in paths ==> p == previous.value || Less(p, previous.value)
    {
      assert lines[i..][0] == lines[i] && lines[i..][1..] == lines[i + 1..];
      var e :- ParseLine(lines[i]);
      if previous.Some? && !Less(previous.value, e.path) {
        return None;
      }
      Ascends(paths, previous, e.path);
      previous := Some(e.path);
      if e.path in paths {
        return None;
      }
      paths := paths + {e.path};
      entries := entries + [e];
    }
    if entries == [] {
      return None;
    }
    var directories := set i | 0 <= i < |entries| && entries[i].kind.Dir? :: entries[i].path;
    for i := 0 to |entries|
      invariant forall j :: 0 <= j < i ==> Housed(entries, entries[j])
    {
      HousedIs(entries, entries[i], directories);
      if entries[i].path != ROOT && Parent(entries[i].path) != ROOT && Parent(entries[i].path) !in directories {
        return None;
      }
    }
    return Some(entries);
  }

  lemma Ascends(paths: set<seq<byte>>, previous: Option<seq<byte>>, path: seq<byte>)
    requires previous.None? ==> paths == {}
    requires previous.Some? ==> Less(previous.value, path) && forall p :: p in paths ==> p == previous.value || Less(p, previous.value)
    ensures path !in paths && forall p :: p in paths ==> Less(p, path)
  {
    hide Less;
    LessTotal(path, path);
    forall p | p in paths ensures Less(p, path) {
      if p != previous.value {
        LessTransitive(p, previous.value, path);
      }
    }
  }

  lemma HousedIs(entries: seq<Entry>, e: Entry, directories: set<seq<byte>>)
    requires directories == set i | 0 <= i < |entries| && entries[i].kind.Dir? :: entries[i].path
    ensures Housed(entries, e) <==> e.path == ROOT || Parent(e.path) == ROOT || Parent(e.path) in directories
  {
  }
}

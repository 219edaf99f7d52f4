/** Lazy file mappings of one address space: how a list of them is split, moved and
    grown, and what memory an eager loader would have produced from it. */
module Mappings {
  import opened Base
  import opened Chunks

  const PAGE_SIZE: nat := 4096

  datatype AccessKind = ReadAccess | WriteAccess | ExecuteAccess

  /** The accesses a page grants. */
  type Perm = set<AccessKind>

  datatype FileMapping = FileMapping(
    start: nat,
    end: nat,
    dataStart: nat,
    fileOffset: nat,
    fileLen: nat,
    perm: Perm,
    fill: byte,
    file: ChunkedFile)
  {
    function DataEnd(): nat {
      dataStart + fileLen
    }

    predicate Has(a: int) {
      start <= a < end
    }
  }

  predicate Aligned(a: int) {
    a % PAGE_SIZE == 0
  }

  function PageOf(a: nat): nat {
    a - a % PAGE_SIZE
  }

  /** What every mapping in a table satisfies. A clipped mapping may carry an offset past
      the end of its file, but then it carries no data. */
  predicate WellFormed(m: FileMapping) {
    && m.start < m.end < U64_LIMIT && Aligned(m.start) && Aligned(m.end)
    && m.start <= m.dataStart && m.DataEnd() <= m.end
    && (m.fileLen > 0 ==> m.fileOffset + m.fileLen <= m.file.size)
    && Layout(m.file) && m.file.size < U64_LIMIT
  }

  predicate AllWellFormed(ms: seq<FileMapping>) {
    forall i :: 0 <= i < |ms| ==> WellFormed(ms[i])
  }

  function NewMapping(start: nat, end: nat, dataStart: nat, fileOffset: nat, fileLen: nat,
                      perm: Perm, fill: byte, file: ChunkedFile): (r: Result<FileMapping>)
    requires end < U64_LIMIT && Layout(file) && file.size < U64_LIMIT
    ensures r.Ok? <==>
            && start < end && Aligned(start) && Aligned(end)
            && start <= dataStart && dataStart + fileLen <= end
            && fileOffset + fileLen <= file.size
    ensures r.Ok? ==> r.value == FileMapping(start, end, dataStart, fileOffset, fileLen, perm, fill, file)
    ensures r.Ok? ==> WellFormed(r.value)
  {
    if start >= end || !Aligned(start) || !Aligned(end) then Err
    else if dataStart + fileLen >= U64_LIMIT then Err
    else if dataStart < start || dataStart + fileLen > end then Err
    else if fileOffset + fileLen >= U64_LIMIT || fileOffset + fileLen > file.size then Err
    else Ok(FileMapping(start, end, dataStart, fileOffset, fileLen, perm, fill, file))
  }

  /** The part of a mapping inside [start, end). */
  function Clipped(m: FileMapping, start: nat, end: nat): (r: Option<FileMapping>)
    ensures r.Some? <==> start < end && start < m.end && m.start < end
    ensures r.Some? ==> forall a: int :: r.value.Has(a) <==> m.Has(a) && start <= a < end
    ensures r.Some? && WellFormed(m) && Aligned(start) && Aligned(end) ==> WellFormed(r.value)
  {
    if start >= end || start >= m.end || end <= m.start then None
    else
      var s := Max(start, m.start);
      var e := Min(end, m.end);
      var dataStart := Min(Max(m.dataStart, s), e);
      var dataEnd := Max(Min(m.DataEnd(), e), dataStart);
      var skipped := Max(dataStart - m.dataStart, 0);
      Some(FileMapping(s, e, dataStart, m.fileOffset + skipped, dataEnd - dataStart, m.perm, m.fill, m.file))
  }

  function Parts(o: Option<FileMapping>): seq<FileMapping> {
    if o.Some? then [o.value] else []
  }

  // -------------------------------------------------------- the eager view

  /** One byte of private file-backed memory: its value, its permission, and the file
      and offset that follow it, from which a growing mapping continues. */
  datatype Cell = Cell(value: byte, perm: Perm, file: ChunkedFile, next: nat)

  /** A byte of a file; past the end there is nothing but zeros. */
  ghost function FileByte(f: ChunkedFile, truth: Catalog, offset: nat): byte {
    if Complete(f, truth) && offset < |Contents(f, truth)| then Contents(f, truth)[offset] else 0
  }

  /** File offset at which the bytes after address `end` of a mapping continue. */
  function TailOffset(m: FileMapping, end: nat): nat {
    m.fileOffset + Max(end - m.dataStart, 0)
  }

  /** The value an eager loader leaves at an address of a mapping: file bytes are copied,
      everything after them is zeroed, and before them a fresh page keeps its fill byte. */
  ghost function LoadedValue(m: FileMapping, truth: Catalog, a: int, before: Option<Cell>): byte {
    if a >= m.DataEnd() then 0
    else if a >= m.dataStart then FileByte(m.file, truth, m.fileOffset + (a - m.dataStart))
    else if before.Some? then before.value.value
    else m.fill
  }

  /** One byte of memory after an eager loader has processed one more mapping; the latest
      permission wins. */
  ghost function Load(m: FileMapping, truth: Catalog, a: int, before: Option<Cell>): Option<Cell> {
    if !m.Has(a) then before
    else Some(Cell(LoadedValue(m, truth, a, before), m.perm, m.file, TailOffset(m, a + 1)))
  }

  ghost function LoadAll(ms: seq<FileMapping>, truth: Catalog, a: int, before: Option<Cell>): Option<Cell> {
    if ms == [] then before
    else Load(ms[|ms| - 1], truth, a, LoadAll(ms[..|ms| - 1], truth, a, before))
  }

  /** Memory as an eager loader leaves it: the mappings applied in order to nothing. */
  ghost function Eager(ms: seq<FileMapping>, truth: Catalog, a: int): Option<Cell> {
    LoadAll(ms, truth, a, None)
  }

  lemma {:induction false} LoadAllConcat(xs: seq<FileMapping>, ys: seq<FileMapping>, truth: Catalog, a: int, before: Option<Cell>)
    ensures LoadAll(xs + ys, truth, a, before) == LoadAll(ys, truth, a, LoadAll(xs, truth, a, before))
  {
    if ys == [] {
      assert xs + ys == xs;
    } else {
      var zs := xs + ys;
      assert zs[..|zs| - 1] == xs + ys[..|ys| - 1];
      LoadAllConcat(xs, ys[..|ys| - 1], truth, a, before);
    }
  }

  /** Mappings that miss an address leave it alone. */
  lemma {:induction false} LoadAllMisses(ms: seq<FileMapping>, truth: Catalog, a: int, before: Option<Cell>)
    requires forall i :: 0 <= i < |ms| ==> !ms[i].Has(a)
    ensures LoadAll(ms, truth, a, before) == before
  {
    if ms != [] {
      LoadAllMisses(ms[..|ms| - 1], truth, a, before);
    }
  }

  /** A clipped mapping loads exactly what the whole one loads, inside its range. */
  lemma ClippedLoads(m: FileMapping, truth: Catalog, start: nat, end: nat, a: int, before: Option<Cell>)
    requires WellFormed(m)
    ensures LoadAll(Parts(Clipped(m, start, end)), truth, a, before) ==
            if start <= a < end then Load(m, truth, a, before) else before
  {
    var c := Clipped(m, start, end);
    if c.Some? {
      assert LoadAll([c.value], truth, a, before) == Load(c.value, truth, a, before);
    }
  }

  // ----------------------------------------------------------------- unmap

  function UnmapOne(m: FileMapping, start: nat, end: nat): seq<FileMapping> {
    if m.end <= start || m.start >= end then [m]
    else Parts(Clipped(m, m.start, start)) + Parts(Clipped(m, end, m.end))
  }

  function Unmapped(ms: seq<FileMapping>, start: nat, end: nat): seq<FileMapping> {
    if ms == [] then [] else Unmapped(ms[..|ms| - 1], start, end) + UnmapOne(ms[|ms| - 1], start, end)
  }

  lemma UnmapOneLoads(m: FileMapping, truth: Catalog, start: nat, end: nat, a: int, before: Option<Cell>)
    requires WellFormed(m) && start <= end
    ensures LoadAll(UnmapOne(m, start, end), truth, a, before) ==
            if start <= a < end then before else Load(m, truth, a, before)
  {
    if m.end <= start || m.start >= end {
      assert LoadAll([m], truth, a, before) == Load(m, truth, a, before);
    } else {
      var left, right := Parts(Clipped(m, m.start, start)), Parts(Clipped(m, end, m.end));
      LoadAllConcat(left, right, truth, a, before);
      ClippedLoads(m, truth, m.start, start, a, before);
      ClippedLoads(m, truth, end, m.end, a, LoadAll(left, truth, a, before));
    }
  }

  /** Unmapping removes its range from memory and changes no byte outside it. */
  lemma {:induction false} UnmapView(ms: seq<FileMapping>, truth: Catalog, start: nat, end: nat, a: int)
    requires AllWellFormed(ms) && start <= end
    ensures Eager(Unmapped(ms, start, end), truth, a) == if start <= a < end then None else Eager(ms, truth, a)
  {
    hide WellFormed, Load, UnmapOne;
    if ms != [] {
      var front, last := ms[..|ms| - 1], ms[|ms| - 1];
      LoadOutside(last, truth, a, Eager(front, truth, a));
      UnmapView(front, truth, start, end, a);
      LoadAllConcat(Unmapped(front, start, end), UnmapOne(last, start, end), truth, a, None);
      UnmapOneLoads(last, truth, start, end, a, Eager(Unmapped(front, start, end), truth, a));
    }
  }

  lemma {:induction false} UnmapKeepsWellFormed(ms: seq<FileMapping>, start: nat, end: nat)
    requires AllWellFormed(ms) && Aligned(start) && Aligned(end)
    ensures AllWellFormed(Unmapped(ms, start, end))
  {
    if ms != [] {
      UnmapKeepsWellFormed(ms[..|ms| - 1], start, end);
      var one := UnmapOne(ms[|ms| - 1], start, end);
      assert forall i :: 0 <= i < |one| ==> WellFormed(one[i]);
    }
  }

  // --------------------------------------------------------------- protect

  function ProtectMiddle(o: Option<FileMapping>, perm: Perm): seq<FileMapping> {
    if o.Some? then [o.value.(perm := perm)] else []
  }

  function ProtectOne(m: FileMapping, start: nat, end: nat, perm: Perm): seq<FileMapping> {
    if m.end <= start || m.start >= end then [m]
    else
      Parts(Clipped(m, m.start, start)) + ProtectMiddle(Clipped(m, start, end), perm) + Parts(Clipped(m, end, m.end))
  }

  function Protected(ms: seq<FileMapping>, start: nat, end: nat, perm: Perm): seq<FileMapping> {
    if ms == [] then []
    else Protected(ms[..|ms| - 1], start, end, perm) + ProtectOne(ms[|ms| - 1], start, end, perm)
  }

  ghost function WithPerm(c: Option<Cell>, perm: Perm): Option<Cell> {
    if c.Some? then Some(c.value.(perm := perm)) else None
  }

  lemma MiddleLoads(m: FileMapping, truth: Catalog, start: nat, end: nat, perm: Perm, a: int, before: Option<Cell>)
    requires WellFormed(m)
    ensures LoadAll(ProtectMiddle(Clipped(m, start, end), perm), truth, a, before) ==
            if start <= a < end && m.Has(a) then WithPerm(Load(m, truth, a, before), perm) else before
  {
    var c := Clipped(m, start, end);
    if c.Some? {
      assert LoadAll([c.value.(perm := perm)], truth, a, before) == Load(c.value.(perm := perm), truth, a, before);
    }
  }

  lemma ProtectOneLoads(m: FileMapping, truth: Catalog, start: nat, end: nat, perm: Perm, a: int, before: Option<Cell>)
    requires WellFormed(m) && start <= end
    ensures LoadAll(ProtectOne(m, start, end, perm), truth, a, before) ==
            if start <= a < end && m.Has(a) then WithPerm(Load(m, truth, a, before), perm)
            else Load(m, truth, a, before)
  {
    if m.end <= start || m.start >= end {
      assert LoadAll([m], truth, a, before) == Load(m, truth, a, before);
    } else {
      var left, right := Parts(Clipped(m, m.start, start)), Parts(Clipped(m, end, m.end));
      var middle := ProtectMiddle(Clipped(m, start, end), perm);
      LoadAllConcat(left + middle, right, truth, a, before);
      LoadAllConcat(left, middle, truth, a, before);
      var c1 := LoadAll(left, truth, a, before);
      ClippedLoads(m, truth, m.start, start, a, before);
      MiddleLoads(m, truth, start, end, perm, a, c1);
      ClippedLoads(m, truth, end, m.end, a, LoadAll(middle, truth, a, c1));
    }
  }

  lemma LoadOutside(m: FileMapping, truth: Catalog, a: int, before: Option<Cell>)
    ensures !m.Has(a) ==> Load(m, truth, a, before) == before
  {
  }

  /** A load sets the permission whatever it was before. */
  lemma LoadWithPerm(m: FileMapping, truth: Catalog, a: int, before: Option<Cell>, perm: Perm)
    ensures m.Has(a) ==> Load(m, truth, a, WithPerm(before, perm)) == Load(m, truth, a, before)
    ensures !m.Has(a) ==> Load(m, truth, a, WithPerm(before, perm)) == WithPerm(before, perm)
  {
    hide FileByte;
  }

  /** Protecting changes permissions inside its range and nothing else anywhere. */
  lemma {:induction false} ProtectView(ms: seq<FileMapping>, truth: Catalog, start: nat, end: nat, perm: Perm, a: int)
    requires AllWellFormed(ms) && start <= end
    ensures Eager(Protected(ms, start, end, perm), truth, a) ==
            if start <= a < end then WithPerm(Eager(ms, truth, a), perm) else Eager(ms, truth, a)
  {
    hide WellFormed, Load, ProtectOne;
    if ms != [] {
      var front, last := ms[..|ms| - 1], ms[|ms| - 1];
      LoadOutside(last, truth, a, Eager(front, truth, a));
      LoadWithPerm(last, truth, a, Eager(front, truth, a), perm);
      ProtectView(front, truth, start, end, perm, a);
      LoadAllConcat(Protected(front, start, end, perm), ProtectOne(last, start, end, perm), truth, a, None);
      ProtectOneLoads(last, truth, start, end, perm, a, Eager(Protected(front, start, end, perm), truth, a));
    }
  }

  lemma ProtectOneKeepsWellFormed(m: FileMapping, start: nat, end: nat, perm: Perm)
    requires WellFormed(m) && Aligned(start) && Aligned(end)
    ensures AllWellFormed(ProtectOne(m, start, end, perm))
  {
    hide Layout, Aligned, Clipped;
    if m.start < end && start < m.end {
      assert AllWellFormed(ProtectMiddle(Clipped(m, start, end), perm));
    }
  }

  lemma {:induction false} ProtectKeepsWellFormed(ms: seq<FileMapping>, start: nat, end: nat, perm: Perm)
    requires AllWellFormed(ms) && Aligned(start) && Aligned(end)
    ensures AllWellFormed(Protected(ms, start, end, perm))
  {
    hide WellFormed, ProtectOne;
    if ms != [] {
      ProtectKeepsWellFormed(ms[..|ms| - 1], start, end, perm);
      ProtectOneKeepsWellFormed(ms[|ms| - 1], start, end, perm);
    }
  }

  // ----------------------------------------------------------------- remap

  /** A mapping that starts at or after `from`, moved so that `from` becomes `to`. */
  function Shifted(m: FileMapping, from: nat, to: nat): FileMapping
    requires from <= m.start && from <= m.dataStart
  {
    m.(start := to + (m.start - from), end := to + Max(m.end - from, 0), dataStart := to + (m.dataStart - from))
  }

  function MovedOne(m: FileMapping, oldStart: nat, copyEnd: nat, newStart: nat): seq<FileMapping> {
    var c := Clipped(m, oldStart, copyEnd);
    if c.Some? then [Shifted(c.value, oldStart, newStart)] else []
  }

  function Moved(ms: seq<FileMapping>, oldStart: nat, copyEnd: nat, newStart: nat): seq<FileMapping> {
    if ms == [] then []
    else Moved(ms[..|ms| - 1], oldStart, copyEnd, newStart) + MovedOne(ms[|ms| - 1], oldStart, copyEnd, newStart)
  }

  /** The last mapping that reaches the byte before `oldEnd`; a grown range continues it. */
  function TailSource(ms: seq<FileMapping>, oldEnd: nat): (r: Option<FileMapping>)
    ensures r.Some? ==> r.value in ms && r.value.start < oldEnd <= r.value.end
  {
    if ms == [] then None
    else if ms[|ms| - 1].start < oldEnd <= ms[|ms| - 1].end then Some(ms[|ms| - 1])
    else TailSource(ms[..|ms| - 1], oldEnd)
  }

  /** The mapping that continues `source` past `oldEnd` over a grown range. */
  function Tail(source: FileMapping, oldEnd: nat, tailStart: nat, tailEnd: nat): (r: seq<FileMapping>)
    requires WellFormed(source) && tailEnd < U64_LIMIT
  {
    if tailStart >= tailEnd then []
    else
      var offset := Min(TailOffset(source, oldEnd), source.file.size);
      var len := Min(source.file.size - offset, tailEnd - tailStart);
      var made := NewMapping(tailStart, tailEnd, tailStart, offset, len, source.perm, source.fill, source.file);
      if made.Ok? then [made.value] else []
  }

  /** The mapping table after a move: what stays, what moved, and a grown tail. */
  function Remapped(ms: seq<FileMapping>, oldStart: nat, oldLen: nat, newStart: nat, newLen: nat): seq<FileMapping>
    requires AllWellFormed(ms) && newStart + newLen < U64_LIMIT
  {
    var oldEnd := SaturatingAdd(oldStart, oldLen);
    var source := if newLen > oldLen then TailSource(ms, oldEnd) else None;
    Unmapped(ms, oldStart, oldEnd)
    + Moved(ms, oldStart, SaturatingAdd(oldStart, Min(oldLen, newLen)), newStart)
    + if source.Some? then Tail(source.value, oldEnd, newStart + oldLen, newStart + newLen) else []
  }

  lemma MovedOneLoads(m: FileMapping, truth: Catalog, oldStart: nat, copyEnd: nat, newStart: nat, a: int, before: Option<Cell>)
    requires WellFormed(m) && oldStart <= copyEnd
    ensures LoadAll(MovedOne(m, oldStart, copyEnd, newStart), truth, a, before) ==
            if newStart <= a < newStart + (copyEnd - oldStart) then Load(m, truth, oldStart + (a - newStart), before) else before
  {
    hide FileByte, Layout, Aligned;
    var c := Clipped(m, oldStart, copyEnd);
    if c.Some? {
      var moved := Shifted(c.value, oldStart, newStart);
      assert LoadAll([moved], truth, a, before) == Load(moved, truth, a, before);
      assert moved.Has(a) <==> c.value.Has(oldStart + (a - newStart));
      assert Load(moved, truth, a, before) == Load(c.value, truth, oldStart + (a - newStart), before);
      ClippedLoads(m, truth, oldStart, copyEnd, oldStart + (a - newStart), before);
      assert LoadAll([c.value], truth, oldStart + (a - newStart), before) == Load(c.value, truth, oldStart + (a - newStart), before);
    }
  }

  lemma {:induction false} MovedLoads(ms: seq<FileMapping>, truth: Catalog, oldStart: nat, copyEnd: nat, newStart: nat, a: int)
    requires AllWellFormed(ms) && oldStart <= copyEnd
    ensures Eager(Moved(ms, oldStart, copyEnd, newStart), truth, a) ==
            if newStart <= a < newStart + (copyEnd - oldStart) then Eager(ms, truth, oldStart + (a - newStart)) else None
  {
    if ms != [] {
      var front, last := ms[..|ms| - 1], ms[|ms| - 1];
      MovedLoads(front, truth, oldStart, copyEnd, newStart, a);
      LoadAllConcat(Moved(front, oldStart, copyEnd, newStart), MovedOne(last, oldStart, copyEnd, newStart), truth, a, None);
      MovedOneLoads(last, truth, oldStart, copyEnd, newStart, a, Eager(Moved(front, oldStart, copyEnd, newStart), truth, a));
    }
  }

  /** Byte `i` of a range grown after `cell`: the file reads on from where the cell stops. */
  ghost function Continued(cell: Cell, truth: Catalog, i: nat): Cell {
    Cell(FileByte(cell.file, truth, cell.next + i), cell.perm, cell.file, Min(cell.next, cell.file.size) + i + 1)
  }

  lemma TailLoads(source: FileMapping, truth: Catalog, oldEnd: nat, tailStart: nat, tailEnd: nat, a: int, cell: Cell, before: Option<Cell>)
    requires WellFormed(source) && Aligned(tailStart) && Aligned(tailEnd) && tailEnd < U64_LIMIT
    requires Complete(source.file, truth)
    requires cell.perm == source.perm && cell.file == source.file && cell.next == TailOffset(source, oldEnd)
    ensures LoadAll(Tail(source, oldEnd, tailStart, tailEnd), truth, a, before) ==
            if tailStart <= a < tailEnd then Some(Continued(cell, truth, a - tailStart)) else before
  {
    hide Layout, Complete, Contents, Aligned;
    if tailStart < tailEnd {
      ContentsLength(source.file, truth);
      var tail := Tail(source, oldEnd, tailStart, tailEnd);
      assert LoadAll([tail[0]], truth, a, before) == Load(tail[0], truth, a, before);
    }
  }

  /** Permission and provenance of a byte are those of the last mapping that has it. */
  lemma {:induction false} LastMappingGoverns(ms: seq<FileMapping>, truth: Catalog, oldEnd: nat)
    requires AllWellFormed(ms) && oldEnd > 0
    ensures TailSource(ms, oldEnd).Some? <==> Eager(ms, truth, oldEnd - 1).Some?
    ensures TailSource(ms, oldEnd).Some? ==>
              var cell, source := Eager(ms, truth, oldEnd - 1).value, TailSource(ms, oldEnd).value;
              cell.perm == source.perm && cell.file == source.file && cell.next == TailOffset(source, oldEnd)
  {
    if ms != [] {
      LastMappingGoverns(ms[..|ms| - 1], truth, oldEnd);
    }
  }

  /** No mapping lies in [start, end). */
  ghost predicate Vacant(ms: seq<FileMapping>, start: nat, end: nat) {
    forall i, a :: 0 <= i < |ms| && start <= a < end ==> !ms[i].Has(a)
  }

  lemma VacantLoads(ms: seq<FileMapping>, truth: Catalog, start: nat, end: nat, a: int, before: Option<Cell>)
    requires Vacant(ms, start, end) && start <= a < end
    ensures LoadAll(ms, truth, a, before) == before
  {
    forall i | 0 <= i < |ms|
      ensures !ms[i].Has(a)
    {
    }
    LoadAllMisses(ms, truth, a, before);
  }

  /** Memory after a move to a vacant range, given the memory before. */
  ghost function Relocated(mem: int -> Option<Cell>, truth: Catalog, oldStart: nat, oldLen: nat, newStart: nat, newLen: nat, a: int): Option<Cell> {
    if newStart <= a < newStart + Min(oldLen, newLen) then mem(oldStart + (a - newStart))
    else if newStart + oldLen <= a < newStart + newLen then
      var last := mem(oldStart + oldLen - 1);
      if last.None? then None else Some(Continued(last.value, truth, a - newStart - oldLen))
    else if oldStart <= a < oldStart + oldLen then None
    else mem(a)
  }

  /** Moving translates the copied part, continues the file in a grown tail, empties the
      old range and leaves every other address alone. */
  lemma RemapView(ms: seq<FileMapping>, truth: Catalog, oldStart: nat, oldLen: nat, newStart: nat, newLen: nat, a: int)
    requires AllWellFormed(ms) && newStart + newLen < U64_LIMIT && oldStart + oldLen < U64_LIMIT && oldLen > 0
    requires Aligned(oldStart) && Aligned(oldLen) && Aligned(newStart) && Aligned(newLen)
    requires AllComplete(ms, truth)
    requires Vacant(ms, newStart, newStart + newLen)
    ensures Eager(Remapped(ms, oldStart, oldLen, newStart, newLen), truth, a) ==
            Relocated(b => Eager(ms, truth, b), truth, oldStart, oldLen, newStart, newLen, a)
  {
    hide Layout, Complete, Load, LoadAll, Unmapped, Moved, Tail, TailSource, Aligned, WellFormed, FileByte, Continued;
    AlignedSum(newStart, oldLen);
    AlignedSum(newStart, newLen);
    var oldEnd, copyEnd := oldStart + oldLen, oldStart + Min(oldLen, newLen);
    var kept, moved := Unmapped(ms, oldStart, oldEnd), Moved(ms, oldStart, copyEnd, newStart);
    var source := if newLen > oldLen then TailSource(ms, oldEnd) else None;
    var tail := if source.Some? then Tail(source.value, oldEnd, newStart + oldLen, newStart + newLen) else [];
    RemapParts(ms, truth, oldStart, oldEnd, copyEnd, newStart, a);
    var before := LoadAll(kept + moved, truth, a, None);
    LoadAllConcat(kept + moved, tail, truth, a, None);
    LastMappingGoverns(ms, truth, oldEnd);
    if source.Some? {
      TailLoads(source.value, truth, oldEnd, newStart + oldLen, newStart + newLen, a,
                Eager(ms, truth, oldEnd - 1).value, before);
    }
    if newStart <= a < newStart + newLen {
      VacantLoads(ms, truth, newStart, newStart + newLen, a, None);
    }
    if tail == [] {
      LoadAllMisses(tail, truth, a, before);
    }
  }

  lemma AlignedGap(a: nat, b: nat)
    requires Aligned(a) && Aligned(b)
    ensures Aligned(b - a)
  {
  }

  lemma AlignedSum(a: nat, b: nat)
    requires Aligned(a) && Aligned(b)
    ensures Aligned(a + b)
  {
  }

  /** The kept and moved parts of a move, before any tail. */
  lemma RemapParts(ms: seq<FileMapping>, truth: Catalog, oldStart: nat, oldEnd: nat, copyEnd: nat, newStart: nat, a: int)
    requires AllWellFormed(ms) && oldStart <= copyEnd <= oldEnd
    requires Vacant(ms, newStart, newStart + (copyEnd - oldStart))
    ensures LoadAll(Unmapped(ms, oldStart, oldEnd) + Moved(ms, oldStart, copyEnd, newStart), truth, a, None) ==
            if newStart <= a < newStart + (copyEnd - oldStart) then Eager(ms, truth, oldStart + (a - newStart))
            else if oldStart <= a < oldEnd then None
            else Eager(ms, truth, a)
  {
    var kept, moved := Unmapped(ms, oldStart, oldEnd), Moved(ms, oldStart, copyEnd, newStart);
    LoadAllConcat(kept, moved, truth, a, None);
    UnmapView(ms, truth, oldStart, oldEnd, a);
    MovedLoads(ms, truth, oldStart, copyEnd, newStart, a);
    if newStart <= a < newStart + (copyEnd - oldStart) {
      VacantLoads(ms, truth, newStart, newStart + (copyEnd - oldStart), a, None);
    } else {
      MovedMisses(ms, oldStart, copyEnd, newStart, a);
      LoadAllMisses(moved, truth, a, LoadAll(kept, truth, a, None));
    }
  }

  lemma {:induction false} MovedMisses(ms: seq<FileMapping>, oldStart: nat, copyEnd: nat, newStart: nat, a: int)
    requires oldStart <= copyEnd && !(newStart <= a < newStart + (copyEnd - oldStart))
    ensures forall i :: 0 <= i < |Moved(ms, oldStart, copyEnd, newStart)| ==> !Moved(ms, oldStart, copyEnd, newStart)[i].Has(a)
  {
    if ms != [] {
      MovedMisses(ms[..|ms| - 1], oldStart, copyEnd, newStart, a);
      var c := Clipped(ms[|ms| - 1], oldStart, copyEnd);
      if c.Some? {
        assert !c.value.Has(oldStart + (a - newStart));
      }
    }
  }

  lemma ShiftKeepsWellFormed(m: FileMapping, from: nat, end: nat, to: nat)
    requires WellFormed(m) && from <= m.start && m.end <= end && to + (end - from) < U64_LIMIT
    requires Aligned(from) && Aligned(to)
    ensures WellFormed(Shifted(m, from, to))
  {
    hide Layout, Aligned;
    AlignedGap(from, m.start);
    AlignedGap(from, m.end);
    AlignedSum(to, m.start - from);
    AlignedSum(to, m.end - from);
  }

  lemma {:induction false} MovedKeepsWellFormed(ms: seq<FileMapping>, oldStart: nat, copyEnd: nat, newStart: nat)
    requires AllWellFormed(ms) && Aligned(oldStart) && Aligned(copyEnd) && Aligned(newStart)
    requires oldStart <= copyEnd && newStart + (copyEnd - oldStart) < U64_LIMIT
    ensures AllWellFormed(Moved(ms, oldStart, copyEnd, newStart))
  {
    hide WellFormed, Aligned;
    if ms != [] {
      MovedKeepsWellFormed(ms[..|ms| - 1], oldStart, copyEnd, newStart);
      var c := Clipped(ms[|ms| - 1], oldStart, copyEnd);
      if c.Some? {
        ShiftKeepsWellFormed(c.value, oldStart, copyEnd, newStart);
      }
    }
  }

  lemma RemapKeepsWellFormed(ms: seq<FileMapping>, oldStart: nat, oldLen: nat, newStart: nat, newLen: nat)
    requires AllWellFormed(ms) && newStart + newLen < U64_LIMIT && oldStart + oldLen < U64_LIMIT
    requires Aligned(oldStart) && Aligned(oldLen) && Aligned(newStart) && Aligned(newLen)
    ensures AllWellFormed(Remapped(ms, oldStart, oldLen, newStart, newLen))
  {
    hide Layout, Aligned, Unmapped, Moved, Clipped, TailSource, WellFormed;
    AlignedSum(oldStart, oldLen);
    AlignedSum(oldStart, Min(oldLen, newLen));
    UnmapKeepsWellFormed(ms, oldStart, oldStart + oldLen);
    MovedKeepsWellFormed(ms, oldStart, oldStart + Min(oldLen, newLen), newStart);
  }

  // ------------------------------------------------------- files and edits

  ghost predicate AllComplete(ms: seq<FileMapping>, truth: Catalog) {
    forall i :: 0 <= i < |ms| ==> Complete(ms[i].file, truth)
  }

  lemma OneFile(ms: seq<FileMapping>, file: ChunkedFile, truth: Catalog)
    requires Complete(file, truth) && forall i :: 0 <= i < |ms| ==> ms[i].file == file
    ensures AllComplete(ms, truth)
  {
  }

  lemma {:induction false} UnmapKeepsComplete(ms: seq<FileMapping>, truth: Catalog, start: nat, end: nat)
    requires AllComplete(ms, truth)
    ensures AllComplete(Unmapped(ms, start, end), truth)
  {
    hide Complete;
    if ms != [] {
      UnmapKeepsComplete(ms[..|ms| - 1], truth, start, end);
      OneFile(UnmapOne(ms[|ms| - 1], start, end), ms[|ms| - 1].file, truth);
    }
  }

  lemma {:induction false} ProtectKeepsComplete(ms: seq<FileMapping>, truth: Catalog, start: nat, end: nat, perm: Perm)
    requires AllComplete(ms, truth)
    ensures AllComplete(Protected(ms, start, end, perm), truth)
  {
    hide Complete, ProtectOne;
    if ms != [] {
      ProtectKeepsComplete(ms[..|ms| - 1], truth, start, end, perm);
      ProtectOneFile(ms[|ms| - 1], start, end, perm);
      OneFile(ProtectOne(ms[|ms| - 1], start, end, perm), ms[|ms| - 1].file, truth);
    }
  }

  lemma ProtectOneFile(m: FileMapping, start: nat, end: nat, perm: Perm)
    ensures forall i :: 0 <= i < |ProtectOne(m, start, end, perm)| ==> ProtectOne(m, start, end, perm)[i].file == m.file
  {
  }

  lemma {:induction false} MovedKeepsComplete(ms: seq<FileMapping>, truth: Catalog, oldStart: nat, copyEnd: nat, newStart: nat)
    requires AllComplete(ms, truth)
    ensures AllComplete(Moved(ms, oldStart, copyEnd, newStart), truth)
  {
    hide Complete;
    if ms != [] {
      MovedKeepsComplete(ms[..|ms| - 1], truth, oldStart, copyEnd, newStart);
      OneFile(MovedOne(ms[|ms| - 1], oldStart, copyEnd, newStart), ms[|ms| - 1].file, truth);
    }
  }

  /** No edit introduces a file that was not mapped before. */
  lemma RemapKeepsComplete(ms: seq<FileMapping>, truth: Catalog, oldStart: nat, oldLen: nat, newStart: nat, newLen: nat)
    requires AllWellFormed(ms) && AllComplete(ms, truth) && newStart + newLen < U64_LIMIT
    ensures AllComplete(Remapped(ms, oldStart, oldLen, newStart, newLen), truth)
  {
    hide Unmapped, Moved, WellFormed, Complete, TailSource;
    UnmapKeepsComplete(ms, truth, oldStart, SaturatingAdd(oldStart, oldLen));
    MovedKeepsComplete(ms, truth, oldStart, SaturatingAdd(oldStart, Min(oldLen, newLen)), newStart);
  }
}

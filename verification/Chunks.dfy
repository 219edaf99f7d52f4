/** Content-addressed chunks of an immutable file, and reads over the chunks that
    have arrived so far. */
module Chunks {
  import opened Base

  type Hash = seq<byte>

  datatype ChunkedFile = ChunkedFile(size: nat, chunkSize: nat, chunks: seq<Hash>)

  datatype ReadRange =
    | Ready(bytes: seq<byte>)
    | Missing(hash: Hash)
    | Invalid

  /** The bytes a hash stands for. One catalog serves every file of an image. */
  type Catalog = map<Hash, seq<byte>>

  // ------------------------------------------------------- chunk arithmetic
  //
  // Index, start and count are defined by counting whole chunks, which keeps the
  // proofs linear; `ChunkArithmetic` shows they are the divisions of the source.

  /** Byte offset at which chunk `index` starts. */
  function Start(index: nat, chunkSize: nat): nat {
    if index == 0 then 0 else Start(index - 1, chunkSize) + chunkSize
  }

  /** Index of the chunk that holds `offset`. */
  function Index(offset: nat, chunkSize: nat): (index: nat)
    requires chunkSize > 0
    ensures Start(index, chunkSize) <= offset < Start(index + 1, chunkSize)
  {
    if offset < chunkSize then 0 else
    StartShift(Index(offset - chunkSize, chunkSize), chunkSize);
    StartShift(Index(offset - chunkSize, chunkSize) + 1, chunkSize);
    Index(offset - chunkSize, chunkSize) + 1
  }

  /** How many chunks hold `size` bytes. */
  function Count(size: nat, chunkSize: nat): (count: nat)
    requires chunkSize > 0
  {
    if size == 0 then 0 else Index(size - 1, chunkSize) + 1
  }

  lemma StartShift(index: nat, chunkSize: nat)
    ensures Start(index + 1, chunkSize) == Start(index, chunkSize) + chunkSize
  {
  }

  lemma {:induction false} StartMonotone(a: nat, b: nat, chunkSize: nat)
    requires a <= b
    ensures Start(a, chunkSize) <= Start(b, chunkSize)
  {
    if a < b { StartMonotone(a, b - 1, chunkSize); }
  }

  /** The chunk holding an offset is determined by the interval it lies in. */
  lemma {:induction false} IndexUnique(offset: nat, index: nat, chunkSize: nat)
    requires chunkSize > 0
    requires Start(index, chunkSize) <= offset < Start(index, chunkSize) + chunkSize
    ensures Index(offset, chunkSize) == index
  {
    var i := Index(offset, chunkSize);
    if i < index {
      StartMonotone(i + 1, index, chunkSize);
    } else if index < i {
      StartMonotone(index + 1, i, chunkSize);
    }
  }

  lemma {:induction false} StartIsProduct(index: nat, chunkSize: nat)
    ensures Start(index, chunkSize) == index * chunkSize
  {
    if index > 0 {
      StartIsProduct(index - 1, chunkSize);
      assert index * chunkSize == (index - 1) * chunkSize + chunkSize;
    }
  }

  function DivCeil(a: nat, b: nat): nat
    requires b > 0
  {
    if a % b == 0 then a / b else a / b + 1
  }

  /** Counting chunks agrees with the divisions the layout code performs. */
  lemma ChunkArithmetic(offset: nat, chunkSize: nat)
    requires chunkSize > 0
    ensures Index(offset, chunkSize) == offset / chunkSize
    ensures offset - Start(Index(offset, chunkSize), chunkSize) == offset % chunkSize
    ensures Count(offset, chunkSize) == DivCeil(offset, chunkSize)
  {
    IndexIsQuotient(offset, chunkSize);
    if offset > 0 {
      IndexIsQuotient(offset - 1, chunkSize);
      CeilStep(offset, chunkSize);
    }
  }

  lemma IndexIsQuotient(offset: nat, chunkSize: nat)
    requires chunkSize > 0
    ensures Index(offset, chunkSize) == offset / chunkSize
    ensures offset - Start(Index(offset, chunkSize), chunkSize) == offset % chunkSize
  {
    var q := offset / chunkSize;
    StartIsProduct(q, chunkSize);
    EuclideanDivision(offset, chunkSize);
    IndexUnique(offset, q, chunkSize);
  }

  lemma EuclideanDivision(a: nat, b: nat)
    requires b > 0
    ensures a == (a / b) * b + a % b && 0 <= a % b < b
  {
  }

  lemma CeilStep(a: nat, b: nat)
    requires a > 0 && b > 0
    ensures DivCeil(a, b) == (a - 1) / b + 1
  {
    EuclideanDivision(a, b);
    EuclideanDivision(a - 1, b);
    var d := a / b - (a - 1) / b;
    assert d * b == 1 + (a - 1) % b - a % b by {
      assert (a / b) * b - ((a - 1) / b) * b == d * b;
    }
  }

  // ---------------------------------------------------------------- layouts

  /** A layout that describes exactly `size` bytes. */
  predicate Layout(f: ChunkedFile) {
    && f.chunkSize > 0
    && f.chunkSize % 4096 == 0
    && |f.chunks| == Count(f.size, f.chunkSize)
  }

  function NewFile(size: nat, chunkSize: nat, chunks: seq<Hash>): (r: Result<ChunkedFile>)
    ensures r.Ok? <==> Layout(ChunkedFile(size, chunkSize, chunks))
    ensures r.Ok? ==> r.value == ChunkedFile(size, chunkSize, chunks)
  {
    if size == 0 then
      if chunks == [] && chunkSize != 0 && chunkSize % 4096 == 0
      then Ok(ChunkedFile(size, chunkSize, chunks)) else Err
    else if chunkSize == 0 || chunkSize % 4096 != 0 then
      Err
    else
      ChunkArithmetic(size, chunkSize);
      if DivCeil(size, chunkSize) != |chunks| then Err
      else Ok(ChunkedFile(size, chunkSize, chunks))
  }

  /** End of the byte range chunk `index` covers; the last chunk stops at the file's end. */
  function End(f: ChunkedFile, index: nat): int {
    Min(Start(index, f.chunkSize) + f.chunkSize, f.size)
  }

  /** How many bytes chunk `index` must hold. */
  function ChunkLength(f: ChunkedFile, index: nat): int {
    End(f, index) - Start(index, f.chunkSize)
  }

  /** The chunk holding an offset of the file exists, and the offset is inside it. */
  lemma ChunkHolds(f: ChunkedFile, offset: nat)
    requires Layout(f) && offset < f.size
    ensures Index(offset, f.chunkSize) < |f.chunks|
    ensures Start(Index(offset, f.chunkSize), f.chunkSize) <= offset < End(f, Index(offset, f.chunkSize))
  {
    var last := Index(f.size - 1, f.chunkSize);
    var i := Index(offset, f.chunkSize);
    if i > last {
      StartMonotone(last + 1, i, f.chunkSize);
    }
  }

  lemma ChunkStartsInside(f: ChunkedFile, index: nat)
    requires Layout(f) && index < |f.chunks|
    ensures Start(index, f.chunkSize) < f.size
  {
    StartMonotone(index, Index(f.size - 1, f.chunkSize), f.chunkSize);
  }

  /** The chunk containing `offset`: its index and the byte range it covers. */
  function ChunkAt(f: ChunkedFile, offset: nat): (r: Option<(nat, nat, nat)>)
    requires Layout(f)
    ensures r.Some? <==> offset < f.size
    ensures r.Some? ==>
              && r.value.0 < |f.chunks|
              && r.value.1 <= offset < r.value.2 <= f.size
              && r.value.1 == Start(r.value.0, f.chunkSize) && r.value.2 == End(f, r.value.0)
              && r.value.0 == Index(offset, f.chunkSize)
  {
    if offset >= f.size then None
    else
      ChunkHolds(f, offset);
      ChunkArithmetic(offset, f.chunkSize);
      var index := offset / f.chunkSize;
      StartIsProduct(index, f.chunkSize);
      var start := index * f.chunkSize;
      Some((index, start, Min(start + f.chunkSize, f.size)))
  }

  // ---------------------------------------------------------- flat contents

  /** Every chunk of the file is catalogued with the length its place demands. */
  ghost predicate Complete(f: ChunkedFile, truth: Catalog) {
    && Layout(f)
    && forall i :: 0 <= i < |f.chunks| ==> f.chunks[i] in truth && |truth[f.chunks[i]]| == ChunkLength(f, i)
  }

  ghost function Concat(hashes: seq<Hash>, truth: Catalog): seq<byte>
    requires forall i :: 0 <= i < |hashes| ==> hashes[i] in truth
  {
    if hashes == [] then []
    else Concat(hashes[..|hashes| - 1], truth) + truth[hashes[|hashes| - 1]]
  }

  /** The flat bytes of a fully fetched file: its chunks laid end to end. */
  ghost function Contents(f: ChunkedFile, truth: Catalog): seq<byte>
    requires Complete(f, truth)
  {
    Concat(f.chunks, truth)
  }

  /** The first `n` chunks end where chunk `n - 1` ends. */
  lemma {:induction false} ConcatLength(f: ChunkedFile, truth: Catalog, n: nat)
    requires Complete(f, truth) && 0 < n <= |f.chunks|
    ensures |Concat(f.chunks[..n], truth)| == End(f, n - 1)
  {
    assert f.chunks[..n][..n - 1] == f.chunks[..n - 1];
    ChunkStartsInside(f, n - 1);
    if n > 1 {
      ConcatLength(f, truth, n - 1);
    }
  }

  lemma SliceOfFront(a: seq<byte>, b: seq<byte>, from: nat, to: nat)
    requires from <= to <= |a|
    ensures (a + b)[from..to] == a[from..to]
  {
  }

  /** Chunk `index` occupies its own range of the first `n` chunks. */
  lemma {:induction false} ConcatPrefix(f: ChunkedFile, truth: Catalog, n: nat, index: nat)
    requires Complete(f, truth) && index < n <= |f.chunks|
    ensures Start(index, f.chunkSize) <= End(f, index) <= |Concat(f.chunks[..n], truth)|
    ensures Concat(f.chunks[..n], truth)[Start(index, f.chunkSize)..End(f, index)] == truth[f.chunks[index]]
  {
    var before := Concat(f.chunks[..n - 1], truth);
    assert f.chunks[..n][..n - 1] == f.chunks[..n - 1];
    assert Concat(f.chunks[..n], truth) == before + truth[f.chunks[n - 1]];
    if index < n - 1 {
      ConcatPrefix(f, truth, n - 1, index);
      SliceOfFront(before, truth[f.chunks[n - 1]], Start(index, f.chunkSize), End(f, index));
    } else {
      ConcatLength(f, truth, n);
    }
  }

  lemma LastEnds(f: ChunkedFile)
    requires Layout(f) && f.chunks != []
    ensures End(f, |f.chunks| - 1) == f.size
  {
  }

  /** Flat contents have the declared size, and byte `i` lies in the chunk holding `i`. */
  lemma ContentsAt(f: ChunkedFile, truth: Catalog, i: nat)
    requires Complete(f, truth) && i < f.size
    ensures |Contents(f, truth)| == f.size
    ensures var k := Index(i, f.chunkSize);
            && k < |f.chunks|
            && 0 <= i - Start(k, f.chunkSize) < |truth[f.chunks[k]]|
            && Contents(f, truth)[i] == truth[f.chunks[k]][i - Start(k, f.chunkSize)]
  {
    hide Index, Start, Concat;
    var n := |f.chunks|;
    var k := Index(i, f.chunkSize);
    ChunkHolds(f, i);
    assert f.chunks[..n] == f.chunks;
    ConcatLength(f, truth, n);
    LastEnds(f);
    ConcatPrefix(f, truth, n, k);
    assert Contents(f, truth)[i] == Contents(f, truth)[Start(k, f.chunkSize)..End(f, k)][i - Start(k, f.chunkSize)];
  }

  lemma ContentsLength(f: ChunkedFile, truth: Catalog)
    requires Complete(f, truth)
    ensures |Contents(f, truth)| == f.size
  {
    if f.size > 0 {
      ContentsAt(f, truth, 0);
    }
  }

  // ------------------------------------------------------------------ reads

  /** Chunk `k` has arrived with the length its place demands. */
  predicate Usable(f: ChunkedFile, store: Catalog, k: nat)
    requires k < |f.chunks|
  {
    f.chunks[k] in store && |store[f.chunks[k]]| == ChunkLength(f, k)
  }

  /** The first chunk at or after `k` and before `hi` that a read cannot use, or `hi`. */
  function FirstUnusable(f: ChunkedFile, store: Catalog, k: nat, hi: nat): (r: nat)
    requires k <= hi <= |f.chunks|
    ensures k <= r <= hi
    ensures forall j :: k <= j < r ==> Usable(f, store, j)
    ensures r < hi ==> !Usable(f, store, r)
    decreases hi - k
  {
    if k == hi || !Usable(f, store, k) then k else FirstUnusable(f, store, k + 1, hi)
  }

  lemma FirstUnusableIs(f: ChunkedFile, store: Catalog, k: nat, hi: nat, bad: nat)
    requires k <= bad <= hi <= |f.chunks|
    requires forall j :: k <= j < bad ==> Usable(f, store, j)
    requires bad < hi ==> !Usable(f, store, bad)
    ensures FirstUnusable(f, store, k, hi) == bad
  {
  }

  /** One byte of the file, taken from the chunk that holds it (zero while that is absent). */
  function StoredByte(f: ChunkedFile, store: Catalog, offset: nat): byte {
    if f.chunkSize == 0 then 0
    else
      var k := Index(offset, f.chunkSize);
      if k < |f.chunks| && f.chunks[k] in store && offset - Start(k, f.chunkSize) < |store[f.chunks[k]]|
      then store[f.chunks[k]][offset - Start(k, f.chunkSize)]
      else 0
  }

  /** Where a read of `len` bytes at `offset` stops. */
  function ReadEnd(f: ChunkedFile, offset: nat, len: nat): int {
    Min(offset + len, f.size)
  }

  /** A read as a whole: it is decided by the first unusable chunk it touches, and
      otherwise yields each byte from the chunk that holds it. */
  function Read(f: ChunkedFile, store: Catalog, offset: nat, len: nat): (r: ReadRange)
    requires Layout(f)
  {
    var end := ReadEnd(f, offset, len);
    if offset >= end then Ready([])
    else
      TouchedInRange(f, offset, end);
      var last := Index(end - 1, f.chunkSize);
      var bad := FirstUnusable(f, store, Index(offset, f.chunkSize), last + 1);
      if bad <= last then
        if f.chunks[bad] in store then Invalid else Missing(f.chunks[bad])
      else
        Ready(StoredBytes(f, store, offset, end - offset))
  }

  function StoredBytes(f: ChunkedFile, store: Catalog, offset: nat, n: nat): (r: seq<byte>)
    ensures |r| == n
    ensures forall i :: 0 <= i < n ==> r[i] == StoredByte(f, store, offset + i)
  {
    if n == 0 then [] else StoredBytes(f, store, offset, n - 1) + [StoredByte(f, store, offset + n - 1)]
  }

  lemma IndexMonotone(a: nat, b: nat, chunkSize: nat)
    requires a <= b && chunkSize > 0
    ensures Index(a, chunkSize) <= Index(b, chunkSize)
  {
    if Index(b, chunkSize) < Index(a, chunkSize) {
      StartMonotone(Index(b, chunkSize) + 1, Index(a, chunkSize), chunkSize);
    }
  }

  lemma TouchedInRange(f: ChunkedFile, offset: nat, end: nat)
    requires Layout(f) && offset < end <= f.size
    ensures Index(offset, f.chunkSize) <= Index(end - 1, f.chunkSize) < |f.chunks|
  {
    ChunkHolds(f, end - 1);
    IndexMonotone(offset, end - 1, f.chunkSize);
  }

  /** What has arrived agrees with the catalog wherever both speak. */
  ghost predicate Agrees(store: Catalog, truth: Catalog) {
    forall h :: h in store && h in truth ==> store[h] == truth[h]
  }

  /** Chunks a read touches. */
  ghost function Touched(f: ChunkedFile, offset: nat, len: nat): set<Hash>
    requires Layout(f)
  {
    set k | 0 <= k < |f.chunks| && TouchesChunk(f, offset, len, k) :: f.chunks[k]
  }

  predicate TouchesChunk(f: ChunkedFile, offset: nat, len: nat, k: nat)
    requires f.chunkSize > 0
  {
    var end := ReadEnd(f, offset, len);
    offset < end && Index(offset, f.chunkSize) <= k <= Index(end - 1, f.chunkSize)
  }

  /** A byte in a usable chunk is the byte of the flat contents. */
  lemma StoredIsContent(f: ChunkedFile, store: Catalog, truth: Catalog, o: nat)
    requires Complete(f, truth) && Agrees(store, truth) && o < f.size
    requires Index(o, f.chunkSize) < |f.chunks| ==> Usable(f, store, Index(o, f.chunkSize))
    ensures |Contents(f, truth)| == f.size && StoredByte(f, store, o) == Contents(f, truth)[o]
  {
    ContentsAt(f, truth, o);
  }

  /** What a read touches: the chunks whose part of the file overlaps the range asked for. */
  lemma TouchedIs(f: ChunkedFile, offset: nat, len: nat, h: Hash)
    requires Layout(f)
    ensures h in Touched(f, offset, len) <==>
            exists k :: 0 <= k < |f.chunks| && f.chunks[k] == h && Max(offset, Start(k, f.chunkSize)) < Min(offset + len, End(f, k))
  {
    hide Index, Start, Count;
    forall k | 0 <= k < |f.chunks|
      ensures TouchesChunk(f, offset, len, k) <==> Max(offset, Start(k, f.chunkSize)) < Min(offset + len, End(f, k))
    {
      ChunkOverlaps(f, offset, len, k);
    }
  }

  lemma ChunkOverlaps(f: ChunkedFile, offset: nat, len: nat, k: nat)
    requires Layout(f) && k < |f.chunks|
    ensures TouchesChunk(f, offset, len, k) <==> Max(offset, Start(k, f.chunkSize)) < Min(offset + len, End(f, k))
  {
    hide Index, Start, Count, TouchesChunk, End;
    if TouchesChunk(f, offset, len, k) {
      TouchedOverlaps(f, offset, len, k);
    }
    if Max(offset, Start(k, f.chunkSize)) < Min(offset + len, End(f, k)) {
      OverlapTouches(f, offset, len, k);
    }
  }

  lemma TouchedOverlaps(f: ChunkedFile, offset: nat, len: nat, k: nat)
    requires Layout(f) && k < |f.chunks| && TouchesChunk(f, offset, len, k)
    ensures Max(offset, Start(k, f.chunkSize)) < Min(offset + len, End(f, k))
  {
    hide Index, Start, Count;
    var end := ReadEnd(f, offset, len);
    var first, last := Index(offset, f.chunkSize), Index(end - 1, f.chunkSize);
    StartMonotone(k, last, f.chunkSize);
    StartMonotone(first + 1, k + 1, f.chunkSize);
    StartShift(k, f.chunkSize);
  }

  lemma OverlapTouches(f: ChunkedFile, offset: nat, len: nat, k: nat)
    requires f.chunkSize > 0 && k < |f.chunks| && Max(offset, Start(k, f.chunkSize)) < Min(offset + len, End(f, k))
    ensures TouchesChunk(f, offset, len, k)
  {
    hide Index, Start, Count;
    var end := ReadEnd(f, offset, len);
    StartShift(k, f.chunkSize);
    var o := Max(offset, Start(k, f.chunkSize));
    IndexUnique(o, k, f.chunkSize);
    IndexMonotone(offset, o, f.chunkSize);
    IndexMonotone(o, end - 1, f.chunkSize);
  }

  /** A read over partially arrived chunks either yields exactly the flat contents, or
      names an absent chunk that it touches; it is ready as soon as all of those are here. */
  lemma ReadRefinesContents(f: ChunkedFile, store: Catalog, truth: Catalog, offset: nat, len: nat)
    requires Complete(f, truth) && Agrees(store, truth)
    ensures !Read(f, store, offset, len).Invalid?
    ensures Read(f, store, offset, len).Ready? <==> Touched(f, offset, len) <= store.Keys
    ensures Read(f, store, offset, len).Missing? ==>
              var h := Read(f, store, offset, len).hash;
              h !in store && h in truth && h in Touched(f, offset, len)
    ensures |Contents(f, truth)| == f.size
    ensures Read(f, store, offset, len).Ready? ==>
              var bytes := Read(f, store, offset, len).bytes;
              && |bytes| == (if offset < f.size then Min(len, f.size - offset) else 0)
              && forall i :: 0 <= i < |bytes| ==> bytes[i] == Contents(f, truth)[offset + i]
  {
    hide Index, Start, ChunkLength;
    ContentsLength(f, truth);
    var end := ReadEnd(f, offset, len);
    if offset < end {
      TouchedInRange(f, offset, end);
      var last := Index(end - 1, f.chunkSize);
      var bad := FirstUnusable(f, store, Index(offset, f.chunkSize), last + 1);
      if bad <= last {
        assert TouchesChunk(f, offset, len, bad);
        assert f.chunks[bad] in Touched(f, offset, len);
      } else {
        forall o | offset <= o < end
          ensures |Contents(f, truth)| == f.size && StoredByte(f, store, o) == Contents(f, truth)[o]
        {
          IndexMonotone(offset, o, f.chunkSize);
          IndexMonotone(o, end - 1, f.chunkSize);
          StoredIsContent(f, store, truth, o);
        }
        StoredIsContent(f, store, truth, offset);
        forall k | 0 <= k < |f.chunks| && TouchesChunk(f, offset, len, k)
          ensures f.chunks[k] in store
        {
          assert Usable(f, store, k);
        }
      }
    }
  }

  /** Later arrivals never change an answer already given. */
  lemma ReadIsStable(f: ChunkedFile, store: Catalog, later: Catalog, offset: nat, len: nat)
    requires Layout(f)
    requires forall h :: h in store ==> h in later && later[h] == store[h]
    requires !Read(f, store, offset, len).Missing?
    ensures Read(f, later, offset, len) == Read(f, store, offset, len)
  {
    hide Index, Start, ChunkLength;
    var end := ReadEnd(f, offset, len);
    if offset < end {
      TouchedInRange(f, offset, end);
      var first, last := Index(offset, f.chunkSize), Index(end - 1, f.chunkSize);
      var bad := FirstUnusable(f, store, first, last + 1);
      forall j | first <= j < bad
        ensures Usable(f, later, j)
      {
        assert Usable(f, store, j);
      }
      FirstUnusableIs(f, later, first, last + 1, bad);
      if bad > last {
        forall o | offset <= o < end
          ensures StoredByte(f, later, o) == StoredByte(f, store, o)
        {
          IndexMonotone(offset, o, f.chunkSize);
          IndexMonotone(o, end - 1, f.chunkSize);
          assert Usable(f, store, Index(o, f.chunkSize));
        }
      }
    }
  }

  // -------------------------------------------------------------- the store

  /** The arrived chunks and the storage they are charged to. `held` is the total the
      filesystem accounts for, chunks included. */
  datatype Store = Store(chunks: Catalog, held: nat, budget: Option<nat>)

  /** Whether `growth` more bytes fit the budget; adding nothing always fits. */
  predicate Fits(s: Store, growth: nat) {
    growth == 0 || s.budget.None? || s.held + growth <= s.budget.value
  }

  /** A chunk is accepted when it fits (unless already here) and its digest is the one expected. */
  predicate Admits(s: Store, digest: seq<byte> -> Hash, expected: Hash, bytes: seq<byte>, capacity: nat) {
    (expected in s.chunks || Fits(s, capacity)) && digest(bytes) == expected
  }

  /** The store after an accepted chunk: the first arrival of a hash is the one kept. */
  function Put(s: Store, expected: Hash, bytes: seq<byte>, capacity: nat): Store {
    if expected in s.chunks then s
    else s.(chunks := s.chunks[expected := bytes], held := s.held + capacity)
  }

  datatype Arrival = Arrival(expected: Hash, bytes: seq<byte>, capacity: nat)

  function Offered(s: Store, digest: seq<byte> -> Hash, a: Arrival): Store {
    if Admits(s, digest, a.expected, a.bytes, a.capacity) then Put(s, a.expected, a.bytes, a.capacity) else s
  }

  function Stocked(s: Store, digest: seq<byte> -> Hash, arrivals: seq<Arrival>): Store {
    if arrivals == [] then s
    else Offered(Stocked(s, digest, arrivals[..|arrivals| - 1]), digest, arrivals[|arrivals| - 1])
  }

  /** The arrival is new, is what it should be, and has room. */
  predicate Enters(s: Store, digest: seq<byte> -> Hash, a: Arrival) {
    && a.expected !in s.chunks && digest(a.bytes) == a.expected
    && (a.capacity == 0 || s.budget.None? || a.capacity <= s.budget.value - s.held)
  }

  /** What the arrivals that entered take up. */
  function Taken(s: Store, digest: seq<byte> -> Hash, arrivals: seq<Arrival>): nat {
    if arrivals == [] then 0
    else
      var n := |arrivals| - 1;
      Taken(s, digest, arrivals[..n]) + if Enters(Stocked(s, digest, arrivals[..n]), digest, arrivals[n]) then arrivals[n].capacity else 0
  }

  /** After any arrivals: what is held is what it was and what the ones that entered take up, and is
      within the budget if it was; and the next one is here afterwards, as it came, if it enters,
      changes nothing if it does not, and is accepted if its digest is right and it is here already. */
  lemma {:induction false} BudgetKept(s: Store, digest: seq<byte> -> Hash, arrivals: seq<Arrival>, next: Arrival)
    ensures var f := Stocked(s, digest, arrivals);
            && f.held == s.held + Taken(s, digest, arrivals) && f.budget == s.budget
            && (s.budget.Some? && s.held <= s.budget.value ==> f.held <= s.budget.value)
            && Offered(f, digest, next) ==
                 (if Enters(f, digest, next) then Store(f.chunks[next.expected := next.bytes], f.held + next.capacity, f.budget) else f)
            && (Admits(f, digest, next.expected, next.bytes, next.capacity) <==>
                  Enters(f, digest, next) || (next.expected in f.chunks && digest(next.bytes) == next.expected))
  {
    if arrivals != [] {
      var n := |arrivals| - 1;
      BudgetKept(s, digest, arrivals[..n], arrivals[n]);
    }
  }

  /** Every stored chunk hashes to the name it is stored under. */
  ghost predicate Verified(store: Catalog, digest: seq<byte> -> Hash) {
    forall h :: h in store ==> digest(store[h]) == h
  }

  /** No bytes but the catalogued ones hash to a catalogued name. */
  ghost predicate Binding(digest: seq<byte> -> Hash, truth: Catalog) {
    forall b: seq<byte> :: digest(b) in truth ==> truth[digest(b)] == b
  }

  lemma VerifiedAgrees(store: Catalog, digest: seq<byte> -> Hash, truth: Catalog)
    requires Verified(store, digest) && Binding(digest, truth)
    ensures Agrees(store, truth)
  {
    forall h | h in store && h in truth
      ensures store[h] == truth[h]
    {
      assert digest(store[h]) == h;
    }
  }

  class ChunkStore {
    const digest: seq<byte> -> Hash
    var chunks: Catalog
    var held: nat
    var budget: Option<nat>

    constructor (digest: seq<byte> -> Hash, held: nat, budget: Option<nat>)
      ensures this.digest == digest && View() == Store(map[], held, budget)
      ensures Verified(chunks, digest)
    {
      this.digest, this.held, this.budget := digest, held, budget;
      chunks := map[];
    }

    function View(): Store
      reads this
    {
      Store(chunks, held, budget)
    }

    method PutChunk(expected: Hash, bytes: seq<byte>, capacity: nat) returns (ok: bool)
      modifies this
      ensures ok <==> old(Admits(View(), digest, expected, bytes, capacity))
      ensures View() == if ok then old(Put(View(), expected, bytes, capacity)) else old(View())
      ensures old(Verified(chunks, digest)) ==> Verified(chunks, digest)
    {
      if expected !in chunks {
        var fits := capacity == 0 || budget.None? || held + capacity <= budget.value;
        if !fits { return false; }
      }
      ok := Insert(expected, bytes, capacity);
    }

    method Insert(expected: Hash, bytes: seq<byte>, capacity: nat) returns (ok: bool)
      modifies this
      ensures ok <==> digest(bytes) == expected
      ensures View() == if ok then old(Put(View(), expected, bytes, capacity)) else old(View())
      ensures old(Verified(chunks, digest)) ==> Verified(chunks, digest)
    {
      if digest(bytes) != expected {
        return false;
      }
      if expected !in chunks {
        chunks := chunks[expected := bytes];
        held := held + capacity;
      }
      ok := true;
    }

    /** Copies chunk by chunk; the result is the whole-read specification. */
    method ReadFrom(f: ChunkedFile, offset: nat, len: nat) returns (r: ReadRange)
      requires Layout(f) && f.size < U64_LIMIT
      ensures r == Read(f, chunks, offset, len)
    {
      hide Index, Start, FirstUnusable, StoredByte, StoredBytes, Count, Layout, ChunkAt;
      var end := Min(SaturatingAdd(offset, len), f.size);
      if offset >= end {
        return Ready([]);
      }
      TouchedInRange(f, offset, end);
      var out: seq<byte> := [];
      var cursor := offset;
      while cursor < end
        invariant offset <= cursor <= end
        invariant |out| == cursor - offset
        invariant forall i :: 0 <= i < |out| ==> out[i] == StoredByte(f, chunks, offset + i)
        invariant UsableUpTo(f, chunks, offset, len, cursor)
      {
        var at := ChunkAt(f, cursor);
        var (index, start, stop) := at.value;
        var hash := f.chunks[index];
        if hash !in chunks {
          ReadStopsAt(f, chunks, offset, len, index);
          return Missing(hash);
        }
        var chunk := chunks[hash];
        if |chunk| != stop - start {
          ReadStopsAt(f, chunks, offset, len, index);
          return Invalid;
        }
        var inChunk := cursor - start;
        var take := Min(end - cursor, |chunk| - inChunk);
        SliceIsStored(f, chunks, cursor, take);
        NextChunk(f, chunks, offset, len, cursor, take);
        out := out + chunk[inChunk..inChunk + take];
        cursor := cursor + take;
      }
      ReadCompletes(f, chunks, offset, len, out);
      r := Ready(out);
    }
  }

  lemma ReadStopsAt(f: ChunkedFile, store: Catalog, offset: nat, len: nat, k: nat)
    requires Layout(f) && k < |f.chunks| && TouchesChunk(f, offset, len, k)
    requires forall j :: Index(offset, f.chunkSize) <= j < k ==> Usable(f, store, j)
    requires !Usable(f, store, k)
    ensures Read(f, store, offset, len) == if f.chunks[k] in store then Invalid else Missing(f.chunks[k])
  {
    hide Index, Start, ChunkLength;
    var end := ReadEnd(f, offset, len);
    TouchedInRange(f, offset, end);
    FirstUnusableIs(f, store, Index(offset, f.chunkSize), Index(end - 1, f.chunkSize) + 1, k);
  }

  lemma ReadCompletes(f: ChunkedFile, store: Catalog, offset: nat, len: nat, out: seq<byte>)
    requires Layout(f) && offset < ReadEnd(f, offset, len)
    requires forall k :: 0 <= k < |f.chunks| && TouchesChunk(f, offset, len, k) ==> Usable(f, store, k)
    requires |out| == ReadEnd(f, offset, len) - offset
    requires forall i :: 0 <= i < |out| ==> out[i] == StoredByte(f, store, offset + i)
    ensures Read(f, store, offset, len) == Ready(out)
  {
    var end := ReadEnd(f, offset, len);
    TouchedInRange(f, offset, end);
    var first, last := Index(offset, f.chunkSize), Index(end - 1, f.chunkSize);
    forall k | first <= k <= last
      ensures Usable(f, store, k)
    {
      assert TouchesChunk(f, offset, len, k);
    }
    FirstUnusableIs(f, store, first, last + 1, last + 1);
    assert Read(f, store, offset, len).bytes == out;
  }

  lemma SliceIsStored(f: ChunkedFile, store: Catalog, cursor: nat, take: nat)
    requires Layout(f) && cursor < f.size && Index(cursor, f.chunkSize) < |f.chunks|
    requires Usable(f, store, Index(cursor, f.chunkSize))
    requires cursor + take <= End(f, Index(cursor, f.chunkSize))
    ensures forall o :: cursor <= o < cursor + take ==>
              && 0 <= o - Start(Index(cursor, f.chunkSize), f.chunkSize) < |store[f.chunks[Index(cursor, f.chunkSize)]]|
              && StoredByte(f, store, o) ==
                 store[f.chunks[Index(cursor, f.chunkSize)]][o - Start(Index(cursor, f.chunkSize), f.chunkSize)]
  {
    forall o | cursor <= o < cursor + take
      ensures Index(o, f.chunkSize) == Index(cursor, f.chunkSize)
    {
      IndexUnique(o, Index(cursor, f.chunkSize), f.chunkSize);
    }
  }

  /** Every chunk the read touches before `cursor` is usable. */
  ghost predicate UsableUpTo(f: ChunkedFile, store: Catalog, offset: nat, len: nat, cursor: nat)
    requires Layout(f)
  {
    && (cursor < ReadEnd(f, offset, len) ==>
          && Index(cursor, f.chunkSize) < |f.chunks|
          && TouchesChunk(f, offset, len, Index(cursor, f.chunkSize)))
    && forall k :: 0 <= k < |f.chunks| && TouchesChunk(f, offset, len, k) &&
                   (cursor < ReadEnd(f, offset, len) ==> k < Index(cursor, f.chunkSize))
                   ==> Usable(f, store, k)
  }

  /** Taking the rest of a chunk, or the rest of the read, leaves the cursor at the next
      chunk or at the end. */
  lemma NextChunk(f: ChunkedFile, store: Catalog, offset: nat, len: nat, cursor: nat, take: nat)
    requires Layout(f) && UsableUpTo(f, store, offset, len, cursor)
    requires cursor < ReadEnd(f, offset, len) && Usable(f, store, Index(cursor, f.chunkSize))
    requires take == Min(ReadEnd(f, offset, len) - cursor, End(f, Index(cursor, f.chunkSize)) - cursor)
    ensures 0 < take <= ReadEnd(f, offset, len) - cursor
    ensures UsableUpTo(f, store, offset, len, cursor + take)
  {
    hide Index, Start;
    var end := ReadEnd(f, offset, len);
    var k := Index(cursor, f.chunkSize);
    ChunkHolds(f, cursor);
    if cursor + take < end {
      StartShift(k, f.chunkSize);
      IndexUnique(cursor + take, k + 1, f.chunkSize);
      IndexMonotone(cursor + take, end - 1, f.chunkSize);
      TouchedInRange(f, offset, end);
    } else {
      IndexUnique(end - 1, k, f.chunkSize);
    }
  }
}

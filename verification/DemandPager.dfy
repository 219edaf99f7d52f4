/** The page-in table: address spaces, resident pages and the one pending request. The
    methods of `Pager` are proved against pure functions of `PagerState`. */
module DemandPager {
  import opened Base
  import opened Chunks
  import opened Mappings

  datatype AddressSpace = AddressSpace(generation: nat, mappings: seq<FileMapping>)

  datatype PageRequest = PageRequest(ticket: nat, hash: Hash, asid: nat, generation: nat, page: nat, access: AccessKind)

  datatype Resolution =
    | NotLazy
    | ReadyPage(page: nat, bytes: seq<byte>, perm: Perm)
    | MissingPage(request: PageRequest)
    | InvalidPage

  datatype PagerState = PagerState(
    spaces: map<nat, AddressSpace>,
    resident: set<(nat, nat)>,
    pending: Option<PageRequest>,
    nextTicket: nat)

  /** `wrapping_add(1).max(1)`: the successor that skips zero when the word wraps. */
  function Bump(g: nat): nat {
    if g + 1 >= U64_LIMIT then 1 else g + 1
  }

  function MappingsOf(s: PagerState, asid: nat): seq<FileMapping> {
    if asid in s.spaces then s.spaces[asid].mappings else []
  }

  /** The mappings that cover a page, in table order. */
  function Touching(ms: seq<FileMapping>, page: nat): (r: seq<FileMapping>)
    ensures forall m :: m in r <==> m in ms && m.Has(page)
  {
    if ms == [] then []
    else
      var front := Touching(ms[..|ms| - 1], page);
      assert ms == ms[..|ms| - 1] + [ms[|ms| - 1]];
      if ms[|ms| - 1].Has(page) then front + [ms[|ms| - 1]] else front
  }

  // ----------------------------------------------------------- page contents

  datatype Building = Built(bytes: seq<byte>) | Stopped(hash: Hash) | Refused

  function Overwrite(bytes: seq<byte>, at: nat, part: seq<byte>): (r: seq<byte>)
    requires at + |part| <= |bytes|
    ensures |r| == |bytes|
    ensures forall i :: 0 <= i < |bytes| ==> r[i] == if at <= i < at + |part| then part[i - at] else bytes[i]
  {
    bytes[..at] + part + bytes[at + |part|..]
  }

  /** The page after one mapping's zero fill. */
  function Zeroed(m: FileMapping, page: nat, bytes: seq<byte>): (r: seq<byte>)
    requires |bytes| == PAGE_SIZE
    ensures |r| == PAGE_SIZE
  {
    var from, to := Max(m.DataEnd(), page), Min(m.end, page + PAGE_SIZE);
    if from < to then Overwrite(bytes, from - page, Zeros(to - from)) else bytes
  }

  /** The page after one mapping: its tail is zeroed and its file bytes copied in. */
  function ApplyMapping(m: FileMapping, store: Catalog, page: nat, bytes: seq<byte>): (r: Building)
    requires |bytes| == PAGE_SIZE && Layout(m.file)
    ensures r.Built? ==> |r.bytes| == PAGE_SIZE
  {
    var zeroed := Zeroed(m, page, bytes);
    var from, to := Max(page, m.dataStart), Min(page + PAGE_SIZE, m.DataEnd());
    if from >= to then Built(zeroed)
    else
      match Read(m.file, store, m.fileOffset + (from - m.dataStart), to - from)
      case Ready(part) => if |part| == to - from then Built(Overwrite(zeroed, from - page, part)) else Refused
      case Missing(hash) => Stopped(hash)
      case Invalid => Refused
  }

  function Filled(fill: byte): (r: seq<byte>)
    ensures |r| == PAGE_SIZE && forall i :: 0 <= i < PAGE_SIZE ==> r[i] == fill
  {
    seq(PAGE_SIZE, i => fill)
  }

  /** The page the touching mappings build, in order, or the first chunk that is absent. */
  function BuildPage(ts: seq<FileMapping>, store: Catalog, page: nat): (r: Building)
    requires ts != [] && forall m :: m in ts ==> Layout(m.file)
    ensures r.Built? ==> |r.bytes| == PAGE_SIZE
  {
    var n := |ts| - 1;
    var before := if n == 0 then Built(Filled(ts[0].fill)) else BuildPage(ts[..n], store, page);
    if before.Built? then ApplyMapping(ts[n], store, page, before.bytes) else before
  }

  /** A page-aligned mapping has either a whole page or none of it. */
  lemma WholePage(m: FileMapping, page: nat, a: int)
    requires WellFormed(m) && Aligned(page) && page <= a < page + PAGE_SIZE
    ensures m.Has(a) <==> m.Has(page)
  {
  }

  /** The byte at `a` of an eager memory, or the fill of a page not yet written. */
  ghost predicate Shows(bytes: seq<byte>, page: nat, a: int, cell: Option<Cell>, fill: byte)
    requires |bytes| == PAGE_SIZE && page <= a < page + PAGE_SIZE
  {
    bytes[a - page] == if cell.Some? then cell.value.value else fill
  }

  /** What a page's copy out of a mapped file yields. */
  lemma CopyIsContent(m: FileMapping, store: Catalog, truth: Catalog, from: nat, to: nat)
    requires WellFormed(m) && Complete(m.file, truth) && Agrees(store, truth)
    requires m.dataStart <= from < to <= m.DataEnd()
    ensures var r := Read(m.file, store, m.fileOffset + (from - m.dataStart), to - from);
            && !r.Invalid?
            && (r.Missing? ==> r.hash !in store && r.hash in truth)
            && (r.Ready? ==>
                  && |r.bytes| == to - from
                  && forall i :: 0 <= i < to - from ==> r.bytes[i] == FileByte(m.file, truth, m.fileOffset + (from + i - m.dataStart)))
  {
    hide Layout, Complete, Read, Contents, Touched, Aligned;
    ReadRefinesContents(m.file, store, truth, m.fileOffset + (from - m.dataStart), to - from);
    ContentsLength(m.file, truth);
  }

  /** One mapping applied to a page does to each byte what the eager loader does. */
  lemma ApplyIsLoad(m: FileMapping, store: Catalog, truth: Catalog, page: nat, bytes: seq<byte>, a: int, cell: Option<Cell>)
    requires WellFormed(m) && Complete(m.file, truth) && Agrees(store, truth) && Aligned(page) && m.Has(page)
    requires |bytes| == PAGE_SIZE && page <= a < page + PAGE_SIZE && Shows(bytes, page, a, cell, m.fill)
    ensures var r := ApplyMapping(m, store, page, bytes);
            && !r.Refused?
            && (r.Stopped? ==> r.hash !in store && r.hash in truth)
            && (r.Built? ==> r.bytes[a - page] == LoadedValue(m, truth, a, cell))
  {
    hide Layout, Complete, Read, Aligned, FileByte, Overwrite, Zeroed, WellFormed;
    ZeroedAt(m, page, bytes, a);
    assert a < m.end by { WholePage(m, page, a); }
    var from, to := Max(page, m.dataStart), Min(page + PAGE_SIZE, m.DataEnd());
    if from < to {
      CopyIsContent(m, store, truth, from, to);
    }
  }

  lemma ZeroedAt(m: FileMapping, page: nat, bytes: seq<byte>, a: int)
    requires |bytes| == PAGE_SIZE && page <= a < page + PAGE_SIZE
    ensures Zeroed(m, page, bytes)[a - page] == if m.DataEnd() <= a < m.end then 0 else bytes[a - page]
  {
  }

  lemma TouchingMore(front: seq<FileMapping>, m: FileMapping, page: nat)
    ensures Touching(front + [m], page) == if m.Has(page) then Touching(front, page) + [m] else Touching(front, page)
  {
    assert (front + [m])[..|front|] == front;
  }

  lemma EagerMore(front: seq<FileMapping>, m: FileMapping, truth: Catalog, a: int)
    ensures Eager(front + [m], truth, a) == Load(m, truth, a, Eager(front, truth, a))
  {
    hide Load;
    assert (front + [m])[..|front|] == front;
  }

  /** What the mappings before leave in the buffer, or the fill of the first. */
  function BuiltBefore(ts: seq<FileMapping>, m: FileMapping, store: Catalog, page: nat): (r: Building)
    requires forall x :: x in ts ==> Layout(x.file)
    ensures r.Built? ==> |r.bytes| == PAGE_SIZE
  {
    if ts == [] then Built(Filled(m.fill)) else BuildPage(ts, store, page)
  }

  lemma BuildMore(ts: seq<FileMapping>, m: FileMapping, store: Catalog, page: nat)
    requires Layout(m.file) && forall x :: x in ts ==> Layout(x.file)
    ensures var before := BuiltBefore(ts, m, store, page);
            BuildPage(ts + [m], store, page) ==
            if before.Built? then ApplyMapping(m, store, page, before.bytes) else before
  {
    hide Layout, ApplyMapping, Filled;
    assert (ts + [m])[..|ts|] == ts;
  }

  lemma FilledShows(fill: byte, page: nat, a: int)
    requires page <= a < page + PAGE_SIZE
    ensures Shows(Filled(fill), page, a, None, fill)
  {
  }

  lemma TouchingLaidOut(ms: seq<FileMapping>, page: nat)
    requires AllWellFormed(ms)
    ensures forall m :: m in Touching(ms, page) ==> Layout(m.file)
  {
    hide Layout, Touching, Aligned;
  }

  /** A page built from the touching mappings is the eager memory of that page, whatever
      part of the chunks has arrived; a page that cannot be built names a chunk that is
      absent and belongs to a mapped file. */
  lemma {:induction false} BuildIsEager(ms: seq<FileMapping>, store: Catalog, truth: Catalog, page: nat, a: int)
    requires AllWellFormed(ms) && Aligned(page) && page <= a < page + PAGE_SIZE
    requires AllComplete(ms, truth) && Agrees(store, truth)
    ensures Touching(ms, page) == [] <==> Eager(ms, truth, a).None?
    ensures Touching(ms, page) != [] ==>
              var r := BuildPage(Touching(ms, page), store, page);
              && !r.Refused?
              && (r.Stopped? ==> r.hash !in store && r.hash in truth)
              && (r.Built? ==> Eager(ms, truth, a).value.value == r.bytes[a - page])
              && Eager(ms, truth, a).value.perm == Touching(ms, page)[|Touching(ms, page)| - 1].perm
  {
    hide Layout, Complete, FileByte, LoadedValue, ApplyMapping, Aligned, Touching, LoadAll, BuildPage, WellFormed, Filled;
    if ms == [] {
      TouchingNothing(page);
      NothingEager(truth, a);
    } else {
      var front, m := ms[..|ms| - 1], ms[|ms| - 1];
      assert ms == front + [m] && WellFormed(m) && Complete(m.file, truth);
      BuildIsEager(front, store, truth, page, a);
      TouchingMore(front, m, page);
      EagerMore(front, m, truth, a);
      WholePage(m, page, a);
      if m.Has(page) {
        var ts, cell := Touching(front, page), Eager(front, truth, a);
        TouchingLaidOut(front, page);
        LaidOut(m);
        BuildMore(ts, m, store, page);
        var before := BuiltBefore(ts, m, store, page);
        FilledShows(m.fill, page, a);
        if before.Built? {
          assert Shows(before.bytes, page, a, cell, m.fill);
          ApplyIsLoad(m, store, truth, page, before.bytes, a, cell);
        }
      }
    }
  }

  lemma NothingEager(truth: Catalog, a: int)
    ensures Eager([], truth, a).None?
  {
  }

  lemma LaidOut(m: FileMapping)
    requires WellFormed(m)
    ensures Layout(m.file)
  {
  }

  // ------------------------------------------------------------------ faults

  predicate Grants(ts: seq<FileMapping>, access: AccessKind) {
    ts != [] && access in ts[|ts| - 1].perm
  }

  /** The page a fault is about: the faulting one, or the cold page after it when an
      access that both sides grant straddles the two. */
  function FaultPage(s: PagerState, asid: nat, address: nat, access: AccessKind): (r: Option<nat>)
    ensures r.Some? ==> Touching(MappingsOf(s, asid), r.value) != [] && (asid, r.value) !in s.resident
  {
    var page, ms := PageOf(address), MappingsOf(s, asid);
    if Touching(ms, page) == [] then None
    else if (asid, page) !in s.resident then Some(page)
    else
      var next := SaturatingAdd(page, PAGE_SIZE);
      if Grants(Touching(ms, page), access) && Grants(Touching(ms, next), access) && (asid, next) !in s.resident
      then Some(next) else None
  }

  ghost predicate Consistent(s: PagerState) {
    forall asid :: asid in s.spaces ==> AllWellFormed(s.spaces[asid].mappings)
  }

  lemma TouchingLayouts(s: PagerState, asid: nat, page: nat)
    requires Consistent(s)
    ensures forall m :: m in Touching(MappingsOf(s, asid), page) ==> Layout(m.file) && m.file.size < U64_LIMIT
  {
  }

  function Request(s: PagerState, asid: nat, page: nat, hash: Hash, access: AccessKind): PageRequest
    requires asid in s.spaces
  {
    PageRequest(Bump(s.nextTicket), hash, asid, s.spaces[asid].generation, page, access)
  }

  predicate SameRequest(s: PagerState, r: PageRequest, asid: nat, page: nat, hash: Hash)
    requires asid in s.spaces
  {
    r.hash == hash && r.asid == asid && r.generation == s.spaces[asid].generation && r.page == page
  }

  /** A fault: the new pager state and the answer. */
  ghost function Resolved(s: PagerState, store: Catalog, asid: nat, address: nat, access: AccessKind): (r: (PagerState, Resolution))
    requires Consistent(s)
    ensures r.0.spaces == s.spaces && r.0.resident == s.resident
  {
    var target := FaultPage(s, asid, address, access);
    if target.None? then (s, NotLazy)
    else
      TouchingLayouts(s, asid, target.value);
      var ts := Touching(MappingsOf(s, asid), target.value);
      match BuildPage(ts, store, target.value)
      case Built(bytes) => (s, ReadyPage(target.value, bytes, ts[|ts| - 1].perm))
      case Refused => (s, InvalidPage)
      case Stopped(hash) =>
        if s.pending.Some? then
          (s, if SameRequest(s, s.pending.value, asid, target.value, hash) then MissingPage(s.pending.value) else InvalidPage)
        else
          var request := Request(s, asid, target.value, hash, access);
          (s.(pending := Some(request), nextTicket := request.ticket), MissingPage(request))
  }

  // ------------------------------------------------------------- completions

  predicate Governed(s: PagerState, asid: nat, page: nat) {
    Touching(MappingsOf(s, asid), page) != []
  }

  /** A request is still about the mapping generation it was made for. */
  predicate Current(s: PagerState, r: PageRequest) {
    r.asid in s.spaces && s.spaces[r.asid].generation == r.generation && Governed(s, r.asid, r.page)
  }

  predicate Accepts(s: PagerState, store: Store, digest: seq<byte> -> Hash, ticket: nat, bytes: seq<byte>, capacity: nat) {
    && s.pending.Some? && s.pending.value.ticket == ticket && Current(s, s.pending.value)
    && Admits(store, digest, s.pending.value.hash, bytes, capacity)
  }

  /** A completion answers the pending request, or drops it as stale, or is refused. */
  function Completed(s: PagerState, store: Store, digest: seq<byte> -> Hash, ticket: nat, bytes: seq<byte>, capacity: nat): (PagerState, Store) {
    if Accepts(s, store, digest, ticket, bytes, capacity) then
      (s.(pending := None), Put(store, s.pending.value.hash, bytes, capacity))
    else if s.pending.Some? && s.pending.value.ticket == ticket && !Current(s, s.pending.value) then
      (s.(pending := None), store)
    else
      (s, store)
  }

  // ------------------------------------------------------------------- edits

  function SpaceOf(s: PagerState, asid: nat): AddressSpace {
    if asid in s.spaces then s.spaces[asid] else AddressSpace(0, [])
  }

  function WithMappings(s: PagerState, asid: nat, ms: seq<FileMapping>): PagerState {
    s.(spaces := s.spaces[asid := AddressSpace(Bump(SpaceOf(s, asid).generation), ms)])
  }

  function Mapped(s: PagerState, asid: nat, m: FileMapping): PagerState {
    WithMappings(s, asid, SpaceOf(s, asid).mappings + [m])
  }

  function Dropped(s: PagerState, asid: nat): PagerState {
    s.(spaces := s.spaces - {asid}, resident := set p | p in s.resident && p.0 != asid)
  }

  /** Residency with a range of one address space taken out. */
  function Outside(resident: set<(nat, nat)>, asid: nat, start: nat, end: nat): set<(nat, nat)> {
    set p | p in resident && !(p.0 == asid && start <= p.1 < end)
  }

  /** Residency of a range of one address space, moved. */
  function MovedPages(resident: set<(nat, nat)>, asid: nat, start: nat, end: nat, newStart: nat): set<(nat, nat)> {
    set p | p in resident && p.0 == asid && start <= p.1 < end :: (asid, newStart + (p.1 - start))
  }

  /** Unmapping a range that runs past the address space drops the whole space. */
  function UnmappedSpace(s: PagerState, asid: nat, start: nat, len: nat): PagerState {
    if start + len >= U64_LIMIT then Dropped(s, asid)
    else if asid !in s.spaces then s
    else
      WithMappings(s, asid, Unmapped(s.spaces[asid].mappings, start, start + len))
      .(resident := Outside(s.resident, asid, start, start + len))
  }

  function ProtectedSpace(s: PagerState, asid: nat, start: nat, len: nat, perm: Perm): PagerState {
    if start + len >= U64_LIMIT || asid !in s.spaces then s
    else WithMappings(s, asid, Protected(s.spaces[asid].mappings, start, start + len, perm))
  }

  function RemappedSpace(s: PagerState, asid: nat, oldStart: nat, oldLen: nat, newStart: nat, newLen: nat): PagerState
    requires AllWellFormed(MappingsOf(s, asid)) && newStart + newLen < U64_LIMIT
  {
    if asid !in s.spaces then s
    else
      WithMappings(s, asid, Remapped(s.spaces[asid].mappings, oldStart, oldLen, newStart, newLen))
      .(resident := Outside(s.resident, asid, oldStart, SaturatingAdd(oldStart, oldLen))
                    + MovedPages(s.resident, asid, oldStart, SaturatingAdd(oldStart, Min(oldLen, newLen)), newStart))
  }

  function Forked(s: PagerState, parent: nat, child: nat): PagerState {
    if parent !in s.spaces then s
    else
      s.(spaces := s.spaces[child := s.spaces[parent]],
         resident := s.resident + set p | p in s.resident && p.0 == parent :: (child, p.1))
  }

  function MarkedResident(s: PagerState, asid: nat, page: nat): PagerState {
    s.(resident := s.resident + {(asid, PageOf(page))})
  }

  // --------------------------------------------------------------- the pager

  /** A governed page from the page of `start` on that is not resident. */
  predicate Nonresident(p: PagerState, asid: nat, start: nat, page: nat) {
    PageOf(start) <= page && Aligned(page) && Governed(p, asid, page) && (asid, page) !in p.resident
  }

  class Pager {
    var spaces: map<nat, AddressSpace>
    var resident: set<(nat, nat)>
    var pending: Option<PageRequest>
    var nextTicket: nat

    constructor ()
      ensures View() == PagerState(map[], {}, None, 0)
    {
      spaces, resident, pending, nextTicket := map[], {}, None, 0;
    }

    function View(): PagerState
      reads this
    {
      PagerState(spaces, resident, pending, nextTicket)
    }

    method Map(asid: nat, mapping: FileMapping)
      modifies this
      ensures View() == Mapped(old(View()), asid, mapping)
    {
      var space := if asid in spaces then spaces[asid] else AddressSpace(0, []);
      spaces := spaces[asid := AddressSpace(Bump(space.generation), space.mappings + [mapping])];
    }

    /** Permission and residency of a governed page; the last mapping wins. */
    method PageState(asid: nat, page: nat) returns (r: Option<(bool, Perm)>)
      ensures r.Some? <==> Governed(View(), asid, PageOf(page))
      ensures r.Some? ==>
                var ts := Touching(MappingsOf(View(), asid), PageOf(page));
                r.value == ((asid, PageOf(page)) in resident, ts[|ts| - 1].perm)
    {
      hide PageOf, Touching;
      if asid !in spaces {
        TouchingNothing(PageOf(page));
        return None;
      }
      var ms, at := spaces[asid].mappings, PageOf(page);
      var i := |ms|;
      assert ms[..i] == ms;
      while i > 0
        invariant 0 <= i <= |ms|
        invariant Touching(ms, at) == Touching(ms[..i], at)
      {
        i := i - 1;
        assert ms[..i + 1] == ms[..i] + [ms[i]];
        TouchingMore(ms[..i], ms[i], at);
        if ms[i].Has(at) {
          return Some(((asid, at) in resident, ms[i].perm));
        }
      }
      TouchingNothing(at);
      return None;
    }

    /** The governed pages of a range that are not resident, in order. */
    method NonresidentPages(asid: nat, start: nat, len: nat) returns (pages: seq<nat>)
      ensures forall p: nat :: p in pages <==> Nonresident(View(), asid, start, p) && p < SaturatingAdd(start, len)
      ensures forall i, j :: 0 <= i < j < |pages| ==> pages[i] < pages[j]
    {
      hide Nonresident, PageOf, Aligned;
      pages := [];
      var end := SaturatingAdd(start, len);
      if asid !in spaces {
        NoneNonresident(View(), asid, start);
        return;
      }
      var page := PageOf(start);
      FirstPage(View(), asid, start);
      while page < end
        invariant Aligned(page) || page >= end
        invariant page < end ==> PageOf(start) <= page
        invariant forall p: nat :: p in pages <==> Nonresident(View(), asid, start, p) && p < Min(page, end)
        invariant forall i :: 0 <= i < |pages| ==> pages[i] < page
        invariant forall i, j :: 0 <= i < j < |pages| ==> pages[i] < pages[j]
        decreases if page < end then end - page else 0
      {
        NextNonresident(View(), asid, start, page);
        var next := SaturatingAdd(page, PAGE_SIZE);
        if (asid, page) !in resident && exists m :: m in spaces[asid].mappings && m.Has(page) {
          pages := pages + [page];
        }
        page := next;
      }
    }

    method MarkResident(asid: nat, page: nat)
      modifies this
      ensures View() == MarkedResident(old(View()), asid, page)
    {
      resident := resident + {(asid, PageOf(page))};
    }

    /** The page a fault is about, and the mappings that touch it. */
    method Target(asid: nat, address: nat, access: AccessKind) returns (r: Option<nat>, touching: seq<FileMapping>)
      requires Consistent(View())
      ensures r == FaultPage(View(), asid, address, access)
      ensures r.Some? ==> asid in spaces && touching == Touching(MappingsOf(View(), asid), r.value)
    {
      hide AllWellFormed, WellFormed, Layout;
      var page := PageOf(address);
      if asid !in spaces {
        return None, [];
      }
      touching := FilterTouching(spaces[asid].mappings, page);
      if touching == [] {
        return None, [];
      }
      if (asid, page) !in resident {
        return Some(page), touching;
      }
      if access !in touching[|touching| - 1].perm {
        return None, [];
      }
      page := SaturatingAdd(page, PAGE_SIZE);
      touching := FilterTouching(spaces[asid].mappings, page);
      if touching == [] || access !in touching[|touching| - 1].perm || (asid, page) in resident {
        return None, [];
      }
      return Some(page), touching;
    }

    method Resolve(vfs: ChunkStore, asid: nat, address: nat, access: AccessKind) returns (r: Resolution)
      requires Consistent(View())
      modifies this
      ensures (View(), r) == old(Resolved(View(), vfs.chunks, asid, address, access))
    {
      hide BuildPage, AllWellFormed, WellFormed, Layout, FaultPage;
      var target, touching := Target(asid, address, access);
      if target.None? {
        return NotLazy;
      }
      var page := target.value;
      TouchingLayouts(View(), asid, page);
      var building := FillPage(touching, vfs, page);
      match building
      case Built(bytes) =>
        r := ReadyPage(page, bytes, touching[|touching| - 1].perm);
      case Refused =>
        r := InvalidPage;
      case Stopped(hash) =>
        if pending.Some? {
          if SameRequest(View(), pending.value, asid, page, hash) {
            return MissingPage(pending.value);
          }
          return InvalidPage;
        }
        nextTicket := Bump(nextTicket);
        var request := PageRequest(nextTicket, hash, asid, spaces[asid].generation, page, access);
        pending := Some(request);
        r := MissingPage(request);
    }

    method Complete(vfs: ChunkStore, ticket: nat, bytes: seq<byte>, capacity: nat) returns (ok: bool)
      modifies this, vfs
      ensures (View(), vfs.View()) == old(Completed(View(), vfs.View(), vfs.digest, ticket, bytes, capacity))
      ensures ok <==> old(Accepts(View(), vfs.View(), vfs.digest, ticket, bytes, capacity))
    {
      if pending.None? {
        return false;
      }
      var request := pending.value;
      if request.ticket != ticket {
        return false;
      }
      var current := request.asid in spaces && spaces[request.asid].generation == request.generation;
      if current {
        var touching := FilterTouching(spaces[request.asid].mappings, request.page);
        current := touching != [];
      }
      if !current {
        pending := None;
        return false;
      }
      ok := vfs.PutChunk(request.hash, bytes, capacity);
      if ok {
        pending := None;
      }
    }

    method Unmap(asid: nat, start: nat, len: nat)
      modifies this
      ensures View() == UnmappedSpace(old(View()), asid, start, len)
    {
      hide Unmapped;
      if start + len >= U64_LIMIT {
        DropSpace(asid);
        return;
      }
      if asid !in spaces {
        return;
      }
      var end := start + len;
      var kept := KeepOutside(spaces[asid].mappings, start, end);
      spaces := spaces[asid := AddressSpace(Bump(spaces[asid].generation), kept)];
      resident := set p | p in resident && !(p.0 == asid && start <= p.1 < end);
    }

    method Protect(asid: nat, start: nat, len: nat, perm: Perm)
      modifies this
      ensures View() == ProtectedSpace(old(View()), asid, start, len, perm)
    {
      hide Protected;
      if start + len >= U64_LIMIT || asid !in spaces {
        return;
      }
      var split := Recolour(spaces[asid].mappings, start, start + len, perm);
      spaces := spaces[asid := AddressSpace(Bump(spaces[asid].generation), split)];
    }

    method Remap(asid: nat, oldStart: nat, oldLen: nat, newStart: nat, newLen: nat)
      requires Consistent(View()) && newStart + newLen < U64_LIMIT
      modifies this
      ensures View() == RemappedSpace(old(View()), asid, oldStart, oldLen, newStart, newLen)
    {
      hide TailSource, Unmapped, Moved, Tail, WellFormed, Clipped;
      if asid !in spaces {
        return;
      }
      var oldEnd := SaturatingAdd(oldStart, oldLen);
      var copyEnd := SaturatingAdd(oldStart, Min(oldLen, newLen));
      var ms := spaces[asid].mappings;
      var source := if newLen > oldLen then TailSource(ms, oldEnd) else None;
      var kept, moved := Partition(ms, oldStart, oldEnd, copyEnd, newStart);
      if source.Some? {
        moved := moved + Tail(source.value, oldEnd, newStart + oldLen, newStart + newLen);
      }
      assert kept + moved == Remapped(ms, oldStart, oldLen, newStart, newLen);
      spaces := spaces[asid := AddressSpace(Bump(spaces[asid].generation), kept + moved)];
      var oldResident := set p | p in resident && p.0 == asid && oldStart <= p.1 < copyEnd :: (asid, newStart + (p.1 - oldStart));
      resident := (set p | p in resident && !(p.0 == asid && oldStart <= p.1 < oldEnd)) + oldResident;
    }

    method ForkSpace(parent: nat, child: nat)
      modifies this
      ensures View() == Forked(old(View()), parent, child)
    {
      if parent in spaces {
        spaces := spaces[child := spaces[parent]];
        resident := resident + set p | p in resident && p.0 == parent :: (child, p.1);
      }
    }

    method DropSpace(asid: nat)
      modifies this
      ensures View() == Dropped(old(View()), asid)
    {
      spaces := spaces - {asid};
      resident := set p | p in resident && p.0 != asid;
    }
  }

  lemma TouchingNothing(page: nat)
    ensures Touching([], page) == []
  {
  }

  lemma NoneNonresident(p: PagerState, asid: nat, start: nat)
    requires asid !in p.spaces
    ensures forall page: nat :: !Nonresident(p, asid, start, page)
  {
    forall page: nat ensures !Nonresident(p, asid, start, page) {
      TouchingNothing(page);
    }
  }

  lemma FirstPage(p: PagerState, asid: nat, start: nat)
    ensures Aligned(PageOf(start)) && forall page: nat :: Nonresident(p, asid, start, page) ==> PageOf(start) <= page
  {
  }

  /** One page on: the page itself is decided, and the next that may be nonresident is a page away. */
  lemma NextNonresident(p: PagerState, asid: nat, start: nat, page: nat)
    requires asid in p.spaces && Aligned(page) && PageOf(start) <= page
    ensures Nonresident(p, asid, start, page) <==>
            (asid, page) !in p.resident && exists m :: m in p.spaces[asid].mappings && m.Has(page)
    ensures Aligned(page + PAGE_SIZE)
    ensures forall next: nat :: Nonresident(p, asid, start, next) && page < next ==> page + PAGE_SIZE <= next
  {
    hide Touching;
    TouchedBySome(p.spaces[asid].mappings, page);
  }

  lemma TouchedBySome(ms: seq<FileMapping>, page: nat)
    ensures Touching(ms, page) != [] <==> exists m :: m in ms && m.Has(page)
  {
    if m :| m in ms && m.Has(page) {
      assert m in Touching(ms, page);
    }
    if Touching(ms, page) != [] {
      assert Touching(ms, page)[0] in Touching(ms, page);
    }
  }

  /** Cuts a range out of a table. */
  method KeepOutside(ms: seq<FileMapping>, start: nat, end: nat) returns (kept: seq<FileMapping>)
    ensures kept == Unmapped(ms, start, end)
  {
    hide Clipped, Unmapped, Parts;
    kept := [];
    UnmappedGrows(ms, start, end, 0);
    for i := 0 to |ms|
      invariant kept == Unmapped(ms[..i], start, end)
    {
      UnmappedGrows(ms, start, end, i);
      var m := ms[i];
      if m.end <= start || m.start >= end {
        kept := kept + [m];
        continue;
      }
      kept := kept + (Parts(Clipped(m, m.start, start)) + Parts(Clipped(m, end, m.end)));
    }
    assert ms[..|ms|] == ms;
  }

  lemma UnmappedGrows(ms: seq<FileMapping>, start: nat, end: nat, i: nat)
    requires i <= |ms|
    ensures Unmapped(ms[..0], start, end) == []
    ensures i < |ms| ==> Unmapped(ms[..i + 1], start, end) == Unmapped(ms[..i], start, end) + UnmapOne(ms[i], start, end)
  {
    hide UnmapOne;
    if i < |ms| {
      assert ms[..i + 1][..i] == ms[..i];
    }
  }

  /** Splits the mappings of a table at a range and gives the parts inside it a new permission. */
  method Recolour(ms: seq<FileMapping>, start: nat, end: nat, perm: Perm) returns (split: seq<FileMapping>)
    ensures split == Protected(ms, start, end, perm)
  {
    hide Clipped, Protected, Parts;
    split := [];
    ProtectedGrows(ms, start, end, perm, 0);
    for i := 0 to |ms|
      invariant split == Protected(ms[..i], start, end, perm)
    {
      ProtectedGrows(ms, start, end, perm, i);
      var m := ms[i];
      if m.end <= start || m.start >= end {
        split := split + [m];
        continue;
      }
      var middle := Clipped(m, start, end);
      var part := if middle.Some? then [middle.value.(perm := perm)] else [];
      split := split + (Parts(Clipped(m, m.start, start)) + part + Parts(Clipped(m, end, m.end)));
    }
    assert ms[..|ms|] == ms;
  }

  lemma ProtectedGrows(ms: seq<FileMapping>, start: nat, end: nat, perm: Perm, i: nat)
    requires i <= |ms|
    ensures Protected(ms[..0], start, end, perm) == []
    ensures i < |ms| ==> Protected(ms[..i + 1], start, end, perm) == Protected(ms[..i], start, end, perm) + ProtectOne(ms[i], start, end, perm)
  {
    hide ProtectOne;
    if i < |ms| {
      assert ms[..i + 1][..i] == ms[..i];
    }
  }

  /** Splits a table at a range: what stays, and what moves with the range. */
  method Partition(ms: seq<FileMapping>, oldStart: nat, oldEnd: nat, copyEnd: nat, newStart: nat)
      returns (kept: seq<FileMapping>, moved: seq<FileMapping>)
    requires copyEnd <= oldEnd
    ensures kept == Unmapped(ms, oldStart, oldEnd)
    ensures moved == Moved(ms, oldStart, copyEnd, newStart)
  {
    hide Unmapped, Parts;
    kept, moved := [], [];
    UnmappedGrows(ms, oldStart, oldEnd, 0);
    for i := 0 to |ms|
      invariant kept == Unmapped(ms[..i], oldStart, oldEnd)
      invariant moved == Moved(ms[..i], oldStart, copyEnd, newStart)
    {
      UnmappedGrows(ms, oldStart, oldEnd, i);
      assert ms[..i + 1][..i] == ms[..i];
      var m := ms[i];
      if m.end <= oldStart || m.start >= oldEnd {
        assert MovedOne(m, oldStart, copyEnd, newStart) == [];
        kept := kept + [m];
        continue;
      }
      kept := kept + (Parts(Clipped(m, m.start, oldStart)) + Parts(Clipped(m, oldEnd, m.end)));
      var part := Clipped(m, oldStart, copyEnd);
      if part.Some? {
        moved := moved + [Shifted(part.value, oldStart, newStart)];
      }
    }
    assert ms[..|ms|] == ms;
  }

  method FilterTouching(ms: seq<FileMapping>, page: nat) returns (r: seq<FileMapping>)
    ensures r == Touching(ms, page)
  {
    r := [];
    for i := 0 to |ms|
      invariant r == Touching(ms[..i], page)
    {
      assert ms[..i + 1][..i] == ms[..i];
      if ms[i].Has(page) {
        r := r + [ms[i]];
      }
    }
    assert ms[..|ms|] == ms;
  }

  /** Builds the page in one buffer, mapping by mapping. */
  method FillPage(ts: seq<FileMapping>, vfs: ChunkStore, page: nat) returns (r: Building)
    requires ts != [] && forall m :: m in ts ==> Layout(m.file) && m.file.size < U64_LIMIT
    ensures r == BuildPage(ts, vfs.chunks, page)
  {
    hide Layout, ApplyMapping;
    ghost var store := vfs.chunks;
    var buffer := new byte[PAGE_SIZE](i => ts[0].fill);
    for k := 0 to |ts|
      invariant vfs.chunks == store
      invariant if k == 0 then buffer[..] == Filled(ts[0].fill) else BuildPage(ts[..k], store, page) == Built(buffer[..])
    {
      ghost var done := ts[..k + 1];
      assert done[..k] == ts[..k] && done[k] == ts[k];
      assert BuildPage(done, store, page) == ApplyMapping(ts[k], store, page, buffer[..]);
      var applied := ApplyInPlace(ts[k], buffer, vfs, page);
      if !applied.Built? {
        BuildStops(ts, store, page, k + 1);
        return applied;
      }
    }
    assert ts[..|ts|] == ts;
    r := Built(buffer[..]);
  }

  method ApplyInPlace(m: FileMapping, buffer: array<byte>, vfs: ChunkStore, page: nat) returns (r: Building)
    requires buffer.Length == PAGE_SIZE && Layout(m.file) && m.file.size < U64_LIMIT
    modifies buffer
    ensures r == ApplyMapping(m, vfs.chunks, page, old(buffer[..]))
    ensures r.Built? ==> r.bytes == buffer[..]
  {
    hide Layout, Read, Overwrite, Zeros;
    ZeroRange(buffer, Max(m.DataEnd(), page) - page, Min(m.end, page + PAGE_SIZE) - page);
    assert buffer[..] == Zeroed(m, page, old(buffer[..]));
    var from, to := Max(page, m.dataStart), Min(page + PAGE_SIZE, m.DataEnd());
    if from < to {
      var got := vfs.ReadFrom(m.file, m.fileOffset + (from - m.dataStart), to - from);
      match got
      case Missing(hash) => return Stopped(hash);
      case Invalid => return Refused;
      case Ready(part) =>
        if |part| != to - from {
          return Refused;
        }
        CopyInto(buffer, from - page, part);
    }
    r := Built(buffer[..]);
  }

  method ZeroRange(buffer: array<byte>, from: int, to: int)
    requires 0 <= from && to <= buffer.Length
    modifies buffer
    ensures buffer[..] == if from < to then Overwrite(old(buffer[..]), from, Zeros(to - from)) else old(buffer[..])
  {
    forall i | from <= i < to {
      buffer[i] := 0;
    }
  }

  method CopyInto(buffer: array<byte>, at: nat, part: seq<byte>)
    requires at + |part| <= buffer.Length
    modifies buffer
    ensures buffer[..] == Overwrite(old(buffer[..]), at, part)
  {
    forall i | 0 <= i < |part| {
      buffer[at + i] := part[i];
    }
  }

  /** The first mapping that cannot be applied decides the page. */
  lemma {:induction false} BuildStops(ts: seq<FileMapping>, store: Catalog, page: nat, k: nat)
    requires 0 < k <= |ts| && forall m :: m in ts ==> Layout(m.file)
    requires forall m :: m in ts[..k] ==> Layout(m.file)
    requires !BuildPage(ts[..k], store, page).Built?
    ensures BuildPage(ts, store, page) == BuildPage(ts[..k], store, page)
  {
    if k == |ts| {
      assert ts[..k] == ts;
    } else {
      var n := |ts| - 1;
      assert ts[..n][..k] == ts[..k];
      BuildStops(ts[..n], store, page, k);
    }
  }
}

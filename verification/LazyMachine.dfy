/** Demand paging as a machine. Guest edits, guest writes, page faults and chunk arrivals
    interleave in any order; the memory the guest can observe is at every moment that of
    an eager machine that ran only the guest's own operations, as long as the pager's table
    and the hardware hear the same of every edit. They do not for an edit that reaches the end
    of the address space. */
module LazyMachine {
  import opened Base
  import opened Chunks
  import opened Mappings
  import opened DemandPager

  /** A page the hardware holds. */
  datatype Frame = Frame(bytes: seq<byte>, perm: Perm)

  datatype Machine = Machine(
    pager: PagerState,
    store: Store,
    frames: map<(nat, nat), Frame>,
    live: set<nat>,
    nextAsid: nat)
  {
    predicate Waiting() {
      pager.pending.Some?
    }
  }

  datatype Op =
    | MapFile(asid: nat, mapping: FileMapping)
    | UnmapRange(asid: nat, start: nat, len: nat)
    | ProtectRange(asid: nat, start: nat, len: nat, perm: Perm)
    | RemapRange(asid: nat, oldStart: nat, oldLen: nat, newStart: nat, newLen: nat)
    | Fork(parent: nat, child: nat)
    | Exec(asid: nat, next: nat)
    | GuestWrite(asid: nat, address: nat, value: byte)
    | Fault(asid: nat, address: nat, access: AccessKind)
    | Deliver(ticket: nat, bytes: seq<byte>, capacity: nat)
    | Preload(hash: Hash, bytes: seq<byte>, capacity: nat)

  /** The chunk contents of the image, and the digest that names them. */
  datatype Image = Image(truth: Catalog, digest: seq<byte> -> Hash)

  // ------------------------------------------------------- the eager machine

  /** Memory of every address space, fully loaded. */
  type Memory = (nat, nat) -> Option<Cell>

  /** The range of an edit has the address; one that overflows the address space has none. */
  predicate Hits(start: nat, len: nat, a: nat) {
    start <= a < start + len <= U64_LIMIT
  }

  ghost function Written(c: Option<Cell>, value: byte): Option<Cell> {
    if c.Some? && WriteAccess in c.value.perm then Some(c.value.(value := value)) else c
  }

  /** What one operation does to one byte of eager memory. Faults and arrivals do nothing. */
  ghost function EagerStep(truth: Catalog, mem: Memory, op: Op, x: nat, a: nat): Option<Cell> {
    match op
    case MapFile(asid, m) => if x == asid then Load(m, truth, a, mem(x, a)) else mem(x, a)
    case UnmapRange(asid, start, len) =>
      if x == asid && Hits(start, len, a) then None else mem(x, a)
    case ProtectRange(asid, start, len, perm) =>
      if x == asid && Hits(start, len, a) then WithPerm(mem(x, a), perm) else mem(x, a)
    case RemapRange(asid, oldStart, oldLen, newStart, newLen) =>
      if x == asid
      then Relocated(b => if b >= 0 then mem(x, b) else None, truth, oldStart, oldLen, newStart, newLen, a)
      else mem(x, a)
    case Fork(parent, child) => if x == child then mem(parent, a) else mem(x, a)
    case Exec(asid, _) => if x == asid then None else mem(x, a)
    case GuestWrite(asid, address, value) =>
      if x == asid && a == address then Written(mem(x, a), value) else mem(x, a)
    case Fault(_, _, _) => mem(x, a)
    case Deliver(_, _, _) => mem(x, a)
    case Preload(_, _, _) => mem(x, a)
  }

  ghost function EagerRun(truth: Catalog, ops: seq<Op>): Memory {
    if ops == [] then (x, a) => None
    else
      var mem, op := EagerRun(truth, ops[..|ops| - 1]), ops[|ops| - 1];
      (x: nat, a: nat) => EagerStep(truth, mem, op, x, a)
  }

  // -------------------------------------------------------- the lazy machine

  function Initial(store: Store): Machine {
    Machine(PagerState(map[], {}, None, 0), store, map[], {0}, 1)
  }

  ghost predicate NoFrame(frames: map<(nat, nat), Frame>, asid: nat, start: nat, end: nat) {
    forall page :: start <= page < end ==> (asid, page) !in frames
  }

  /** When an operation can happen. Edits are page aligned; a new mapping and the target of
      a move are free of pages the hardware holds, which is how the allocator chooses them; new
      address-space ids come from a counter; a write reaches only a resident page. */
  ghost predicate Enabled(image: Image, s: Machine, op: Op) {
    match op
    case MapFile(asid, m) =>
      asid in s.live && WellFormed(m) && Complete(m.file, image.truth) && NoFrame(s.frames, asid, m.start, m.end)
    case UnmapRange(asid, start, len) => asid in s.live && Aligned(start) && Aligned(len)
    case ProtectRange(asid, start, len, _) => asid in s.live && Aligned(start) && Aligned(len)
    case RemapRange(asid, oldStart, oldLen, newStart, newLen) =>
      && asid in s.live && oldLen > 0 && oldStart + oldLen < U64_LIMIT && newStart + newLen < U64_LIMIT
      && Aligned(oldStart) && Aligned(oldLen) && Aligned(newStart) && Aligned(newLen)
      && Vacant(MappingsOf(s.pager, asid), newStart, newStart + newLen)
      && NoFrame(s.frames, asid, newStart, newStart + newLen)
    case Fork(parent, child) => parent in s.live && child == s.nextAsid
    case Exec(asid, next) => asid in s.live && next == s.nextAsid
    case GuestWrite(asid, address, _) =>
      (asid, PageOf(address)) in s.frames && WriteAccess in s.frames[(asid, PageOf(address))].perm
    case Fault(asid, _, _) => asid in s.live
    case Deliver(_, _, _) => true
    case Preload(_, _, _) => true
  }

  function FramesWithout(frames: map<(nat, nat), Frame>, asid: nat, start: nat, len: nat): map<(nat, nat), Frame> {
    map k | k in frames && !(k.0 == asid && Hits(start, len, k.1)) :: frames[k]
  }

  /** The permission the table gives a governed page. */
  function TablePerm(p: PagerState, asid: nat, page: nat): Perm {
    var ts := Touching(MappingsOf(p, asid), page);
    if ts == [] then {} else ts[|ts| - 1].perm
  }

  /** The permission of a page that a move put there: the target is made readable and writable,
      and what the table governs then gets its own permission. */
  function MovedPerm(p: PagerState, asid: nat, page: nat): Perm {
    if Touching(MappingsOf(p, asid), page) == [] then {ReadAccess, WriteAccess} else TablePerm(p, asid, page)
  }

  /** Where the page found at (x, p) after a move was before it. */
  function Origin(op: Op, x: nat, p: nat): Option<(nat, nat)>
    requires op.RemapRange?
  {
    if x == op.asid && Arrived(op, p) then Some((x, op.oldStart + (p - op.newStart)))
    else if x == op.asid && op.oldStart <= p < op.oldStart + op.oldLen then None
    else Some((x, p))
  }

  predicate Arrived(op: Op, p: nat)
    requires op.RemapRange?
  {
    op.newStart <= p < op.newStart + Min(op.oldLen, op.newLen)
  }

  function FramesMoved(frames: map<(nat, nat), Frame>, after: PagerState, op: Op): map<(nat, nat), Frame>
    requires op.RemapRange?
  {
    map k | && k in Outside(frames.Keys, op.asid, op.oldStart, op.oldStart + op.oldLen)
                    + MovedPages(frames.Keys, op.asid, op.oldStart, op.oldStart + Min(op.oldLen, op.newLen), op.newStart)
            && Origin(op, k.0, k.1).Some? && Origin(op, k.0, k.1).value in frames
      :: Frame(frames[Origin(op, k.0, k.1).value].bytes,
               if k.0 == op.asid && Arrived(op, k.1) then MovedPerm(after, k.0, k.1)
               else frames[Origin(op, k.0, k.1).value].perm)
  }

  function MoveStep(s: Machine, op: Op): Machine
    requires op.RemapRange? && AllWellFormed(MappingsOf(s.pager, op.asid)) && op.newStart + op.newLen < U64_LIMIT
  {
    var after := RemappedSpace(s.pager, op.asid, op.oldStart, op.oldLen, op.newStart, op.newLen);
    s.(pager := after, frames := FramesMoved(s.frames, after, op))
  }

  function ForkStep(s: Machine, parent: nat, child: nat): Machine {
    s.(pager := Forked(s.pager, parent, child),
       frames := s.frames + map k | k in ChildKeys(s.frames, parent, child) :: s.frames[(parent, k.1)],
       live := s.live + {child}, nextAsid := s.nextAsid + 1)
  }

  ghost predicate WholeFrames(frames: map<(nat, nat), Frame>) {
    forall k :: k in frames ==> |frames[k].bytes| == PAGE_SIZE
  }

  /** One operation. The hardware unmaps and protects a range that ends with the address space
      and refuses one that overflows it; the pager drops the whole table when told to unmap
      either, and ignores a change of permission. */
  ghost function LazyStep(image: Image, s: Machine, op: Op): Machine
    requires Enabled(image, s, op) && Consistent(s.pager) && WholeFrames(s.frames)
  {
    match op
    case MapFile(asid, m) => s.(pager := Mapped(s.pager, asid, m))
    case UnmapRange(asid, start, len) =>
      s.(pager := UnmappedSpace(s.pager, asid, start, len), frames := FramesWithout(s.frames, asid, start, len))
    case ProtectRange(asid, start, len, perm) =>
      s.(pager := ProtectedSpace(s.pager, asid, start, len, perm),
         frames := map k | k in s.frames ::
                     if k.0 == asid && Hits(start, len, k.1) then s.frames[k].(perm := perm) else s.frames[k])
    case RemapRange(asid, oldStart, oldLen, newStart, newLen) =>
      MoveStep(s, op)
    case Fork(parent, child) =>
      ForkStep(s, parent, child)
    case Exec(asid, next) =>
      s.(pager := Dropped(s.pager, asid), frames := map k | k in s.frames && k.0 != asid :: s.frames[k],
         live := s.live - {asid} + {next}, nextAsid := s.nextAsid + 1)
    case GuestWrite(asid, address, value) =>
      var k := (asid, PageOf(address));
      s.(frames := s.frames[k := s.frames[k].(bytes := s.frames[k].bytes[address % PAGE_SIZE := value])])
    case Fault(asid, address, access) =>
      var (p, r) := Resolved(s.pager, s.store.chunks, asid, address, access);
      if r.ReadyPage? then
        s.(pager := MarkedResident(p, asid, r.page), frames := s.frames[(asid, r.page) := Frame(r.bytes, r.perm)])
      else s.(pager := p)
    case Deliver(ticket, bytes, capacity) =>
      var (p, store) := Completed(s.pager, s.store, image.digest, ticket, bytes, capacity);
      s.(pager := p, store := store)
    case Preload(hash, bytes, capacity) =>
      if Admits(s.store, image.digest, hash, bytes, capacity) then s.(store := Put(s.store, hash, bytes, capacity)) else s
  }

  function ChildKeys(frames: map<(nat, nat), Frame>, parent: nat, child: nat): set<(nat, nat)> {
    set k | k in frames && k.0 == parent :: (child, k.1)
  }

  /** A byte of a page whose table is gone: nothing says which file follows it. */
  function LooseCell(value: byte, perm: Perm): Cell {
    Cell(value, perm, ChunkedFile(0, 0, []), 0)
  }

  /** What the guest would observe at an address: the byte in the frame when the hardware holds
      the page, and the byte a fault would bring in when it does not. */
  ghost function View(image: Image, s: Machine, x: nat, a: nat): Option<Cell> {
    var c := Eager(MappingsOf(s.pager, x), image.truth, a);
    var k := (x, PageOf(a));
    if k in s.frames && |s.frames[k].bytes| == PAGE_SIZE then
      var value, perm := s.frames[k].bytes[a % PAGE_SIZE], s.frames[k].perm;
      Some(if c.Some? then c.value.(value := value, perm := perm) else LooseCell(value, perm))
    else c
  }

  // ------------------------------------------------------------- invariants

  /** A frame the pager knows as resident is governed by a mapping, and one it does not know is
      governed by none. */
  ghost predicate FrameOk(image: Image, s: Machine, k: (nat, nat))
    requires k in s.frames
  {
    Aligned(k.1) && (k in s.pager.resident <==> Eager(MappingsOf(s.pager, k.0), image.truth, k.1).Some?)
  }

  /** A frame has the permission the table gives its page, if it gives it one. */
  ghost predicate FrameInStep(image: Image, s: Machine, k: (nat, nat))
    requires k in s.frames
  {
    var c := Eager(MappingsOf(s.pager, k.0), image.truth, k.1);
    c.Some? ==> s.frames[k].perm == c.value.perm
  }

  ghost predicate InStep(image: Image, s: Machine) {
    forall k :: k in s.frames ==> FrameInStep(image, s, k)
  }

  /** The hardware holds no page that the pager does not know. */
  ghost predicate NoLoose(s: Machine) {
    s.frames.Keys <= s.pager.resident
  }

  ghost predicate SpacesOk(image: Image, s: Machine) {
    && s.pager.spaces.Keys <= s.live && Consistent(s.pager)
    && forall x :: AllWellFormed(MappingsOf(s.pager, x)) && AllComplete(MappingsOf(s.pager, x), image.truth)
  }

  ghost predicate Inv(image: Image, s: Machine) {
    && SpacesOk(image, s)
    && s.pager.resident <= s.frames.Keys && WholeFrames(s.frames)
    && (forall k :: k in s.frames ==> FrameOk(image, s, k))
    && (forall k :: k in s.frames ==> k.0 in s.live)
    && (forall x :: x in s.live ==> x < s.nextAsid)
    && Verified(s.store.chunks, image.digest)
  }

  ghost predicate Sound(image: Image) {
    Binding(image.digest, image.truth)
  }

  ghost function ViewOf(image: Image, s: Machine): Memory {
    (x: nat, a: nat) => View(image, s, x, a)
  }

  // -------------------------------------------------------- page arithmetic

  lemma PageBounds(a: nat)
    ensures PageOf(a) <= a < PageOf(a) + PAGE_SIZE && Aligned(PageOf(a)) && a - PageOf(a) == a % PAGE_SIZE
    ensures Aligned(a) ==> PageOf(a) == a
  {
  }

  /** A page-aligned range holds an address exactly when it holds its page. */
  lemma PageInRange(a: nat, start: nat, end: nat)
    requires Aligned(start) && Aligned(end)
    ensures start <= PageOf(a) < end <==> start <= a < end
  {
  }

  lemma HitPage(start: nat, len: nat, a: nat)
    requires Aligned(start) && Aligned(len)
    ensures Hits(start, len, PageOf(a)) <==> Hits(start, len, a)
  {
    AlignedSum(start, len);
    PageInRange(a, start, start + len);
  }

  lemma PageShift(a: nat, from: nat, to: nat)
    requires Aligned(from) && Aligned(to) && to <= a
    ensures to <= PageOf(a) && PageOf(from + (a - to)) == from + (PageOf(a) - to)
    ensures (from + (a - to)) % PAGE_SIZE == a % PAGE_SIZE
    ensures Aligned(a) ==> Aligned(from + (a - to))
  {
  }

  /** Presence and permission are uniform over a page. */
  lemma PageUniform(ms: seq<FileMapping>, truth: Catalog, page: nat, a: nat)
    requires AllWellFormed(ms) && AllComplete(ms, truth) && Aligned(page) && page <= a < page + PAGE_SIZE
    ensures Eager(ms, truth, page).Some? <==> Eager(ms, truth, a).Some?
    ensures Eager(ms, truth, page).Some? ==> Eager(ms, truth, page).value.perm == Eager(ms, truth, a).value.perm
    ensures Eager(ms, truth, page).Some? <==> Touching(ms, page) != []
    ensures Touching(ms, page) != [] ==> Eager(ms, truth, page).value.perm == Touching(ms, page)[|Touching(ms, page)| - 1].perm
  {
    hide Eager, Touching, AllComplete, AllWellFormed;
    BuildIsEager(ms, map[], truth, page, page);
    BuildIsEager(ms, map[], truth, page, a);
  }

  // ------------------------------------------------------------ single steps

  /** The step keeps what runs keep, whatever the operation. */
  ghost predicate Holds(image: Image, s: Machine, s': Machine) {
    Inv(image, s') && (InStep(image, s) ==> InStep(image, s')) && (NoLoose(s) ==> NoLoose(s'))
  }

  ghost predicate Steps(image: Image, s: Machine, op: Op, s': Machine) {
    && Holds(image, s, s')
    && forall x: nat, a: nat :: View(image, s', x, a) == EagerStep(image.truth, ViewOf(image, s), op, x, a)
  }

  /** Replacing one address space's table keeps the tables in order. */
  lemma EditSpaces(image: Image, s: Machine, s': Machine, asid: nat, ms: seq<FileMapping>)
    requires SpacesOk(image, s) && asid in s.live && s'.live == s.live
    requires s'.pager.spaces == WithMappings(s.pager, asid, ms).spaces
    requires AllWellFormed(ms) && AllComplete(ms, image.truth)
    ensures SpacesOk(image, s')
    ensures forall x :: MappingsOf(s'.pager, x) == if x == asid then ms else MappingsOf(s.pager, x)
  {
    hide AllWellFormed, AllComplete;
    forall x: nat
      ensures MappingsOf(s'.pager, x) == if x == asid then ms else MappingsOf(s.pager, x)
    {
    }
  }

  lemma AppendMapping(ms: seq<FileMapping>, m: FileMapping, truth: Catalog)
    requires AllWellFormed(ms) && AllComplete(ms, truth) && WellFormed(m) && Complete(m.file, truth)
    ensures AllWellFormed(ms + [m]) && AllComplete(ms + [m], truth)
    ensures forall a: nat :: Eager(ms + [m], truth, a) == Load(m, truth, a, Eager(ms, truth, a))
  {
    hide WellFormed, Complete, Load;
    assert (ms + [m])[..|ms|] == ms;
  }

  lemma MapSteps(image: Image, s: Machine, asid: nat, m: FileMapping)
    requires Inv(image, s) && Enabled(image, s, MapFile(asid, m))
    ensures Steps(image, s, MapFile(asid, m), LazyStep(image, s, MapFile(asid, m)))
  {
    hide Aligned, PageOf, WellFormed, Complete, LoadedValue, FileByte, TailOffset, AllWellFormed, AllComplete, Eager;
    var s' := LazyStep(image, s, MapFile(asid, m));
    var ms := MappingsOf(s.pager, asid);
    AppendMapping(ms, m, image.truth);
    EditSpaces(image, s, s', asid, ms + [m]);
    forall x: nat, a: nat
      ensures View(image, s', x, a) == EagerStep(image.truth, ViewOf(image, s), MapFile(asid, m), x, a)
    {
      if x == asid && m.Has(a) {
        MappingHasPage(m, a);
        assert (asid, PageOf(a)) !in s.frames;
      }
    }
    forall k | k in s'.frames
      ensures FrameOk(image, s', k) && (InStep(image, s) ==> FrameInStep(image, s', k))
    {
      assert FrameOk(image, s, k) && (InStep(image, s) ==> FrameInStep(image, s, k));
      assert k == (k.0, k.1);
      assert k.0 == asid ==> !m.Has(k.1);
    }
  }

  lemma MappingHasPage(m: FileMapping, a: nat)
    requires WellFormed(m)
    ensures m.Has(a) <==> m.Has(PageOf(a))
  {
  }

  /** The tables after an unmap: in order, and showing the range empty. */
  lemma TablesAfterUnmap(image: Image, s: Machine, asid: nat, start: nat, len: nat)
    requires Inv(image, s) && Enabled(image, s, UnmapRange(asid, start, len)) && start + len < U64_LIMIT
    ensures var s' := LazyStep(image, s, UnmapRange(asid, start, len));
            && SpacesOk(image, s') && s'.pager.resident == Outside(s.pager.resident, asid, start, start + len)
            && forall x: nat, a: nat :: Eager(MappingsOf(s'.pager, x), image.truth, a) ==
                 if x == asid && start <= a < start + len then None else Eager(MappingsOf(s.pager, x), image.truth, a)
  {
    hide Aligned, PageOf, AllWellFormed, AllComplete, Eager, Unmapped;
    var s', end := LazyStep(image, s, UnmapRange(asid, start, len)), start + len;
    var ms := MappingsOf(s.pager, asid);
    AlignedSum(start, len);
    UnmapKeepsWellFormed(ms, start, end);
    UnmapKeepsComplete(ms, image.truth, start, end);
    if asid in s.pager.spaces {
      EditSpaces(image, s, s', asid, Unmapped(ms, start, end));
    } else {
      assert Unmapped(ms, start, end) == [] by { EmptyUnmapped(start, end); }
      ResidentOnlyGoverned(image, s, asid);
      assert Outside(s.pager.resident, asid, start, end) == s.pager.resident;
    }
    forall a: nat
      ensures Eager(MappingsOf(s'.pager, asid), image.truth, a) == if start <= a < end then None else Eager(ms, image.truth, a)
    {
      UnmapView(ms, image.truth, start, end, a);
    }
  }

  lemma UnmapSteps(image: Image, s: Machine, asid: nat, start: nat, len: nat)
    requires Inv(image, s) && Enabled(image, s, UnmapRange(asid, start, len)) && start + len < U64_LIMIT
    ensures Steps(image, s, UnmapRange(asid, start, len), LazyStep(image, s, UnmapRange(asid, start, len)))
  {
    hide Aligned, PageOf, AllWellFormed, AllComplete, Eager, UnmappedSpace, MappingsOf;
    var op := UnmapRange(asid, start, len);
    var s' := LazyStep(image, s, op);
    TablesAfterUnmap(image, s, asid, start, len);
    forall x: nat, a: nat
      ensures View(image, s', x, a) == EagerStep(image.truth, ViewOf(image, s), op, x, a)
    {
      HitPage(start, len, a);
    }
    forall k | k in s'.frames
      ensures FrameOk(image, s', k) && (InStep(image, s) ==> FrameInStep(image, s', k))
    {
      assert FrameOk(image, s, k) && (InStep(image, s) ==> FrameInStep(image, s, k));
    }
  }

  lemma EmptyUnmapped(start: nat, end: nat)
    ensures Unmapped([], start, end) == []
  {
  }

  /** An address space without a table has no resident pages. */
  lemma ResidentOnlyGoverned(image: Image, s: Machine, asid: nat)
    requires Inv(image, s)
    ensures asid !in s.pager.spaces ==> forall k :: k in s.pager.resident ==> k.0 != asid
  {
    if asid !in s.pager.spaces {
      forall k | k in s.pager.resident
        ensures k.0 != asid
      {
        assert FrameOk(image, s, k);
      }
    }
  }

  /** Dropping an address space empties it and touches no other. */
  lemma DropSteps(image: Image, s: Machine, s': Machine, asid: nat)
    requires Inv(image, s)
    requires s'.pager == Dropped(s.pager, asid) && s'.store == s.store
    requires s'.frames == map k | k in s.frames && k.0 != asid :: s.frames[k]
    requires s'.live >= s.live - {asid} && forall x :: x in s'.live ==> x < s'.nextAsid
    ensures Holds(image, s, s')
    ensures forall x: nat, a: nat :: View(image, s', x, a) == if x == asid then None else View(image, s, x, a)
  {
    hide Aligned, PageOf, AllWellFormed, AllComplete;
    forall x: nat
      ensures MappingsOf(s'.pager, x) == if x == asid then [] else MappingsOf(s.pager, x)
    {
    }
    assert AllWellFormed([]) && AllComplete([], image.truth) by { NothingMapped(image.truth); }
    forall k | k in s'.frames
      ensures FrameOk(image, s', k) && (InStep(image, s) ==> FrameInStep(image, s', k))
    {
      assert FrameOk(image, s, k) && (InStep(image, s) ==> FrameInStep(image, s, k));
    }
  }

  lemma NothingMapped(truth: Catalog)
    ensures AllWellFormed([]) && AllComplete([], truth)
  {
  }

  /** The tables after a change of permission are in order. */
  lemma TablesAfterProtect(image: Image, s: Machine, asid: nat, start: nat, len: nat, perm: Perm)
    requires Inv(image, s) && Enabled(image, s, ProtectRange(asid, start, len, perm)) && start + len != U64_LIMIT
    ensures var s' := LazyStep(image, s, ProtectRange(asid, start, len, perm));
            SpacesOk(image, s') && s'.pager.resident == s.pager.resident
  {
    hide Aligned, PageOf, AllWellFormed, AllComplete, Eager, Protected;
    var s', end := LazyStep(image, s, ProtectRange(asid, start, len, perm)), start + len;
    var ms := MappingsOf(s.pager, asid);
    AlignedSum(start, len);
    ProtectKeepsWellFormed(ms, start, end, perm);
    ProtectKeepsComplete(ms, image.truth, start, end, perm);
    if asid in s.pager.spaces && end < U64_LIMIT {
      EditSpaces(image, s, s', asid, Protected(ms, start, end, perm));
    }
  }

  lemma ProtectedByte(image: Image, s: Machine, asid: nat, start: nat, len: nat, perm: Perm, x: nat, a: nat)
    requires Inv(image, s) && Enabled(image, s, ProtectRange(asid, start, len, perm)) && start + len != U64_LIMIT
    ensures var s' := LazyStep(image, s, ProtectRange(asid, start, len, perm));
            Eager(MappingsOf(s'.pager, x), image.truth, a) ==
            if x == asid && Hits(start, len, a) then WithPerm(Eager(MappingsOf(s.pager, x), image.truth, a), perm)
            else Eager(MappingsOf(s.pager, x), image.truth, a)
  {
    hide Aligned, PageOf, AllWellFormed, AllComplete, Eager, Protected, FrameOk;
    EmptyEager(image.truth);
    if x == asid && start + len < U64_LIMIT {
      ProtectView(MappingsOf(s.pager, x), image.truth, start, start + len, perm, a);
    }
  }

  lemma ProtectSteps(image: Image, s: Machine, asid: nat, start: nat, len: nat, perm: Perm)
    requires Inv(image, s) && Enabled(image, s, ProtectRange(asid, start, len, perm)) && start + len != U64_LIMIT
    ensures Steps(image, s, ProtectRange(asid, start, len, perm), LazyStep(image, s, ProtectRange(asid, start, len, perm)))
  {
    hide Aligned, PageOf, AllWellFormed, AllComplete, Eager, ProtectedSpace, MappingsOf;
    var op := ProtectRange(asid, start, len, perm);
    var s' := LazyStep(image, s, op);
    TablesAfterProtect(image, s, asid, start, len, perm);
    forall x: nat, a: nat
      ensures View(image, s', x, a) == EagerStep(image.truth, ViewOf(image, s), op, x, a)
    {
      HitPage(start, len, a);
      ProtectedByte(image, s, asid, start, len, perm, x, a);
    }
    forall k | k in s'.frames
      ensures FrameOk(image, s', k) && (InStep(image, s) ==> FrameInStep(image, s', k))
    {
      assert FrameOk(image, s, k) && (InStep(image, s) ==> FrameInStep(image, s, k));
      ProtectedByte(image, s, asid, start, len, perm, k.0, k.1);
    }
  }

  lemma EmptyEager(truth: Catalog)
    ensures forall a: int :: Eager([], truth, a) == None
  {
  }

  /** The keys kept or moved are exactly those whose origin was a key. */
  lemma KeysAfterMove(keys: set<(nat, nat)>, op: Op, x: nat, p: nat)
    requires op.RemapRange? && (Arrived(op, p) ==> (op.asid, p) !in keys)
    ensures (x, p) in Outside(keys, op.asid, op.oldStart, op.oldStart + op.oldLen)
                      + MovedPages(keys, op.asid, op.oldStart, op.oldStart + Min(op.oldLen, op.newLen), op.newStart)
            <==> Origin(op, x, p).Some? && Origin(op, x, p).value in keys
  {
    if x == op.asid && Arrived(op, p) && Origin(op, x, p).value in keys {
      var k := Origin(op, x, p).value;
      assert (op.asid, op.newStart + (k.1 - op.oldStart)) == (x, p);
    }
  }

  /** The tables after a move: in order, and showing the moved memory. */
  lemma TablesAfterMove(image: Image, s: Machine, op: Op)
    requires op.RemapRange? && Inv(image, s) && Enabled(image, s, op)
    ensures SpacesOk(image, MoveStep(s, op))
    ensures forall x :: x != op.asid ==> MappingsOf(MoveStep(s, op).pager, x) == MappingsOf(s.pager, x)
  {
    hide Aligned, AllWellFormed, AllComplete, Remapped, Vacant, Eager, FramesMoved, FrameOk;
    var s', ms := MoveStep(s, op), MappingsOf(s.pager, op.asid);
    if op.asid in s.pager.spaces {
      RemapKeepsWellFormed(ms, op.oldStart, op.oldLen, op.newStart, op.newLen);
      RemapKeepsComplete(ms, image.truth, op.oldStart, op.oldLen, op.newStart, op.newLen);
      EditSpaces(image, s, s', op.asid, Remapped(ms, op.oldStart, op.oldLen, op.newStart, op.newLen));
    }
  }

  lemma MemoryAfterMove(image: Image, s: Machine, op: Op, a: nat)
    requires op.RemapRange? && Inv(image, s) && Enabled(image, s, op)
    ensures Eager(MappingsOf(MoveStep(s, op).pager, op.asid), image.truth, a) ==
            Relocated(b => Eager(MappingsOf(s.pager, op.asid), image.truth, b), image.truth,
                      op.oldStart, op.oldLen, op.newStart, op.newLen, a)
  {
    hide Aligned, AllWellFormed, AllComplete, Remapped, Vacant, Eager, FramesMoved, FrameOk;
    if op.asid in s.pager.spaces {
      RemapView(MappingsOf(s.pager, op.asid), image.truth, op.oldStart, op.oldLen, op.newStart, op.newLen, a);
    } else {
      EmptyEager(image.truth);
    }
  }

  /** A frame after a move holds what its origin held. */
  lemma FramesMovedAt(frames: map<(nat, nat), Frame>, after: PagerState, op: Op, x: nat, p: nat)
    requires op.RemapRange? && (Arrived(op, p) ==> (op.asid, p) !in frames)
    ensures var moved, o := FramesMoved(frames, after, op), Origin(op, x, p);
            && ((x, p) in moved <==> o.Some? && o.value in frames)
            && ((x, p) in moved ==>
                  && moved[(x, p)].bytes == frames[o.value].bytes
                  && moved[(x, p)].perm == if x == op.asid && Arrived(op, p) then MovedPerm(after, x, p) else frames[o.value].perm)
  {
    hide MovedPages, Outside, MovedPerm, Origin, Arrived;
    KeysAfterMove(frames.Keys, op, x, p);
  }

  lemma FrameAfterMove(image: Image, s: Machine, op: Op, x: nat, p: nat)
    requires op.RemapRange? && Inv(image, s) && Enabled(image, s, op)
    ensures var s' := MoveStep(s, op);
            && ((x, p) in s'.frames <==> Origin(op, x, p).Some? && Origin(op, x, p).value in s.frames)
            && ((x, p) in s'.pager.resident <==> Origin(op, x, p).Some? && Origin(op, x, p).value in s.pager.resident)
            && ((x, p) in s'.frames ==>
                  && s'.frames[(x, p)].bytes == s.frames[Origin(op, x, p).value].bytes
                  && s'.frames[(x, p)].perm == if x == op.asid && Arrived(op, p) then MovedPerm(s'.pager, x, p)
                                               else s.frames[Origin(op, x, p).value].perm)
  {
    hide Aligned, AllWellFormed, AllComplete, Eager, Remapped, Vacant, MovedPages, MovedPerm, FrameOk, Outside, Origin, FramesMoved;
    ResidentOnlyGoverned(image, s, op.asid);
    if Arrived(op, p) {
      assert (op.asid, p) !in s.frames;
    }
    KeysAfterMove(s.pager.resident, op, x, p);
    FramesMovedAt(s.frames, MoveStep(s, op).pager, op, x, p);
    if op.asid !in s.pager.spaces {
      OriginElsewhere(op, x, p);
    }
  }

  lemma OriginElsewhere(op: Op, x: nat, p: nat)
    requires op.RemapRange?
    ensures Origin(op, x, p).Some? ==> Origin(op, x, p).value.0 == x
    ensures x != op.asid ==> Origin(op, x, p) == Some((x, p))
  {
  }

  /** A move takes no page that the pager does not know. */
  ghost predicate NoLooseIn(s: Machine, asid: nat, start: nat, end: nat) {
    forall page :: start <= page < end && (asid, page) in s.frames ==> (asid, page) in s.pager.resident
  }

  /** A resident page keeps its permission when it is moved. */
  lemma MovedPermKept(image: Image, s: Machine, op: Op, p: nat)
    requires op.RemapRange? && Inv(image, s) && Enabled(image, s, op) && InStep(image, s) && Arrived(op, p)
    requires Origin(op, op.asid, p).value in s.pager.resident
    ensures (op.asid, p) in MoveStep(s, op).frames
    ensures MoveStep(s, op).frames[(op.asid, p)].perm == s.frames[Origin(op, op.asid, p).value].perm
    ensures var c := Eager(MappingsOf(MoveStep(s, op).pager, op.asid), image.truth, p);
            c.Some? && c.value.perm == s.frames[Origin(op, op.asid, p).value].perm
  {
    hide PageOf, Eager, Vacant, Touching, Continued, Aligned, MoveStep, AllWellFormed, AllComplete;
    var s', o := MoveStep(s, op), Origin(op, op.asid, p).value;
    TablesAfterMove(image, s, op);
    MemoryAfterMove(image, s, op, p);
    FrameAfterMove(image, s, op, op.asid, p);
    assert FrameOk(image, s, o) && FrameInStep(image, s, o);
    PageShift(o.1, op.newStart, op.oldStart);
    PageUniform(MappingsOf(s'.pager, op.asid), image.truth, p, p);
  }

  /** A moved page that the pager does not know keeps its bytes and becomes writable data,
      whatever it was. */
  lemma LooseMoved(image: Image, s: Machine, op: Op, a: nat)
    requires op.RemapRange? && Inv(image, s) && Enabled(image, s, op) && Arrived(op, PageOf(a))
    requires Origin(op, op.asid, PageOf(a)).value in s.frames.Keys - s.pager.resident
    ensures View(image, MoveStep(s, op), op.asid, a) ==
            Some(LooseCell(s.frames[Origin(op, op.asid, PageOf(a)).value].bytes[a % PAGE_SIZE], {ReadAccess, WriteAccess}))
  {
    hide PageOf, Eager, Vacant, Touching, Continued, Aligned, MoveStep, AllWellFormed, AllComplete;
    var s', p := MoveStep(s, op), PageOf(a);
    var o := Origin(op, op.asid, p).value;
    PageBounds(a);
    TablesAfterMove(image, s, op);
    MemoryAfterMove(image, s, op, p);
    FrameAfterMove(image, s, op, op.asid, p);
    assert FrameOk(image, s, o);
    PageUniform(MappingsOf(s'.pager, op.asid), image.truth, p, a);
  }

  lemma RemapByte(image: Image, s: Machine, op: Op, x: nat, a: nat)
    requires op.RemapRange? && Inv(image, s) && Enabled(image, s, op)
    requires InStep(image, s) && NoLooseIn(s, op.asid, op.oldStart, op.oldStart + op.oldLen)
    ensures View(image, MoveStep(s, op), x, a) == EagerStep(image.truth, ViewOf(image, s), op, x, a)
  {
    hide Aligned, PageOf, Eager, Vacant, MovedPerm, FileByte, SpacesOk, FrameOk, InStep, MoveStep, NoLooseIn;
    if x == op.asid {
      AlignedSum(op.newStart, op.newLen);
      PageInRange(a, op.newStart, op.newStart + op.newLen);
      if op.newStart <= a < op.newStart + op.newLen {
        ArrivedByte(image, s, op, a);
      } else {
        LeftByte(image, s, op, a);
      }
    } else {
      TablesAfterMove(image, s, op);
      FrameAfterMove(image, s, op, x, PageOf(a));
    }
  }

  /** A byte of the target: moved there, or continued from what was moved. */
  lemma ArrivedByte(image: Image, s: Machine, op: Op, a: nat)
    requires op.RemapRange? && Inv(image, s) && Enabled(image, s, op) && op.newStart <= a < op.newStart + op.newLen
    requires InStep(image, s) && NoLooseIn(s, op.asid, op.oldStart, op.oldStart + op.oldLen)
    ensures View(image, MoveStep(s, op), op.asid, a) == EagerStep(image.truth, ViewOf(image, s), op, op.asid, a)
  {
    hide Aligned, PageOf, Eager, Vacant, MovedPerm, FileByte, FrameOk, InStep, MoveStep, AllWellFormed, AllComplete;
    MemoryAfterMove(image, s, op, a);
    FrameAfterMove(image, s, op, op.asid, PageOf(a));
    AlignedSum(op.newStart, Min(op.oldLen, op.newLen));
    AlignedSum(op.newStart, op.newLen);
    PageInRange(a, op.newStart, op.newStart + Min(op.oldLen, op.newLen));
    PageInRange(a, op.newStart, op.newStart + op.newLen);
    PageShift(a, op.oldStart, op.newStart);
    assert (op.asid, PageOf(a)) !in s.frames;
    if Arrived(op, PageOf(a)) && Origin(op, op.asid, PageOf(a)).value in s.frames {
      MovedPermKept(image, s, op, PageOf(a));
    } else {
      LastByte(image, s, op);
    }
  }

  /** A byte outside the target: gone from the old range, kept elsewhere. */
  lemma LeftByte(image: Image, s: Machine, op: Op, a: nat)
    requires op.RemapRange? && Inv(image, s) && Enabled(image, s, op) && !(op.newStart <= a < op.newStart + op.newLen)
    ensures View(image, MoveStep(s, op), op.asid, a) == EagerStep(image.truth, ViewOf(image, s), op, op.asid, a)
  {
    hide Aligned, PageOf, Eager, Vacant, MovedPerm, FileByte, FrameOk, MoveStep, AllWellFormed, AllComplete;
    MemoryAfterMove(image, s, op, a);
    FrameAfterMove(image, s, op, op.asid, PageOf(a));
    AlignedSum(op.oldStart, op.oldLen);
    AlignedSum(op.newStart, Min(op.oldLen, op.newLen));
    PageInRange(a, op.newStart, op.newStart + Min(op.oldLen, op.newLen));
    PageInRange(a, op.oldStart, op.oldStart + op.oldLen);
  }

  /** What a move continues is what the table says of the last byte moved. */
  lemma LastByte(image: Image, s: Machine, op: Op)
    requires op.RemapRange? && Inv(image, s) && Enabled(image, s, op)
    requires InStep(image, s) && NoLooseIn(s, op.asid, op.oldStart, op.oldStart + op.oldLen)
    ensures var last := op.oldStart + op.oldLen - 1;
            var c, v := Eager(MappingsOf(s.pager, op.asid), image.truth, last), View(image, s, op.asid, last);
            && (c.Some? <==> v.Some?) && (c.Some? ==> v.value.(value := c.value.value) == c.value)
  {
    hide Aligned, Eager, Vacant, PageOf, AllWellFormed, AllComplete;
    var last := op.oldStart + op.oldLen - 1;
    AlignedSum(op.oldStart, op.oldLen);
    PageInRange(last, op.oldStart, op.oldStart + op.oldLen);
    PageBounds(last);
    var k := (op.asid, PageOf(last));
    if k in s.frames {
      assert FrameOk(image, s, k) && FrameInStep(image, s, k);
      PageUniform(MappingsOf(s.pager, op.asid), image.truth, PageOf(last), last);
    }
  }

  lemma RemapFrame(image: Image, s: Machine, op: Op, k: (nat, nat))
    requires op.RemapRange? && Inv(image, s) && Enabled(image, s, op) && k in MoveStep(s, op).frames
    ensures FrameOk(image, MoveStep(s, op), k) && (InStep(image, s) ==> FrameInStep(image, MoveStep(s, op), k))
    ensures |MoveStep(s, op).frames[k].bytes| == PAGE_SIZE && k.0 in s.live
  {
    hide PageOf, Eager, Vacant, Touching, Continued, Aligned, MoveStep, AllWellFormed, AllComplete;
    var s' := MoveStep(s, op);
    TablesAfterMove(image, s, op);
    MemoryAfterMove(image, s, op, k.1);
    FrameAfterMove(image, s, op, k.0, k.1);
    assert k == (k.0, k.1);
    var before := Origin(op, k.0, k.1).value;
    assert FrameOk(image, s, before) && (InStep(image, s) ==> FrameInStep(image, s, before));
    if k.0 == op.asid && Arrived(op, k.1) {
      PageShift(before.1, op.newStart, op.oldStart);
      if InStep(image, s) && before in s.pager.resident {
        MovedPermKept(image, s, op, k.1);
      }
    }
  }

  /** Whatever it moves, a move keeps the tables and frames in order. */
  lemma RemapHolds(image: Image, s: Machine, op: Op)
    requires op.RemapRange? && Inv(image, s) && Enabled(image, s, op)
    ensures Holds(image, s, MoveStep(s, op))
  {
    hide FrameOk, FrameInStep, View, EagerStep, FramesMoved, RemappedSpace;
    var s' := MoveStep(s, op);
    TablesAfterMove(image, s, op);
    forall k: (nat, nat)
      ensures k in s'.pager.resident ==> k in s'.frames
      ensures k in s'.frames ==> FrameOk(image, s', k) && |s'.frames[k].bytes| == PAGE_SIZE && k.0 in s.live
      ensures k in s'.frames && InStep(image, s) ==> FrameInStep(image, s', k)
      ensures k in s'.frames && NoLoose(s) ==> k in s'.pager.resident
    {
      FrameAfterMove(image, s, op, k.0, k.1);
      if k in s'.frames {
        RemapFrame(image, s, op, k);
      }
    }
  }

  lemma RemapSteps(image: Image, s: Machine, op: Op)
    requires op.RemapRange? && Inv(image, s) && Enabled(image, s, op)
    requires InStep(image, s) && NoLooseIn(s, op.asid, op.oldStart, op.oldStart + op.oldLen)
    ensures Steps(image, s, op, MoveStep(s, op))
  {
    hide FrameOk, InStep, View, EagerStep, MoveStep, NoLooseIn, Vacant, NoFrame, AllComplete;
    RemapHolds(image, s, op);
    forall x: nat, a: nat
      ensures View(image, MoveStep(s, op), x, a) == EagerStep(image.truth, ViewOf(image, s), op, x, a)
    {
      RemapByte(image, s, op, x, a);
    }
  }

  /** A child's frames are its parent's. */
  lemma FrameAfterFork(image: Image, s: Machine, parent: nat, child: nat, x: nat, p: nat)
    requires Inv(image, s) && child !in s.live
    ensures var s', k := ForkStep(s, parent, child), (if x == child then (parent, p) else (x, p));
            && ((x, p) in s'.frames <==> k in s.frames)
            && ((x, p) in s'.pager.resident <==> k in s.pager.resident)
            && ((x, p) in s'.frames ==> s'.frames[(x, p)] == s.frames[k])
  {
    hide FrameOk, SpacesOk, ChildKeys;
    ResidentOnlyGoverned(image, s, parent);
    ChildKeyAt(s.frames, parent, child, p);
    assert forall k :: k in ChildKeys(s.frames, parent, child) ==> k.0 == child by { ChildKeysOnly(s.frames, parent, child); }
    assert (child, p) !in s.frames by { assert (child, p) in s.frames ==> (child, p).0 in s.live; }
    assert (child, p) in ForkStep(s, parent, child).pager.resident <==> (parent, p) in s.pager.resident by {
      ForkedResident(s.pager, parent, child, p);
    }
  }

  lemma ForkedResident(p: PagerState, parent: nat, child: nat, page: nat)
    requires (child, page) !in p.resident
    requires parent !in p.spaces ==> (parent, page) !in p.resident
    ensures (child, page) in Forked(p, parent, child).resident <==> (parent, page) in p.resident
  {
    if parent in p.spaces && (parent, page) in p.resident {
      var k := (parent, page);
      assert (child, k.1) == (child, page);
    }
  }

  lemma ChildKeysOnly(frames: map<(nat, nat), Frame>, parent: nat, child: nat)
    ensures forall k :: k in ChildKeys(frames, parent, child) ==> k.0 == child
  {
  }

  lemma ForkSteps(image: Image, s: Machine, parent: nat, child: nat)
    requires Inv(image, s) && Enabled(image, s, Fork(parent, child))
    ensures Steps(image, s, Fork(parent, child), ForkStep(s, parent, child))
  {
    hide Aligned, PageOf, AllWellFormed, AllComplete, Eager, ChildKeys, MappingsOf, Forked;
    var s' := ForkStep(s, parent, child);
    TablesAfterFork(image, s, parent, child);
    ForkHolds(image, s, parent, child);
    forall x: nat, a: nat
      ensures View(image, s', x, a) == EagerStep(image.truth, ViewOf(image, s), Fork(parent, child), x, a)
    {
      FrameAfterFork(image, s, parent, child, x, PageOf(a));
    }
  }

  lemma TablesAfterFork(image: Image, s: Machine, parent: nat, child: nat)
    requires Inv(image, s) && Enabled(image, s, Fork(parent, child))
    ensures var s' := ForkStep(s, parent, child);
            && SpacesOk(image, s')
            && forall x: nat :: MappingsOf(s'.pager, x) == MappingsOf(s.pager, if x == child then parent else x)
  {
    hide Aligned, PageOf, AllWellFormed, AllComplete, Eager, ChildKeys, FrameOk;
    var s' := ForkStep(s, parent, child);
    forall x: nat
      ensures MappingsOf(s'.pager, x) == MappingsOf(s.pager, if x == child then parent else x)
    {
    }
  }

  lemma ForkHolds(image: Image, s: Machine, parent: nat, child: nat)
    requires Inv(image, s) && Enabled(image, s, Fork(parent, child))
    ensures Holds(image, s, ForkStep(s, parent, child))
  {
    hide Aligned, PageOf, AllWellFormed, AllComplete, Eager, ChildKeys, MappingsOf, Forked, SpacesOk;
    var s' := ForkStep(s, parent, child);
    TablesAfterFork(image, s, parent, child);
    forall k: (nat, nat)
      ensures k in s'.pager.resident ==> k in s'.frames
      ensures k in s'.frames ==> FrameOk(image, s', k) && |s'.frames[k].bytes| == PAGE_SIZE && k.0 in s'.live
      ensures k in s'.frames && InStep(image, s) ==> FrameInStep(image, s', k)
      ensures k in s'.frames && NoLoose(s) ==> k in s'.pager.resident
    {
      FrameAfterFork(image, s, parent, child, k.0, k.1);
      if k in s'.frames {
        var o := if k.0 == child then (parent, k.1) else k;
        assert FrameOk(image, s, o) && (InStep(image, s) ==> FrameInStep(image, s, o));
      }
    }
  }

  lemma ChildKeyAt(frames: map<(nat, nat), Frame>, parent: nat, child: nat, p: nat)
    ensures (child, p) in ChildKeys(frames, parent, child) <==> (parent, p) in frames
  {
    if (parent, p) in frames {
      var k := (parent, p);
      assert (child, k.1) == (child, p);
    }
  }

  lemma WriteSteps(image: Image, s: Machine, asid: nat, address: nat, value: byte)
    requires Inv(image, s) && Enabled(image, s, GuestWrite(asid, address, value))
    ensures Steps(image, s, GuestWrite(asid, address, value), LazyStep(image, s, GuestWrite(asid, address, value)))
  {
    hide Aligned, AllWellFormed, AllComplete, Eager;
    var s' := LazyStep(image, s, GuestWrite(asid, address, value));
    var k := (asid, PageOf(address));
    PageBounds(address);
    forall x: nat, a: nat
      ensures View(image, s', x, a) == EagerStep(image.truth, ViewOf(image, s), GuestWrite(asid, address, value), x, a)
    {
      if x == asid && PageOf(a) == k.1 {
        PageBounds(a);
      }
    }
    forall j | j in s'.frames
      ensures FrameOk(image, s', j) && (InStep(image, s) ==> FrameInStep(image, s', j))
    {
      assert FrameOk(image, s, j) && (InStep(image, s) ==> FrameInStep(image, s, j));
    }
  }

  lemma FaultPageAligned(s: PagerState, asid: nat, address: nat, access: AccessKind)
    requires Consistent(s) && FaultPage(s, asid, address, access).Some?
    ensures Aligned(FaultPage(s, asid, address, access).value)
  {
    hide Layout;
    var page := FaultPage(s, asid, address, access).value;
    var m := Touching(MappingsOf(s, asid), page)[0];
    assert m in Touching(MappingsOf(s, asid), page);
    assert WellFormed(m) && m.Has(page);
  }

  /** A governed page that is not resident is in no frame. */
  lemma ColdIsOut(image: Image, s: Machine, x: nat, page: nat)
    requires Inv(image, s) && (x, page) !in s.pager.resident && Eager(MappingsOf(s.pager, x), image.truth, page).Some?
    ensures (x, page) !in s.frames
  {
    hide Eager, SpacesOk, Aligned;
    forall k | k in s.frames ensures k != (x, page) {
      assert FrameOk(image, s, k);
    }
  }

  /** A page that a fault brings in shows exactly the memory the guest was promised. */
  lemma FaultBringsView(image: Image, s: Machine, asid: nat, address: nat, access: AccessKind, a: nat)
    requires Inv(image, s) && Sound(image) && asid in s.live
    ensures var (p, r) := Resolved(s.pager, s.store.chunks, asid, address, access);
            && p.spaces == s.pager.spaces && p.resident == s.pager.resident
            && (r.ReadyPage? ==>
                  && Aligned(r.page) && |r.bytes| == PAGE_SIZE && (asid, r.page) !in s.frames
                  && (r.page <= a < r.page + PAGE_SIZE ==>
                        && Eager(MappingsOf(s.pager, asid), image.truth, a).Some?
                        && Eager(MappingsOf(s.pager, asid), image.truth, a).value.value == r.bytes[a - r.page]
                        && Eager(MappingsOf(s.pager, asid), image.truth, a).value.perm == r.perm))
  {
    hide Aligned, PageOf, AllWellFormed, AllComplete, Eager, BuildPage, FaultPage, Touching;
    VerifiedAgrees(s.store.chunks, image.digest, image.truth);
    var target := FaultPage(s.pager, asid, address, access);
    if target.Some? {
      FaultPageAligned(s.pager, asid, address, access);
      TouchingLayouts(s.pager, asid, target.value);
      BuildIsEager(MappingsOf(s.pager, asid), s.store.chunks, image.truth, target.value, target.value);
      ColdIsOut(image, s, asid, target.value);
      if target.value <= a < target.value + PAGE_SIZE {
        BuildIsEager(MappingsOf(s.pager, asid), s.store.chunks, image.truth, target.value, a);
      }
    }
  }

  lemma FaultSteps(image: Image, s: Machine, asid: nat, address: nat, access: AccessKind)
    requires Inv(image, s) && Sound(image) && Enabled(image, s, Fault(asid, address, access))
    ensures Steps(image, s, Fault(asid, address, access), LazyStep(image, s, Fault(asid, address, access)))
  {
    hide Aligned, AllWellFormed, AllComplete, Eager, Resolved, PageOf;
    var op := Fault(asid, address, access);
    var s' := LazyStep(image, s, op);
    var (p, r) := Resolved(s.pager, s.store.chunks, asid, address, access);
    FaultBringsView(image, s, asid, address, access, if r.ReadyPage? then r.page else 0);
    assert forall x: nat :: MappingsOf(s'.pager, x) == MappingsOf(s.pager, x);
    if r.ReadyPage? {
      PageBounds(r.page);
      forall x: nat, a: nat
        ensures View(image, s', x, a) == EagerStep(image.truth, ViewOf(image, s), op, x, a)
      {
        if x == asid && PageOf(a) == r.page {
          PageBounds(a);
          FaultBringsView(image, s, asid, address, access, a);
        }
      }
    }
    forall k | k in s'.frames
      ensures FrameOk(image, s', k) && (InStep(image, s) ==> FrameInStep(image, s', k))
    {
      if k in s.frames {
        assert FrameOk(image, s, k) && (InStep(image, s) ==> FrameInStep(image, s, k));
      }
    }
  }

  /** With the tables, the residency and the frames as they were, so is everything else. */
  lemma SameFrames(image: Image, s: Machine, s': Machine)
    requires Inv(image, s) && Verified(s'.store.chunks, image.digest)
    requires s'.pager.spaces == s.pager.spaces && s'.pager.resident == s.pager.resident
    requires s'.frames == s.frames && s'.live == s.live && s'.nextAsid == s.nextAsid
    ensures Holds(image, s, s') && forall x: nat, a: nat :: View(image, s', x, a) == View(image, s, x, a)
  {
    hide Aligned, AllWellFormed, AllComplete, Eager, PageOf;
    assert forall x: nat :: MappingsOf(s'.pager, x) == MappingsOf(s.pager, x);
    forall k | k in s'.frames
      ensures FrameOk(image, s', k) && (InStep(image, s) ==> FrameInStep(image, s', k))
    {
      assert FrameOk(image, s, k) && (InStep(image, s) ==> FrameInStep(image, s, k));
    }
  }

  /** A chunk that arrives changes nothing the guest can see. */
  lemma ArrivalSteps(image: Image, s: Machine, op: Op)
    requires Inv(image, s) && (op.Deliver? || op.Preload?)
    ensures Steps(image, s, op, LazyStep(image, s, op))
  {
    hide FrameOk, FrameInStep, View, InStep, SpacesOk;
    InvSpaces(image, s, 0);
    SameFrames(image, s, LazyStep(image, s, op));
  }

  // ----------------------------------------- edits at the end of the address space

  /** What a guest sees of a cell: value and permission, and not the file that follows it. */
  ghost function Shown(c: Option<Cell>): Option<(byte, Perm)> {
    if c.Some? then Some((c.value.value, c.value.perm)) else None
  }

  /** Every page of the space that a mapping governs and the range does not hit is in a frame. */
  ghost predicate AllIn(s: Machine, asid: nat, start: nat, len: nat) {
    forall page: nat :: Aligned(page) && Governed(s.pager, asid, page) && !Hits(start, len, page) ==> (asid, page) in s.frames
  }

  /** An unmap that reaches the end of the address space, byte by byte: its range goes, and of the
      rest of the space what is in a frame stays and what is not is lost. */
  lemma OverflowView(image: Image, s: Machine, asid: nat, start: nat, len: nat, x: nat, a: nat)
    requires Inv(image, s) && Enabled(image, s, UnmapRange(asid, start, len)) && start + len >= U64_LIMIT
    ensures var s' := LazyStep(image, s, UnmapRange(asid, start, len));
            View(image, s', x, a) ==
            if x != asid then View(image, s, x, a)
            else if Hits(start, len, a) || (asid, PageOf(a)) !in s.frames then None
            else Some(LooseCell(View(image, s, x, a).value.value, View(image, s, x, a).value.perm))
  {
    hide Aligned, PageOf, AllWellFormed, AllComplete, Eager;
    EmptyEager(image.truth);
    HitPage(start, len, a);
  }

  /** The table goes and the frames outside the range stay, unknown to the pager. */
  lemma OverflowHolds(image: Image, s: Machine, asid: nat, start: nat, len: nat)
    requires Inv(image, s) && Enabled(image, s, UnmapRange(asid, start, len)) && start + len >= U64_LIMIT
    ensures var s' := LazyStep(image, s, UnmapRange(asid, start, len));
            Inv(image, s') && (InStep(image, s) ==> InStep(image, s'))
  {
    hide Aligned, PageOf, AllWellFormed, AllComplete, Eager;
    var s' := LazyStep(image, s, UnmapRange(asid, start, len));
    EmptyEager(image.truth);
    forall x: nat
      ensures MappingsOf(s'.pager, x) == if x == asid then [] else MappingsOf(s.pager, x)
    {
    }
    assert AllWellFormed([]) && AllComplete([], image.truth) by { NothingMapped(image.truth); }
    forall k | k in s'.frames
      ensures FrameOk(image, s', k) && (InStep(image, s) ==> FrameInStep(image, s', k))
    {
      assert FrameOk(image, s, k) && (InStep(image, s) ==> FrameInStep(image, s, k));
    }
  }

  /** A governed page has memory, and one that is not has none outside a frame. */
  lemma GovernedHasMemory(image: Image, s: Machine, x: nat, a: nat)
    requires Inv(image, s)
    ensures Governed(s.pager, x, PageOf(a)) <==> Eager(MappingsOf(s.pager, x), image.truth, a).Some?
    ensures View(image, s, x, a).Some? <==> Governed(s.pager, x, PageOf(a)) || (x, PageOf(a)) in s.frames
  {
    hide Eager, Touching, Aligned, AllWellFormed, AllComplete;
    InvSpaces(image, s, x);
    PageBounds(a);
    PageUniform(MappingsOf(s.pager, x), image.truth, PageOf(a), a);
  }

  /** An unmap leaves what it does not hit as it was if and only if it ends below the end of the
      address space, or every governed page outside it is in a frame. */
  lemma UnmapKeepsOthersIff(image: Image, s: Machine, asid: nat, start: nat, len: nat)
    requires Inv(image, s) && Enabled(image, s, UnmapRange(asid, start, len))
    ensures var s' := LazyStep(image, s, UnmapRange(asid, start, len));
            && (forall a: nat :: Hits(start, len, a) ==> View(image, s', asid, a) == None)
            && ((forall x: nat, a: nat :: !(x == asid && Hits(start, len, a)) ==> Shown(View(image, s', x, a)) == Shown(View(image, s, x, a)))
                <==> start + len < U64_LIMIT || AllIn(s, asid, start, len))
  {
    hide FrameOk, View, PageOf, LazyStep, Governed, AllWellFormed, AllComplete, Aligned;
    var op := UnmapRange(asid, start, len);
    var s' := LazyStep(image, s, op);
    if start + len < U64_LIMIT {
      UnmapSteps(image, s, asid, start, len);
    } else {
      forall x: nat, a: nat
        ensures x == asid && Hits(start, len, a) ==> View(image, s', x, a) == None
        ensures !(x == asid && Hits(start, len, a)) && AllIn(s, asid, start, len) ==>
                  Shown(View(image, s', x, a)) == Shown(View(image, s, x, a))
      {
        OverflowView(image, s, asid, start, len, x, a);
        GovernedHasMemory(image, s, x, a);
        HitPage(start, len, a);
        PageBounds(a);
      }
      if !AllIn(s, asid, start, len) {
        var page: nat :| Aligned(page) && Governed(s.pager, asid, page) && !Hits(start, len, page) && (asid, page) !in s.frames;
        PageBounds(page);
        OverflowView(image, s, asid, start, len, asid, page);
        GovernedHasMemory(image, s, asid, page);
      }
    }
  }

  /** A change of permission that reaches the end of the address space, byte by byte: it takes
      effect on what is in a frame, and not on what a fault would bring in. */
  lemma TopProtectView(image: Image, s: Machine, asid: nat, start: nat, len: nat, perm: Perm, x: nat, a: nat)
    requires Inv(image, s) && Enabled(image, s, ProtectRange(asid, start, len, perm)) && start + len == U64_LIMIT
    ensures var s' := LazyStep(image, s, ProtectRange(asid, start, len, perm));
            View(image, s', x, a) ==
            if x == asid && Hits(start, len, a) && (x, PageOf(a)) in s.frames then WithPerm(View(image, s, x, a), perm)
            else View(image, s, x, a)
  {
    hide Aligned, PageOf, AllWellFormed, AllComplete, Eager;
    HitPage(start, len, a);
  }

  lemma TopProtectHolds(image: Image, s: Machine, asid: nat, start: nat, len: nat, perm: Perm)
    requires Inv(image, s) && Enabled(image, s, ProtectRange(asid, start, len, perm)) && start + len == U64_LIMIT
    ensures var s' := LazyStep(image, s, ProtectRange(asid, start, len, perm));
            && Inv(image, s') && (NoLoose(s) ==> NoLoose(s'))
            && (InStep(image, s) && Already(s, asid, start, len, perm) ==> InStep(image, s'))
  {
    hide Aligned, PageOf, AllWellFormed, AllComplete, Eager, Touching;
    var s' := LazyStep(image, s, ProtectRange(asid, start, len, perm));
    forall k | k in s'.frames
      ensures FrameOk(image, s', k)
      ensures InStep(image, s) && Already(s, asid, start, len, perm) ==> FrameInStep(image, s', k)
    {
      assert FrameOk(image, s, k) && (InStep(image, s) ==> FrameInStep(image, s, k));
      InvSpaces(image, s, k.0);
      PageUniform(MappingsOf(s.pager, k.0), image.truth, k.1, k.1);
    }
  }

  /** Every governed page of the range has the permission already. */
  ghost predicate Already(s: Machine, asid: nat, start: nat, len: nat, perm: Perm) {
    forall page: nat :: Aligned(page) && Governed(s.pager, asid, page) && Hits(start, len, page) ==> TablePerm(s.pager, asid, page) == perm
  }

  /** A change of permission takes effect on its range, and nowhere else, if and only if it ends
      elsewhere than at the end of the address space, or every governed page of the range is in a
      frame or has the permission already. */
  lemma ProtectsIff(image: Image, s: Machine, asid: nat, start: nat, len: nat, perm: Perm)
    requires Inv(image, s) && Enabled(image, s, ProtectRange(asid, start, len, perm))
    ensures var op := ProtectRange(asid, start, len, perm); var s' := LazyStep(image, s, op);
            (forall x: nat, a: nat :: View(image, s', x, a) == EagerStep(image.truth, ViewOf(image, s), op, x, a))
            <==> || start + len != U64_LIMIT
                 || forall page: nat :: Aligned(page) && Governed(s.pager, asid, page) && Hits(start, len, page) ==>
                      (asid, page) in s.frames || TablePerm(s.pager, asid, page) == perm
  {
    hide FrameOk, View, PageOf, LazyStep, Governed, TablePerm, AllWellFormed, AllComplete, Aligned;
    var op := ProtectRange(asid, start, len, perm);
    var s' := LazyStep(image, s, op);
    if start + len != U64_LIMIT {
      ProtectSteps(image, s, asid, start, len, perm);
    } else {
      forall x: nat, a: nat
        ensures View(image, s', x, a) == EagerStep(image.truth, ViewOf(image, s), op, x, a) <==>
                !(x == asid && Hits(start, len, PageOf(a)) && Governed(s.pager, asid, PageOf(a))
                  && (asid, PageOf(a)) !in s.frames && TablePerm(s.pager, asid, PageOf(a)) != perm)
        ensures Aligned(PageOf(a)) && (Aligned(a) ==> PageOf(a) == a)
      {
        TopProtectView(image, s, asid, start, len, perm, x, a);
        HitPage(start, len, a);
        PageBounds(a);
        if (x, PageOf(a)) !in s.frames {
          ColdPerm(image, s, x, a);
        }
      }
      if page: nat :| && Aligned(page) && Governed(s.pager, asid, page) && Hits(start, len, page)
                      && (asid, page) !in s.frames && TablePerm(s.pager, asid, page) != perm {
        PageBounds(page);
        assert View(image, s', asid, page) != EagerStep(image.truth, ViewOf(image, s), op, asid, page);
      }
    }
  }

  /** What is not in a frame has the permission of the table. */
  lemma ColdPerm(image: Image, s: Machine, x: nat, a: nat)
    requires Inv(image, s) && (x, PageOf(a)) !in s.frames
    ensures View(image, s, x, a).Some? <==> Governed(s.pager, x, PageOf(a))
    ensures View(image, s, x, a).Some? ==> View(image, s, x, a).value.perm == TablePerm(s.pager, x, PageOf(a))
  {
    hide Eager, Touching, Aligned, AllWellFormed, AllComplete;
    InvSpaces(image, s, x);
    PageBounds(a);
    PageUniform(MappingsOf(s.pager, x), image.truth, PageOf(a), a);
  }

  // ------------------------------------------------------------ any operation

  /** Every operation keeps the tables and frames in order. */
  lemma StepKeepsInv(image: Image, s: Machine, op: Op)
    requires Inv(image, s) && Sound(image) && Enabled(image, s, op)
    ensures Inv(image, LazyStep(image, s, op))
  {
    hide Inv, Enabled, View, EagerStep;
    match op
    case MapFile(asid, m) => MapSteps(image, s, asid, m);
    case UnmapRange(asid, start, len) =>
      if start + len < U64_LIMIT {
        UnmapSteps(image, s, asid, start, len);
      } else {
        OverflowHolds(image, s, asid, start, len);
      }
    case ProtectRange(asid, start, len, perm) =>
      if start + len != U64_LIMIT {
        ProtectSteps(image, s, asid, start, len, perm);
      } else {
        TopProtectHolds(image, s, asid, start, len, perm);
      }
    case RemapRange(_, _, _, _, _) => RemapHolds(image, s, op);
    case Fork(parent, child) => ForkSteps(image, s, parent, child);
    case Exec(asid, next) => ExecSteps(image, s, asid, next);
    case GuestWrite(asid, address, value) => WriteSteps(image, s, asid, address, value);
    case Fault(asid, address, access) => FaultSteps(image, s, asid, address, access);
    case Deliver(_, _, _) => ArrivalSteps(image, s, op);
    case Preload(_, _, _) => ArrivalSteps(image, s, op);
  }

  /** The pager and the hardware make the same of the operation: an unmap does not reach the end of
      the address space, or nothing it would lose is cold; a change of permission does not, or
      changes nothing in the table; a move takes no page that the pager does not know. */
  ghost predicate Tame(s: Machine, op: Op) {
    match op
    case UnmapRange(asid, start, len) => start + len < U64_LIMIT || AllIn(s, asid, start, len)
    case ProtectRange(asid, start, len, perm) => start + len != U64_LIMIT || Already(s, asid, start, len, perm)
    case RemapRange(asid, oldStart, oldLen, _, _) => NoLooseIn(s, asid, oldStart, oldStart + oldLen)
    case _ => true
  }

  /** The first cell is the second, or shows the same and has only forgotten what follows it. */
  ghost predicate Blurs(v: Option<Cell>, e: Option<Cell>) {
    v == e || (v.Some? && e.Some? && v.value == LooseCell(e.value.value, e.value.perm))
  }

  ghost predicate Refines(image: Image, s: Machine, mem: Memory) {
    forall x: nat, a: nat :: Blurs(View(image, s, x, a), mem(x, a))
  }

  /** A tame operation shows what the eager machine shows, and keeps the two in step. */
  lemma TameStep(image: Image, s: Machine, op: Op)
    requires Inv(image, s) && InStep(image, s) && Sound(image) && Enabled(image, s, op) && Tame(s, op)
    ensures var s' := LazyStep(image, s, op);
            && Inv(image, s') && InStep(image, s')
            && forall x: nat, a: nat :: Blurs(View(image, s', x, a), EagerStep(image.truth, ViewOf(image, s), op, x, a))
  {
    hide Inv, InStep, Enabled, View, EagerStep;
    match op
    case MapFile(asid, m) => MapSteps(image, s, asid, m);
    case UnmapRange(asid, start, len) =>
      if start + len < U64_LIMIT {
        UnmapSteps(image, s, asid, start, len);
      } else {
        TameOverflow(image, s, asid, start, len);
      }
    case ProtectRange(asid, start, len, perm) =>
      if start + len != U64_LIMIT {
        ProtectSteps(image, s, asid, start, len, perm);
      } else {
        TopProtectHolds(image, s, asid, start, len, perm);
        ProtectsIff(image, s, asid, start, len, perm);
      }
    case RemapRange(_, _, _, _, _) => RemapSteps(image, s, op);
    case Fork(parent, child) => ForkSteps(image, s, parent, child);
    case Exec(asid, next) => ExecSteps(image, s, asid, next);
    case GuestWrite(asid, address, value) => WriteSteps(image, s, asid, address, value);
    case Fault(asid, address, access) => FaultSteps(image, s, asid, address, access);
    case Deliver(_, _, _) => ArrivalSteps(image, s, op);
    case Preload(_, _, _) => ArrivalSteps(image, s, op);
  }

  lemma TameOverflow(image: Image, s: Machine, asid: nat, start: nat, len: nat)
    requires Inv(image, s) && InStep(image, s) && Enabled(image, s, UnmapRange(asid, start, len))
    requires start + len >= U64_LIMIT && AllIn(s, asid, start, len)
    ensures var op := UnmapRange(asid, start, len); var s' := LazyStep(image, s, op);
            && Inv(image, s') && InStep(image, s')
            && forall x: nat, a: nat :: Blurs(View(image, s', x, a), EagerStep(image.truth, ViewOf(image, s), op, x, a))
  {
    hide FrameOk, InStep, View, LazyStep, PageOf, Governed, AllWellFormed, AllComplete, Aligned;
    var op := UnmapRange(asid, start, len);
    OverflowHolds(image, s, asid, start, len);
    forall x: nat, a: nat
      ensures Blurs(View(image, LazyStep(image, s, op), x, a), EagerStep(image.truth, ViewOf(image, s), op, x, a))
    {
      OverflowView(image, s, asid, start, len, x, a);
      GovernedHasMemory(image, s, x, a);
      HitPage(start, len, a);
      PageBounds(a);
    }
  }

  lemma ExecSteps(image: Image, s: Machine, asid: nat, next: nat)
    requires Inv(image, s) && Enabled(image, s, Exec(asid, next))
    ensures Steps(image, s, Exec(asid, next), LazyStep(image, s, Exec(asid, next)))
  {
    hide View, FrameOk;
    DropSteps(image, s, LazyStep(image, s, Exec(asid, next)), asid);
  }

  // ------------------------------------------------------------------- runs

  /** The machine after a run, if every operation of it could happen. The two shape
      conditions hold in every state reached from an empty machine. */
  ghost function RunFrom(image: Image, s: Machine, ops: seq<Op>): Option<Machine> {
    if ops == [] then Some(s)
    else
      var before, op := RunFrom(image, s, ops[..|ops| - 1]), ops[|ops| - 1];
      if before.Some? && Enabled(image, before.value, op) && Consistent(before.value.pager) && WholeFrames(before.value.frames)
      then Some(LazyStep(image, before.value, op)) else None
  }

  ghost function Run(image: Image, store: Store, ops: seq<Op>): Option<Machine> {
    RunFrom(image, Initial(store), ops)
  }

  lemma {:induction false} RunKeepsInv(image: Image, s: Machine, ops: seq<Op>)
    requires Sound(image) && Inv(image, s) && RunFrom(image, s, ops).Some?
    ensures Inv(image, RunFrom(image, s, ops).value)
  {
    hide Inv, View, EagerStep, Enabled;
    if ops != [] {
      RunKeepsInv(image, s, ops[..|ops| - 1]);
      StepKeepsInv(image, RunFrom(image, s, ops[..|ops| - 1]).value, ops[|ops| - 1]);
    }
  }

  /** Every operation of the run is tame where it happens. */
  ghost predicate TameRun(image: Image, s: Machine, ops: seq<Op>) {
    forall i :: 0 <= i < |ops| && RunFrom(image, s, ops[..i]).Some? ==> Tame(RunFrom(image, s, ops[..i]).value, ops[i])
  }

  lemma TameRunShorter(image: Image, s: Machine, ops: seq<Op>)
    requires ops != [] && TameRun(image, s, ops)
    ensures TameRun(image, s, ops[..|ops| - 1])
    ensures RunFrom(image, s, ops[..|ops| - 1]).Some? ==> Tame(RunFrom(image, s, ops[..|ops| - 1]).value, ops[|ops| - 1])
  {
    hide RunFrom, Tame;
    var n := |ops| - 1;
    forall i | 0 <= i < n && RunFrom(image, s, ops[..n][..i]).Some?
      ensures Tame(RunFrom(image, s, ops[..n][..i]).value, ops[..n][i])
    {
      assert ops[..n][..i] == ops[..i];
    }
  }

  /** Demand paging refines eager loading: after any run of tame operations, with faults and
      arrivals anywhere in it, the guest's memory is that of the eager machine that skipped them. A
      page that lost its table shows the same and has forgotten its file; every other byte is the
      same cell. */
  lemma {:induction false} LazyRefinesEager(image: Image, store: Store, ops: seq<Op>)
    requires Sound(image) && Verified(store.chunks, image.digest) && Run(image, store, ops).Some?
    requires TameRun(image, Initial(store), ops)
    ensures var s := Run(image, store, ops).value;
            && Inv(image, s) && InStep(image, s) && Refines(image, s, EagerRun(image.truth, ops))
            && forall x: nat, a: nat :: (x, PageOf(a)) !in s.frames.Keys - s.pager.resident ==>
                                          View(image, s, x, a) == EagerRun(image.truth, ops)(x, a)
  {
    hide Inv, InStep, View, EagerStep, Enabled, Tame, Blurs, PageOf, TameRun;
    var s := Run(image, store, ops).value;
    if ops == [] {
      InitialOk(image, store);
      forall x: nat, a: nat ensures Blurs(View(image, s, x, a), None) {
        BlursItself(View(image, s, x, a));
      }
    } else {
      var n := |ops| - 1;
      var before := Run(image, store, ops[..n]).value;
      TameRunShorter(image, Initial(store), ops);
      LazyRefinesEager(image, store, ops[..n]);
      TameStep(image, before, ops[n]);
      forall x: nat, a: nat
        ensures Blurs(View(image, s, x, a), EagerRun(image.truth, ops)(x, a))
      {
        EagerStepBlurs(image, before, EagerRun(image.truth, ops[..n]), ops[n], x, a);
        BlursTwice(View(image, s, x, a), EagerStep(image.truth, ViewOf(image, before), ops[n], x, a), EagerRun(image.truth, ops)(x, a));
      }
    }
    forall x: nat, a: nat | (x, PageOf(a)) !in s.frames.Keys - s.pager.resident
      ensures View(image, s, x, a) == EagerRun(image.truth, ops)(x, a)
    {
      KnownIsExact(image, s, x, a, EagerRun(image.truth, ops)(x, a));
    }
  }

  lemma BlursItself(c: Option<Cell>)
    ensures Blurs(c, c)
  {
  }

  lemma BlursTwice(a: Option<Cell>, b: Option<Cell>, c: Option<Cell>)
    requires Blurs(a, b) && Blurs(b, c)
    ensures Blurs(a, c)
  {
  }

  /** A cell of a table names a file that is laid out, which a loose cell does not. */
  lemma {:induction false} CellHasFile(ms: seq<FileMapping>, truth: Catalog, a: int)
    requires AllWellFormed(ms)
    ensures Eager(ms, truth, a).Some? ==> Layout(Eager(ms, truth, a).value.file)
  {
    hide Layout, Aligned, LoadedValue, TailOffset;
    if ms != [] {
      CellHasFile(ms[..|ms| - 1], truth, a);
    }
  }

  /** Where the hardware holds no page that the pager does not know, nothing is forgotten. */
  lemma KnownIsExact(image: Image, s: Machine, x: nat, a: nat, e: Option<Cell>)
    requires Inv(image, s) && (x, PageOf(a)) !in s.frames.Keys - s.pager.resident && Blurs(View(image, s, x, a), e)
    ensures View(image, s, x, a) == e
  {
    hide Eager, Aligned, AllWellFormed, AllComplete, PageOf, Touching;
    InvSpaces(image, s, x);
    PageBounds(a);
    CellHasFile(MappingsOf(s.pager, x), image.truth, a);
    PageUniform(MappingsOf(s.pager, x), image.truth, PageOf(a), a);
    assert (x, PageOf(a)) in s.frames ==> FrameOk(image, s, (x, PageOf(a)));
  }

  /** The eager machine makes of a blurred memory what it makes of the clear one, blurred. */
  lemma EagerStepBlurs(image: Image, s: Machine, mem: Memory, op: Op, x: nat, a: nat)
    requires Inv(image, s) && Refines(image, s, mem) && Tame(s, op) && Enabled(image, s, op)
    ensures Blurs(EagerStep(image.truth, ViewOf(image, s), op, x, a), EagerStep(image.truth, mem, op, x, a))
  {
    hide Inv, View, PageOf, Continued, AllIn, Already;
    assert Blurs(View(image, s, x, a), mem(x, a));
    match op
    case RemapRange(asid, oldStart, oldLen, newStart, newLen) =>
      if x == asid {
        MovedBlurs(image, s, mem, op, a);
      }
    case Fork(parent, _) => assert Blurs(View(image, s, parent, a), mem(parent, a));
    case _ =>
  }

  lemma MovedBlurs(image: Image, s: Machine, mem: Memory, op: Op, a: nat)
    requires op.RemapRange? && Inv(image, s) && Refines(image, s, mem) && Tame(s, op) && Enabled(image, s, op)
    ensures Blurs(EagerStep(image.truth, ViewOf(image, s), op, op.asid, a), EagerStep(image.truth, mem, op, op.asid, a))
  {
    hide Inv, View, PageOf, Continued, Blurs, Vacant, Aligned;
    forall b: nat | op.oldStart <= b < op.oldStart + op.oldLen
      ensures View(image, s, op.asid, b) == mem(op.asid, b)
    {
      AlignedSum(op.oldStart, op.oldLen);
      PageInRange(b, op.oldStart, op.oldStart + op.oldLen);
      KnownIsExact(image, s, op.asid, b, mem(op.asid, b));
    }
    BlursItself(EagerStep(image.truth, mem, op, op.asid, a));
  }

  /** No edit of the run reaches the end of the address space. */
  predicate Plain(ops: seq<Op>) {
    forall i :: 0 <= i < |ops| ==>
      && (ops[i].UnmapRange? ==> ops[i].start + ops[i].len < U64_LIMIT)
      && (ops[i].ProtectRange? ==> ops[i].start + ops[i].len != U64_LIMIT)
  }

  /** Where no edit reaches the end of the address space, every operation is tame, the hardware
      holds no page that the pager does not know, and the two memories are the same. */
  lemma {:induction false} PlainRunsAreExact(image: Image, store: Store, ops: seq<Op>)
    requires Sound(image) && Verified(store.chunks, image.digest) && Run(image, store, ops).Some? && Plain(ops)
    ensures TameRun(image, Initial(store), ops) && NoLoose(Run(image, store, ops).value)
    ensures forall x: nat, a: nat :: View(image, Run(image, store, ops).value, x, a) == EagerRun(image.truth, ops)(x, a)
  {
    hide Inv, InStep, View, EagerStep, Enabled, PageOf, Refines;
    if ops != [] {
      var n := |ops| - 1;
      PlainRunsAreExact(image, store, ops[..n]);
      var before := Run(image, store, ops[..n]).value;
      LazyRefinesEager(image, store, ops[..n]);
      assert Tame(before, ops[n]);
      PlainStep(image, before, ops[n]);
      TameRunLonger(image, Initial(store), ops);
    }
    LazyRefinesEager(image, store, ops);
  }

  lemma TameRunLonger(image: Image, s: Machine, ops: seq<Op>)
    requires ops != [] && TameRun(image, s, ops[..|ops| - 1])
    requires RunFrom(image, s, ops[..|ops| - 1]).Some? ==> Tame(RunFrom(image, s, ops[..|ops| - 1]).value, ops[|ops| - 1])
    ensures TameRun(image, s, ops)
  {
    hide RunFrom, Tame;
    var n := |ops| - 1;
    forall i | 0 <= i < |ops| && RunFrom(image, s, ops[..i]).Some?
      ensures Tame(RunFrom(image, s, ops[..i]).value, ops[i])
    {
      if i < n {
        assert ops[..n][..i] == ops[..i] && ops[..n][i] == ops[i];
      }
    }
  }

  lemma PlainStep(image: Image, s: Machine, op: Op)
    requires Inv(image, s) && Sound(image) && Enabled(image, s, op) && NoLoose(s)
    requires op.UnmapRange? ==> op.start + op.len < U64_LIMIT
    requires op.ProtectRange? ==> op.start + op.len != U64_LIMIT
    ensures NoLoose(LazyStep(image, s, op))
  {
    hide Inv, InStep, Enabled, View, EagerStep;
    match op
    case MapFile(asid, m) => MapSteps(image, s, asid, m);
    case UnmapRange(asid, start, len) => UnmapSteps(image, s, asid, start, len);
    case ProtectRange(asid, start, len, perm) => ProtectSteps(image, s, asid, start, len, perm);
    case RemapRange(_, _, _, _, _) => RemapHolds(image, s, op);
    case Fork(parent, child) => ForkSteps(image, s, parent, child);
    case Exec(asid, next) => ExecSteps(image, s, asid, next);
    case GuestWrite(asid, address, value) => WriteSteps(image, s, asid, address, value);
    case Fault(asid, address, access) => FaultSteps(image, s, asid, address, access);
    case Deliver(_, _, _) => ArrivalSteps(image, s, op);
    case Preload(_, _, _) => ArrivalSteps(image, s, op);
  }

  /** A run of two operations that is not tame: map a file anywhere below the last page, then
      unmap that last page. The file's memory is lost, though no byte of it was unmapped. */
  lemma OverflowLosesFile(image: Image, store: Store, m: FileMapping, a: nat)
    requires Sound(image) && Verified(store.chunks, image.digest)
    requires WellFormed(m) && Complete(m.file, image.truth) && m.Has(a) && m.end <= U64_LIMIT - PAGE_SIZE
    ensures var ops := [MapFile(0, m), UnmapRange(0, U64_LIMIT - PAGE_SIZE, PAGE_SIZE)];
            && Run(image, store, ops).Some?
            && View(image, Run(image, store, ops).value, 0, a) == None && EagerRun(image.truth, ops)(0, a).Some?
  {
    hide View, WellFormed, Complete, Load, EagerStep, Inv;
    var map0, unmap := MapFile(0, m), UnmapRange(0, U64_LIMIT - PAGE_SIZE, PAGE_SIZE);
    var s0, one, ops := Initial(store), [map0], [map0, unmap];
    InitialOk(image, store);
    MappedFirst(image, store, m);
    assert one[..0] == [] && ops[..1] == one;
    var s1 := Run(image, store, one).value;
    AlignedEnds();
    assert Enabled(image, s1, unmap);
    MapSteps(image, s0, 0, m);
    OverflowView(image, s1, 0, U64_LIMIT - PAGE_SIZE, PAGE_SIZE, 0, a);
    FirstLoad(image.truth, m, a);
  }

  /** Another: map a file, then change the permission of everything from there to the end of the
      address space. A fault still brings the file's memory in with its old permission. */
  lemma TopProtectForgotten(image: Image, store: Store, m: FileMapping, perm: Perm, a: nat)
    requires Sound(image) && Verified(store.chunks, image.digest)
    requires WellFormed(m) && Complete(m.file, image.truth) && m.Has(a)
    ensures var ops := [MapFile(0, m), ProtectRange(0, m.start, U64_LIMIT - m.start, perm)];
            && Run(image, store, ops).Some?
            && Shown(View(image, Run(image, store, ops).value, 0, a)) == Some((LoadedValue(m, image.truth, a, None), m.perm))
            && Shown(EagerRun(image.truth, ops)(0, a)) == Some((LoadedValue(m, image.truth, a, None), perm))
  {
    hide View, Complete, LoadedValue, TailOffset, Inv, Layout;
    var map0, protect := MapFile(0, m), ProtectRange(0, m.start, U64_LIMIT - m.start, perm);
    var s0, one, ops := Initial(store), [map0], [map0, protect];
    InitialOk(image, store);
    MappedFirst(image, store, m);
    assert one[..0] == [] && ops[..1] == one;
    var s1 := Run(image, store, one).value;
    assert Enabled(image, s1, protect);
    MapSteps(image, s0, 0, m);
    TopProtectView(image, s1, 0, m.start, U64_LIMIT - m.start, perm, 0, a);
    assert EagerRun(image.truth, [])(0, a) == None;
    assert EagerRun(image.truth, one)(0, a) == Load(m, image.truth, a, None);
  }

  lemma AlignedEnds()
    ensures Aligned(U64_LIMIT - PAGE_SIZE) && Aligned(PAGE_SIZE)
  {
  }

  lemma MappedFirst(image: Image, store: Store, m: FileMapping)
    requires Verified(store.chunks, image.digest) && WellFormed(m) && Complete(m.file, image.truth)
    ensures var one := [MapFile(0, m)];
            && Enabled(image, Initial(store), MapFile(0, m)) && Consistent(Initial(store).pager) && WholeFrames(Initial(store).frames)
            && Run(image, store, one) == Some(LazyStep(image, Initial(store), MapFile(0, m)))
  {
    var one := [MapFile(0, m)];
    assert one[..0] == [] && RunFrom(image, Initial(store), []) == Some(Initial(store));
    assert RunFrom(image, Initial(store), one[..|one| - 1]) == Some(Initial(store));
  }

  lemma FirstLoad(truth: Catalog, m: FileMapping, a: nat)
    requires m.Has(a) && m.end <= U64_LIMIT - PAGE_SIZE
    ensures EagerRun(truth, [MapFile(0, m), UnmapRange(0, U64_LIMIT - PAGE_SIZE, PAGE_SIZE)])(0, a).Some?
  {
    var ops := [MapFile(0, m), UnmapRange(0, U64_LIMIT - PAGE_SIZE, PAGE_SIZE)];
    assert ops[..1] == [MapFile(0, m)] && [MapFile(0, m)][..0] == [];
    assert EagerRun(truth, [])(0, a) == None;
    assert EagerRun(truth, [MapFile(0, m)])(0, a) == Load(m, truth, a, None);
  }

  /** Every byte the hardware holds is the byte, with the permission, that the eager machine
      holds there. */
  lemma FramesShowEager(image: Image, store: Store, ops: seq<Op>, k: (nat, nat), i: nat)
    requires Sound(image) && Verified(store.chunks, image.digest) && Run(image, store, ops).Some?
    requires TameRun(image, Initial(store), ops)
    requires k in Run(image, store, ops).value.frames && i < PAGE_SIZE
    ensures var s, cell := Run(image, store, ops).value, EagerRun(image.truth, ops)(k.0, k.1 + i);
            && |s.frames[k].bytes| == PAGE_SIZE
            && cell.Some? && cell.value.value == s.frames[k].bytes[i] && cell.value.perm == s.frames[k].perm
  {
    hide Eager, Aligned, AllWellFormed, AllComplete, Run, EagerRun, PageOf, SpacesOk, Touching, TameRun;
    var s := Run(image, store, ops).value;
    LazyRefinesEager(image, store, ops);
    assert FrameOk(image, s, k);
    PageSlot(k.1, i);
    assert Blurs(View(image, s, k.0, k.1 + i), EagerRun(image.truth, ops)(k.0, k.1 + i));
  }

  lemma InvSpaces(image: Image, s: Machine, x: nat)
    requires Inv(image, s)
    ensures SpacesOk(image, s) && Consistent(s.pager) && AllWellFormed(MappingsOf(s.pager, x)) && AllComplete(MappingsOf(s.pager, x), image.truth)
  {
  }

  lemma PageSlot(page: nat, i: nat)
    requires Aligned(page) && i < PAGE_SIZE
    ensures PageOf(page + i) == page && (page + i) % PAGE_SIZE == i
  {
  }

  /** The page has memory that a fault would have to bring in. */
  ghost predicate ColdAt(image: Image, s: Machine, x: nat, page: nat) {
    Eager(MappingsOf(s.pager, x), image.truth, page).Some? && (x, page) !in s.pager.resident
  }

  ghost predicate GrantsAt(image: Image, s: Machine, x: nat, page: nat, access: AccessKind) {
    var c := Eager(MappingsOf(s.pager, x), image.truth, page);
    c.Some? && access in c.value.perm
  }

  /** The access straddles two pages, the first in and the second cold, and both sides grant it. */
  ghost predicate Straddles(image: Image, s: Machine, x: nat, page: nat, access: AccessKind) {
    && (x, page) in s.pager.resident && GrantsAt(image, s, x, page, access)
    && GrantsAt(image, s, x, page + PAGE_SIZE, access) && (x, page + PAGE_SIZE) !in s.pager.resident
  }

  /** In every state a fault is left to others if and only if its page is not cold and it is no
      granted access that straddles into a cold page. Otherwise whatever is brought in or asked for
      is that cold page. */
  lemma FaultIsRepairedIff(image: Image, s: Machine, asid: nat, address: nat, access: AccessKind)
    requires Inv(image, s)
    ensures var page, r := PageOf(address), Resolved(s.pager, s.store.chunks, asid, address, access).1;
            && (r.NotLazy? <==> !ColdAt(image, s, asid, page) && !Straddles(image, s, asid, page, access))
            && (r.ReadyPage? ==> r.page == if ColdAt(image, s, asid, page) then page else page + PAGE_SIZE)
            && (r.MissingPage? ==> r.request.page == if ColdAt(image, s, asid, page) then page else page + PAGE_SIZE)
  {
    hide Aligned, Eager, PageOf, AllWellFormed, AllComplete, Touching, BuildPage;
    InvSpaces(image, s, asid);
    PageBounds(address);
    var ms, page := MappingsOf(s.pager, asid), PageOf(address);
    PageUniform(ms, image.truth, page, page);
    NextPageUp(address);
    PageUniform(ms, image.truth, page + PAGE_SIZE, page + PAGE_SIZE);
    if page + PAGE_SIZE >= U64_LIMIT {
      NothingOnTop(ms, page + PAGE_SIZE);
      NothingOnTop(ms, U64_LIMIT - 1);
    }
  }

  lemma NextPageUp(a: nat)
    ensures Aligned(PageOf(a) + PAGE_SIZE)
  {
  }

  /** No mapping reaches the last page of the address space. */
  lemma NothingOnTop(ms: seq<FileMapping>, a: nat)
    requires AllWellFormed(ms) && a >= U64_LIMIT - PAGE_SIZE
    ensures Touching(ms, a) == []
  {
    hide Layout;
    if Touching(ms, a) != [] {
      var m := Touching(ms, a)[0];
      assert m in Touching(ms, a);
      assert WellFormed(m) && m.Has(a);
      assert false by { EndsBelowTop(m); }
    }
  }

  lemma EndsBelowTop(m: FileMapping)
    requires WellFormed(m)
    ensures m.end <= U64_LIMIT - PAGE_SIZE
  {
  }

  /** A fault in any reachable state either brings in the eager bytes and permission, or asks
      for a chunk that is absent and belongs to the image; it is refused only while another
      request is pending. */
  lemma FaultRefinesEager(image: Image, store: Store, ops: seq<Op>, asid: nat, address: nat, access: AccessKind, i: nat)
    requires Sound(image) && Verified(store.chunks, image.digest) && Run(image, store, ops).Some?
    requires TameRun(image, Initial(store), ops)
    requires asid in Run(image, store, ops).value.live && i < PAGE_SIZE
    ensures var s := Run(image, store, ops).value;
            Inv(image, s) &&
            match Resolved(s.pager, s.store.chunks, asid, address, access).1
            case ReadyPage(page, bytes, perm) =>
              var cell := EagerRun(image.truth, ops)(asid, page + i);
              |bytes| == PAGE_SIZE && cell.Some? && cell.value.value == bytes[i] && cell.value.perm == perm
            case MissingPage(request) =>
              s.Waiting() || (request.hash !in s.store.chunks && request.hash in image.truth)
            case InvalidPage => s.Waiting()
            case NotLazy =>
              var mem, page := EagerRun(image.truth, ops), PageOf(address);
              && (mem(asid, page).Some? ==> (asid, page) in s.frames)
              && !(&& (asid, page) in s.pager.resident && (asid, page + PAGE_SIZE) !in s.frames
                   && mem(asid, page).Some? && access in mem(asid, page).value.perm
                   && mem(asid, page + PAGE_SIZE).Some? && access in mem(asid, page + PAGE_SIZE).value.perm)
  {
    hide Aligned, Eager, Resolved, AllWellFormed, AllComplete, PageOf, Run, EagerRun, TameRun;
    LazyRefinesEager(image, store, ops);
    var s := Run(image, store, ops).value;
    FaultAnswers(image, s, asid, address, access);
    var r := Resolved(s.pager, s.store.chunks, asid, address, access).1;
    if r.ReadyPage? {
      FaultBringsView(image, s, asid, address, access, r.page + i);
      PageSlot(r.page, i);
      assert View(image, s, asid, r.page + i) == EagerRun(image.truth, ops)(asid, r.page + i);
    }
    if r.NotLazy? {
      LeftAlone(image, s, EagerRun(image.truth, ops), asid, address, access);
    }
  }

  lemma LeftAlone(image: Image, s: Machine, mem: Memory, asid: nat, address: nat, access: AccessKind)
    requires Inv(image, s) && InStep(image, s) && Refines(image, s, mem)
    requires Resolved(s.pager, s.store.chunks, asid, address, access).1.NotLazy?
    ensures var page := PageOf(address);
            && (mem(asid, page).Some? ==> (asid, page) in s.frames)
            && !(&& (asid, page) in s.pager.resident && (asid, page + PAGE_SIZE) !in s.frames
                 && mem(asid, page).Some? && access in mem(asid, page).value.perm
                 && mem(asid, page + PAGE_SIZE).Some? && access in mem(asid, page + PAGE_SIZE).value.perm)
  {
    hide Aligned, Eager, Resolved, AllWellFormed, AllComplete, PageOf;
    var page := PageOf(address);
    FaultIsRepairedIff(image, s, asid, address, access);
    PageBounds(address);
    PageBounds(page);
    NextPageUp(address);
    PageBounds(page + PAGE_SIZE);
    assert Blurs(View(image, s, asid, page), mem(asid, page));
    assert Blurs(View(image, s, asid, page + PAGE_SIZE), mem(asid, page + PAGE_SIZE));
    if (asid, page) in s.pager.resident {
      assert FrameOk(image, s, (asid, page)) && FrameInStep(image, s, (asid, page));
    }
  }

  /** The same fault again, before its chunk is here, is told the same ticket and asks for nothing
      more. */
  lemma AskedOnce(s: PagerState, store: Catalog, asid: nat, address: nat, access: AccessKind)
    requires Consistent(s) && s.pending.None?
    ensures var (p, r) := Resolved(s, store, asid, address, access);
            && (r.MissingPage? <==> p.pending.Some?)
            && (r.MissingPage? ==> p.pending == Some(r.request) && Resolved(p, store, asid, address, access) == (p, r))
  {
    hide Touching, BuildPage, PageOf, AllWellFormed;
    var target := FaultPage(s, asid, address, access);
    if target.Some? {
      TouchingLayouts(s, asid, target.value);
    }
    if asid !in s.spaces {
      TouchingNothing(PageOf(address));
    }
  }

  lemma FaultAnswers(image: Image, s: Machine, asid: nat, address: nat, access: AccessKind)
    requires Inv(image, s) && Sound(image)
    ensures var r := Resolved(s.pager, s.store.chunks, asid, address, access).1;
            && (r.InvalidPage? ==> s.Waiting())
            && (r.MissingPage? && !s.Waiting() ==> r.request.hash !in s.store.chunks && r.request.hash in image.truth)
  {
    hide Aligned, Eager, PageOf, AllWellFormed, AllComplete, FaultPage, Touching, BuildPage;
    VerifiedAgrees(s.store.chunks, image.digest, image.truth);
    var target := FaultPage(s.pager, asid, address, access);
    if target.Some? {
      FaultPageAligned(s.pager, asid, address, access);
      TouchingLayouts(s.pager, asid, target.value);
      BuildIsEager(MappingsOf(s.pager, asid), s.store.chunks, image.truth, target.value, target.value);
    }
  }

  lemma InitialOk(image: Image, store: Store)
    requires Verified(store.chunks, image.digest)
    ensures Inv(image, Initial(store))
    ensures InStep(image, Initial(store)) && NoLoose(Initial(store))
    ensures forall x: nat, a: nat :: View(image, Initial(store), x, a) == None
  {
  }

}

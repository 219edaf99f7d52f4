/** A regular-file read(2) that may suspend on cold buffer pages and on cold file chunks.
    Each suspension replays the whole syscall; however often that happens, the call ends
    as one read on a fully resident image would have. */
module RestartableRead {
  import opened Base
  import opened Chunks
  import opened Mappings
  import opened DemandPager
  import opened LazyMachine

  const READ_LIMIT: nat := 0x40_0000

  datatype Errno = EFAULT | EIO

  /** The arguments of one call; they are the same at every replay. */
  datatype Call = Call(asid: nat, buf: nat, count: nat, file: ChunkedFile)
  {
    function Len(): nat {
      Min(count, READ_LIMIT)
    }
  }

  datatype FileRequest = FileRequest(ticket: nat, hash: Hash)

  /** The machine with the state a read touches: anonymous memory, the descriptor's offset,
      and a file chunk asked for but not yet here. */
  datatype Sys = Sys(m: Machine, anon: map<(nat, nat), byte>, offset: nat, wait: Option<FileRequest>, nextFileTicket: nat)
  {
    predicate Waiting() {
      m.Waiting() || wait.Some?
    }
  }

  datatype Outcome = Returned(n: nat) | Failed(errno: Errno) | Suspended

  // ------------------------------------------------------------- host_touch

  predicate HasLazy(p: PagerState) {
    exists x :: x in p.spaces && p.spaces[x].mappings != []
  }

  datatype TouchResult = TouchOk | TouchFailed(errno: Errno) | TouchSuspended

  /** Fills the governed pages of [page, end) in order, stopping at one that lacks the
      permission or whose chunk is absent. */
  ghost function TouchFrom(s: Machine, asid: nat, page: nat, end: nat, access: AccessKind): (r: (Machine, TouchResult))
    requires Consistent(s.pager)
    ensures r.0.pager.spaces == s.pager.spaces
    decreases if page < end then end - page else 0
  {
    var ts := Touching(MappingsOf(s.pager, asid), page);
    if page >= end then (s, TouchOk)
    else if ts == [] then TouchFrom(s, asid, page + PAGE_SIZE, end, access)
    else if access !in ts[|ts| - 1].perm then (s, TouchFailed(EFAULT))
    else if (asid, page) in s.pager.resident then TouchFrom(s, asid, page + PAGE_SIZE, end, access)
    else
      var (p, r) := Resolved(s.pager, s.store.chunks, asid, page, access);
      match r
      case ReadyPage(at, bytes, perm) =>
        TouchFrom(Installed(s, p, asid, at, bytes, perm), asid, page + PAGE_SIZE, end, access)
      case MissingPage(_) => (s.(pager := p), TouchSuspended)
      case InvalidPage => (s.(pager := p), TouchFailed(EIO))
      case NotLazy => TouchFrom(s.(pager := p), asid, page + PAGE_SIZE, end, access)
  }

  function Installed(s: Machine, p: PagerState, asid: nat, page: nat, bytes: seq<byte>, perm: Perm): Machine {
    s.(pager := MarkedResident(p, asid, page), frames := s.frames[(asid, page) := Frame(bytes, perm)])
  }

  ghost function Touch(s: Machine, asid: nat, addr: nat, len: nat, access: AccessKind): (r: (Machine, TouchResult))
    requires Consistent(s.pager)
    ensures r.0.pager.spaces == s.pager.spaces
  {
    if len == 0 || !HasLazy(s.pager) then (s, TouchOk)
    else if addr + len >= U64_LIMIT then (s, TouchFailed(EFAULT))
    else TouchFrom(s, asid, PageOf(addr), addr + len, access)
  }

  // ------------------------------------------------------------- the syscall

  /** One byte stored by the host: into the frame the hardware holds, else anonymous memory. */
  function Poke(s: Sys, asid: nat, a: nat, v: byte): (r: Sys)
    ensures r.m.pager == s.m.pager
  {
    var k := (asid, PageOf(a));
    if k in s.m.frames && |s.m.frames[k].bytes| == PAGE_SIZE then
      s.(m := s.m.(frames := s.m.frames[k := s.m.frames[k].(bytes := s.m.frames[k].bytes[a % PAGE_SIZE := v])]))
    else s.(anon := s.anon[(asid, a) := v])
  }

  function PokeAll(s: Sys, asid: nat, addr: nat, data: seq<byte>): (r: Sys)
    ensures r.m.pager == s.m.pager
  {
    if data == [] then s
    else Poke(PokeAll(s, asid, addr, data[..|data| - 1]), asid, addr + |data| - 1, data[|data| - 1])
  }

  /** The copy of a result into guest memory. */
  ghost function WriteBack(s: Sys, call: Call, data: seq<byte>): (r: (Sys, Outcome))
    requires Consistent(s.m.pager)
    ensures r.0.m.pager.spaces == s.m.pager.spaces
  {
    var (m, r) := Touch(s.m, call.asid, call.buf, |data|, WriteAccess);
    match r
    case TouchOk => (PokeAll(s.(m := m), call.asid, call.buf, data), Returned(|data|))
    case TouchFailed(errno) => (s.(m := m), Failed(errno))
    case TouchSuspended => (s.(m := m), Suspended)
  }

  /** File tickets carry the top bit, which keeps them apart from page tickets. */
  function FileTicket(t: nat): nat {
    if t < U63_LIMIT then t + U63_LIMIT else t
  }

  lemma FileTicketIs(t: nat)
    requires t < 2 * U63_LIMIT
    ensures U63_LIMIT <= FileTicket(t) < 2 * U63_LIMIT && FileTicket(t) % U63_LIMIT == t % U63_LIMIT
  {
  }

  /** One attempt: touch the whole buffer, read the file range, advance the offset, copy out. */
  ghost function Attempt(s: Sys, call: Call): (r: (Sys, Outcome))
    requires Consistent(s.m.pager) && Layout(call.file)
    ensures r.0.m.pager.spaces == s.m.pager.spaces
  {
    var (m, touched) := Touch(s.m, call.asid, call.buf, call.Len(), WriteAccess);
    match touched
    case TouchFailed(errno) => (s.(m := m), Failed(errno))
    case TouchSuspended => (s.(m := m), Suspended)
    case TouchOk =>
      match Read(call.file, m.store.chunks, s.offset, call.Len())
      case Missing(hash) =>
        if s.wait.Some? then
          (s.(m := m), if s.wait.value.hash == hash then Suspended else Failed(EIO))
        else
          var ticket := Bump(s.nextFileTicket);
          (s.(m := m, wait := Some(FileRequest(FileTicket(ticket), hash)), nextFileTicket := ticket), Suspended)
      case Invalid => (s.(m := m), Failed(EIO))
      case Ready(data) =>
        WriteBack(s.(m := m, offset := s.offset + |data|), call, data)
  }

  // ------------------------------------------------------ what touching does

  /** `m'` is `m` with more pages in: nothing the guest can observe has changed. */
  ghost predicate Warmer(image: Image, m: Machine, m': Machine) {
    && Inv(image, m') && m'.pager.spaces == m.pager.spaces && m'.store == m.store
    && m'.live == m.live && m'.nextAsid == m.nextAsid
    && m.frames.Keys <= m'.frames.Keys && m.pager.resident <= m'.pager.resident
    && forall x: nat, a: nat :: View(image, m', x, a) == View(image, m, x, a)
  }

  lemma WarmerTransitive(image: Image, a: Machine, b: Machine, c: Machine)
    requires Warmer(image, a, b) && Warmer(image, b, c)
    ensures Warmer(image, a, c)
  {
    hide Inv, View;
  }

  /** Every governed page of the range grants the access. */
  ghost predicate Permitted(m: Machine, asid: nat, page: nat, end: nat, access: AccessKind) {
    forall p :: page <= p < end && Aligned(p) && Governed(m.pager, asid, p) ==> access in TablePerm(m.pager, asid, p)
  }

  ghost predicate AllResident(m: Machine, asid: nat, page: nat, end: nat) {
    forall p :: page <= p < end && Aligned(p) && Governed(m.pager, asid, p) ==> (asid, p) in m.pager.resident
  }

  lemma NextPage(page: nat, p: nat)
    requires Aligned(page) && Aligned(p) && page <= p
    ensures p == page || page + PAGE_SIZE <= p
    ensures Aligned(page + PAGE_SIZE)
  {
  }

  /** One page-in by the host is a fault of the lazy machine. */
  lemma TouchOne(image: Image, m: Machine, asid: nat, page: nat, access: AccessKind)
    requires Inv(image, m) && Sound(image) && asid in m.live && !m.Waiting() && Aligned(page)
    requires Governed(m.pager, asid, page) && (asid, page) !in m.pager.resident
    ensures var (p, r) := Resolved(m.pager, m.store.chunks, asid, page, access);
            match r
            case ReadyPage(at, bytes, perm) =>
              var m' := Installed(m, p, asid, at, bytes, perm);
              at == page && Warmer(image, m, m') && !m'.Waiting() && (asid, page) in m'.pager.resident
            case MissingPage(request) =>
              && Warmer(image, m, m.(pager := p)) && p.pending == Some(request)
              && request.hash in PageNeeds(Touching(MappingsOf(m.pager, asid), page), page) && request.hash !in m.store.chunks
            case _ => false
  {
    hide Aligned, Eager, AllWellFormed, AllComplete, BuildPage, Touching, View, EagerStep, FrameOk, PageNeeds;
    var (p, r) := Resolved(m.pager, m.store.chunks, asid, page, access);
    PageBounds(page);
    FaultSteps(image, m, asid, page, access);
    EagerStepOfFault(image, m, asid, page, access);
    FaultAnswers(image, m, asid, page, access);
    TouchingLayouts(m.pager, asid, page);
    VerifiedAgrees(m.store.chunks, image.digest, image.truth);
    if r.MissingPage? {
      InvSpaces(image, m, asid);
      TouchingOrdered(MappingsOf(m.pager, asid), image.truth, page);
      BuildNeeds(Touching(MappingsOf(m.pager, asid), page), m.store.chunks, image.truth, page);
    }
  }

  lemma EagerStepOfFault(image: Image, m: Machine, asid: nat, page: nat, access: AccessKind)
    ensures forall x: nat, a: nat :: EagerStep(image.truth, ViewOf(image, m), Fault(asid, page, access), x, a) == View(image, m, x, a)
  {
  }

  /** The chunks one mapping's share of a page is copied from. */
  ghost function MappingNeeds(m: FileMapping, page: nat): set<Hash>
    requires Layout(m.file)
  {
    var from, to := Max(page, m.dataStart), Min(page + PAGE_SIZE, m.DataEnd());
    if from < to then Touched(m.file, m.fileOffset + (from - m.dataStart), to - from) else {}
  }

  ghost function PageNeeds(ts: seq<FileMapping>, page: nat): set<Hash>
    requires forall m :: m in ts ==> Layout(m.file)
  {
    if ts == [] then {} else PageNeeds(ts[..|ts| - 1], page) + MappingNeeds(ts[|ts| - 1], page)
  }

  /** A mapping that stops the building of a page needs the chunk it stops at. */
  lemma MappingStops(m: FileMapping, store: Catalog, truth: Catalog, page: nat, bytes: seq<byte>)
    requires WellFormed(m) && Complete(m.file, truth) && Agrees(store, truth) && Layout(m.file) && |bytes| == PAGE_SIZE
    ensures var r := ApplyMapping(m, store, page, bytes);
            r.Stopped? ==> r.hash in MappingNeeds(m, page) && r.hash !in store
  {
    hide Layout, Complete, WellFormed, Read, Touched;
    var from, to := Max(page, m.dataStart), Min(page + PAGE_SIZE, m.DataEnd());
    if from < to {
      ReadRefinesContents(m.file, store, truth, m.fileOffset + (from - m.dataStart), to - from);
    }
  }

  /** A page that cannot be built yet needs one of its chunks. */
  lemma {:induction false} BuildNeeds(ts: seq<FileMapping>, store: Catalog, truth: Catalog, page: nat)
    requires ts != [] && AllWellFormed(ts) && AllComplete(ts, truth) && Agrees(store, truth)
    requires forall m :: m in ts ==> Layout(m.file)
    ensures var r := BuildPage(ts, store, page);
            r.Stopped? ==> r.hash in PageNeeds(ts, page) && r.hash !in store
  {
    hide Layout, Complete, WellFormed, ApplyMapping, MappingNeeds, Agrees;
    var n := |ts| - 1;
    var before := if n == 0 then Built(Filled(ts[0].fill)) else BuildPage(ts[..n], store, page);
    if n > 0 {
      BuildNeeds(ts[..n], store, truth, page);
    }
    if before.Built? {
      MappingStops(ts[n], store, truth, page, before.bytes);
    }
  }

  lemma TouchingOrdered(ms: seq<FileMapping>, truth: Catalog, page: nat)
    requires AllWellFormed(ms) && AllComplete(ms, truth)
    ensures AllWellFormed(Touching(ms, page)) && AllComplete(Touching(ms, page), truth)
  {
    hide WellFormed, Complete;
    var ts := Touching(ms, page);
    forall i | 0 <= i < |ts|
      ensures WellFormed(ts[i]) && Complete(ts[i].file, truth)
    {
      assert ts[i] in ts;
      var j :| 0 <= j < |ms| && ms[j] == ts[i];
    }
  }

  /** The chunks that the governed pages of a range are built from. */
  ghost function RangeNeeds(p: PagerState, asid: nat, page: nat, end: nat): set<Hash>
    requires Consistent(p)
    decreases if page < end then end - page else 0
  {
    if page >= end then {}
    else
      TouchingLayouts(p, asid, page);
      PageNeeds(Touching(MappingsOf(p, asid), page), page) + RangeNeeds(p, asid, page + PAGE_SIZE, end)
  }

  /** What touching a range comes to. */
  ghost predicate TouchSpec(image: Image, m: Machine, asid: nat, page: nat, end: nat, access: AccessKind, m': Machine, r: TouchResult)
    requires Consistent(m.pager)
  {
    && Warmer(image, m, m')
    && match r
       case TouchOk => !m'.Waiting() && Permitted(m, asid, page, end, access) && AllResident(m', asid, page, end)
       case TouchFailed(errno) => errno == EFAULT && !m'.Waiting() && !Permitted(m, asid, page, end, access)
       case TouchSuspended =>
         m'.Waiting() && m'.pager.pending.value.hash in RangeNeeds(m.pager, asid, page, end)
         && m'.pager.pending.value.hash !in m.store.chunks
  }

  lemma WarmerItself(image: Image, m: Machine)
    requires Inv(image, m)
    ensures Warmer(image, m, m)
  {
    hide Inv, View;
  }

  /** Only tables decide what a range needs and permits. */
  lemma SameTables(m: Machine, m': Machine, asid: nat, page: nat, end: nat, access: AccessKind)
    requires m.pager.spaces == m'.pager.spaces && Consistent(m.pager)
    ensures Permitted(m, asid, page, end, access) == Permitted(m', asid, page, end, access)
    ensures RangeNeeds(m.pager, asid, page, end) == RangeNeeds(m'.pager, asid, page, end)
    ensures forall p: nat :: Governed(m'.pager, asid, p) == Governed(m.pager, asid, p)
    decreases if page < end then end - page else 0
  {
    hide Touching, PageNeeds, Aligned;
    assert MappingsOf(m.pager, asid) == MappingsOf(m'.pager, asid);
    if page < end {
      SameTables(m, m', asid, page + PAGE_SIZE, end, access);
    }
  }

  /** A range is touched page by page. */
  lemma TouchCompose(image: Image, m: Machine, m1: Machine, asid: nat, page: nat, end: nat, access: AccessKind, m': Machine, r: TouchResult)
    requires Consistent(m.pager) && Consistent(m1.pager) && Warmer(image, m, m1) && Aligned(page) && page < end
    requires TouchSpec(image, m1, asid, page + PAGE_SIZE, end, access, m', r)
    requires Governed(m.pager, asid, page) ==> access in TablePerm(m.pager, asid, page) && (asid, page) in m1.pager.resident
    ensures TouchSpec(image, m, asid, page, end, access, m', r)
  {
    hide Aligned, Touching, PageNeeds, Inv, View;
    var next := page + PAGE_SIZE;
    forall p | page <= p < end && Aligned(p)
      ensures p == page || next <= p
    {
      NextPage(page, p);
    }
    SameTables(m, m1, asid, next, end, access);
    SameTables(m, m', asid, next, end, access);
    WarmerTransitive(image, m, m1, m');
  }

  lemma {:induction false} TouchMeetsSpec(image: Image, m: Machine, asid: nat, page: nat, end: nat, access: AccessKind)
    requires Inv(image, m) && Sound(image) && asid in m.live && !m.Waiting() && Aligned(page)
    ensures var (m', r) := TouchFrom(m, asid, page, end, access); TouchSpec(image, m, asid, page, end, access, m', r)
    decreases if page < end then end - page else 0
  {
    hide Aligned, Touching, PageNeeds, View, SpacesOk, FrameOk, Resolved;
    InvSpaces(image, m, asid);
    WarmerItself(image, m);
    var next := page + PAGE_SIZE;
    NextPage(page, page);
    if page < end {
      if Governed(m.pager, asid, page) && access in TablePerm(m.pager, asid, page) && (asid, page) !in m.pager.resident {
        TouchOne(image, m, asid, page, access);
        var (p, r) := Resolved(m.pager, m.store.chunks, asid, page, access);
        if r.ReadyPage? {
          var m1 := Installed(m, p, asid, r.page, r.bytes, r.perm);
          TouchMeetsSpec(image, m1, asid, next, end, access);
          var (m', r') := TouchFrom(m1, asid, next, end, access);
          TouchCompose(image, m, m1, asid, page, end, access, m', r');
        }
      } else if !Governed(m.pager, asid, page) || access in TablePerm(m.pager, asid, page) {
        TouchMeetsSpec(image, m, asid, next, end, access);
        var (m', r') := TouchFrom(m, asid, next, end, access);
        TouchCompose(image, m, m, asid, page, end, access, m', r');
      }
    }
  }

  // ------------------------------------------------------ what copying does

  /** The byte an observer finds at an address. */
  ghost function Byte(image: Image, s: Sys, x: nat, a: nat): Option<byte> {
    var c := View(image, s.m, x, a);
    if c.Some? then Some(c.value.value) else if (x, a) in s.anon then Some(s.anon[(x, a)]) else None
  }

  /** What a copy leaves as it was. */
  ghost predicate OnlyBytes(image: Image, s: Sys, s': Sys) {
    && Inv(image, s'.m) && s' == s.(m := s.m.(frames := s'.m.frames), anon := s'.anon)
    && s'.m.frames.Keys == s.m.frames.Keys
  }

  lemma PokeByte(image: Image, s: Sys, asid: nat, a: nat, v: byte)
    requires Inv(image, s.m)
    requires Governed(s.m.pager, asid, PageOf(a)) ==> (asid, PageOf(a)) in s.m.frames
    ensures var s' := Poke(s, asid, a, v);
            && OnlyBytes(image, s, s')
            && forall x: nat, b: nat :: Byte(image, s', x, b) == if x == asid && b == a then Some(v) else Byte(image, s, x, b)
  {
    hide Eager, Governed, AllWellFormed, AllComplete, Aligned, PageOf;
    var s' := Poke(s, asid, a, v);
    GovernedHasMemory(image, s.m, asid, a);
    forall k | k in s'.m.frames
      ensures FrameOk(image, s'.m, k)
    {
      assert FrameOk(image, s.m, k);
    }
    forall x: nat, b: nat
      ensures Byte(image, s', x, b) == if x == asid && b == a then Some(v) else Byte(image, s, x, b)
    {
      if x == asid && PageOf(b) == PageOf(a) {
        PageBounds(a);
        PageBounds(b);
      }
    }
  }

  lemma {:induction false} PokeAllBytes(image: Image, s: Sys, asid: nat, addr: nat, data: seq<byte>)
    requires Inv(image, s.m)
    requires forall a :: addr <= a < addr + |data| && Governed(s.m.pager, asid, PageOf(a)) ==> (asid, PageOf(a)) in s.m.frames
    ensures var s' := PokeAll(s, asid, addr, data);
            && OnlyBytes(image, s, s')
            && forall x: nat, a: nat :: Byte(image, s', x, a) ==
                                        if x == asid && addr <= a < addr + |data| then Some(data[a - addr]) else Byte(image, s, x, a)
  {
    hide Inv, Byte, Poke, PageOf, Governed;
    if data != [] {
      var n := |data| - 1;
      PokeAllBytes(image, s, asid, addr, data[..n]);
      PokeByte(image, PokeAll(s, asid, addr, data[..n]), asid, addr + n, data[n]);
    }
  }

  /** Touching a range that is already in and permitted does nothing. */
  lemma {:induction false} TouchAgain(m: Machine, asid: nat, page: nat, end: nat, access: AccessKind)
    requires Consistent(m.pager) && Aligned(page)
    requires Permitted(m, asid, page, end, access) && AllResident(m, asid, page, end)
    ensures TouchFrom(m, asid, page, end, access) == (m, TouchOk)
    decreases if page < end then end - page else 0
  {
    hide Aligned, Touching, Resolved, Consistent;
    NextPage(page, page);
    if page < end {
      assert Governed(m.pager, asid, page) ==> access in TablePerm(m.pager, asid, page);
      TouchAgain(m, asid, page + PAGE_SIZE, end, access);
    }
  }

  // ------------------------------------------------------- one attempt's end

  ghost predicate SysOk(image: Image, s: Sys, call: Call) {
    && Inv(image, s.m) && Sound(image) && call.asid in s.m.live
    && Layout(call.file) && Complete(call.file, image.truth) && call.file.size < U64_LIMIT
  }

  /** The buffer cannot be written: it runs off the address space, or a governed page of
      it is not writable. */
  ghost predicate BufferFaults(s: Sys, call: Call) {
    && call.Len() > 0 && HasLazy(s.m.pager)
    && (call.buf + call.Len() >= U64_LIMIT
        || !Permitted(s.m, call.asid, PageOf(call.buf), call.buf + call.Len(), WriteAccess))
  }

  /** The bytes of the file the call asks for. */
  ghost function Data(image: Image, s: Sys, call: Call): seq<byte>
    requires Complete(call.file, image.truth)
  {
    var all := Contents(call.file, image.truth);
    if s.offset < |all| then all[s.offset..s.offset + Min(Min(call.count, 0x40_0000), |all| - s.offset)] else []
  }

  lemma DataCount(image: Image, s: Sys, call: Call)
    requires Complete(call.file, image.truth)
    ensures var size := call.file.size;
            |Data(image, s, call)| == if s.offset < size then Min(Min(call.count, 0x40_0000), size - s.offset) else 0
  {
    hide Contents, Complete;
    ContentsLength(call.file, image.truth);
  }

  /** Every chunk the call may have to wait for. */
  ghost function Needs(s: Sys, call: Call): set<Hash>
    requires Consistent(s.m.pager) && Layout(call.file)
  {
    RangeNeeds(s.m.pager, call.asid, PageOf(call.buf), call.buf + call.Len())
    + Touched(call.file, s.offset, call.Len())
  }

  /** The hash the host is asked for. */
  ghost predicate Asks(s: Sys, hash: Hash) {
    if s.m.Waiting() then s.m.pager.pending.value.hash == hash && s.wait.None?
    else s.wait.Some? && s.wait.value.hash == hash
  }

  /** How a call ends, as one read on a fully resident image would: the file's bytes at the
      descriptor's offset, as many as were asked for, a read may give and the file has, copied to
      the buffer and counted; or a fault that changes nothing. */
  ghost predicate EndsAsResident(image: Image, s: Sys, call: Call, s': Sys, o: Outcome)
    requires Complete(call.file, image.truth)
  {
    var data, size := Data(image, s, call), call.file.size;
    if BufferFaults(s, call) then
      && o == Failed(EFAULT) && s'.offset == s.offset
      && forall x: nat, a: nat :: Byte(image, s', x, a) == Byte(image, s, x, a)
    else
      && |data| == (if s.offset < size then Min(Min(call.count, 0x40_0000), size - s.offset) else 0)
      && o == Returned(|data|) && s'.offset == s.offset + |data|
      && forall x: nat, a: nat :: Byte(image, s', x, a) ==
                                  if x == call.asid && call.buf <= a < call.buf + |data| then Some(data[a - call.buf])
                                  else Byte(image, s, x, a)
  }

  /** A suspension: nothing observable has changed, and one absent chunk is asked for. */
  ghost predicate Pauses(image: Image, s: Sys, call: Call, s': Sys)
    requires Consistent(s.m.pager) && Layout(call.file)
  {
    && Warmer(image, s.m, s'.m) && s'.offset == s.offset && s'.anon == s.anon
    && s'.Waiting() && !(s'.m.Waiting() && s'.wait.Some?) && forall h :: Asks(s', h) ==> h in Needs(s, call) && h !in s.m.store.chunks
  }

  lemma NoLazyNoGoverned(p: PagerState, asid: nat, page: nat)
    requires !HasLazy(p)
    ensures !Governed(p, asid, page)
  {
    assert asid in p.spaces ==> p.spaces[asid].mappings == [];
  }

  lemma TouchBuffer(image: Image, s: Sys, call: Call)
    requires SysOk(image, s, call) && !s.Waiting()
    ensures var (m, r) := Touch(s.m, call.asid, call.buf, call.Len(), WriteAccess);
            && Warmer(image, s.m, m)
            && (r.TouchFailed? <==> BufferFaults(s, call) && !r.TouchSuspended?)
            && (r.TouchFailed? ==> r.errno == EFAULT)
            && (r.TouchOk? ==> !m.Waiting() && !BufferFaults(s, call))
            && (r.TouchOk? && call.Len() > 0 ==>
                  && AllResident(m, call.asid, PageOf(call.buf), call.buf + call.Len())
                  && (HasLazy(m.pager) ==>
                        && call.buf + call.Len() < U64_LIMIT
                        && Permitted(m, call.asid, PageOf(call.buf), call.buf + call.Len(), WriteAccess)))
            && (r.TouchSuspended? ==> m.Waiting() && m.pager.pending.value.hash in Needs(s, call)
                                      && m.pager.pending.value.hash !in s.m.store.chunks)
  {
    hide Inv, Permitted, AllResident, View, PageOf, Aligned, RangeNeeds;
    assert Consistent(s.m.pager) by { InvSpaces(image, s.m, call.asid); }
    WarmerItself(image, s.m);
    if call.Len() > 0 && HasLazy(s.m.pager) && call.buf + call.Len() < U64_LIMIT {
      PageBounds(call.buf);
      TouchMeetsSpec(image, s.m, call.asid, PageOf(call.buf), call.buf + call.Len(), WriteAccess);
      var m := Touch(s.m, call.asid, call.buf, call.Len(), WriteAccess).0;
      SameTables(s.m, m, call.asid, PageOf(call.buf), call.buf + call.Len(), WriteAccess);
    } else if !HasLazy(s.m.pager) {
      assert AllResident(s.m, call.asid, PageOf(call.buf), call.buf + call.Len()) by { NoLazyAllResident(s.m, call); }
    }
  }

  lemma NoLazyAllResident(m: Machine, call: Call)
    requires !HasLazy(m.pager)
    ensures AllResident(m, call.asid, PageOf(call.buf), call.buf + call.Len())
  {
    forall p: nat
      ensures !Governed(m.pager, call.asid, p)
    {
      NoLazyNoGoverned(m.pager, call.asid, p);
    }
  }

  lemma AttemptEnds(image: Image, s: Sys, call: Call)
    requires SysOk(image, s, call) && !s.Waiting()
    ensures Consistent(s.m.pager)
    ensures var (s', o) := Attempt(s, call);
            if o.Suspended? then Pauses(image, s, call, s') else EndsAsResident(image, s, call, s', o)
  {
    hide Inv, Permitted, AllResident, View, PageOf, Aligned, RangeNeeds, Complete, Layout, Contents, Touch, Touched,
         Byte, Data, BufferFaults, WriteBack, Read, HasLazy, PokeAll, Needs;
    assert Consistent(s.m.pager) by { InvSpaces(image, s.m, call.asid); }
    TouchBuffer(image, s, call);
    DataCount(image, s, call);
    var (m, r) := Touch(s.m, call.asid, call.buf, call.Len(), WriteAccess);
    SameBytes(image, s, s.(m := m));
    if r.TouchOk? {
      FileRead(image, s, m, call);
      var got := Read(call.file, m.store.chunks, s.offset, call.Len());
      if got.Ready? {
        var s1 := s.(m := m, offset := s.offset + |got.bytes|);
        SameBytes(image, s, s1);
        CopyOut(image, s1, call, got.bytes);
      }
    }
  }

  /** Bringing pages in changes no byte. */
  lemma SameBytes(image: Image, s: Sys, s': Sys)
    requires Warmer(image, s.m, s'.m) && s'.anon == s.anon
    ensures forall x: nat, a: nat :: Byte(image, s', x, a) == Byte(image, s, x, a)
  {
    hide View, Inv;
  }

  lemma FileRead(image: Image, s: Sys, m: Machine, call: Call)
    requires SysOk(image, s, call) && m.store == s.m.store && Consistent(s.m.pager)
    ensures match Read(call.file, m.store.chunks, s.offset, call.Len())
            case Ready(data) => data == Data(image, s, call) && |data| <= call.Len()
            case Missing(h) => h in Needs(s, call) && h !in s.m.store.chunks
            case Invalid => false
  {
    hide Complete, Layout, Contents, RangeNeeds, Touched, SpacesOk, FrameOk;
    assert Agrees(m.store.chunks, image.truth) by { VerifiedAgrees(m.store.chunks, image.digest, image.truth); }
    ReadRefinesContents(call.file, m.store.chunks, image.truth, s.offset, call.Len());
    ContentsLength(call.file, image.truth);
    var got := Read(call.file, m.store.chunks, s.offset, call.Len());
    if got.Ready? {
      assert got.bytes == Data(image, s, call);
    }
  }

  /** After the whole buffer is in, the copy can neither fail nor suspend. */
  lemma CopyOut(image: Image, s: Sys, call: Call, data: seq<byte>)
    requires Inv(image, s.m) && Consistent(s.m.pager) && |data| <= call.Len()
    requires call.Len() > 0 && HasLazy(s.m.pager) ==>
               call.buf + call.Len() < U64_LIMIT
               && Permitted(s.m, call.asid, PageOf(call.buf), call.buf + call.Len(), WriteAccess)
    requires call.Len() > 0 ==> AllResident(s.m, call.asid, PageOf(call.buf), call.buf + call.Len())
    ensures WriteBack(s, call, data) == (PokeAll(s, call.asid, call.buf, data), Returned(|data|))
    ensures OnlyBytes(image, s, PokeAll(s, call.asid, call.buf, data))
    ensures forall x: nat, a: nat :: Byte(image, PokeAll(s, call.asid, call.buf, data), x, a) ==
                                     if x == call.asid && call.buf <= a < call.buf + |data| then Some(data[a - call.buf])
                                     else Byte(image, s, x, a)
  {
    hide Aligned, PageOf, Byte, PokeAll, TouchFrom, View, SpacesOk, FrameOk, Governed, TablePerm;
    PageBounds(call.buf);
    if |data| > 0 {
      if HasLazy(s.m.pager) {
        TouchAgain(s.m, call.asid, PageOf(call.buf), call.buf + |data|, WriteAccess);
      }
      forall a | call.buf <= a < call.buf + |data| && Governed(s.m.pager, call.asid, PageOf(a))
        ensures (call.asid, PageOf(a)) in s.m.frames
      {
        PageBounds(a);
        PageOrder(call.buf, a);
      }
    }
    PokeAllBytes(image, s, call.asid, call.buf, data);
  }

  lemma PageOrder(a: nat, b: nat)
    requires a <= b
    ensures PageOf(a) <= PageOf(b)
  {
  }

  // -------------------------------------------------------------- whole calls

  /** What happens while a call is in progress: the machine runs (a paused machine stays
      paused), the host answers a ticket, or the host adds a chunk on its own. */
  datatype Event =
    | Resume
    | Arrive(ticket: nat, bytes: seq<byte>, capacity: nat)
    | Add(hash: Hash, bytes: seq<byte>, capacity: nat)

  /** The host answers a ticket. */
  function Delivered(image: Image, s: Sys, ticket: nat, bytes: seq<byte>, capacity: nat): (r: Sys)
    ensures r.m.pager.spaces == s.m.pager.spaces
  {
    if s.m.Waiting() && s.m.pager.pending.value.ticket == ticket then
      var (p, store) := Completed(s.m.pager, s.m.store, image.digest, ticket, bytes, capacity);
      s.(m := s.m.(pager := p, store := store))
    else if s.wait.Some? && s.wait.value.ticket == ticket && Admits(s.m.store, image.digest, s.wait.value.hash, bytes, capacity) then
      s.(m := s.m.(store := Put(s.m.store, s.wait.value.hash, bytes, capacity)), wait := None)
    else s
  }

  function Added(image: Image, s: Sys, hash: Hash, bytes: seq<byte>, capacity: nat): Sys {
    if Admits(s.m.store, image.digest, hash, bytes, capacity)
    then s.(m := s.m.(store := Put(s.m.store, hash, bytes, capacity))) else s
  }

  /** An answer that the store accepts ends the wait it is for, and the chunk is there; so is one
      that the host adds on its own. */
  lemma DeliveryBrings(image: Image, s: Sys, ticket: nat, bytes: seq<byte>, capacity: nat)
    ensures var s' := Delivered(image, s, ticket, bytes, capacity);
            if s.m.Waiting() && s.m.pager.pending.value.ticket == ticket then
              s'.wait == s.wait &&
              (Accepts(s.m.pager, s.m.store, image.digest, ticket, bytes, capacity) ==>
                s'.m.pager.pending.None? && s.m.pager.pending.value.hash in s'.m.store.chunks)
            else if s.wait.Some? && s.wait.value.ticket == ticket && Admits(s.m.store, image.digest, s.wait.value.hash, bytes, capacity) then
              s'.wait.None? && s'.m.pager == s.m.pager && s.wait.value.hash in s'.m.store.chunks
            else s' == s
    ensures forall hash :: Admits(s.m.store, image.digest, hash, bytes, capacity) ==>
              hash in Added(image, s, hash, bytes, capacity).m.store.chunks && Added(image, s, hash, bytes, capacity).wait == s.wait
  {
  }

  /** Plays events until the call ends: the final state, the outcome (`Suspended` if it has
      not ended), and how many answered tickets brought in a new chunk. */
  ghost function Play(image: Image, s: Sys, call: Call, es: seq<Event>): (Sys, Outcome, nat)
    requires Consistent(s.m.pager) && Layout(call.file)
    decreases |es|
  {
    if es == [] then (s, Suspended, 0)
    else
      match es[0]
      case Resume =>
        if s.Waiting() then Play(image, s, call, es[1..])
        else
          var (s', o) := Attempt(s, call);
          if o.Suspended? then Play(image, s', call, es[1..]) else (s', o, 0)
      case Arrive(ticket, bytes, capacity) =>
        var s' := Delivered(image, s, ticket, bytes, capacity);
        var (end, o, n) := Play(image, s', call, es[1..]);
        (end, o, if s'.m.store.chunks.Keys == s.m.store.chunks.Keys then n else n + 1)
      case Add(hash, bytes, capacity) =>
        Play(image, Added(image, s, hash, bytes, capacity), call, es[1..])
  }

  /** Nothing that matters to the call has changed. */
  ghost predicate SameCall(image: Image, s: Sys, s': Sys) {
    && Inv(image, s'.m) && s'.m.pager.spaces == s.m.pager.spaces && s'.m.live == s.m.live
    && s'.offset == s.offset && s'.anon == s.anon
    && forall x: nat, a: nat :: View(image, s'.m, x, a) == View(image, s.m, x, a)
  }

  /** An outstanding request is for one of the call's chunks, and there is only one. */
  ghost predicate InProgress(image: Image, s: Sys, call: Call) {
    && SysOk(image, s, call) && Consistent(s.m.pager)
    && !(s.m.Waiting() && s.wait.Some?) && forall h :: Asks(s, h) ==> h in Needs(s, call)
  }

  lemma SameCallSameEnd(image: Image, s: Sys, s1: Sys, call: Call)
    requires SysOk(image, s, call) && SameCall(image, s, s1) && Consistent(s.m.pager)
    ensures Needs(s, call) == Needs(s1, call) && BufferFaults(s, call) == BufferFaults(s1, call)
    ensures Data(image, s, call) == Data(image, s1, call)
    ensures forall x: nat, a: nat :: Byte(image, s1, x, a) == Byte(image, s, x, a)
    ensures SysOk(image, s1, call)
  {
    hide View, Inv, RangeNeeds, Permitted, PageOf, Complete, Layout, Contents, Touched;
    SameTables(s.m, s1.m, call.asid, PageOf(call.buf), call.buf + call.Len(), WriteAccess);
  }

  lemma PauseIsSameCall(image: Image, s: Sys, call: Call, s': Sys)
    requires InProgress(image, s, call) && Pauses(image, s, call, s')
    ensures SameCall(image, s, s') && InProgress(image, s', call) && s'.m.store == s.m.store
  {
    hide View, Inv, Needs, Complete, Layout;
    SameCallSameEnd(image, s, s', call);
  }

  lemma PutVerified(store: Store, digest: seq<byte> -> Hash, hash: Hash, bytes: seq<byte>, capacity: nat)
    requires Verified(store.chunks, digest) && Admits(store, digest, hash, bytes, capacity)
    ensures Verified(Put(store, hash, bytes, capacity).chunks, digest)
    ensures Put(store, hash, bytes, capacity).chunks.Keys == store.chunks.Keys + {hash}
  {
  }

  ghost function Arrived(s: Sys): set<Hash> {
    s.m.store.chunks.Keys
  }

  lemma DeliveryKeeps(image: Image, s: Sys, call: Call, ticket: nat, bytes: seq<byte>, capacity: nat)
    requires InProgress(image, s, call)
    ensures var s' := Delivered(image, s, ticket, bytes, capacity);
            && SameCall(image, s, s') && InProgress(image, s', call)
            && Arrived(s) <= Arrived(s') && Arrived(s') - Arrived(s) <= Needs(s, call)
  {
    hide View, Needs, Complete, Layout, Admits, SpacesOk, FrameOk, Current, Put;
    var s' := Delivered(image, s, ticket, bytes, capacity);
    if s.m.Waiting() && Admits(s.m.store, image.digest, s.m.pager.pending.value.hash, bytes, capacity) {
      PutVerified(s.m.store, image.digest, s.m.pager.pending.value.hash, bytes, capacity);
      assert Asks(s, s.m.pager.pending.value.hash);
    }
    if s.wait.Some? && Admits(s.m.store, image.digest, s.wait.value.hash, bytes, capacity) {
      PutVerified(s.m.store, image.digest, s.wait.value.hash, bytes, capacity);
      assert !s.m.Waiting() ==> Asks(s, s.wait.value.hash);
    }
    DeliveredFrames(image, s, ticket, bytes, capacity);
    SameCallSameEnd(image, s, s', call);
  }

  lemma DeliveredFrames(image: Image, s: Sys, ticket: nat, bytes: seq<byte>, capacity: nat)
    requires Inv(image, s.m) && Verified(Delivered(image, s, ticket, bytes, capacity).m.store.chunks, image.digest)
    ensures var m' := Delivered(image, s, ticket, bytes, capacity).m;
            && Inv(image, m') && m'.pager.spaces == s.m.pager.spaces && m'.live == s.m.live
            && forall x: nat, a: nat :: View(image, m', x, a) == View(image, s.m, x, a)
  {
    hide Inv, View, Admits, InStep, NoLoose, Current, Put;
    SameFrames(image, s.m, Delivered(image, s, ticket, bytes, capacity).m);
  }

  lemma AddKeeps(image: Image, s: Sys, call: Call, hash: Hash, bytes: seq<byte>, capacity: nat)
    requires InProgress(image, s, call)
    ensures var s' := Added(image, s, hash, bytes, capacity);
            SameCall(image, s, s') && InProgress(image, s', call) && Arrived(s) <= Arrived(s')
  {
    hide View, Needs, Complete, Layout, Admits, SpacesOk, FrameOk, InStep, NoLoose, Put;
    var s' := Added(image, s, hash, bytes, capacity);
    if Admits(s.m.store, image.digest, hash, bytes, capacity) {
      PutVerified(s.m.store, image.digest, hash, bytes, capacity);
    }
    SameFrames(image, s.m, s'.m);
    SameCallSameEnd(image, s, s', call);
  }

  lemma FewerLeft(needs: set<Hash>, have: set<Hash>, now: set<Hash>)
    requires have <= now
    ensures |needs - now| <= |needs - have|
    ensures now - have <= needs && now != have ==> |needs - now| < |needs - have|
  {
    SubsetSize(needs - now, needs - have);
    if now - have <= needs && now != have {
      assert !(now <= have);
      var h :| h in now && h !in have;
      assert h in now - have;
      SubsetSize(needs - now, (needs - have) - {h});
    }
  }

  lemma {:induction false} SubsetSize(a: set<Hash>, b: set<Hash>)
    requires a <= b
    ensures |a| <= |b|
  {
    if a != {} {
      var x :| x in a;
      SubsetSize(a - {x}, b - {x});
    }
  }

  lemma EndTransfers(image: Image, s: Sys, s1: Sys, call: Call, end: Sys, o: Outcome)
    requires SysOk(image, s, call) && SameCall(image, s, s1) && Consistent(s.m.pager)
    requires EndsAsResident(image, s1, call, end, o)
    ensures EndsAsResident(image, s, call, end, o)
  {
    hide View, Inv, BufferFaults, Data, Byte, Complete, Layout, Needs;
    SameCallSameEnd(image, s, s1, call);
  }

  /** However often a read is suspended and replayed, whatever arrives and in whatever
      order, it ends as one read on a fully resident image would, and the answered tickets
      that brought in a new chunk are no more than the absent chunks the call touches. */
  lemma {:induction false} ReadIsRestartable(image: Image, s: Sys, call: Call, es: seq<Event>)
    requires InProgress(image, s, call)
    ensures var (end, o, n) := Play(image, s, call, es);
            && n <= |Needs(s, call) - Arrived(s)|
            && (!o.Suspended? ==> EndsAsResident(image, s, call, end, o))
    decreases |es|, 0
  {
    hide SysOk, SameCall, Needs, Attempt, Delivered, Added, EndsAsResident, Pauses, Complete, Layout;
    if es != [] {
      assert Layout(call.file) && Complete(call.file, image.truth) by { CallFile(image, s, call); }
      match es[0]
      case Resume =>
        if s.Waiting() {
          ReadIsRestartable(image, s, call, es[1..]);
        } else {
          AttemptEnds(image, s, call);
          var (s1, o) := Attempt(s, call);
          if o.Suspended? {
            PauseIsSameCall(image, s, call, s1);
            Continue(image, s, s1, call, es[1..]);
          }
        }
      case Arrive(ticket, bytes, capacity) =>
        DeliveryKeeps(image, s, call, ticket, bytes, capacity);
        Continue(image, s, Delivered(image, s, ticket, bytes, capacity), call, es[1..]);
      case Add(hash, bytes, capacity) =>
        AddKeeps(image, s, call, hash, bytes, capacity);
        Continue(image, s, Added(image, s, hash, bytes, capacity), call, es[1..]);
    }
  }

  lemma CallFile(image: Image, s: Sys, call: Call)
    requires SysOk(image, s, call)
    ensures Layout(call.file) && Complete(call.file, image.truth)
  {
  }

  /** The rest of a call, seen from the state before the last event. */
  lemma {:induction false} Continue(image: Image, s: Sys, s1: Sys, call: Call, es: seq<Event>)
    requires InProgress(image, s, call) && InProgress(image, s1, call) && SameCall(image, s, s1) && Arrived(s) <= Arrived(s1)
    ensures Layout(call.file) && Complete(call.file, image.truth)
    ensures var (end, o, n) := Play(image, s1, call, es);
            && n <= |Needs(s, call) - Arrived(s)|
            && (Arrived(s1) - Arrived(s) <= Needs(s, call) && Arrived(s1) != Arrived(s) ==> n < |Needs(s, call) - Arrived(s)|)
            && (!o.Suspended? ==> EndsAsResident(image, s, call, end, o))
    decreases |es|, 1
  {
    hide Inv, View, Play, BufferFaults, Data, Byte, Complete, Layout, Needs, EndsAsResident;
    ReadIsRestartable(image, s1, call, es);
    SameCallSameEnd(image, s, s1, call);
    FewerLeft(Needs(s, call), Arrived(s), Arrived(s1));
    var (end, o, n) := Play(image, s1, call, es);
    if !o.Suspended? {
      EndTransfers(image, s, s1, call, end, o);
    }
  }

  lemma SomethingAsked(s: Sys)
    requires s.Waiting() && !(s.m.Waiting() && s.wait.Some?)
    ensures exists h :: Asks(s, h)
  {
    assert Asks(s, if s.m.Waiting() then s.m.pager.pending.value.hash else s.wait.value.hash);
  }

  /** Once every chunk the call touches is here, the next attempt ends it. */
  lemma ReadFinishes(image: Image, s: Sys, call: Call)
    requires InProgress(image, s, call) && !s.Waiting() && Needs(s, call) <= Arrived(s)
    ensures !Attempt(s, call).1.Suspended?
  {
    hide Inv, View, Needs, Attempt, EndsAsResident, Complete, Layout;
    AttemptEnds(image, s, call);
    var (s', o) := Attempt(s, call);
    if o.Suspended? {
      SomethingAsked(s');
    }
  }

  // ------------------------------------------------------------ the handlers

  class ReadEnv {
    const pager: Pager
    const vfs: ChunkStore
    var frames: map<(nat, nat), Frame>
    var anon: map<(nat, nat), byte>
    var offset: nat
    var wait: Option<FileRequest>
    var nextFileTicket: nat
    ghost var live: set<nat>
    ghost var nextAsid: nat

    constructor (pager: Pager, vfs: ChunkStore, offset: nat)
      ensures this.pager == pager && this.vfs == vfs
      ensures frames == map[] && anon == map[] && this.offset == offset && wait == None && nextFileTicket == 0
    {
      this.pager, this.vfs, this.offset := pager, vfs, offset;
      frames, anon, wait, nextFileTicket := map[], map[], None, 0;
      live, nextAsid := {}, 0;
    }

    ghost function MachineView(): Machine
      reads this, pager, vfs
    {
      Machine(pager.View(), vfs.View(), frames, live, nextAsid)
    }

    ghost function View(): Sys
      reads this, pager, vfs
    {
      Sys(MachineView(), anon, offset, wait, nextFileTicket)
    }

    method HostTouch(asid: nat, addr: nat, len: nat, access: AccessKind) returns (r: TouchResult)
      requires Consistent(pager.View())
      modifies this`frames, pager
      ensures (MachineView(), r) == old(Touch(MachineView(), asid, addr, len, access))
    {
      hide Resolved, Consistent;
      if len == 0 || !HasLazy(pager.View()) {
        return TouchOk;
      }
      var end := addr + len;
      if end >= U64_LIMIT {
        return TouchFailed(EFAULT);
      }
      var page := PageOf(addr);
      while page < end
        invariant Consistent(pager.View())
        invariant TouchFrom(MachineView(), asid, page, end, access) == old(Touch(MachineView(), asid, addr, len, access))
        decreases if page < end then end - page else 0
      {
        var ts := FilterTouching(MappingsOf(pager.View(), asid), page);
        if ts == [] {
          page := page + PAGE_SIZE;
          continue;
        }
        if access !in ts[|ts| - 1].perm {
          return TouchFailed(EFAULT);
        }
        if (asid, page) !in pager.resident {
          ghost var before := pager.View();
          var answer := pager.Resolve(vfs, asid, page, access);
          SameSpacesConsistent(before, pager.View());
          match answer
          case ReadyPage(at, bytes, perm) =>
            frames := frames[(asid, at) := Frame(bytes, perm)];
            pager.MarkResident(asid, at);
            SameSpacesConsistent(before, pager.View());
          case MissingPage(_) => return TouchSuspended;
          case InvalidPage => return TouchFailed(EIO);
          case NotLazy =>
        }
        page := page + PAGE_SIZE;
      }
      r := TouchOk;
    }

    method WriteMem(call: Call, data: seq<byte>) returns (r: Outcome)
      requires Consistent(pager.View())
      modifies this, pager
      ensures (View(), r) == old(WriteBack(View(), call, data))
    {
      hide Resolved, Consistent, Touch;
      var touched := HostTouch(call.asid, call.buf, |data|, WriteAccess);
      match touched
      case TouchFailed(errno) => return Failed(errno);
      case TouchSuspended => return Suspended;
      case TouchOk =>
        WriteRaw(call.asid, call.buf, data);
        r := Returned(|data|);
    }

    method WriteRaw(asid: nat, addr: nat, data: seq<byte>)
      modifies this`frames, this`anon
      ensures View() == old(PokeAll(View(), asid, addr, data))
    {
      ghost var start := View();
      for i := 0 to |data|
        invariant View() == PokeAll(start, asid, addr, data[..i])
      {
        assert data[..i + 1][..i] == data[..i];
        var a := addr + i;
        var k := (asid, PageOf(a));
        if k in frames && |frames[k].bytes| == PAGE_SIZE {
          frames := frames[k := frames[k].(bytes := frames[k].bytes[a % PAGE_SIZE := data[i]])];
        } else {
          anon := anon[(asid, a) := data[i]];
        }
      }
      assert data[..|data|] == data;
    }

    /** `read` on a regular file: one attempt. */
    method OutcomeRead(call: Call) returns (r: Outcome)
      requires Consistent(pager.View()) && Layout(call.file) && call.file.size < U64_LIMIT
      modifies this, pager
      ensures (View(), r) == old(Attempt(View(), call))
    {
      hide Resolved, Consistent, Touch, WriteBack, Layout, Read;
      var len := call.Len();
      ghost var start := pager.View();
      var touched := HostTouch(call.asid, call.buf, len, WriteAccess);
      match touched
      case TouchFailed(errno) => return Failed(errno);
      case TouchSuspended => return Suspended;
      case TouchOk =>
        var chunk := vfs.ReadFrom(call.file, offset, len);
        match chunk
        case Invalid => return Failed(EIO);
        case Missing(hash) =>
          if wait.Some? {
            return if wait.value.hash == hash then Suspended else Failed(EIO);
          }
          nextFileTicket := Bump(nextFileTicket);
          wait := Some(FileRequest(FileTicket(nextFileTicket), hash));
          return Suspended;
        case Ready(data) =>
          offset := offset + |data|;
          SameSpacesConsistent(start, pager.View());
          r := WriteMem(call, data);
    }
  }

  lemma SameSpacesConsistent(p: PagerState, p': PagerState)
    requires Consistent(p) && p'.spaces == p.spaces
    ensures Consistent(p')
  {
  }
}

/** `munmap` and `mprotect` as the system calls make them: first the hardware, byte by byte, then
    the pager, if the hardware found every byte mapped. What they leave in tune with each other,
    and exactly when they do not. */
module MemoryCalls {
  import opened Base
  import opened Chunks
  import opened Mappings
  import opened DemandPager
  import LazyMachine
  import opened RestartableRead

  /** What the hardware has at each address of one space: nothing, or a permission. */
  type Hardware = nat -> Option<Perm>

  datatype Space = Space(asid: nat, hw: Hardware, pager: PagerState)

  ghost predicate Mapped(hw: Hardware, start: nat, end: nat) {
    forall a :: start <= a < end ==> hw(a).Some?
  }

  function AlignUp(len: nat): nat {
    (len + PAGE_SIZE - 1) / PAGE_SIZE * PAGE_SIZE
  }

  lemma AlignUpIs(len: nat)
    ensures Aligned(AlignUp(len)) && len <= AlignUp(len) < len + PAGE_SIZE
  {
  }

  // ------------------------------------------------------------ the hardware

  /** Unmaps what there is of the range, holes or not; an overflowing range is refused. */
  ghost function HardUnmap(hw: Hardware, start: nat, len: nat): Hardware {
    (a: nat) => if start <= a < start + len <= U64_LIMIT then None else hw(a)
  }

  ghost predicate UnmapsWhole(hw: Hardware, start: nat, len: nat) {
    0 < len && start + len <= U64_LIMIT && Mapped(hw, start, start + len)
  }

  /** Changes permissions from the top of the range down, and stops at the first hole. */
  ghost function HardProtect(hw: Hardware, start: nat, len: nat, perm: Perm): Hardware {
    (a: nat) => if start <= a < start + len <= U64_LIMIT && Mapped(hw, a, start + len) then Some(perm) else hw(a)
  }

  ghost predicate ProtectsWhole(hw: Hardware, start: nat, len: nat) {
    len == 0 || (start + len <= U64_LIMIT && Mapped(hw, start, start + len))
  }

  // --------------------------------------------------------------- the calls

  /** `munmap`: the pager is told only when the hardware found no hole. */
  ghost function Munmap(s: Space, start: nat, len: nat): Space {
    Space(s.asid, HardUnmap(s.hw, start, len),
          if UnmapsWhole(s.hw, start, len) then UnmappedSpace(s.pager, s.asid, start, AlignUp(len)) else s.pager)
  }

  /** One of the pages that `NonresidentPages` lists. */
  predicate Cold(p: PagerState, asid: nat, start: nat, end: nat, page: nat) {
    Nonresident(p, asid, start, page) && page < end
  }

  /** `mprotect`: the table gets the permission, and cold pages are made inaccessible again. */
  ghost function Mprotect(s: Space, start: nat, len: nat, perm: Perm): Space {
    var size := AlignUp(len);
    var hw := HardProtect(s.hw, start, size, perm);
    if !ProtectsWhole(s.hw, start, size) then s.(hw := hw)
    else
      var pager := ProtectedSpace(s.pager, s.asid, start, size, perm);
      Space(s.asid,
            (a: nat) => if Cold(pager, s.asid, start, start + size, PageOf(a)) then HardProtect(hw, PageOf(a), PAGE_SIZE, {})(a) else hw(a),
            pager)
  }

  // -------------------------------------------------------------- in tune

  /** What the hardware must have at a byte of a governed page: the permission of the table once
      the page is in, and none at all before, so that the first access faults. */
  function Wanted(p: PagerState, asid: nat, page: nat): Perm {
    if (asid, page) in p.resident then LazyMachine.TablePerm(p, asid, page) else {}
  }

  ghost predicate InTuneAt(s: Space, a: nat) {
    Governed(s.pager, s.asid, PageOf(a)) ==> s.hw(a) == Some(Wanted(s.pager, s.asid, PageOf(a)))
  }

  ghost predicate InTune(s: Space) {
    forall a: nat :: InTuneAt(s, a)
  }

  /** Who governs an address, and with what permission, is what the eager memory says. */
  lemma {:induction false} GovernedIsEager(ms: seq<FileMapping>, a: nat)
    ensures Touching(ms, a) != [] <==> Eager(ms, map[], a).Some?
    ensures Touching(ms, a) != [] ==> Touching(ms, a)[|Touching(ms, a)| - 1].perm == Eager(ms, map[], a).value.perm
  {
    hide Touching, LoadedValue, TailOffset;
    if ms == [] {
      TouchingNothing(a);
    } else {
      var front, m := ms[..|ms| - 1], ms[|ms| - 1];
      assert ms == front + [m];
      GovernedIsEager(front, a);
      TouchingMore(front, m, a);
      EagerMore(front, m, map[], a);
    }
  }

  ghost predicate TableOk(s: Space) {
    AllWellFormed(MappingsOf(s.pager, s.asid))
  }

  /** After an unmap a page is governed exactly if it was and its first byte is outside. */
  lemma UnmappedGoverns(p: PagerState, asid: nat, start: nat, len: nat, page: nat)
    requires AllWellFormed(MappingsOf(p, asid)) && start + len < U64_LIMIT
    ensures var p' := UnmappedSpace(p, asid, start, len);
            && (Governed(p', asid, page) <==> Governed(p, asid, page) && !(start <= page < start + len))
            && (Governed(p', asid, page) ==> Wanted(p', asid, page) == Wanted(p, asid, page))
  {
    hide Touching, Eager, Unmapped, AllWellFormed;
    var ms, end := MappingsOf(p, asid), start + len;
    if asid in p.spaces {
      GovernedIsEager(ms, page);
      GovernedIsEager(Unmapped(ms, start, end), page);
      UnmapView(ms, map[], start, end, page);
    } else {
      TouchingNothing(page);
    }
  }

  /** After a change of permission a page is governed exactly if it was, with the new permission
      exactly if its first byte is inside. */
  lemma ProtectedGoverns(p: PagerState, asid: nat, start: nat, len: nat, perm: Perm, page: nat)
    requires AllWellFormed(MappingsOf(p, asid)) && start + len < U64_LIMIT
    ensures var p' := ProtectedSpace(p, asid, start, len, perm);
            && p'.resident == p.resident && (Governed(p', asid, page) <==> Governed(p, asid, page))
            && (Governed(p', asid, page) ==>
                  LazyMachine.TablePerm(p', asid, page) ==
                  if start <= page < start + len then perm else LazyMachine.TablePerm(p, asid, page))
  {
    hide Touching, Eager, Protected, AllWellFormed;
    var ms, end := MappingsOf(p, asid), start + len;
    if asid in p.spaces {
      GovernedIsEager(ms, page);
      GovernedIsEager(Protected(ms, start, end, perm), page);
      ProtectView(ms, map[], start, end, perm, page);
    } else {
      TouchingNothing(page);
    }
  }

  /** Where a page is, seen from one of its bytes. */
  lemma PageAround(a: nat, start: nat)
    ensures PageOf(a) <= a < PageOf(a) + PAGE_SIZE && Aligned(PageOf(a))
    ensures a >= start && PageOf(a) < start ==> PageOf(a) == PageOf(start) && !Aligned(start)
    ensures a < start && PageOf(start) <= a ==> PageOf(a) == PageOf(start)
    ensures PageOf(start) <= a ==> PageOf(start) <= PageOf(a)
  {
  }

  /** `munmap` keeps pager and hardware in tune if and only if, when it finds no hole, its address
      is aligned or in a page the pager does not govern, and when it finds one, no byte of the
      range is in a page the pager governs. */
  lemma MunmapInTuneIff(s: Space, start: nat, len: nat)
    requires InTune(s) && TableOk(s) && 0 < len && start + AlignUp(len) < U64_LIMIT
    ensures InTune(Munmap(s, start, len)) <==>
            if Mapped(s.hw, start, start + len) then Aligned(start) || !Governed(s.pager, s.asid, PageOf(start))
            else forall a :: start <= a < start + len ==> !Governed(s.pager, s.asid, PageOf(a))
  {
    hide Governed, Wanted, PageOf, Aligned, UnmappedSpace, AllWellFormed;
    var s' := Munmap(s, start, len);
    AlignUpIs(len);
    if Mapped(s.hw, start, start + len) {
      forall a: nat ensures InTuneAt(s', a) <==> !(start <= a < start + len && PageOf(a) < start && Governed(s.pager, s.asid, PageOf(a))) {
        assert InTuneAt(s, a);
        PageAround(a, start);
        UnmappedGoverns(s.pager, s.asid, start, AlignUp(len), PageOf(a));
      }
      PageAround(start, start);
      AlignedPage(start);
      forall a: nat | start <= a && PageOf(a) < start ensures PageOf(a) == PageOf(start) && !Aligned(start) {
        PageAround(a, start);
      }
      assert InTuneAt(s', start) <==> !(PageOf(start) < start && Governed(s.pager, s.asid, PageOf(start)));
    } else {
      forall a: nat ensures InTuneAt(s', a) <==> !(start <= a < start + len && Governed(s.pager, s.asid, PageOf(a))) {
        assert InTuneAt(s, a);
      }
      forall a: nat | start <= a < start + len && Governed(s.pager, s.asid, PageOf(a)) ensures !InTune(s') {
        assert !InTuneAt(s', a);
      }
    }
  }

  lemma AlignedPage(a: nat)
    ensures PageOf(a) < a <==> !Aligned(a)
  {
  }

  /** A page that is in keeps the table's permission if it gets the one it has. */
  predicate SameWhenIn(p: PagerState, asid: nat, page: nat, perm: Perm) {
    Governed(p, asid, page) && (asid, page) in p.resident ==> LazyMachine.TablePerm(p, asid, page) == perm
  }

  /** A change of permission that finds no hole, at one byte: in tune unless the byte is in the
      page that an unaligned range begins or ends in, and that page is in with another
      permission. */
  lemma ProtectedByte(s: Space, start: nat, len: nat, perm: Perm, a: nat)
    requires InTune(s) && TableOk(s) && start + AlignUp(len) < U64_LIMIT && ProtectsWhole(s.hw, start, AlignUp(len))
    ensures var end := start + AlignUp(len);
            InTuneAt(Mprotect(s, start, len, perm), a) <==>
            ((start <= a < end <==> start <= PageOf(a) < end) || SameWhenIn(s.pager, s.asid, PageOf(a), perm))
  {
    hide Governed, PageOf, ProtectedSpace, AllWellFormed, LazyMachine.TablePerm, Aligned;
    var size := AlignUp(len);
    var s', page, end := Mprotect(s, start, len, perm), PageOf(a), start + size;
    assert InTuneAt(s, a);
    PageAround(a, start);
    ProtectedGoverns(s.pager, s.asid, start, size, perm, page);
    if Governed(s.pager, s.asid, page) && (s.asid, page) !in s.pager.resident {
      ColdByte(s, start, len, perm, a);
    } else {
      var hw, pager := HardProtect(s.hw, start, size, perm), ProtectedSpace(s.pager, s.asid, start, size, perm);
      assert !Cold(pager, s.asid, start, end, page);
      assert s'.pager == pager && s'.hw(a) == hw(a);
      if start <= a < end {
        assert Mapped(s.hw, a, end) && hw(a) == Some(perm);
      } else {
        assert hw(a) == s.hw(a);
      }
    }
  }

  lemma ColdByte(s: Space, start: nat, len: nat, perm: Perm, a: nat)
    requires InTune(s) && TableOk(s) && start + AlignUp(len) < U64_LIMIT && ProtectsWhole(s.hw, start, AlignUp(len))
    requires Governed(s.pager, s.asid, PageOf(a)) && (s.asid, PageOf(a)) !in s.pager.resident
    ensures Mprotect(s, start, len, perm).hw(a) == Some({})
  {
    hide Governed, PageOf, ProtectedSpace, AllWellFormed, LazyMachine.TablePerm, Aligned;
    var size := AlignUp(len);
    var page, end := PageOf(a), start + size;
    PageAround(a, start);
    PageAround(start, a);
    ProtectedGoverns(s.pager, s.asid, start, size, perm, page);
    GovernedPageMapped(s, page);
    PageBelowTop(s, page);
    assert InTuneAt(s, a);
    var hw := HardProtect(s.hw, start, size, perm);
    if PageOf(start) <= page < end {
      assert Mapped(hw, a, page + PAGE_SIZE);
      assert HardProtect(hw, page, PAGE_SIZE, {})(a) == Some({});
    } else {
      PagesApart(start, end, a);
      assert hw(a) == s.hw(a);
    }
  }

  /** A byte outside the pages of a range is outside the range. */
  lemma PagesApart(start: nat, end: nat, a: nat)
    requires start <= end && !(PageOf(start) <= PageOf(a) < end)
    ensures !(start <= a < end)
  {
  }

  lemma GovernedPageMapped(s: Space, page: nat)
    requires InTune(s) && Aligned(page) && Governed(s.pager, s.asid, page)
    ensures forall b :: page <= b < page + PAGE_SIZE ==> s.hw(b).Some?
  {
    hide Governed, Wanted;
    forall b | page <= b < page + PAGE_SIZE ensures s.hw(b).Some? {
      assert PageOf(b) == page;
      assert InTuneAt(s, b);
    }
  }

  lemma PageBelowTop(s: Space, page: nat)
    requires TableOk(s) && Aligned(page) && Governed(s.pager, s.asid, page)
    ensures page + PAGE_SIZE < U64_LIMIT
  {
    hide Layout;
    var ms := MappingsOf(s.pager, s.asid);
    var m := Touching(ms, page)[0];
    assert m in Touching(ms, page);
    assert WellFormed(m) && m.Has(page);
    LazyMachine.MappingHasPage(m, page + PAGE_SIZE - 1);
  }

  /** `mprotect` keeps pager and hardware in tune if and only if, when it finds no hole, its address
      is aligned or neither page it cuts is in with another permission, and when it finds one, every
      governed byte above the last hole has the permission already. */
  lemma MprotectInTuneIff(s: Space, start: nat, len: nat, perm: Perm)
    requires InTune(s) && TableOk(s) && 0 < len && start + AlignUp(len) < U64_LIMIT
    ensures var end := start + AlignUp(len);
            InTune(Mprotect(s, start, len, perm)) <==>
            if Mapped(s.hw, start, end)
            then Aligned(start) || (SameWhenIn(s.pager, s.asid, PageOf(start), perm) && SameWhenIn(s.pager, s.asid, PageOf(end), perm))
            else forall a :: start <= a < end && Mapped(s.hw, a, end) && Governed(s.pager, s.asid, PageOf(a)) ==> s.hw(a) == Some(perm)
  {
    hide Governed, Wanted, PageOf, Aligned, ProtectedSpace, AllWellFormed, SameWhenIn;
    var s', end := Mprotect(s, start, len, perm), start + AlignUp(len);
    AlignUpIs(len);
    if Mapped(s.hw, start, end) {
      forall a: nat
        ensures InTuneAt(s', a) <==>
                ((start <= a < end <==> start <= PageOf(a) < end) || SameWhenIn(s.pager, s.asid, PageOf(a), perm))
        ensures !(start <= a < end <==> start <= PageOf(a) < end) ==> !Aligned(start) && PageOf(a) in {PageOf(start), PageOf(end)}
      {
        ProtectedByte(s, start, len, perm, a);
        CutPages(start, end, a);
      }
      CutEnds(start, end);
      assert InTuneAt(s', start) && InTuneAt(s', end) <==>
             Aligned(start) || (SameWhenIn(s.pager, s.asid, PageOf(start), perm) && SameWhenIn(s.pager, s.asid, PageOf(end), perm));
    } else {
      forall a: nat
        ensures InTuneAt(s', a) <==>
                (start <= a < end && Mapped(s.hw, a, end) && Governed(s.pager, s.asid, PageOf(a)) ==> s.hw(a) == Some(perm))
      {
        assert InTuneAt(s, a);
      }
    }
  }

  /** Only the pages an unaligned range begins and ends in are cut by it. */
  lemma CutPages(start: nat, end: nat, a: nat)
    requires start <= end && Aligned(end - start)
    ensures !(start <= a < end <==> start <= PageOf(a) < end) ==> !Aligned(start) && PageOf(a) in {PageOf(start), PageOf(end)}
  {
  }

  lemma CutEnds(start: nat, end: nat)
    requires start + PAGE_SIZE <= end && Aligned(end - start)
    ensures Aligned(start) ==> PageOf(start) == start && PageOf(end) == end
    ensures !Aligned(start) ==> PageOf(start) < start < end && start < PageOf(end) < end
  {
  }

  // ------------------------------------------------------------- the failures

  /** A failed `mprotect` that met a hole just below a cold page: the guest can read the page
      without the fault that would bring its bytes in. */
  lemma FailedProtectExposes(s: Space, page: nat, perm: Perm, a: nat)
    requires InTune(s) && TableOk(s) && Aligned(page) && PAGE_SIZE <= page && page + PAGE_SIZE < U64_LIMIT
    requires Governed(s.pager, s.asid, page) && (s.asid, page) !in s.pager.resident && s.hw(page - 1).None?
    requires page <= a < page + PAGE_SIZE
    ensures var s' := Mprotect(s, page - PAGE_SIZE, 2 * PAGE_SIZE, perm);
            && !ProtectsWhole(s.hw, page - PAGE_SIZE, 2 * PAGE_SIZE)
            && s'.pager == s.pager && s.hw(a) == Some({}) && s'.hw(a) == Some(perm)
  {
    hide Governed, LazyMachine.TablePerm, AllWellFormed, ProtectedSpace;
    assert AlignUp(2 * PAGE_SIZE) == 2 * PAGE_SIZE;
    GovernedPageMapped(s, page);
    assert PageOf(a) == page && InTuneAt(s, a);
    assert Mapped(s.hw, a, page + PAGE_SIZE);
  }

  /** A failed `munmap` that met a hole just above a governed page: the page is gone and the pager
      still governs it, so new memory put in its place is refused to host copies that its old
      permission did not allow. */
  lemma FailedUnmapHaunts(s: Space, page: nat, m: LazyMachine.Machine)
    requires InTune(s) && TableOk(s) && Aligned(page) && page + 2 * PAGE_SIZE < U64_LIMIT
    requires Governed(s.pager, s.asid, page) && s.hw(page + PAGE_SIZE).None?
    requires m.pager == Munmap(s, page, 2 * PAGE_SIZE).pager && Consistent(m.pager)
    ensures var s' := Munmap(s, page, 2 * PAGE_SIZE);
            && !UnmapsWhole(s.hw, page, 2 * PAGE_SIZE) && s'.hw(page) == None && Governed(s'.pager, s.asid, page)
            && (WriteAccess !in LazyMachine.TablePerm(s.pager, s.asid, page) ==>
                  TouchFrom(m, s.asid, page, page + 1, WriteAccess) == (m, TouchFailed(EFAULT)))
  {
    hide AllWellFormed, UnmappedSpace, Touching;
  }

  /** A `munmap` from the middle of a governed page: the pager keeps the page, and the hardware
      half of it. */
  lemma UnalignedUnmapTears(s: Space, start: nat, len: nat)
    requires InTune(s) && TableOk(s) && 0 < len && start + AlignUp(len) < U64_LIMIT && Mapped(s.hw, start, start + len)
    requires !Aligned(start) && Governed(s.pager, s.asid, PageOf(start))
    ensures var s' := Munmap(s, start, len);
            s'.hw(start) == None && s'.hw(PageOf(start)).Some? && Governed(s'.pager, s.asid, PageOf(start))
  {
    hide Governed, Wanted, UnmappedSpace, AllWellFormed;
    AlignedPage(start);
    GovernedPageMapped(s, PageOf(start));
    UnmappedGoverns(s.pager, s.asid, start, AlignUp(len), PageOf(start));
  }
}

/** Which slots descriptors take, and that no table outgrows the descriptor limit. */
module PipeSlots {
  import opened Base
  import opened Pipes

  // -------------------------------------------------------------- one table

  lemma {:induction false} PadPrefix(entries: seq<Option<Fd>>, n: nat)
    ensures forall i :: 0 <= i < |entries| ==> Pad(entries, n)[i] == entries[i]
    ensures forall i :: |entries| <= i < n ==> Pad(entries, n)[i] == None
    decreases n - |entries|
  {
    if |entries| < n {
      PadPrefix(entries + [None], n);
      assert forall i :: 0 <= i < |entries| ==> (entries + [None])[i] == entries[i];
      assert (entries + [None])[|entries|] == None;
    }
  }

  /** The slots of a table after a descriptor was installed from `min` on. */
  function Installed(entries: seq<Option<Fd>>, min: nat, fd: Fd): seq<Option<Fd>> {
    var k := Chosen(entries, min);
    if min >= FD_LIMIT then entries
    else if k.None? then Pad(entries, min)
    else Pad(entries, k.value + 1)[k.value := Some(fd)]
  }

  /** Slot `i` is in use. */
  predicate Used(entries: seq<Option<Fd>>, i: nat) {
    i < |entries| && entries[i].Some?
  }

  /** The chosen slot is the lowest free one from `min` on. There is none exactly when all slots
      up to the limit, and up to the end of the table, are in use. */
  lemma ChosenIs(entries: seq<Option<Fd>>, min: nat, k: nat)
    ensures Chosen(entries, min) == Some(k) <==>
            && min < FD_LIMIT && min <= k && !Used(entries, k) && (k < FD_LIMIT || k < |entries|)
            && forall i :: min <= i < k ==> Used(entries, i)
  {
    hide Pad, FreeFrom;
    PadPrefix(entries, min);
    var padded := Pad(entries, min);
    var f := FreeFrom(padded, min);
    assert forall i: nat :: Used(padded, i) <==> Used(entries, i);
    assert !Used(padded, f) && forall i :: min <= i < f ==> Used(padded, i);
  }

  lemma InstalledIs(entries: seq<Option<Fd>>, min: nat, fd: Fd, i: nat)
    ensures Used(Installed(entries, min, fd), i) <==> Used(entries, i) || Chosen(entries, min) == Some(i)
    ensures Used(Installed(entries, min, fd), i) ==>
            Installed(entries, min, fd)[i] == if Chosen(entries, min) == Some(i) then Some(fd) else entries[i]
    ensures |Installed(entries, min, fd)| >= |entries|
    ensures |entries| <= FD_LIMIT ==> |Installed(entries, min, fd)| <= FD_LIMIT
  {
    hide Pad, Chosen;
    PadPrefix(entries, min);
    var k := Chosen(entries, min);
    if k.Some? {
      ChosenIs(entries, min, k.value);
      PadPrefix(entries, k.value + 1);
    }
  }

  /** Two descriptors installed one after the other take the two lowest free slots in order. */
  lemma TwoSlots(entries: seq<Option<Fd>>, a: Fd, b: Fd)
    ensures var first := Installed(entries, 0, a);
            var r, w, both := Chosen(entries, 0), Chosen(first, 0), Installed(first, 0, b);
            && (w.Some? ==> r.Some? && r.value < w.value && !Used(entries, r.value) && !Used(entries, w.value))
            && (w.Some? ==> forall i :: 0 <= i < w.value && i != r.value ==> Used(entries, i))
            && (r.Some? ==> Used(both, r.value) && both[r.value] == Some(a))
            && (w.Some? ==> Used(both, w.value) && both[w.value] == Some(b))
            && (forall i: nat :: Used(entries, i) ==> Used(both, i) && both[i] == entries[i])
  {
    hide Installed, Chosen;
    var first := Installed(entries, 0, a);
    var r, w, both := Chosen(entries, 0), Chosen(first, 0), Installed(first, 0, b);
    forall i: nat
      ensures Used(first, i) <==> Used(entries, i) || r == Some(i)
      ensures Used(both, i) <==> Used(first, i) || w == Some(i)
      ensures Used(first, i) ==> first[i] == if r == Some(i) then Some(a) else entries[i]
      ensures Used(both, i) ==> both[i] == if w == Some(i) then Some(b) else first[i]
    {
      InstalledIs(entries, 0, a, i);
      InstalledIs(first, 0, b, i);
    }
    if w.Some? {
      ChosenIs(first, 0, w.value);
      ChosenIs(entries, 0, w.value);
      assert r.Some? by {
        InstalledIs(entries, 0, a, 0);
        if r.None? {
          NoRoom(entries, a);
        }
      }
    }
    if r.Some? {
      ChosenIs(entries, 0, r.value);
      assert w.Some? ==> w.value != r.value;
    }
  }

  lemma NoRoom(entries: seq<Option<Fd>>, fd: Fd)
    requires Chosen(entries, 0).None?
    ensures Installed(entries, 0, fd) == entries
  {
  }

  lemma InsertedEntries(s: State, t: nat, min: nat, fd: Fd)
    requires Sound(s) && Covered(s) && IsTable(s, t) && Open(s, fd.desc)
    ensures var entries := s.tables[t].value.entries;
            Insert(s, t, min, fd).tables == s.tables[t := Some(s.tables[t].value.(entries := Installed(entries, min, fd)))]
  {
    hide Sound, Excess, Overwrite, Chosen, Pad;
    var chosen := Chosen(s.tables[t].value.entries, min);
    if min < FD_LIMIT && chosen.Some? {
      var u := PadTable(s, t, chosen.value + 1);
      PadKeeps(s, t, chosen.value + 1);
      CoveredBy(s, u);
      OverwriteKeeps(u, t, chosen.value, fd);
    }
  }

  // ---------------------------------------------------------- close on exec

  /** `fcntl(F_SETFD)`: the descriptor keeps its description and changes its flag. */
  function SetCloexec(s: State, t: nat, fd: nat, cloexec: bool): State
    requires IsTable(s, t)
  {
    if !Slot(s, t, fd) || EntryAt(s, t, fd).None? then s
    else SetSlot(s, t, fd, Some(EntryAt(s, t, fd).value.(cloexec := cloexec)))
  }

  lemma SetCloexecKeeps(s: State, t: nat, fd: nat, cloexec: bool)
    requires Inv(s) && IsTable(s, t)
    ensures Inv(SetCloexec(s, t, fd, cloexec))
  {
    hide Sound, Excess;
    if Slot(s, t, fd) && EntryAt(s, t, fd).Some? {
      var e := Some(EntryAt(s, t, fd).value.(cloexec := cloexec));
      SetSlotSound(s, t, fd, e);
      forall d: nat ensures Excess(SetSlot(s, t, fd, e), d) == 0 {
        assert Excess(s, d) == 0;
        SetSlotExcess(s, t, fd, e, d);
      }
    }
  }

  /** The flag decides what the next `execve` does with the descriptor, and with no other. */
  lemma CloexecDecides(s: State, t: nat, fd: nat, cloexec: bool)
    requires Inv(s) && IsTable(s, t) && Slot(s, t, fd) && EntryAt(s, t, fd).Some?
    ensures Inv(SetCloexec(s, t, fd, cloexec)) && IsTable(SetCloexec(s, t, fd, cloexec), t)
    ensures var u := Exec(SetCloexec(s, t, fd, cloexec), t);
            && Slot(u, t, fd) && (EntryAt(u, t, fd).None? <==> cloexec)
            && (forall k: nat :: k != fd && Slot(s, t, k) ==>
                  Slot(Exec(s, t), t, k) && Slot(u, t, k) && EntryAt(u, t, k) == EntryAt(Exec(s, t), t, k))
  {
    hide Sound, Excess, Cleared;
    var v := SetCloexec(s, t, fd, cloexec);
    SetCloexecKeeps(s, t, fd, cloexec);
    BalancedCovers(s);
    BalancedCovers(v);
    ClearedKeeps(s, t, 0, false);
    ClearedKeeps(v, t, 0, false);
  }

  // ----------------------------------------------------- the descriptor limit

  predicate Fits(s: State) {
    forall t :: 0 <= t < |s.tables| && s.tables[t].Some? ==> |s.tables[t].value.entries| <= FD_LIMIT
  }

  lemma InsertFits(s: State, t: nat, min: nat, fd: Fd)
    requires Sound(s) && Covered(s) && IsTable(s, t) && Open(s, fd.desc) && Fits(s)
    ensures Fits(Insert(s, t, min, fd))
  {
    hide Sound, Excess, Insert, Installed;
    InsertedEntries(s, t, min, fd);
    InstalledIs(s.tables[t].value.entries, min, fd, 0);
  }

  lemma ReleaseTables(s: State, d: nat)
    requires Open(s, d) && InRange(s.descs[d].value.backing, |s.pipes|)
    ensures Release(s, d).tables == s.tables
  {
  }

  lemma PairedTables(s: State, t: nat, pipes: seq<Pipe>, a: Backing, b: Backing, cloexec: bool)
    requires Inv(s) && IsTable(s, t) && Joins(s, pipes, a, b)
    ensures var d, entries := |s.descs|, s.tables[t].value.entries;
            var both := Installed(Installed(entries, 0, Fd(d, cloexec)), 0, Fd(d + 1, cloexec));
            Paired(s, t, pipes, a, b, cloexec).tables == s.tables[t := Some(s.tables[t].value.(entries := both))]
  {
    hide Counted, Handled, Excess, Insert, Release, Joins, Installed;
    var u, d := MadePair(s, pipes, a, b), |s.descs|;
    MadePairKeeps(s, pipes, a, b);
    assert Excess(u, d) == 1 && Excess(u, d + 1) == 1;
    var v := Insert(u, t, 0, Fd(d, cloexec));
    InsertedStaysOpen(u, t, 0, Fd(d, cloexec), d);
    InsertedStaysOpen(u, t, 0, Fd(d, cloexec), d + 1);
    InsertedEntries(u, t, 0, Fd(d, cloexec));
    var w := Insert(v, t, 0, Fd(d + 1, cloexec));
    InsertedStaysOpen(v, t, 0, Fd(d + 1, cloexec), d);
    InsertedStaysOpen(v, t, 0, Fd(d + 1, cloexec), d + 1);
    InsertedEntries(v, t, 0, Fd(d + 1, cloexec));
    ReleaseKeeps(w, d);
    OpenByExcess(Release(w, d), d + 1);
    ReleaseTables(w, d);
    ReleaseTables(Release(w, d), d + 1);
  }

  // ------------------------------------------------- what descriptions are

  /** No description that is still open has changed what it is for. */
  predicate SameBackings(s: State, u: State) {
    |u.descs| == |s.descs|
    && forall d :: 0 <= d < |s.descs| && u.descs[d].Some? ==> s.descs[d].Some? && u.descs[d].value.backing == s.descs[d].value.backing
  }

  lemma ReleaseBackings(s: State, d: nat)
    requires Open(s, d) && InRange(s.descs[d].value.backing, |s.pipes|)
    ensures SameBackings(s, Release(s, d))
  {
  }

  lemma OverwriteBackings(s: State, t: nat, i: nat, fd: Fd)
    requires Sound(s) && Covered(s) && Slot(s, t, i) && Open(s, fd.desc)
    ensures SameBackings(s, Overwrite(s, t, i, fd))
  {
    hide Sound, Excess, Release;
    var was := EntryAt(s, t, i);
    if was.Some? {
      RetainKeeps(s, fd.desc);
      SetSlotSound(Retain(s, fd.desc), t, i, Some(fd));
      EntryOpen(s, t, i);
      var u := SetSlot(Retain(s, fd.desc), t, i, Some(fd));
      InRangeOf(u, was.value.desc);
      ReleaseBackings(u, was.value.desc);
    }
  }

  lemma InRangeOf(s: State, d: nat)
    requires Sound(s) && Open(s, d)
    ensures InRange(s.descs[d].value.backing, |s.pipes|)
  {
  }

  lemma InsertBackings(s: State, t: nat, min: nat, fd: Fd)
    requires Sound(s) && Covered(s) && IsTable(s, t) && Open(s, fd.desc)
    ensures SameBackings(s, Insert(s, t, min, fd))
  {
    hide Sound, Excess, Overwrite, Chosen, Pad;
    var chosen := Chosen(s.tables[t].value.entries, min);
    if min < FD_LIMIT && chosen.Some? {
      var u := PadTable(s, t, chosen.value + 1);
      PadKeeps(s, t, chosen.value + 1);
      CoveredBy(s, u);
      OverwriteBackings(u, t, chosen.value, fd);
    }
  }

  /** The two new descriptions, as far as they are still open, are the two ends. */
  lemma PairedBackings(s: State, t: nat, pipes: seq<Pipe>, a: Backing, b: Backing, cloexec: bool)
    requires Inv(s) && IsTable(s, t) && Joins(s, pipes, a, b)
    ensures SameBackings(MadePair(s, pipes, a, b), Paired(s, t, pipes, a, b, cloexec))
  {
    hide Counted, Handled, Excess, Insert, Release, Joins;
    var u, d := MadePair(s, pipes, a, b), |s.descs|;
    MadePairKeeps(s, pipes, a, b);
    assert Excess(u, d) == 1 && Excess(u, d + 1) == 1;
    var v := Insert(u, t, 0, Fd(d, cloexec));
    InsertedStaysOpen(u, t, 0, Fd(d, cloexec), d);
    InsertedStaysOpen(u, t, 0, Fd(d, cloexec), d + 1);
    InsertBackings(u, t, 0, Fd(d, cloexec));
    var w := Insert(v, t, 0, Fd(d + 1, cloexec));
    InsertedStaysOpen(v, t, 0, Fd(d + 1, cloexec), d);
    InsertedStaysOpen(v, t, 0, Fd(d + 1, cloexec), d + 1);
    InsertBackings(v, t, 0, Fd(d + 1, cloexec));
    ReleaseKeeps(w, d);
    OpenByExcess(Release(w, d), d + 1);
    ReleaseBackings(w, d);
    ReleaseBackings(Release(w, d), d + 1);
  }

  lemma PairedFits(s: State, t: nat, pipes: seq<Pipe>, a: Backing, b: Backing, cloexec: bool)
    requires Inv(s) && IsTable(s, t) && Joins(s, pipes, a, b) && Fits(s)
    ensures Fits(Paired(s, t, pipes, a, b, cloexec))
  {
    hide Inv, Joins, Paired, Installed;
    var d, entries := |s.descs|, s.tables[t].value.entries;
    PairedTables(s, t, pipes, a, b, cloexec);
    InstalledIs(entries, 0, Fd(d, cloexec), 0);
    InstalledIs(Installed(entries, 0, Fd(d, cloexec)), 0, Fd(d + 1, cloexec), 0);
  }

  lemma Dup2Fits(s: State, t: nat, fd: nat, target: nat, cloexec: bool)
    requires Inv(s) && IsTable(s, t) && Fits(s)
    ensures Fits(Dup2(s, t, fd, target, cloexec))
  {
    hide Sound, Excess, Overwrite, Pad;
    if Slot(s, t, fd) && EntryAt(s, t, fd).Some? && fd != target && target < FD_LIMIT {
      BalancedCovers(s);
      EntryOpen(s, t, fd);
      var u := PadTable(s, t, target + 1);
      PadKeeps(s, t, target + 1);
      CoveredBy(s, u);
      OverwriteKeeps(u, t, target, Fd(EntryAt(s, t, fd).value.desc, cloexec));
    }
  }

  lemma DupFits(s: State, t: nat, fd: nat, min: nat, cloexec: bool)
    requires Inv(s) && IsTable(s, t) && Fits(s)
    ensures Fits(Dup(s, t, fd, min, cloexec))
  {
    hide Sound, Excess, Insert, Fits;
    if Slot(s, t, fd) && EntryAt(s, t, fd).Some? {
      BalancedCovers(s);
      EntryOpen(s, t, fd);
      InsertFits(s, t, min, Fd(EntryAt(s, t, fd).value.desc, cloexec));
    }
  }

  lemma CloseFits(s: State, t: nat, fd: nat)
    requires Inv(s) && IsTable(s, t) && Fits(s)
    ensures Fits(Close(s, t, fd))
  {
    hide Sound, Excess, TakeOut;
    if Slot(s, t, fd) {
      BalancedCovers(s);
      TakeOutKeeps(s, t, fd);
    }
  }

  lemma ExecFits(s: State, t: nat)
    requires Inv(s) && IsTable(s, t) && Fits(s)
    ensures Fits(Exec(s, t))
  {
    hide Sound, Excess, Cleared;
    BalancedCovers(s);
    ClearedKeeps(s, t, 0, false);
  }

  lemma {:induction false} CopiedFits(s: State, from: nat, to: nat, i: nat)
    requires Sound(s) && Covered(s) && IsTable(s, from) && IsTable(s, to) && from != to && Fits(s)
    requires i <= |s.tables[from].value.entries| == |s.tables[to].value.entries|
    ensures Fits(Copied(s, from, to, i))
    decreases |s.tables[from].value.entries| - i
  {
    hide Sound, Excess, Overwrite;
    if i < |s.tables[from].value.entries| {
      if EntryAt(s, from, i).None? {
        CopiedFits(s, from, to, i + 1);
      } else {
        var e := EntryAt(s, from, i).value;
        assert Excess(s, e.desc) >= 0;
        EntryOpen(s, from, i);
        OverwriteKeeps(s, to, i, e);
        CoveredBy(s, Overwrite(s, to, i, e));
        CopiedFits(Overwrite(s, to, i, e), from, to, i + 1);
      }
    }
  }

  lemma ForkFits(s: State, t: nat)
    requires Inv(s) && IsTable(s, t) && Fits(s)
    ensures Fits(Fork(s, t))
  {
    hide Sound, Excess, Copied, Pad;
    var n := |s.tables[t].value.entries|;
    SpawnedKeeps(s, n);
    BalancedCovers(Spawned(s, n));
    CopiedFits(Spawned(s, n), t, |s.tables|, 0);
  }

  lemma ExitFits(s: State, i: nat)
    requires Inv(s) && i < |s.tasks| && Fits(s)
    ensures Fits(Exit(s, i))
  {
    hide Sound, Excess, Cleared;
    LeftKeeps(s, i);
    var t, u := s.tasks[i], Left(s, i);
    if u.tables[t].value.refs == 0 {
      BalancedCovers(u);
      ClearedKeeps(u, t, 0, true);
    }
  }
}

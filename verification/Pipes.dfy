/** Descriptor tables, the open file descriptions they share, and the reader and writer counts
    of pipes. A description closes its ends when its last descriptor goes; a table closes its
    descriptors when its last task goes. */
module Pipes {
  import opened Base

  const FD_LIMIT: nat := 1024

  datatype Pipe = Pipe(readers: nat, writers: nat, activity: nat)

  datatype Backing =
    | PipeEnd(pipe: nat, write: bool)
    | SocketPair(rx: nat, tx: nat)
    | Plain

  /** An open file description and how many descriptors share it. */
  datatype Description = Description(backing: Backing, refs: nat)

  datatype Fd = Fd(desc: nat, cloexec: bool)

  /** A descriptor table and how many tasks share it. */
  datatype Table = Table(entries: seq<Option<Fd>>, refs: nat)

  /** Each live task holds one table; freed descriptions and tables leave `None` behind. */
  datatype State = State(pipes: seq<Pipe>, descs: seq<Option<Description>>, tables: seq<Option<Table>>, tasks: seq<nat>)

  predicate Open(s: State, d: nat) {
    d < |s.descs| && s.descs[d].Some?
  }

  predicate IsTable(s: State, t: nat) {
    t < |s.tables| && s.tables[t].Some?
  }

  predicate Slot(s: State, t: nat, i: nat) {
    IsTable(s, t) && i < |s.tables[t].value.entries|
  }

  function EntryAt(s: State, t: nat, i: nat): Option<Fd>
    requires Slot(s, t, i)
  {
    s.tables[t].value.entries[i]
  }

  // ------------------------------------------------------------ small edits

  function SetSlot(s: State, t: nat, i: nat, e: Option<Fd>): State
    requires Slot(s, t, i)
  {
    s.(tables := s.tables[t := Some(s.tables[t].value.(entries := s.tables[t].value.entries[i := e]))])
  }

  function Retain(s: State, d: nat): State
    requires Open(s, d)
  {
    s.(descs := s.descs[d := Some(s.descs[d].value.(refs := s.descs[d].value.refs + 1))])
  }

  function Less1(n: nat): nat {
    if n == 0 then 0 else n - 1
  }

  function Ended(pipes: seq<Pipe>, p: nat, write: bool): (r: seq<Pipe>)
    requires p < |pipes|
    ensures |r| == |pipes|
  {
    var x := pipes[p];
    pipes[p := if write then Pipe(x.readers, Less1(x.writers), x.activity + 1)
               else Pipe(Less1(x.readers), x.writers, x.activity + 1)]
  }

  predicate InRange(b: Backing, pipes: nat) {
    match b
    case PipeEnd(p, _) => p < pipes
    case SocketPair(rx, tx) => rx < pipes && tx < pipes
    case Plain => true
  }

  /** What dropping a description does to its pipes; the counts saturate at zero. */
  function Dropped(pipes: seq<Pipe>, b: Backing): (r: seq<Pipe>)
    requires InRange(b, |pipes|)
    ensures |r| == |pipes|
  {
    match b
    case PipeEnd(p, write) => Ended(pipes, p, write)
    case SocketPair(rx, tx) => Ended(Ended(pipes, rx, false), tx, true)
    case Plain => pipes
  }

  /** One descriptor fewer; the last one drops the description. */
  function Release(s: State, d: nat): State
    requires Open(s, d) && InRange(s.descs[d].value.backing, |s.pipes|)
  {
    var x := s.descs[d].value;
    if x.refs > 1 then s.(descs := s.descs[d := Some(x.(refs := x.refs - 1))])
    else s.(descs := s.descs[d := None], pipes := Dropped(s.pipes, x.backing))
  }

  // ---------------------------------------------------------------- counting

  function InEntries(entries: seq<Option<Fd>>, d: nat): nat {
    if entries == [] then 0
    else
      var last := entries[|entries| - 1];
      InEntries(entries[..|entries| - 1], d) + One(last.Some? && last.value.desc == d)
  }

  function InTable(t: Option<Table>, d: nat): nat {
    if t.None? then 0 else InEntries(t.value.entries, d)
  }

  /** How many descriptors, in all tables, share description `d`. */
  function Uses(tables: seq<Option<Table>>, d: nat): nat {
    if tables == [] then 0 else Uses(tables[..|tables| - 1], d) + InTable(tables[|tables| - 1], d)
  }

  predicate HasEnd(b: Backing, p: nat, write: bool) {
    match b
    case PipeEnd(q, w) => q == p && w == write
    case SocketPair(rx, tx) => if write then tx == p else rx == p
    case Plain => false
  }

  function EndIn(x: Option<Description>, p: nat, write: bool): nat {
    One(x.Some? && HasEnd(x.value.backing, p, write))
  }

  /** How many open descriptions hold that end of the pipe. */
  function Ends(descs: seq<Option<Description>>, p: nat, write: bool): nat {
    if descs == [] then 0 else Ends(descs[..|descs| - 1], p, write) + EndIn(descs[|descs| - 1], p, write)
  }

  function Holders(tasks: seq<nat>, t: nat): nat {
    if tasks == [] then 0 else Holders(tasks[..|tasks| - 1], t) + One(tasks[|tasks| - 1] == t)
  }

  lemma {:induction false} EntriesUpdate(entries: seq<Option<Fd>>, i: nat, e: Option<Fd>, d: nat)
    requires i < |entries|
    ensures InEntries(entries[i := e], d) ==
            InEntries(entries, d) - One(entries[i].Some? && entries[i].value.desc == d) + One(e.Some? && e.value.desc == d)
  {
    var last := |entries| - 1;
    if i == last {
      assert entries[i := e][..last] == entries[..last];
    } else {
      EntriesUpdate(entries[..last], i, e, d);
      assert entries[i := e][..last] == entries[..last][i := e];
    }
  }

  lemma {:induction false} UsesUpdate(tables: seq<Option<Table>>, t: nat, x: Option<Table>, d: nat)
    requires t < |tables|
    ensures Uses(tables[t := x], d) == Uses(tables, d) - InTable(tables[t], d) + InTable(x, d)
  {
    hide InTable;
    var last := |tables| - 1;
    if t == last {
      assert tables[t := x][..last] == tables[..last];
    } else {
      UsesUpdate(tables[..last], t, x, d);
      assert tables[t := x][..last] == tables[..last][t := x];
    }
  }

  lemma {:induction false} EndsUpdate(descs: seq<Option<Description>>, i: nat, x: Option<Description>, p: nat, write: bool)
    requires i < |descs|
    ensures Ends(descs[i := x], p, write) == Ends(descs, p, write) - EndIn(descs[i], p, write) + EndIn(x, p, write)
  {
    hide EndIn;
    var last := |descs| - 1;
    if i == last {
      assert descs[i := x][..last] == descs[..last];
    } else {
      EndsUpdate(descs[..last], i, x, p, write);
      assert descs[i := x][..last] == descs[..last][i := x];
    }
  }

  lemma {:induction false} EndsAtLeast(descs: seq<Option<Description>>, i: nat, p: nat, write: bool)
    requires i < |descs|
    ensures Ends(descs, p, write) >= EndIn(descs[i], p, write)
  {
    hide EndIn;
    if i < |descs| - 1 {
      EndsAtLeast(descs[..|descs| - 1], i, p, write);
    }
  }

  lemma {:induction false} EndsFound(descs: seq<Option<Description>>, p: nat, write: bool)
    ensures Ends(descs, p, write) > 0 <==> exists i :: 0 <= i < |descs| && EndIn(descs[i], p, write) == 1
  {
    hide EndIn;
    if descs != [] {
      var n := |descs| - 1;
      EndsFound(descs[..n], p, write);
      assert EndIn(descs[n], p, write) <= 1 by { EndInIs(descs[n], p, write); }
      assert forall i :: 0 <= i < n ==> descs[..n][i] == descs[i];
    }
  }

  lemma EndInIs(x: Option<Description>, p: nat, write: bool)
    ensures EndIn(x, p, write) <= 1
  {
  }

  lemma {:induction false} EntriesFound(entries: seq<Option<Fd>>, d: nat)
    ensures InEntries(entries, d) > 0 <==> exists i :: 0 <= i < |entries| && entries[i].Some? && entries[i].value.desc == d
  {
    if entries != [] {
      var n := |entries| - 1;
      EntriesFound(entries[..n], d);
      assert forall i :: 0 <= i < n ==> entries[..n][i] == entries[i];
    }
  }

  lemma {:induction false} UsesFound(tables: seq<Option<Table>>, d: nat)
    ensures Uses(tables, d) > 0 <==> exists t :: 0 <= t < |tables| && InTable(tables[t], d) > 0
  {
    hide InTable;
    if tables != [] {
      var n := |tables| - 1;
      UsesFound(tables[..n], d);
      assert forall t :: 0 <= t < n ==> tables[..n][t] == tables[t];
    }
  }

  lemma {:induction false} HoldersFound(tasks: seq<nat>, t: nat)
    ensures Holders(tasks, t) > 0 <==> t in tasks
  {
    if tasks != [] {
      var n := |tasks| - 1;
      HoldersFound(tasks[..n], t);
      assert tasks == tasks[..n] + [tasks[n]];
    }
  }

  // --------------------------------------------------------- the invariant

  function Refs(s: State, d: nat): nat {
    if Open(s, d) then s.descs[d].value.refs else 0
  }

  /** References to a description beyond the descriptors that share it: those in flight. */
  function Excess(s: State, d: nat): int {
    Refs(s, d) - Uses(s.tables, d)
  }

  predicate Backed(s: State) {
    forall d :: 0 <= d < |s.descs| && s.descs[d].Some? ==>
      InRange(s.descs[d].value.backing, |s.pipes|) && s.descs[d].value.refs >= 1
  }

  predicate Counted(s: State) {
    forall p :: 0 <= p < |s.pipes| ==>
      s.pipes[p].writers == Ends(s.descs, p, true) && s.pipes[p].readers == Ends(s.descs, p, false)
  }

  predicate Handled(s: State) {
    && (forall t :: 0 <= t < |s.tables| && s.tables[t].Some? ==> s.tables[t].value.refs == Holders(s.tasks, t))
    && (forall i :: 0 <= i < |s.tasks| ==> IsTable(s, s.tasks[i]))
  }

  predicate Sound(s: State) {
    Backed(s) && Counted(s) && Handled(s)
  }

  ghost predicate Balanced(s: State) {
    forall d: nat :: Excess(s, d) == 0
  }

  /** No description is freed while a descriptor still shares it. */
  ghost predicate Covered(s: State) {
    forall d: nat :: Excess(s, d) >= 0
  }

  ghost predicate SameExcess(s: State, u: State) {
    forall d: nat :: Excess(u, d) == Excess(s, d)
  }

  predicate Held(s: State) {
    forall t :: 0 <= t < |s.tables| && s.tables[t].Some? ==> s.tables[t].value.refs >= 1
  }

  /** Between system calls: every reference count is exact, and nothing unreferenced is kept. */
  ghost predicate Inv(s: State) {
    Sound(s) && Balanced(s) && Held(s)
  }

  /** Task `i` has a descriptor for that end of the pipe. */
  predicate Names(s: State, i: nat, p: nat, write: bool)
    requires Handled(s) && i < |s.tasks|
  {
    var entries := s.tables[s.tasks[i]].value.entries;
    exists k :: 0 <= k < |entries| && entries[k].Some? && Open(s, entries[k].value.desc)
                && HasEnd(s.descs[entries[k].value.desc].value.backing, p, write)
  }

  function Count(s: State, p: nat, write: bool): nat
    requires p < |s.pipes|
  {
    if write then s.pipes[p].writers else s.pipes[p].readers
  }

  lemma NamedEnd(s: State, d: nat, p: nat, write: bool) returns (i: nat)
    requires Inv(s) && Open(s, d) && HasEnd(s.descs[d].value.backing, p, write)
    ensures i < |s.tasks| && Names(s, i, p, write)
  {
    hide Uses, InEntries, Counted;
    assert Excess(s, d) == 0;
    UsesFound(s.tables, d);
    var t :| 0 <= t < |s.tables| && InTable(s.tables[t], d) > 0;
    EntriesFound(s.tables[t].value.entries, d);
    HoldersFound(s.tasks, t);
    i :| 0 <= i < |s.tasks| && s.tasks[i] == t;
  }

  /** A pipe end's count is zero exactly when no task has a descriptor for that end, so end of
      file and broken pipe are reported exactly when they should be. */
  lemma EndOfFileExact(s: State, p: nat, write: bool)
    requires Inv(s) && p < |s.pipes|
    ensures Count(s, p, write) == 0 <==> !exists i :: 0 <= i < |s.tasks| && Names(s, i, p, write)
  {
    hide Uses, InEntries, HasEnd;
    EndsFound(s.descs, p, write);
    if Count(s, p, write) > 0 {
      var d :| 0 <= d < |s.descs| && EndIn(s.descs[d], p, write) == 1;
      var i := NamedEnd(s, d, p, write);
    }
    if i :| 0 <= i < |s.tasks| && Names(s, i, p, write) {
      var entries := s.tables[s.tasks[i]].value.entries;
      var k :| 0 <= k < |entries| && entries[k].Some? && Open(s, entries[k].value.desc)
               && HasEnd(s.descs[entries[k].value.desc].value.backing, p, write);
      assert EndIn(s.descs[entries[k].value.desc], p, write) == 1;
    }
  }

  // ------------------------------------------------- what each edit keeps

  lemma SetSlotExcess(s: State, t: nat, i: nat, e: Option<Fd>, d: nat)
    requires Slot(s, t, i)
    ensures var was := EntryAt(s, t, i);
            Excess(SetSlot(s, t, i, e), d) ==
            Excess(s, d) + One(was.Some? && was.value.desc == d) - One(e.Some? && e.value.desc == d)
  {
    hide InEntries, Uses;
    UsesUpdate(s.tables, t, SetSlot(s, t, i, e).tables[t], d);
    EntriesUpdate(s.tables[t].value.entries, i, e, d);
  }

  lemma SetSlotSound(s: State, t: nat, i: nat, e: Option<Fd>)
    requires Sound(s) && Slot(s, t, i)
    ensures Sound(SetSlot(s, t, i, e)) && (Held(s) ==> Held(SetSlot(s, t, i, e)))
  {
    hide Ends, Holders;
    var u := SetSlot(s, t, i, e);
    assert forall x :: 0 <= x < |s.tables| ==> u.tables[x].Some? == s.tables[x].Some?;
    assert forall x :: 0 <= x < |s.tables| && s.tables[x].Some? ==> u.tables[x].value.refs == s.tables[x].value.refs;
  }

  lemma RetainKeeps(s: State, d: nat)
    requires Sound(s) && Open(s, d)
    ensures Sound(Retain(s, d))
    ensures forall x: nat :: Excess(Retain(s, d), x) == Excess(s, x) + One(x == d)
  {
    hide Uses, Ends, Holders, InRange;
    var u := Retain(s, d);
    forall p, w | 0 <= p < |s.pipes| ensures Ends(u.descs, p, w) == Ends(s.descs, p, w) {
      EndsUpdate(s.descs, d, u.descs[d], p, w);
    }
  }

  lemma EndedCounts(pipes: seq<Pipe>, q: nat, w: bool, p: nat)
    requires q < |pipes| && p < |pipes|
    ensures Ended(pipes, q, w)[p].writers == if p == q && w then Less1(pipes[p].writers) else pipes[p].writers
    ensures Ended(pipes, q, w)[p].readers == if p == q && !w then Less1(pipes[p].readers) else pipes[p].readers
    ensures Ended(pipes, q, w)[p].activity == pipes[p].activity + One(p == q)
  {
  }

  /** Dropping a description takes one from each count it is part of, without saturating. */
  lemma DroppedCounts(s: State, d: nat, p: nat)
    requires Sound(s) && Open(s, d) && p < |s.pipes|
    ensures var x := s.descs[d].value; var after := Dropped(s.pipes, x.backing);
            && after[p].writers == s.pipes[p].writers - One(HasEnd(x.backing, p, true))
            && after[p].readers == s.pipes[p].readers - One(HasEnd(x.backing, p, false))
            && after[p].activity == s.pipes[p].activity + One(HasEnd(x.backing, p, true)) + One(HasEnd(x.backing, p, false))
  {
    hide Ends, Handled, Ended;
    EndsAtLeast(s.descs, d, p, true);
    EndsAtLeast(s.descs, d, p, false);
    match s.descs[d].value.backing
    case PipeEnd(q, w) => EndedCounts(s.pipes, q, w, p);
    case SocketPair(rx, tx) =>
      EndedCounts(s.pipes, rx, false, p);
      EndedCounts(Ended(s.pipes, rx, false), tx, true, p);
    case Plain =>
  }

  lemma ReleaseKeeps(s: State, d: nat)
    requires Sound(s) && Open(s, d) && Excess(s, d) >= 1
    ensures Sound(Release(s, d)) && Release(s, d).tables == s.tables
    ensures forall x: nat :: Excess(Release(s, d), x) == Excess(s, x) - One(x == d)
  {
    hide Uses, Ends, Holders, Dropped, InRange, HasEnd;
    var u := Release(s, d);
    forall p | 0 <= p < |s.pipes|
      ensures u.pipes[p].writers == Ends(u.descs, p, true) && u.pipes[p].readers == Ends(u.descs, p, false)
    {
      EndsUpdate(s.descs, d, u.descs[d], p, true);
      EndsUpdate(s.descs, d, u.descs[d], p, false);
      DroppedCounts(s, d, p);
    }
  }

  /** An entry of a balanced table names an open description. */
  lemma EntryOpen(s: State, t: nat, i: nat)
    requires Slot(s, t, i) && EntryAt(s, t, i).Some? && Excess(s, EntryAt(s, t, i).value.desc) >= 0
    ensures Open(s, EntryAt(s, t, i).value.desc)
  {
    hide Uses, InEntries;
    var d := EntryAt(s, t, i).value.desc;
    EntriesFound(s.tables[t].value.entries, d);
    UsesFound(s.tables, d);
  }

  // -------------------------------------------------------------- descriptors

  /** Points a slot at a description and lets go of what was there. */
  function Overwrite(s: State, t: nat, i: nat, fd: Fd): State
    requires Sound(s) && Covered(s) && Slot(s, t, i) && Open(s, fd.desc)
  {
    var was := EntryAt(s, t, i);
    var r := Retain(s, fd.desc);
    RetainKeeps(s, fd.desc);
    var u := SetSlot(r, t, i, Some(fd));
    SetSlotSound(r, t, i, Some(fd));
    if was.None? then u else EntryOpen(s, t, i); Release(u, was.value.desc)
  }

  /** What an edit of one slot keeps. */
  ghost predicate Keeps(s: State, u: State) {
    Sound(u) && SameExcess(s, u) && (Held(s) ==> Held(u)) && u.tasks == s.tasks && |u.tables| == |s.tables|
    && |u.pipes| == |s.pipes| && |u.descs| == |s.descs|
  }

  lemma OverwriteKeeps(s: State, t: nat, i: nat, fd: Fd)
    requires Sound(s) && Covered(s) && Slot(s, t, i) && Open(s, fd.desc)
    ensures var u := Overwrite(s, t, i, fd); Keeps(s, u) && u.tables == SetSlot(s, t, i, Some(fd)).tables
  {
    hide Sound, Excess;
    var was := EntryAt(s, t, i);
    var r := Retain(s, fd.desc);
    RetainKeeps(s, fd.desc);
    var u := SetSlot(r, t, i, Some(fd));
    SetSlotSound(r, t, i, Some(fd));
    forall d: nat ensures Excess(u, d) == Excess(s, d) + One(was.Some? && was.value.desc == d) {
      SetSlotExcess(r, t, i, Some(fd), d);
    }
    if was.Some? {
      assert Excess(s, was.value.desc) >= 0;
      EntryOpen(s, t, i);
      ReleaseKeeps(u, was.value.desc);
    }
  }

  /** Empties a slot. */
  function TakeOut(s: State, t: nat, i: nat): State
    requires Sound(s) && Covered(s) && Slot(s, t, i)
  {
    var was := EntryAt(s, t, i);
    if was.None? then s
    else
      assert Excess(s, was.value.desc) >= 0;
      EntryOpen(s, t, i);
      SetSlotSound(s, t, i, None);
      Release(SetSlot(s, t, i, None), was.value.desc)
  }

  lemma TakeOutKeeps(s: State, t: nat, i: nat)
    requires Sound(s) && Covered(s) && Slot(s, t, i)
    ensures var u := TakeOut(s, t, i); Keeps(s, u) && u.tables == SetSlot(s, t, i, None).tables
  {
    hide Sound, Excess;
    var was := EntryAt(s, t, i);
    if was.Some? {
      assert Excess(s, was.value.desc) >= 0;
      EntryOpen(s, t, i);
      var u := SetSlot(s, t, i, None);
      SetSlotSound(s, t, i, None);
      forall d: nat ensures Excess(u, d) == Excess(s, d) + One(was.value.desc == d) {
        SetSlotExcess(s, t, i, None, d);
      }
      ReleaseKeeps(u, was.value.desc);
    } else {
      assert s.tables[t].value.entries[i := None] == s.tables[t].value.entries;
      assert SetSlot(s, t, i, None).tables == s.tables;
    }
  }

  /** Slots added at the end of a table are free. */
  function Pad(entries: seq<Option<Fd>>, n: nat): (r: seq<Option<Fd>>)
    ensures |r| == if |entries| < n then n else |entries|
    decreases n - |entries|
  {
    if |entries| < n then Pad(entries + [None], n) else entries
  }

  function PadTable(s: State, t: nat, n: nat): State
    requires IsTable(s, t)
  {
    s.(tables := s.tables[t := Some(s.tables[t].value.(entries := Pad(s.tables[t].value.entries, n)))])
  }

  lemma {:induction false} PadSame(entries: seq<Option<Fd>>, n: nat, d: nat)
    ensures InEntries(Pad(entries, n), d) == InEntries(entries, d)
    decreases n - |entries|
  {
    if |entries| < n {
      PadSame(entries + [None], n, d);
      assert (entries + [None])[..|entries|] == entries;
    }
  }

  lemma PadKeeps(s: State, t: nat, n: nat)
    requires Sound(s) && IsTable(s, t)
    ensures Keeps(s, PadTable(s, t, n))
  {
    hide InEntries, Ends, Holders, Uses, Pad;
    var u := PadTable(s, t, n);
    forall d: nat ensures Excess(u, d) == Excess(s, d) {
      UsesUpdate(s.tables, t, u.tables[t], d);
      PadSame(s.tables[t].value.entries, n, d);
    }
    assert forall x :: 0 <= x < |s.tables| ==> u.tables[x].Some? == s.tables[x].Some?;
    assert forall x :: 0 <= x < |s.tables| && s.tables[x].Some? ==> u.tables[x].value.refs == s.tables[x].value.refs;
  }

  /** The lowest free slot from `min` on, or the end. */
  function FreeFrom(entries: seq<Option<Fd>>, min: nat): (k: nat)
    ensures k <= |entries| && (k < |entries| ==> entries[k].None? && min <= k)
    ensures forall i :: min <= i < k ==> entries[i].Some?
    decreases |entries| - min
  {
    if min >= |entries| then |entries| else if entries[min].None? then min else FreeFrom(entries, min + 1)
  }

  /** The slot a new descriptor takes: none when the table is full or `min` is out of range. */
  function Chosen(entries: seq<Option<Fd>>, min: nat): Option<nat> {
    if min >= FD_LIMIT then None
    else
      var k := FreeFrom(Pad(entries, min), min);
      if k == |Pad(entries, min)| && k >= FD_LIMIT then None else Some(k)
  }

  /** Installs a descriptor at the lowest free slot from `min` on. */
  function Insert(s: State, t: nat, min: nat, fd: Fd): State
    requires Sound(s) && Covered(s) && IsTable(s, t) && Open(s, fd.desc)
  {
    var entries := s.tables[t].value.entries;
    if min >= FD_LIMIT then s
    else if Chosen(entries, min).None? then PadTable(s, t, min)
    else
      PadKeeps(s, t, Chosen(entries, min).value + 1);
      CoveredBy(s, PadTable(s, t, Chosen(entries, min).value + 1));
      Overwrite(PadTable(s, t, Chosen(entries, min).value + 1), t, Chosen(entries, min).value, fd)
  }

  lemma CoveredBy(s: State, u: State)
    requires Covered(s) && SameExcess(s, u)
    ensures Covered(u)
  {
    forall d: nat ensures Excess(u, d) >= 0 {
      assert Excess(s, d) >= 0;
    }
  }

  lemma KeepsTogether(s: State, u: State, v: State)
    requires Keeps(s, u) && Keeps(u, v)
    ensures Keeps(s, v)
  {
    hide Sound, Excess;
    forall d: nat ensures Excess(v, d) == Excess(s, d) {
      assert Excess(u, d) == Excess(s, d);
    }
  }

  lemma InsertKeeps(s: State, t: nat, min: nat, fd: Fd)
    requires Sound(s) && Covered(s) && IsTable(s, t) && Open(s, fd.desc)
    ensures Keeps(s, Insert(s, t, min, fd))
  {
    hide Sound, Excess, Overwrite, Chosen;
    PadKeeps(s, t, min);
    var chosen := Chosen(s.tables[t].value.entries, min);
    if chosen.Some? {
      var u := PadTable(s, t, chosen.value + 1);
      PadKeeps(s, t, chosen.value + 1);
      CoveredBy(s, u);
      OverwriteKeeps(u, t, chosen.value, fd);
      KeepsTogether(s, u, Overwrite(u, t, chosen.value, fd));
    }
  }

  // -------------------------------------------------------- new descriptions

  /** A description with one reference, held by its creator. */
  function AddDesc(s: State, b: Backing): State {
    s.(descs := s.descs + [Some(Description(b, 1))])
  }

  lemma EndsAppend(descs: seq<Option<Description>>, x: Option<Description>, p: nat, write: bool)
    ensures Ends(descs + [x], p, write) == Ends(descs, p, write) + EndIn(x, p, write)
  {
    hide EndIn;
    assert (descs + [x])[..|descs|] == descs;
  }

  /** The two descriptions of a new pipe or socket pair, still held by their creator. */
  function MadePair(s: State, pipes: seq<Pipe>, a: Backing, b: Backing): State {
    AddDesc(AddDesc(s.(pipes := s.pipes + pipes), a), b)
  }

  /** The new pipes have one description at each end. */
  predicate Joins(s: State, pipes: seq<Pipe>, a: Backing, b: Backing) {
    && InRange(a, |s.pipes| + |pipes|) && InRange(b, |s.pipes| + |pipes|)
    && (forall p, w :: 0 <= p < |s.pipes| ==> !HasEnd(a, p, w) && !HasEnd(b, p, w))
    && (forall p :: 0 <= p < |pipes| ==>
          && pipes[p].writers == One(HasEnd(a, |s.pipes| + p, true)) + One(HasEnd(b, |s.pipes| + p, true))
          && pipes[p].readers == One(HasEnd(a, |s.pipes| + p, false)) + One(HasEnd(b, |s.pipes| + p, false)))
  }

  lemma NoEndsYet(s: State, p: nat, write: bool)
    requires Backed(s) && p >= |s.pipes|
    ensures Ends(s.descs, p, write) == 0
  {
    hide Ends;
    EndsFound(s.descs, p, write);
  }

  lemma MadePairKeeps(s: State, pipes: seq<Pipe>, a: Backing, b: Backing)
    requires Inv(s) && Joins(s, pipes, a, b)
    ensures var u := MadePair(s, pipes, a, b); var d := |s.descs|;
            && Sound(u) && Held(u) && Covered(u)
            && forall x: nat :: Excess(u, x) == One(x == d) + One(x == d + 1)
  {
    hide Ends, Uses, InRange, HasEnd, Holders;
    var u, d := MadePair(s, pipes, a, b), |s.descs|;
    forall x: nat ensures Excess(u, x) == One(x == d) + One(x == d + 1) {
      assert Excess(s, x) == 0;
    }
    assert u.descs == s.descs + [Some(Description(a, 1))] + [Some(Description(b, 1))];
    assert Backed(u) by { RangeGrows(s, |u.pipes|); }
    forall p | 0 <= p < |u.pipes|
      ensures u.pipes[p].writers == Ends(u.descs, p, true) && u.pipes[p].readers == Ends(u.descs, p, false)
    {
      PairEnds(s, a, b, p, true);
      PairEnds(s, a, b, p, false);
      if p >= |s.pipes| {
        assert u.pipes[p] == pipes[p - |s.pipes|];
        NoEndsYet(s, p, true);
        NoEndsYet(s, p, false);
      }
    }
  }

  lemma PairEnds(s: State, a: Backing, b: Backing, p: nat, write: bool)
    ensures Ends(s.descs + [Some(Description(a, 1))] + [Some(Description(b, 1))], p, write) ==
            Ends(s.descs, p, write) + One(HasEnd(a, p, write)) + One(HasEnd(b, p, write))
  {
    hide Ends;
    EndsAppend(s.descs, Some(Description(a, 1)), p, write);
    EndsAppend(s.descs + [Some(Description(a, 1))], Some(Description(b, 1)), p, write);
  }

  lemma RangeGrows(s: State, n: nat)
    requires Backed(s) && n >= |s.pipes|
    ensures forall d :: 0 <= d < |s.descs| && s.descs[d].Some? ==> InRange(s.descs[d].value.backing, n)
  {
  }

  /** Installs both descriptions where there is room; the creator then lets go of them, which
      drops one that found no room. */
  function Paired(s: State, t: nat, pipes: seq<Pipe>, a: Backing, b: Backing, cloexec: bool): State
    requires Inv(s) && IsTable(s, t) && Joins(s, pipes, a, b)
  {
    var u, d := MadePair(s, pipes, a, b), |s.descs|;
    MadePairKeeps(s, pipes, a, b);
    var v := Insert(u, t, 0, Fd(d, cloexec));
    InsertedStaysOpen(u, t, 0, Fd(d, cloexec), d + 1);
    var w := Insert(v, t, 0, Fd(d + 1, cloexec));
    InsertedStaysOpen(v, t, 0, Fd(d + 1, cloexec), d);
    InsertedStaysOpen(v, t, 0, Fd(d + 1, cloexec), d + 1);
    var x := Release(w, d);
    ReleaseKeeps(w, d);
    OpenByExcess(x, d + 1);
    Release(x, d + 1)
  }

  /** A reference in flight keeps its description open. */
  lemma OpenByExcess(s: State, d: nat)
    requires Excess(s, d) >= 1
    ensures Open(s, d)
  {
  }

  lemma InsertedStaysOpen(s: State, t: nat, min: nat, fd: Fd, d: nat)
    requires Sound(s) && Covered(s) && IsTable(s, t) && Open(s, fd.desc) && Excess(s, d) >= 1
    ensures var u := Insert(s, t, min, fd);
            Keeps(s, u) && Covered(u) && IsTable(u, t) && Open(u, d) && Excess(u, d) == Excess(s, d)
  {
    hide Insert, Excess, Sound;
    var u := Insert(s, t, min, fd);
    InsertKeeps(s, t, min, fd);
    CoveredBy(s, u);
    assert Excess(u, d) == Excess(s, d);
    OpenByExcess(u, d);
    InsertedTable(s, t, min, fd);
  }

  lemma InsertedTable(s: State, t: nat, min: nat, fd: Fd)
    requires Sound(s) && Covered(s) && IsTable(s, t) && Open(s, fd.desc)
    ensures IsTable(Insert(s, t, min, fd), t)
  {
    hide Sound, Excess, Overwrite, Chosen;
    var chosen := Chosen(s.tables[t].value.entries, min);
    if min < FD_LIMIT && chosen.Some? {
      var u := PadTable(s, t, chosen.value + 1);
      PadKeeps(s, t, chosen.value + 1);
      CoveredBy(s, u);
      OverwriteKeeps(u, t, chosen.value, fd);
    }
  }

  lemma PairedKeeps(s: State, t: nat, pipes: seq<Pipe>, a: Backing, b: Backing, cloexec: bool)
    requires Inv(s) && IsTable(s, t) && Joins(s, pipes, a, b)
    ensures Inv(Paired(s, t, pipes, a, b, cloexec))
  {
    hide Counted, Handled, Excess, Insert, Release, Joins;
    var u, d := MadePair(s, pipes, a, b), |s.descs|;
    MadePairKeeps(s, pipes, a, b);
    assert Excess(u, d) == 1 && Excess(u, d + 1) == 1;
    var v := Insert(u, t, 0, Fd(d, cloexec));
    InsertedStaysOpen(u, t, 0, Fd(d, cloexec), d + 1);
    var w := Insert(v, t, 0, Fd(d + 1, cloexec));
    InsertedStaysOpen(u, t, 0, Fd(d, cloexec), d);
    InsertedStaysOpen(v, t, 0, Fd(d + 1, cloexec), d);
    InsertedStaysOpen(v, t, 0, Fd(d + 1, cloexec), d + 1);
    var x := Release(w, d);
    ReleaseKeeps(w, d);
    OpenByExcess(x, d + 1);
    ReleaseKeeps(x, d + 1);
    var y := Release(x, d + 1);
    forall z: nat ensures Excess(y, z) == 0 {
      assert Excess(v, z) == Excess(u, z);
      assert Excess(w, z) == Excess(v, z);
    }
    assert Held(w);
  }

  // ---------------------------------------------------- operations of a task

  /** `dup` and its kind. */
  function Dup(s: State, t: nat, fd: nat, min: nat, cloexec: bool): State
    requires Inv(s) && IsTable(s, t)
  {
    if !Slot(s, t, fd) || EntryAt(s, t, fd).None? then s
    else
      BalancedCovers(s);
      EntryOpen(s, t, fd);
      Insert(s, t, min, Fd(EntryAt(s, t, fd).value.desc, cloexec))
  }

  lemma BalancedCovers(s: State)
    requires Balanced(s)
    ensures Covered(s)
  {
    forall d: nat ensures Excess(s, d) >= 0 {
      assert Excess(s, d) == 0;
    }
  }

  lemma KeepsInv(s: State, u: State)
    requires Inv(s) && Keeps(s, u)
    ensures Inv(u)
  {
    hide Sound, Excess;
    forall d: nat ensures Excess(u, d) == 0 {
      assert Excess(s, d) == 0;
    }
  }

  lemma DupKeeps(s: State, t: nat, fd: nat, min: nat, cloexec: bool)
    requires Inv(s) && IsTable(s, t)
    ensures Inv(Dup(s, t, fd, min, cloexec))
  {
    hide Sound, Excess, Insert;
    if Slot(s, t, fd) && EntryAt(s, t, fd).Some? {
      BalancedCovers(s);
      EntryOpen(s, t, fd);
      var e := Fd(EntryAt(s, t, fd).value.desc, cloexec);
      InsertKeeps(s, t, min, e);
      KeepsInv(s, Insert(s, t, min, e));
    }
  }

  /** `dup2`: the target slot is made if need be, and what it held is closed. */
  function Dup2(s: State, t: nat, fd: nat, target: nat, cloexec: bool): State
    requires Inv(s) && IsTable(s, t)
  {
    if !Slot(s, t, fd) || EntryAt(s, t, fd).None? || fd == target || target >= FD_LIMIT then s
    else
      BalancedCovers(s);
      EntryOpen(s, t, fd);
      PadKeeps(s, t, target + 1);
      CoveredBy(s, PadTable(s, t, target + 1));
      Overwrite(PadTable(s, t, target + 1), t, target, Fd(EntryAt(s, t, fd).value.desc, cloexec))
  }

  lemma Dup2Keeps(s: State, t: nat, fd: nat, target: nat, cloexec: bool)
    requires Inv(s) && IsTable(s, t)
    ensures Inv(Dup2(s, t, fd, target, cloexec))
  {
    hide Sound, Excess, Overwrite;
    if Slot(s, t, fd) && EntryAt(s, t, fd).Some? && fd != target && target < FD_LIMIT {
      BalancedCovers(s);
      EntryOpen(s, t, fd);
      var u := PadTable(s, t, target + 1);
      PadKeeps(s, t, target + 1);
      CoveredBy(s, u);
      var e := Fd(EntryAt(s, t, fd).value.desc, cloexec);
      OverwriteKeeps(u, t, target, e);
      KeepsTogether(s, u, Overwrite(u, t, target, e));
      KeepsInv(s, Overwrite(u, t, target, e));
    }
  }

  function Close(s: State, t: nat, fd: nat): State
    requires Inv(s) && IsTable(s, t)
  {
    if Slot(s, t, fd) then BalancedCovers(s); TakeOut(s, t, fd) else s
  }

  lemma CloseKeeps(s: State, t: nat, fd: nat)
    requires Inv(s) && IsTable(s, t)
    ensures Inv(Close(s, t, fd))
  {
    hide Sound, Excess, TakeOut;
    if Slot(s, t, fd) {
      BalancedCovers(s);
      TakeOutKeeps(s, t, fd);
      KeepsInv(s, TakeOut(s, t, fd));
    }
  }

  /** Empties, from slot `i` on, the slots that `all` or their close-on-exec flag selects. */
  function Cleared(s: State, t: nat, i: nat, all: bool): State
    requires Sound(s) && Covered(s) && IsTable(s, t) && i <= |s.tables[t].value.entries|
    decreases |s.tables[t].value.entries| - i
  {
    if i == |s.tables[t].value.entries| then s
    else if EntryAt(s, t, i).None? || !(all || EntryAt(s, t, i).value.cloexec) then Cleared(s, t, i + 1, all)
    else
      TakeOutKeeps(s, t, i);
      CoveredBy(s, TakeOut(s, t, i));
      Cleared(TakeOut(s, t, i), t, i + 1, all)
  }

  lemma {:induction false} ClearedKeeps(s: State, t: nat, i: nat, all: bool)
    requires Sound(s) && Covered(s) && IsTable(s, t) && i <= |s.tables[t].value.entries|
    ensures var u := Cleared(s, t, i, all);
            && Keeps(s, u) && IsTable(u, t) && |u.tables[t].value.entries| == |s.tables[t].value.entries|
            && u.tables[t].value.refs == s.tables[t].value.refs
            && (forall x :: 0 <= x < |s.tables| && x != t ==> u.tables[x] == s.tables[x])
            && (forall k :: 0 <= k < i ==> EntryAt(u, t, k) == EntryAt(s, t, k))
            && (forall k :: i <= k < |u.tables[t].value.entries| ==>
                  EntryAt(u, t, k) ==
                  if EntryAt(s, t, k).Some? && (all || EntryAt(s, t, k).value.cloexec) then None else EntryAt(s, t, k))
    decreases |s.tables[t].value.entries| - i
  {
    hide Sound, Excess, TakeOut;
    if i < |s.tables[t].value.entries| {
      if EntryAt(s, t, i).None? || !(all || EntryAt(s, t, i).value.cloexec) {
        ClearedKeeps(s, t, i + 1, all);
      } else {
        var u := TakeOut(s, t, i);
        TakeOutKeeps(s, t, i);
        CoveredBy(s, u);
        ClearedKeeps(u, t, i + 1, all);
        KeepsTogether(s, u, Cleared(u, t, i + 1, all));
      }
    }
  }

  /** `execve` closes what is marked close-on-exec. */
  function Exec(s: State, t: nat): State
    requires Inv(s) && IsTable(s, t)
  {
    BalancedCovers(s);
    Cleared(s, t, 0, false)
  }

  lemma ExecKeeps(s: State, t: nat)
    requires Inv(s) && IsTable(s, t)
    ensures Inv(Exec(s, t))
  {
    hide Sound, Excess, Cleared;
    BalancedCovers(s);
    ClearedKeeps(s, t, 0, false);
    KeepsInv(s, Cleared(s, t, 0, false));
  }

  // ------------------------------------------------------ tasks and tables

  lemma HoldersAppend(tasks: seq<nat>, x: nat, t: nat)
    ensures Holders(tasks + [x], t) == Holders(tasks, t) + One(x == t)
  {
    assert (tasks + [x])[..|tasks|] == tasks;
  }

  lemma {:induction false} HoldersRemove(tasks: seq<nat>, i: nat, t: nat)
    requires i < |tasks|
    ensures Holders(tasks[..i] + tasks[i + 1..], t) == Holders(tasks, t) - One(tasks[i] == t)
  {
    var n := |tasks| - 1;
    if i == n {
      assert tasks[..i] + tasks[i + 1..] == tasks[..n];
    } else {
      HoldersRemove(tasks[..n], i, t);
      var rest := tasks[..i] + tasks[i + 1..];
      assert rest[..|rest| - 1] == tasks[..n][..i] + tasks[..n][i + 1..];
    }
  }

  /** A thread shares its creator's table. */
  function Thread(s: State, t: nat): State
    requires IsTable(s, t)
  {
    s.(tasks := s.tasks + [t], tables := s.tables[t := Some(s.tables[t].value.(refs := s.tables[t].value.refs + 1))])
  }

  lemma ThreadKeeps(s: State, t: nat)
    requires Inv(s) && IsTable(s, t)
    ensures Inv(Thread(s, t))
  {
    hide Ends, Uses, Holders, InEntries, InRange;
    var u := Thread(s, t);
    forall x | 0 <= x < |u.tables| ensures Holders(u.tasks, x) == Holders(s.tasks, x) + One(t == x) {
      HoldersAppend(s.tasks, t, x);
    }
    forall d: nat ensures Excess(u, d) == 0 {
      assert Excess(s, d) == 0;
      UsesUpdate(s.tables, t, u.tables[t], d);
    }
  }

  /** A new task with an empty table of as many slots. */
  function Spawned(s: State, n: nat): State {
    s.(tasks := s.tasks + [|s.tables|], tables := s.tables + [Some(Table(Pad([], n), 1))])
  }

  lemma SpawnedKeeps(s: State, n: nat)
    requires Inv(s)
    ensures Inv(Spawned(s, n))
  {
    hide Ends, Holders, InEntries, InRange, Pad;
    var u := Spawned(s, n);
    HoldersFound(s.tasks, |s.tables|);
    forall x | 0 <= x < |u.tables| ensures Holders(u.tasks, x) == Holders(s.tasks, x) + One(|s.tables| == x) {
      HoldersAppend(s.tasks, |s.tables|, x);
    }
    forall d: nat ensures Excess(u, d) == 0 {
      assert Excess(s, d) == 0;
      PadSame([], n, d);
      assert InEntries([], d) == 0 by { NoEntries(d); }
      assert u.tables[..|s.tables|] == s.tables;
    }
  }

  lemma NoEntries(d: nat)
    ensures InEntries([], d) == 0
  {
  }

  /** Copies descriptors from slot `i` on, sharing their descriptions. */
  function Copied(s: State, from: nat, to: nat, i: nat): State
    requires Sound(s) && Covered(s) && IsTable(s, from) && IsTable(s, to) && from != to
    requires i <= |s.tables[from].value.entries| == |s.tables[to].value.entries|
    decreases |s.tables[from].value.entries| - i
  {
    if i == |s.tables[from].value.entries| then s
    else if EntryAt(s, from, i).None? then Copied(s, from, to, i + 1)
    else
      assert Excess(s, EntryAt(s, from, i).value.desc) >= 0;
      EntryOpen(s, from, i);
      OverwriteKeeps(s, to, i, EntryAt(s, from, i).value);
      CoveredBy(s, Overwrite(s, to, i, EntryAt(s, from, i).value));
      Copied(Overwrite(s, to, i, EntryAt(s, from, i).value), from, to, i + 1)
  }

  lemma {:induction false} CopiedKeeps(s: State, from: nat, to: nat, i: nat)
    requires Sound(s) && Covered(s) && IsTable(s, from) && IsTable(s, to) && from != to
    requires i <= |s.tables[from].value.entries| == |s.tables[to].value.entries|
    ensures Keeps(s, Copied(s, from, to, i))
    decreases |s.tables[from].value.entries| - i
  {
    hide Excess, Overwrite, Backed, Counted, Handled;
    if i < |s.tables[from].value.entries| {
      if EntryAt(s, from, i).None? {
        CopiedKeeps(s, from, to, i + 1);
      } else {
        var e := EntryAt(s, from, i).value;
        assert Excess(s, e.desc) >= 0;
        EntryOpen(s, from, i);
        var u := Overwrite(s, to, i, e);
        OverwriteKeeps(s, to, i, e);
        CoveredBy(s, u);
        CopiedKeeps(u, from, to, i + 1);
        KeepsTogether(s, u, Copied(u, from, to, i + 1));
      }
    }
  }

  /** `fork`: the child has a table of its own, over the same descriptions. */
  function Fork(s: State, t: nat): State
    requires Inv(s) && IsTable(s, t)
  {
    var n := |s.tables[t].value.entries|;
    SpawnedKeeps(s, n);
    BalancedCovers(Spawned(s, n));
    Copied(Spawned(s, n), t, |s.tables|, 0)
  }

  lemma ForkKeeps(s: State, t: nat)
    requires Inv(s) && IsTable(s, t)
    ensures Inv(Fork(s, t))
  {
    hide Sound, Excess, Copied;
    var n := |s.tables[t].value.entries|;
    SpawnedKeeps(s, n);
    BalancedCovers(Spawned(s, n));
    CopiedKeeps(Spawned(s, n), t, |s.tables|, 0);
    KeepsInv(Spawned(s, n), Copied(Spawned(s, n), t, |s.tables|, 0));
  }

  /** A task goes away, by exit or by a kill. */
  function Left(s: State, i: nat): State
    requires i < |s.tasks| && IsTable(s, s.tasks[i])
  {
    var t := s.tasks[i];
    s.(tasks := s.tasks[..i] + s.tasks[i + 1..],
       tables := s.tables[t := Some(s.tables[t].value.(refs := Less1(s.tables[t].value.refs)))])
  }

  lemma LeftKeeps(s: State, i: nat)
    requires Inv(s) && i < |s.tasks|
    ensures IsTable(s, s.tasks[i]) && Sound(Left(s, i)) && Balanced(Left(s, i))
    ensures forall t :: 0 <= t < |s.tables| && s.tables[t].Some? && t != s.tasks[i] ==> Left(s, i).tables[t] == s.tables[t]
  {
    hide Ends, Uses, Holders, InEntries, InRange;
    var t := s.tasks[i];
    var u := Left(s, i);
    forall x | 0 <= x < |u.tables| ensures Holders(u.tasks, x) == Holders(s.tasks, x) - One(t == x) {
      HoldersRemove(s.tasks, i, x);
    }
    forall d: nat ensures Excess(u, d) == 0 {
      assert Excess(s, d) == 0;
      UsesUpdate(s.tables, t, u.tables[t], d);
    }
  }

  /** The last task to leave a table closes every descriptor in it. */
  function Exit(s: State, i: nat): State
    requires Inv(s) && i < |s.tasks|
  {
    LeftKeeps(s, i);
    var t, u := s.tasks[i], Left(s, i);
    if u.tables[t].value.refs > 0 then u
    else
      BalancedCovers(u);
      ClearedKeeps(u, t, 0, true);
      var v := Cleared(u, t, 0, true);
      v.(tables := v.tables[t := None])
  }

  lemma ExitKeeps(s: State, i: nat)
    requires Inv(s) && i < |s.tasks|
    ensures Inv(Exit(s, i))
  {
    hide Excess, Cleared, Backed, Counted, Handled;
    LeftKeeps(s, i);
    var t, u := s.tasks[i], Left(s, i);
    if u.tables[t].value.refs == 0 {
      BalancedCovers(u);
      ClearedKeeps(u, t, 0, true);
      TableGone(s, u, Cleared(u, t, 0, true), t);
    }
  }

  lemma TableGone(s: State, u: State, v: State, t: nat)
    requires Held(s) && |u.tables| == |s.tables| && Balanced(u) && Keeps(u, v) && IsTable(v, t) && v.tables[t].value.refs == 0
    requires forall x :: 0 <= x < |s.tables| && x != t && v.tables[x].Some? ==> v.tables[x].value.refs >= 1
    requires forall k :: 0 <= k < |v.tables[t].value.entries| ==> EntryAt(v, t, k).None?
    ensures Inv(v.(tables := v.tables[t := None]))
  {
    hide Ends, Uses, InEntries, InRange, Holders;
    var w := v.(tables := v.tables[t := None]);
    HoldersFound(v.tasks, t);
    assert forall k :: 0 <= k < |v.tables[t].value.entries| ==> v.tables[t].value.entries[k] == EntryAt(v, t, k);
    forall d: nat ensures Excess(w, d) == 0 {
      assert Excess(u, d) == 0;
      assert Excess(v, d) == Excess(u, d);
      EntriesFound(v.tables[t].value.entries, d);
      UsesUpdate(v.tables, t, None, d);
    }
  }
}

/** Whole runs of descriptor operations, and the tables updated in place. */
module PipeRuns {
  import opened Base
  import opened Pipes
  import opened PipeSlots

  /** One description and its descriptor; a full table drops it again. */
  function Opened(s: State, t: nat, cloexec: bool): State
    requires Inv(s) && IsTable(s, t)
  {
    AddedKeeps(s);
    var u, d := AddDesc(s, Plain), |s.descs|;
    var fd := Fd(d, cloexec);
    InsertedStaysOpen(u, t, 0, fd, d);
    Release(Insert(u, t, 0, fd), d)
  }

  lemma AddedKeeps(s: State)
    requires Inv(s)
    ensures var u := AddDesc(s, Plain);
            && Sound(u) && Held(u) && Covered(u) && Open(u, |s.descs|)
            && forall x: nat :: Excess(u, x) == One(x == |s.descs|)
  {
    hide Ends, Uses, Holders;
    var u := AddDesc(s, Plain);
    forall x: nat ensures Excess(u, x) == One(x == |s.descs|) {
      assert Excess(s, x) == 0;
    }
    forall p, w | 0 <= p < |s.pipes| ensures Ends(u.descs, p, w) == Ends(s.descs, p, w) {
      EndsAppend(s.descs, Some(Description(Plain, 1)), p, w);
    }
  }

  lemma OpenedKeeps(s: State, t: nat, cloexec: bool)
    requires Inv(s) && IsTable(s, t)
    ensures Inv(Opened(s, t, cloexec))
  {
    hide Counted, Handled, Excess, Insert, Release;
    AddedKeeps(s);
    var u, d := AddDesc(s, Plain), |s.descs|;
    var fd := Fd(d, cloexec);
    InsertedStaysOpen(u, t, 0, fd, d);
    var v := Insert(u, t, 0, fd);
    ReleaseKeeps(v, d);
    forall z: nat ensures Excess(Release(v, d), z) == 0 {
      assert Excess(v, z) == Excess(u, z);
    }
  }

  function NewPipe(s: State, t: nat, cloexec: bool): State
    requires Inv(s) && IsTable(s, t)
  {
    var n := |s.pipes|;
    Paired(s, t, [Pipe(1, 1, 0)], PipeEnd(n, false), PipeEnd(n, true), cloexec)
  }

  /** Two pipes, crossed. */
  function NewSocketPair(s: State, t: nat, cloexec: bool): State
    requires Inv(s) && IsTable(s, t)
  {
    var n := |s.pipes|;
    Paired(s, t, [Pipe(1, 1, 0), Pipe(1, 1, 0)], SocketPair(n + 1, n), SocketPair(n, n + 1), cloexec)
  }

  /** What a task, at index `who`, does. A group killed or exiting is one `Leave` per task. */
  datatype Op =
    | MakePipe(who: nat, cloexec: bool)
    | MakeSocketPair(who: nat, cloexec: bool)
    | OpenFile(who: nat, cloexec: bool)
    | Duplicate(who: nat, fd: nat, min: nat, cloexec: bool)
    | DuplicateAt(who: nat, fd: nat, target: nat, cloexec: bool)
    | SetFlag(who: nat, fd: nat, cloexec: bool)
    | CloseFd(who: nat, fd: nat)
    | Execute(who: nat)
    | ForkTask(who: nat)
    | NewThread(who: nat)
    | Leave(who: nat)

  function After(s: State, op: Op): State
    requires Inv(s) && op.who < |s.tasks|
  {
    var t := s.tasks[op.who];
    match op
    case MakePipe(_, cloexec) => NewPipe(s, t, cloexec)
    case MakeSocketPair(_, cloexec) => NewSocketPair(s, t, cloexec)
    case OpenFile(_, cloexec) => Opened(s, t, cloexec)
    case Duplicate(_, fd, min, cloexec) => Dup(s, t, fd, min, cloexec)
    case DuplicateAt(_, fd, target, cloexec) => Dup2(s, t, fd, target, cloexec)
    case SetFlag(_, fd, cloexec) => SetCloexec(s, t, fd, cloexec)
    case CloseFd(_, fd) => Close(s, t, fd)
    case Execute(_) => Exec(s, t)
    case ForkTask(_) => Fork(s, t)
    case NewThread(_) => Thread(s, t)
    case Leave(who) => Exit(s, who)
  }

  lemma StepKeeps(s: State, op: Op)
    requires Inv(s) && op.who < |s.tasks|
    ensures Inv(After(s, op))
  {
    hide Backed, Counted, Balanced, Held, Paired, Opened, Dup, Dup2, SetCloexec, Close, Exec, Fork, Thread, Exit;
    var t, n := s.tasks[op.who], |s.pipes|;
    match op
    case MakePipe(_, cloexec) => PairedKeeps(s, t, [Pipe(1, 1, 0)], PipeEnd(n, false), PipeEnd(n, true), cloexec);
    case MakeSocketPair(_, cloexec) =>
      PairedKeeps(s, t, [Pipe(1, 1, 0), Pipe(1, 1, 0)], SocketPair(n + 1, n), SocketPair(n, n + 1), cloexec);
    case OpenFile(_, cloexec) => OpenedKeeps(s, t, cloexec);
    case Duplicate(_, fd, min, cloexec) => DupKeeps(s, t, fd, min, cloexec);
    case DuplicateAt(_, fd, target, cloexec) => Dup2Keeps(s, t, fd, target, cloexec);
    case SetFlag(_, fd, cloexec) => SetCloexecKeeps(s, t, fd, cloexec);
    case CloseFd(_, fd) => CloseKeeps(s, t, fd);
    case Execute(_) => ExecKeeps(s, t);
    case ForkTask(_) => ForkKeeps(s, t);
    case NewThread(_) => ThreadKeeps(s, t);
    case Leave(who) => ExitKeeps(s, who);
  }

  ghost predicate IsRun(s: State, ops: seq<Op>)
    requires Inv(s)
    decreases |ops|
  {
    ops != [] ==> ops[0].who < |s.tasks| && (StepKeeps(s, ops[0]); IsRun(After(s, ops[0]), ops[1..]))
  }

  ghost function RunTo(s: State, ops: seq<Op>): (u: State)
    requires Inv(s) && IsRun(s, ops)
    ensures Inv(u)
    decreases |ops|
  {
    if ops == [] then s else StepKeeps(s, ops[0]); RunTo(After(s, ops[0]), ops[1..])
  }

  /** The first task, with its three standard streams. */
  const FIRST: State :=
    State([], [Some(Description(Plain, 1)), Some(Description(Plain, 1)), Some(Description(Plain, 1))],
          [Some(Table([Some(Fd(0, false)), Some(Fd(1, false)), Some(Fd(2, false))], 1))], [0])

  function Start(): (s: State)
    ensures Inv(s) && Fits(s)
  {
    FirstInv();
    FIRST
  }

  lemma FirstInv()
    ensures Inv(FIRST)
  {
    var s := FIRST;
    forall d: nat ensures Excess(s, d) == 0 {
      var e := s.tables[0].value.entries;
      assert e[..2] == [e[0], e[1]] && e[..2][..1] == [e[0]] && e[..2][..1][..0] == [];
      assert InEntries(e[..2][..1], d) == One(d == 0);
      assert InEntries(e[..2], d) == One(d == 0) + One(d == 1);
      assert InEntries(e, d) == One(d == 0) + One(d == 1) + One(d == 2);
      assert s.tables[..0] == [];
      assert Uses(s.tables, d) == InEntries(e, d);
    }
    assert s.tasks[..0] == [];
    assert Holders(s.tasks, 0) == 1;
  }

  /** After every run from the first task, across dup, fork, shared tables, close-on-exec flags,
      exec, exit and kill, the writer count of a pipe is zero exactly when no live task has a descriptor
      for its write end, and likewise for readers. */
  lemma EndOfFileOverRuns(ops: seq<Op>, p: nat, write: bool)
    requires IsRun(Start(), ops) && p < |RunTo(Start(), ops).pipes|
    ensures var s := RunTo(Start(), ops);
            Count(s, p, write) == 0 <==> !exists i :: 0 <= i < |s.tasks| && Names(s, i, p, write)
  {
    hide IsRun, RunTo, Start, Names;
    EndOfFileExact(RunTo(Start(), ops), p, write);
  }

  lemma OpenedFits(s: State, t: nat, cloexec: bool)
    requires Inv(s) && IsTable(s, t) && Fits(s)
    ensures Fits(Opened(s, t, cloexec))
  {
    hide Counted, Handled, Excess, Insert, Release;
    AddedKeeps(s);
    var u, fd := AddDesc(s, Plain), Fd(|s.descs|, cloexec);
    InsertedStaysOpen(u, t, 0, fd, fd.desc);
    InsertFits(u, t, 0, fd);
    ReleaseTables(Insert(u, t, 0, fd), fd.desc);
  }

  lemma StepFits(s: State, op: Op)
    requires Inv(s) && op.who < |s.tasks| && Fits(s)
    ensures Fits(After(s, op))
  {
    hide Backed, Counted, Balanced, Held, Paired, Opened, Dup, Dup2, Close, Exec, Fork, Exit;
    var t, n := s.tasks[op.who], |s.pipes|;
    match op
    case MakePipe(_, cloexec) => PairedFits(s, t, [Pipe(1, 1, 0)], PipeEnd(n, false), PipeEnd(n, true), cloexec);
    case MakeSocketPair(_, cloexec) =>
      PairedFits(s, t, [Pipe(1, 1, 0), Pipe(1, 1, 0)], SocketPair(n + 1, n), SocketPair(n, n + 1), cloexec);
    case OpenFile(_, cloexec) => OpenedFits(s, t, cloexec);
    case Duplicate(_, fd, min, cloexec) => DupFits(s, t, fd, min, cloexec);
    case DuplicateAt(_, fd, target, cloexec) => Dup2Fits(s, t, fd, target, cloexec);
    case SetFlag(_, fd, cloexec) =>
    case CloseFd(_, fd) => CloseFits(s, t, fd);
    case Execute(_) => ExecFits(s, t);
    case ForkTask(_) => ForkFits(s, t);
    case NewThread(_) =>
    case Leave(who) => ExitFits(s, who);
  }

  lemma {:induction false} RunFits(s: State, ops: seq<Op>)
    requires Inv(s) && Fits(s) && IsRun(s, ops)
    ensures Fits(RunTo(s, ops))
    decreases |ops|
  {
    hide Inv, Fits, After;
    if ops != [] {
      StepKeeps(s, ops[0]);
      StepFits(s, ops[0]);
      RunFits(After(s, ops[0]), ops[1..]);
    }
  }

  /** On every run a new descriptor's number is below the limit, and it is refused exactly when
      every number from `min` up to the limit is in use. */
  lemma SlotBelowLimit(ops: seq<Op>, t: nat, min: nat)
    requires IsRun(Start(), ops) && IsTable(RunTo(Start(), ops), t)
    ensures var entries := RunTo(Start(), ops).tables[t].value.entries;
            var k := Chosen(entries, min);
            && (k.Some? ==> min <= k.value < FD_LIMIT && !Used(entries, k.value))
            && (k.None? <==> forall i :: min <= i < FD_LIMIT ==> Used(entries, i))
  {
    hide Inv, IsRun, RunTo, Start, Pad;
    RunFits(Start(), ops);
    var entries := RunTo(Start(), ops).tables[t].value.entries;
    var k := Chosen(entries, min);
    PadPrefix(entries, min);
    if k.Some? {
      ChosenIs(entries, min, k.value);
    }
  }

  lemma EntriesOpen(s: State, t: nat, i: nat)
    requires Inv(s) && Slot(s, t, i) && EntryAt(s, t, i).Some?
    ensures Open(s, EntryAt(s, t, i).value.desc)
  {
    hide Sound, Excess;
    assert Excess(s, EntryAt(s, t, i).value.desc) == 0;
    EntryOpen(s, t, i);
  }

  /** `pipe` puts the read end into the lowest free slot and the write end into the next, and
      leaves every other descriptor as it was. */
  lemma PipePlaces(s: State, t: nat, cloexec: bool)
    requires Inv(s) && IsTable(s, t)
    ensures var u, d, entries := NewPipe(s, t, cloexec), |s.descs|, s.tables[t].value.entries;
            var r, w := Chosen(entries, 0), Chosen(Installed(entries, 0, Fd(d, cloexec)), 0);
            && IsTable(u, t)
            && (w.Some? ==> r.Some? && r.value < w.value && !Used(entries, r.value) && !Used(entries, w.value))
            && (w.Some? ==> forall i :: 0 <= i < w.value && i != r.value ==> Used(entries, i))
            && (r.Some? ==> Slot(u, t, r.value) && EntryAt(u, t, r.value) == Some(Fd(d, cloexec)))
            && (r.Some? ==> Open(u, d) && u.descs[d].value.backing == PipeEnd(|s.pipes|, false))
            && (w.Some? ==> Slot(u, t, w.value) && EntryAt(u, t, w.value) == Some(Fd(d + 1, cloexec)))
            && (w.Some? ==> Open(u, d + 1) && u.descs[d + 1].value.backing == PipeEnd(|s.pipes|, true))
            && (forall i: nat :: Used(entries, i) ==> Slot(u, t, i) && EntryAt(u, t, i) == entries[i])
            && (forall x :: 0 <= x < |s.tables| && x != t ==> u.tables[x] == s.tables[x])
  {
    hide Inv, Paired, Installed, Chosen, Excess;
    var u, n, d := NewPipe(s, t, cloexec), |s.pipes|, |s.descs|;
    PairedTables(s, t, [Pipe(1, 1, 0)], PipeEnd(n, false), PipeEnd(n, true), cloexec);
    TwoSlots(s.tables[t].value.entries, Fd(d, cloexec), Fd(d + 1, cloexec));
    PairedKeeps(s, t, [Pipe(1, 1, 0)], PipeEnd(n, false), PipeEnd(n, true), cloexec);
    PairedBackings(s, t, [Pipe(1, 1, 0)], PipeEnd(n, false), PipeEnd(n, true), cloexec);
    assert MadePair(s, [Pipe(1, 1, 0)], PipeEnd(n, false), PipeEnd(n, true)).descs[d..] ==
           [Some(Description(PipeEnd(n, false), 1)), Some(Description(PipeEnd(n, true), 1))];
    forall i: nat | Slot(u, t, i) && EntryAt(u, t, i).Some? ensures Open(u, EntryAt(u, t, i).value.desc) {
      EntriesOpen(u, t, i);
    }
  }

  /** A description that is open still has its ends counted, so no decrement ever saturates. */
  lemma NeverSaturates(s: State, d: nat, p: nat, write: bool)
    requires Inv(s) && Open(s, d) && p < |s.pipes| && HasEnd(s.descs[d].value.backing, p, write)
    ensures Count(s, p, write) >= 1
  {
    hide Ends;
    EndsAtLeast(s.descs, d, p, write);
  }

  // --------------------------------------------------- what descriptors name

  /** A new descriptor takes the lowest free slot from `min` on, and no other slot changes. */
  lemma InsertPlaces(s: State, t: nat, min: nat, fd: Fd)
    requires Sound(s) && Covered(s) && IsTable(s, t) && Open(s, fd.desc)
    requires Chosen(s.tables[t].value.entries, min).Some?
    ensures var k, u, n := Chosen(s.tables[t].value.entries, min).value, Insert(s, t, min, fd), |s.tables[t].value.entries|;
            && min <= k && (k < FD_LIMIT || k < n) && Slot(u, t, k) && EntryAt(u, t, k) == Some(fd)
            && (forall i :: min <= i < k && i < n ==> EntryAt(s, t, i).Some?)
            && (k < n ==> EntryAt(s, t, k).None?)
            && (forall i :: 0 <= i < n && i != k ==> Slot(u, t, i) && EntryAt(u, t, i) == EntryAt(s, t, i))
            && (forall x :: 0 <= x < |s.tables| && x != t ==> u.tables[x] == s.tables[x])
  {
    hide Sound, Excess, Overwrite, Pad;
    var entries := s.tables[t].value.entries;
    var k := Chosen(entries, min).value;
    PadPrefix(entries, min);
    PadPrefix(entries, k + 1);
    PadKeeps(s, t, k + 1);
    var u := PadTable(s, t, k + 1);
    CoveredBy(s, u);
    OverwriteKeeps(u, t, k, fd);
  }

  /** A duplicate shares the description of the descriptor it was made from. */
  lemma DupShares(s: State, t: nat, fd: nat, min: nat, cloexec: bool)
    requires Inv(s) && IsTable(s, t) && Slot(s, t, fd) && EntryAt(s, t, fd).Some?
    requires Chosen(s.tables[t].value.entries, min).Some?
    ensures var k, u := Chosen(s.tables[t].value.entries, min).value, Dup(s, t, fd, min, cloexec);
            && Slot(u, t, k) && EntryAt(u, t, k) == Some(Fd(EntryAt(s, t, fd).value.desc, cloexec))
            && Slot(u, t, fd) && EntryAt(u, t, fd) == EntryAt(s, t, fd)
  {
    hide Sound, Excess, Insert, Chosen;
    BalancedCovers(s);
    EntryOpen(s, t, fd);
    InsertPlaces(s, t, min, Fd(EntryAt(s, t, fd).value.desc, cloexec));
  }

  /** A duplicate onto a slot takes exactly that slot. */
  lemma Dup2Shares(s: State, t: nat, fd: nat, target: nat, cloexec: bool)
    requires Inv(s) && IsTable(s, t) && Slot(s, t, fd) && EntryAt(s, t, fd).Some? && fd != target && target < FD_LIMIT
    ensures var u := Dup2(s, t, fd, target, cloexec);
            && Slot(u, t, target) && EntryAt(u, t, target) == Some(Fd(EntryAt(s, t, fd).value.desc, cloexec))
            && (forall i :: 0 <= i < |s.tables[t].value.entries| && i != target ==>
                  Slot(u, t, i) && EntryAt(u, t, i) == EntryAt(s, t, i))
            && (forall x :: 0 <= x < |s.tables| && x != t ==> u.tables[x] == s.tables[x])
  {
    hide Sound, Excess, Overwrite, Pad;
    BalancedCovers(s);
    EntryOpen(s, t, fd);
    var u := PadTable(s, t, target + 1);
    PadKeeps(s, t, target + 1);
    PadPrefix(s.tables[t].value.entries, target + 1);
    CoveredBy(s, u);
    OverwriteKeeps(u, t, target, Fd(EntryAt(s, t, fd).value.desc, cloexec));
  }

  lemma {:induction false} CopiedEntries(s: State, from: nat, to: nat, i: nat)
    requires Sound(s) && Covered(s) && IsTable(s, from) && IsTable(s, to) && from != to
    requires i <= |s.tables[from].value.entries| == |s.tables[to].value.entries|
    requires forall k :: i <= k < |s.tables[to].value.entries| ==> s.tables[to].value.entries[k] == None
    requires forall k :: 0 <= k < i ==> s.tables[to].value.entries[k] == s.tables[from].value.entries[k]
    ensures var u := Copied(s, from, to, i);
            && IsTable(u, to) && u.tables[to].value.entries == s.tables[from].value.entries
            && IsTable(u, from) && u.tables[from] == s.tables[from]
    decreases |s.tables[from].value.entries| - i
  {
    hide Sound, Excess, Overwrite;
    if i < |s.tables[from].value.entries| {
      if EntryAt(s, from, i).None? {
        CopiedEntries(s, from, to, i + 1);
      } else {
        var e := EntryAt(s, from, i).value;
        assert Excess(s, e.desc) >= 0;
        EntryOpen(s, from, i);
        var u := Overwrite(s, to, i, e);
        OverwriteKeeps(s, to, i, e);
        CoveredBy(s, u);
        CopiedEntries(u, from, to, i + 1);
      }
    }
  }

  /** A fork's table holds the same descriptors over the same descriptions. */
  lemma ForkShares(s: State, t: nat)
    requires Inv(s) && IsTable(s, t)
    ensures var u := Fork(s, t);
            && IsTable(u, |s.tables|) && u.tables[|s.tables|].value.entries == s.tables[t].value.entries
            && IsTable(u, t) && u.tables[t] == s.tables[t]
  {
    hide Sound, Excess, Copied, Pad;
    var n := |s.tables[t].value.entries|;
    SpawnedKeeps(s, n);
    BalancedCovers(Spawned(s, n));
    PadPrefix([], n);
    CopiedEntries(Spawned(s, n), t, |s.tables|, 0);
  }

  // ---------------------------------------------------------- the tables

  class Kernel {
    var pipes: seq<Pipe>
    var descs: seq<Option<Description>>
    var tables: seq<Option<Table>>
    var tasks: seq<nat>

    function Now(): State
      reads this
    {
      State(pipes, descs, tables, tasks)
    }

    constructor ()
      ensures Now() == Start() && Inv(Now())
    {
      pipes, tasks := [], [0];
      descs := [Some(Description(Plain, 1)), Some(Description(Plain, 1)), Some(Description(Plain, 1))];
      tables := [Some(Table([Some(Fd(0, false)), Some(Fd(1, false)), Some(Fd(2, false))], 1))];
      new;
    }

    method Hold(d: nat)
      requires Open(Now(), d)
      modifies this
      ensures Now() == Retain(old(Now()), d)
    {
      descs := descs[d := Some(descs[d].value.(refs := descs[d].value.refs + 1))];
    }

    /** Lets go of one reference; the last one runs the description's drop. */
    method LetGo(d: nat)
      requires Open(Now(), d) && InRange(descs[d].value.backing, |pipes|)
      modifies this
      ensures Now() == Release(old(Now()), d)
    {
      var x := descs[d].value;
      if x.refs > 1 {
        descs := descs[d := Some(x.(refs := x.refs - 1))];
        return;
      }
      descs := descs[d := None];
      match x.backing
      case PipeEnd(p, write) => EndOne(p, write);
      case SocketPair(rx, tx) =>
        EndOne(rx, false);
        EndOne(tx, true);
      case Plain =>
    }

    method EndOne(p: nat, write: bool)
      requires p < |pipes|
      modifies this
      ensures Now() == old(Now()).(pipes := Ended(old(pipes), p, write))
    {
      var x := pipes[p];
      if write {
        x := x.(writers := Less1(x.writers));
      } else {
        x := x.(readers := Less1(x.readers));
      }
      pipes := pipes[p := x.(activity := x.activity + 1)];
    }

    method PutEntry(t: nat, i: nat, fd: Fd)
      requires Sound(Now()) && Covered(Now()) && Slot(Now(), t, i) && Open(Now(), fd.desc)
      modifies this
      ensures Now() == Overwrite(old(Now()), t, i, fd)
    {
      hide Backed, Counted, Handled, Excess;
      var was := EntryAt(Now(), t, i);
      if was.Some? {
        assert Excess(Now(), was.value.desc) >= 0;
        EntryOpen(Now(), t, i);
      }
      RetainKeeps(Now(), fd.desc);
      SetSlotSound(Retain(Now(), fd.desc), t, i, Some(fd));
      Hold(fd.desc);
      tables := tables[t := Some(tables[t].value.(entries := tables[t].value.entries[i := Some(fd)]))];
      if was.Some? {
        InRangeOf(Now(), was.value.desc);
        LetGo(was.value.desc);
      }
    }

    method TakeEntry(t: nat, i: nat)
      requires Sound(Now()) && Covered(Now()) && Slot(Now(), t, i)
      modifies this
      ensures Now() == TakeOut(old(Now()), t, i)
    {
      hide Backed, Counted, Handled, Excess;
      var was := EntryAt(Now(), t, i);
      if was.Some? {
        assert Excess(Now(), was.value.desc) >= 0;
        EntryOpen(Now(), t, i);
        SetSlotSound(Now(), t, i, None);
        tables := tables[t := Some(tables[t].value.(entries := tables[t].value.entries[i := None]))];
        InRangeOf(Now(), was.value.desc);
        LetGo(was.value.desc);
      }
    }

    /** Makes a table at least `n` slots long. */
    method Lengthen(t: nat, n: nat)
      requires IsTable(Now(), t)
      modifies this
      ensures Now() == PadTable(old(Now()), t, n)
    {
      var entries := tables[t].value.entries;
      while |entries| < n
        invariant Pad(entries, n) == Pad(tables[t].value.entries, n)
      {
        entries := entries + [None];
      }
      tables := tables[t := Some(tables[t].value.(entries := entries))];
    }

    /** Installs a descriptor at the lowest free slot from `min` on. */
    method InsertFrom(t: nat, min: nat, fd: Fd) returns (r: Option<nat>)
      requires Sound(Now()) && Covered(Now()) && IsTable(Now(), t) && Open(Now(), fd.desc)
      modifies this
      ensures Now() == Insert(old(Now()), t, min, fd)
      ensures r == Chosen(old(tables[t].value.entries), min)
    {
      hide Sound, Excess, Overwrite;
      if min >= FD_LIMIT {
        return None;
      }
      ghost var start := Now();
      Lengthen(t, min);
      var entries := tables[t].value.entries;
      var k := min;
      while k < |entries| && entries[k].Some?
        invariant min <= k <= |entries|
        invariant FreeFrom(entries, k) == FreeFrom(entries, min)
        decreases |entries| - k
      {
        k := k + 1;
      }
      if k == |entries| && |entries| >= FD_LIMIT {
        return None;
      }
      PadKeeps(start, t, k + 1);
      CoveredBy(start, PadTable(start, t, k + 1));
      PadTwice(start, t, min, k + 1);
      Lengthen(t, k + 1);
      PutEntry(t, k, fd);
      return Some(k);
    }

    /** `pipe`: both ends, or what there was room for. */
    method MakePipe(t: nat, cloexec: bool) returns (read: Option<nat>, write: Option<nat>)
      requires Inv(Now()) && IsTable(Now(), t)
      modifies this
      ensures Now() == NewPipe(old(Now()), t, cloexec)
      ensures read == Chosen(old(tables[t].value.entries), 0)
      ensures write == Chosen(Installed(old(tables[t].value.entries), 0, Fd(old(|descs|), cloexec)), 0)
    {
      hide Counted, Handled, Excess, Insert, Release, Chosen, Installed;
      var n, d := |pipes|, |descs|;
      MadePairKeeps(Now(), [Pipe(1, 1, 0)], PipeEnd(n, false), PipeEnd(n, true));
      pipes := pipes + [Pipe(1, 1, 0)];
      descs := descs + [Some(Description(PipeEnd(n, false), 1))] + [Some(Description(PipeEnd(n, true), 1))];
      assert Excess(Now(), d) == 1 && Excess(Now(), d + 1) == 1;
      InsertedStaysOpen(Now(), t, 0, Fd(d, cloexec), d);
      InsertedStaysOpen(Now(), t, 0, Fd(d, cloexec), d + 1);
      InsertedEntries(Now(), t, 0, Fd(d, cloexec));
      read := InsertFrom(t, 0, Fd(d, cloexec));
      InsertedStaysOpen(Now(), t, 0, Fd(d + 1, cloexec), d);
      InsertedStaysOpen(Now(), t, 0, Fd(d + 1, cloexec), d + 1);
      write := InsertFrom(t, 0, Fd(d + 1, cloexec));
      ReleaseKeeps(Now(), d);
      OpenByExcess(Release(Now(), d), d + 1);
      LetGo(d);
      LetGo(d + 1);
    }

    method SetFd(t: nat, fd: nat, cloexec: bool) returns (ok: bool)
      requires IsTable(Now(), t)
      modifies this
      ensures Now() == SetCloexec(old(Now()), t, fd, cloexec)
      ensures ok <==> old(Slot(Now(), t, fd) && EntryAt(Now(), t, fd).Some?)
    {
      var entries := tables[t].value.entries;
      if fd >= |entries| || entries[fd].None? {
        return false;
      }
      entries := entries[fd := Some(entries[fd].value.(cloexec := cloexec))];
      tables := tables[t := Some(tables[t].value.(entries := entries))];
      return true;
    }

    method CloseCloexec(t: nat)
      requires Inv(Now()) && IsTable(Now(), t)
      modifies this
      ensures Now() == Exec(old(Now()), t)
    {
      BalancedCovers(Now());
      ClearSlots(t, false);
    }

    method ClearSlots(t: nat, all: bool)
      requires Sound(Now()) && Covered(Now()) && IsTable(Now(), t)
      modifies this
      ensures Now() == Cleared(old(Now()), t, 0, all)
    {
      hide Sound, Excess, TakeOut;
      var n := |tables[t].value.entries|;
      for i := 0 to n
        invariant Sound(Now()) && Covered(Now()) && IsTable(Now(), t) && |tables[t].value.entries| == n
        invariant Cleared(Now(), t, i, all) == Cleared(old(Now()), t, 0, all)
      {
        var e := EntryAt(Now(), t, i);
        if e.Some? && (all || e.value.cloexec) {
          TakeOutKeeps(Now(), t, i);
          CoveredBy(Now(), TakeOut(Now(), t, i));
          TakeEntry(t, i);
        }
      }
    }

    method CloneTable(t: nat)
      requires Inv(Now()) && IsTable(Now(), t)
      modifies this
      ensures Now() == Fork(old(Now()), t)
    {
      hide Sound, Excess, Overwrite;
      var n, child := |tables[t].value.entries|, |tables|;
      SpawnedKeeps(Now(), n);
      BalancedCovers(Spawned(Now(), n));
      tasks := tasks + [child];
      tables := tables + [Some(Table(Pad([], n), 1))];
      for i := 0 to n
        invariant Sound(Now()) && Covered(Now()) && IsTable(Now(), t) && IsTable(Now(), child)
        invariant |tables[t].value.entries| == n == |tables[child].value.entries|
        invariant Copied(Now(), t, child, i) == Copied(Spawned(old(Now()), n), t, child, 0)
      {
        var e := EntryAt(Now(), t, i);
        if e.Some? {
          assert Excess(Now(), e.value.desc) >= 0;
          EntryOpen(Now(), t, i);
          OverwriteKeeps(Now(), child, i, e.value);
          CoveredBy(Now(), Overwrite(Now(), child, i, e.value));
          PutEntry(child, i, e.value);
        }
      }
    }

    /** A task leaves; the last one closes the table. */
    method DropTask(i: nat)
      requires Inv(Now()) && i < |tasks|
      modifies this
      ensures Now() == Exit(old(Now()), i)
    {
      hide Backed, Counted, Handled, Excess;
      LeftKeeps(Now(), i);
      var t := tasks[i];
      tasks := tasks[..i] + tasks[i + 1..];
      tables := tables[t := Some(tables[t].value.(refs := Less1(tables[t].value.refs)))];
      if tables[t].value.refs == 0 {
        BalancedCovers(Now());
        ClearedKeeps(Now(), t, 0, true);
        ClearSlots(t, true);
        tables := tables[t := None];
      }
    }
  }

  lemma PadTwice(s: State, t: nat, m: nat, n: nat)
    requires IsTable(s, t) && m <= n
    ensures PadTable(PadTable(s, t, m), t, n) == PadTable(s, t, n)
  {
    PadAgain(s.tables[t].value.entries, m, n);
  }

  lemma {:induction false} PadAgain(entries: seq<Option<Fd>>, m: nat, n: nat)
    requires m <= n
    ensures Pad(Pad(entries, m), n) == Pad(entries, n)
    decreases m - |entries|
  {
    if |entries| < m {
      PadAgain(entries + [None], m, n);
    }
  }
}

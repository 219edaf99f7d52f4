/** The cooperative scheduler: parked tasks, per-group address spaces that are swapped in
    and out of the one MMU, and a deterministic clock that warps when everything is idle. */
module Scheduler {
  import opened Base

  const ROOT_PID: nat := 1000

  datatype Proc = Proc(
    pid: nat, tgid: nat, ppid: nat,
    pending: set<nat>, sigmask: set<nat>,
    vforkDone: Option<nat>,
    stopped: bool, stopReport: Option<nat>)

  /** A readiness source that is ready or not at any moment, or a timer. */
  datatype Watch = Source(id: nat) | Timer(id: nat)

  datatype ParkState =
    | Ready
    | WaitChild(pid: int, untraced: bool)
    | Futex(addr: nat, woken: bool, deadline: Option<nat>)
    | Waiting(watches: seq<Watch>, deadline: Option<nat>)
    | VforkDone(done: nat)

  /** A parked task: its process state, its CPU snapshot and why it is not running. */
  datatype Task = Task(proc: Proc, cpu: int, state: ParkState)

  datatype Zombie = Zombie(pid: nat, ppid: nat, status: int)

  /** What tasks wait on: ready sources, armed timers and fired vfork flags. */
  datatype World = World(ready: set<nat>, timers: map<nat, nat>, fired: set<nat>)

  datatype Env<M> = Env(
    running: Option<Proc>, cpu: int, icount: nat,
    parked: seq<Task>, zombies: seq<Zombie>,
    groupMaps: map<nat, M>, mmu: M, lastGroup: nat,
    nextPid: nat, warp: nat, world: World)

  // -------------------------------------------------------------- readiness

  predicate Matches(filter: int, childPid: nat, childPpid: nat, parent: nat) {
    childPpid == parent && (filter == -1 || childPid == filter)
  }

  predicate WatchReady(w: World, watch: Watch, now: nat) {
    match watch
    case Source(id) => id in w.ready
    case Timer(id) => id in w.timers && now >= w.timers[id]
  }

  /** Whether the condition a parked task waits on holds. */
  predicate WaitSatisfied<M>(s: Env<M>, t: Task, now: nat) {
    match t.state
    case Ready => true
    case Futex(_, woken, deadline) => woken || (deadline.Some? && now >= deadline.value)
    case WaitChild(pid, untraced) =>
      || (exists z :: z in s.zombies && Matches(pid, z.pid, z.ppid, t.proc.tgid))
      || (untraced && exists c :: c in s.parked && c.proc.stopReport.Some? && Matches(pid, c.proc.tgid, c.proc.ppid, t.proc.tgid))
    case Waiting(watches, deadline) =>
      (deadline.Some? && now >= deadline.value) || exists w :: w in watches && WatchReady(s.world, w, now)
    case VforkDone(done) => done in s.world.fired
  }

  /** A task can run unless stopped: a deliverable signal ends any wait but vfork's. */
  predicate Runnable<M>(s: Env<M>, t: Task, now: nat) {
    && !t.proc.stopped
    && ((t.proc.pending - t.proc.sigmask != {} && !t.state.VforkDone?) || WaitSatisfied(s, t, now))
  }

  /** The first task of the queue, from `i` on, that can run. */
  function FindFrom<M>(s: Env<M>, now: nat, i: nat): (r: Option<nat>)
    requires i <= |s.parked|
    ensures r.Some? ==> i <= r.value < |s.parked| && Runnable(s, s.parked[r.value], now)
    ensures forall j :: i <= j < (if r.Some? then r.value else |s.parked|) ==> !Runnable(s, s.parked[j], now)
    decreases |s.parked| - i
  {
    if i == |s.parked| then None
    else if Runnable(s, s.parked[i], now) then Some(i)
    else FindFrom(s, now, i + 1)
  }

  /** The first task of the queue that can run, or none when none can. */
  function FindReady<M>(s: Env<M>, now: nat): (r: Option<nat>)
    ensures r.Some? ==> r.value < |s.parked| && Runnable(s, s.parked[r.value], now)
    ensures forall j :: 0 <= j < (if r.Some? then r.value else |s.parked|) ==> !Runnable(s, s.parked[j], now)
  {
    FindFrom(s, now, 0)
  }

  // ------------------------------------------------------------------- time

  /** Retired instructions plus idle time, saturating at the word's end. */
  function Now<M>(s: Env<M>): nat {
    SaturatingAdd(s.icount, s.warp)
  }

  function TimerDeadlines(watches: seq<Watch>, timers: map<nat, nat>): seq<nat> {
    if watches == [] then []
    else
      var rest := TimerDeadlines(watches[1..], timers);
      if watches[0].Timer? && watches[0].id in timers then [timers[watches[0].id]] + rest else rest
  }

  /** The moments at which time alone would wake a task. */
  function Deadlines(t: Task, w: World): seq<nat> {
    match t.state
    case Futex(_, _, Some(deadline)) => [deadline]
    case Waiting(watches, deadline) =>
      TimerDeadlines(watches, w.timers) + if deadline.Some? then [deadline.value] else []
    case _ => []
  }

  function Earlier(a: Option<nat>, b: Option<nat>): Option<nat> {
    if a.None? then b else if b.None? then a else Some(Min(a.value, b.value))
  }

  function Smallest(ds: seq<nat>): (r: Option<nat>)
    ensures r.Some? <==> ds != []
    ensures r.Some? ==> r.value in ds && forall d :: d in ds ==> r.value <= d
  {
    if ds == [] then None
    else
      assert forall d :: d in ds ==> d == ds[0] || d in ds[1..];
      Earlier(Some(ds[0]), Smallest(ds[1..]))
  }

  /** The earliest deadline of a task that is not stopped. */
  function EarliestDeadline(parked: seq<Task>, w: World): (r: Option<nat>)
    ensures r.Some? ==> exists t :: t in parked && !t.proc.stopped && r.value in Deadlines(t, w)
    ensures forall t, d :: t in parked && !t.proc.stopped && d in Deadlines(t, w) ==> r.Some? && r.value <= d
  {
    if parked == [] then None
    else
      var rest := EarliestDeadline(parked[1..], w);
      assert forall t :: t in parked ==> t == parked[0] || t in parked[1..];
      if parked[0].proc.stopped then rest else Earlier(Smallest(Deadlines(parked[0], w)), rest)
  }

  lemma {:induction false} TimerDeadlineFires<M>(s: Env<M>, watches: seq<Watch>, d: nat, now: nat)
    requires d in TimerDeadlines(watches, s.world.timers) && now >= d
    ensures exists w :: w in watches && WatchReady(s.world, w, now)
  {
    if d in TimerDeadlines(watches[1..], s.world.timers) {
      TimerDeadlineFires(s, watches[1..], d, now);
      var w :| w in watches[1..] && WatchReady(s.world, w, now);
      assert w in watches;
    } else {
      assert watches[0] in watches && WatchReady(s.world, watches[0], now);
    }
  }

  /** A task whose deadline has come can run. */
  lemma DeadlineWakes<M>(s: Env<M>, t: Task, d: nat, now: nat)
    requires !t.proc.stopped && d in Deadlines(t, s.world) && now >= d
    ensures Runnable(s, t, now)
  {
    if t.state.Waiting? && d in TimerDeadlines(t.state.watches, s.world.timers) {
      TimerDeadlineFires(s, t.state.watches, d, now);
    }
  }

  // ---------------------------------------------------------- a total stall

  /** What the host does when asked: queued keystrokes may change what tasks wait on and
      raise signals; a network it drives itself pauses the machine once; one it polls may
      change the ready sources. */
  datatype Typing = Silent | Typed(ready: set<nat>, parked: seq<Task>)
  datatype Network = NoWatch | HostDriven(expired: bool) | Polled(woke: bool, ready: set<nat>)
  datatype HostTurn = HostTurn(typing: Typing, network: Network)

  /** The same task with other flags: signals, stops and futex wakeups come from others; identity,
      parentage, registers, the vfork flag it carries and what it waits for do not. */
  predicate SameTask(a: Task, b: Task) {
    && a.proc.pid == b.proc.pid && a.proc.tgid == b.proc.tgid && a.proc.ppid == b.proc.ppid
    && a.proc.vforkDone == b.proc.vforkDone && a.cpu == b.cpu && (a.state == b.state || (a.state.Futex? && b.state.Futex?))
  }

  /** The same tasks with other flags: no one joins or leaves. */
  predicate SameTasks(a: seq<Task>, b: seq<Task>) {
    |a| == |b| && forall i :: 0 <= i < |a| ==> SameTask(a[i], b[i])
  }

  predicate TurnOk(parked: seq<Task>, turn: HostTurn) {
    turn.typing.Typed? ==> SameTasks(parked, turn.typing.parked)
  }

  function AfterTyping<M>(s: Env<M>, turn: HostTurn): Env<M> {
    if turn.typing.Typed? then s.(world := s.world.(ready := turn.typing.ready), parked := turn.typing.parked) else s
  }

  function AfterNetwork<M>(s: Env<M>, turn: HostTurn): Env<M> {
    if turn.network.Polled? && turn.network.woke then s.(world := s.world.(ready := turn.network.ready)) else s
  }

  /** Jumps the clock to the earliest deadline and looks again. */
  function WarpTo<M>(s: Env<M>, d: nat, now: nat): Env<M> {
    if d > now then s.(warp := s.warp + (d - now)) else s
  }

  /** The part of a stall after the keystrokes: the network, then time. */
  function ResolveQuiet<M>(s1: Env<M>, turn: HostTurn, now: nat): (r: (Env<M>, Option<nat>))
    ensures r.1.Some? ==> r.1.value < |r.0.parked|
  {
    var deadline, s2 := EarliestDeadline(s1.parked, s1.world), AfterNetwork(s1, turn);
    if turn.network == HostDriven(false) then (s1, None)
    else if turn.network.Polled? && turn.network.woke && FindReady(s2, now).Some? then (s2, FindReady(s2, now))
    else if turn.network.Polled? && !turn.network.woke && deadline.None? then (s2, None)
    else if deadline.None? then (s2, None)
    else
      var s3 := WarpTo(s2, deadline.value, now);
      (s3, FindReady(s3, Now(s3)))
  }

  /** Resolves a stall: keystrokes first, then the network, then time. */
  function ResolveStall<M>(s: Env<M>, turn: HostTurn): (r: (Env<M>, Option<nat>))
    ensures r.1.Some? ==> r.1.value < |r.0.parked|
  {
    var now, s1 := Now(s), AfterTyping(s, turn);
    if turn.typing.Typed? && FindReady(s1, now).Some? then (s1, FindReady(s1, now)) else ResolveQuiet(s1, turn, now)
  }

  /** The stall reaches the clock: no keystroke or network answer ended it first. */
  predicate ReachesClock<M>(s: Env<M>, turn: HostTurn) {
    var s1 := AfterTyping(s, turn);
    && !(turn.typing.Typed? && FindReady(s1, Now(s)).Some?)
    && turn.network != HostDriven(false)
    && !(turn.network.Polled? && turn.network.woke && FindReady(AfterNetwork(s1, turn), Now(s)).Some?)
  }

  /** An idle warp lands exactly on the earliest deadline of a task that is not stopped (or
      stays, when that has passed), never overflows, and always leaves a task to run. */
  lemma WarpWakes<M>(s: Env<M>, turn: HostTurn)
    requires s.icount < U64_LIMIT && s.warp < U64_LIMIT && ReachesClock(s, turn)
    requires EarliestDeadline(AfterTyping(s, turn).parked, AfterTyping(s, turn).world).Some?
    requires EarliestDeadline(AfterTyping(s, turn).parked, AfterTyping(s, turn).world).value < U64_LIMIT
    ensures var (s', index) := ResolveStall(s, turn);
            var d := EarliestDeadline(AfterTyping(s, turn).parked, AfterTyping(s, turn).world).value;
            && index.Some? && Runnable(s', s'.parked[index.value], Now(s'))
            && Now(s') == Max(Now(s), d) && s'.warp < U64_LIMIT && s'.icount + s'.warp >= s.icount + s.warp
  {
    hide Runnable, Deadlines;
    var s1 := AfterTyping(s, turn);
    var d, s2 := EarliestDeadline(s1.parked, s1.world).value, AfterNetwork(s1, turn);
    var s3 := WarpTo(s2, d, Now(s));
    var t :| t in s1.parked && !t.proc.stopped && d in Deadlines(t, s1.world);
    SameTimersSameDeadlines(t, s1.world, s3.world);
    DeadlineWakes(s3, t, d, Now(s3));
  }

  lemma SameTimersSameDeadlines(t: Task, w: World, w': World)
    requires w.timers == w'.timers
    ensures Deadlines(t, w) == Deadlines(t, w')
  {
  }

  /** Resolving a stall changes flags, sources and the clock, and nothing else; time does
      not go back. */
  lemma StallKeeps<M>(s: Env<M>, turn: HostTurn)
    requires TurnOk(s.parked, turn)
    ensures var s' := ResolveStall(s, turn).0;
            && s' == s.(parked := s'.parked, world := s'.world, warp := s'.warp)
            && SameTasks(s.parked, s'.parked) && s'.warp >= s.warp && Now(s') >= Now(s)
  {
    hide FindReady, Now, SameTasks, ResolveQuiet;
    SameTasksItself(s.parked);
    QuietKeeps(AfterTyping(s, turn), turn, Now(s));
    TimeGrows(s, ResolveStall(s, turn).0);
  }

  lemma QuietKeeps<M>(s: Env<M>, turn: HostTurn, now: nat)
    ensures var s' := ResolveQuiet(s, turn, now).0;
            s' == s.(world := s'.world, warp := s'.warp) && s'.warp >= s.warp
  {
    hide FindReady, EarliestDeadline, Now;
  }

  lemma SameTasksItself(parked: seq<Task>)
    ensures SameTasks(parked, parked)
  {
  }

  lemma TimeGrows<M>(s: Env<M>, s': Env<M>)
    requires s'.icount >= s.icount && s'.warp >= s.warp
    ensures Now(s') >= Now(s)
  {
  }

  // -------------------------------------------------------------- switching

  /** The thread groups of the parked tasks. */
  ghost function Groups(parked: seq<Task>): set<nat> {
    set t | t in parked :: t.proc.tgid
  }

  predicate GroupHasParked(parked: seq<Task>, tgid: nat) {
    exists t :: t in parked && t.proc.tgid == tgid
  }

  datatype Switch = Switched(timedOut: bool, conditionReady: bool) | Idle | MissingSpace

  function Without(parked: seq<Task>, i: nat): seq<Task>
    requires i < |parked|
  {
    parked[..i] + parked[i + 1..]
  }

  /** Puts task `i` on the CPU. A switch between groups takes the old group's map out of
      the MMU, keeps it while that group still has tasks, and puts the new group's in. */
  function SwitchTo<M>(s: Env<M>, i: nat, now: nat): (Env<M>, Switch)
    requires i < |s.parked|
  {
    var t, rest := s.parked[i], Without(s.parked, i);
    var timedOut := t.state.Futex? && !t.state.woken && t.state.deadline.Some? && now >= t.state.deadline.value;
    var next := t.proc.tgid;
    var s1 := s.(parked := rest);
    var conditionReady := WaitSatisfied(s1, t, now);
    var placed := s1.(running := Some(t.proc), cpu := t.cpu, lastGroup := next);
    if s.lastGroup == next then (placed, Switched(timedOut, conditionReady))
    else
      var kept := if s.lastGroup != 0 && GroupHasParked(rest, s.lastGroup) then s.groupMaps[s.lastGroup := s.mmu] else s.groupMaps;
      if next !in kept then (s1.(groupMaps := kept), MissingSpace)
      else (placed.(mmu := kept[next], groupMaps := kept - {next}), Switched(timedOut, conditionReady))
  }

  /** Restores the first task that can run, resolving a stall if there is none. The time
      that decides a futex timeout is read before the stall is resolved. */
  function ScheduleNext<M>(s: Env<M>, turn: HostTurn): (Env<M>, Switch) {
    var now := Now(s);
    if FindReady(s, now).Some? then SwitchTo(s, FindReady(s, now).value, now)
    else
      var (s', index) := ResolveStall(s, turn);
      if index.None? then (s', Idle) else SwitchTo(s', index.value, now)
  }

  function ParkCurrent<M>(s: Env<M>, state: ParkState): Env<M>
    requires s.running.Some?
  {
    s.(running := None, parked := s.parked + [Task(s.running.value, s.cpu, state)])
  }

  // -------------------------------------------------------------- invariants

  /** The saved address spaces are exactly those of the parked groups other than the one in
      the MMU; ids are used once. */
  ghost predicate Inv<M>(s: Env<M>) {
    && s.groupMaps.Keys == Groups(s.parked) - {s.lastGroup}
    && (s.running.Some? ==> s.running.value.tgid == s.lastGroup && s.running.value.pid < s.nextPid)
    && 0 < s.lastGroup < s.nextPid
    && (forall t :: t in s.parked ==> 0 < t.proc.tgid < s.nextPid && t.proc.pid < s.nextPid)
  }

  /** The memory of a group, wherever it is held. */
  ghost function SpaceOf<M>(s: Env<M>, g: nat): Option<M> {
    if g == s.lastGroup then Some(s.mmu) else if g in s.groupMaps then Some(s.groupMaps[g]) else None
  }

  lemma GroupsWithout(parked: seq<Task>, i: nat)
    requires i < |parked|
    ensures Groups(parked) == Groups(Without(parked, i)) + {parked[i].proc.tgid}
    ensures forall t :: t in Without(parked, i) ==> t in parked
  {
    forall t | t in parked
      ensures t == parked[i] || t in Without(parked, i)
    {
      var j :| 0 <= j < |parked| && parked[j] == t;
      if j < i {
        assert Without(parked, i)[j] == t;
      } else if j > i {
        assert Without(parked, i)[j - 1] == t;
      }
    }
  }

  /** A switch in a state that keeps the invariant finds the address space, keeps the
      invariant, and leaves every live group's memory as it was. */
  lemma SwitchKeeps<M>(s: Env<M>, i: nat, now: nat)
    requires Inv(s) && i < |s.parked|
    ensures var (s', r) := SwitchTo(s, i, now);
            && r.Switched? && Inv(s') && s'.running == Some(s.parked[i].proc) && s'.cpu == s.parked[i].cpu
            && s'.icount == s.icount && s'.warp == s.warp
            && forall g :: g in Groups(s'.parked) + {s'.lastGroup} ==> SpaceOf(s', g) == SpaceOf(s, g)
  {
    hide WaitSatisfied, Runnable;
    GroupsWithout(s.parked, i);
    var rest := Without(s.parked, i);
    assert GroupHasParked(rest, s.lastGroup) <==> s.lastGroup in Groups(rest);
    assert s.parked[i].proc.tgid in Groups(s.parked);
  }

  lemma SameTasksSameGroups(a: seq<Task>, b: seq<Task>)
    requires SameTasks(a, b)
    ensures Groups(a) == Groups(b)
  {
    forall g | g in Groups(a)
      ensures g in Groups(b)
    {
      var i :| 0 <= i < |a| && a[i].proc.tgid == g;
      assert b[i] in b;
    }
    forall g | g in Groups(b)
      ensures g in Groups(a)
    {
      var i :| 0 <= i < |b| && b[i].proc.tgid == g;
      assert a[i] in a;
    }
  }

  lemma ScheduleKeeps<M>(s: Env<M>, turn: HostTurn)
    requires Inv(s) && s.running.None? && TurnOk(s.parked, turn)
    ensures var (s', r) := ScheduleNext(s, turn);
            && !r.MissingSpace? && Inv(s') && (r.Switched? <==> s'.running.Some?)
            && s'.icount == s.icount && s'.warp >= s.warp
            && Groups(s'.parked) + {s'.lastGroup} <= Groups(s.parked) + {s.lastGroup}
            && forall g :: g in Groups(s'.parked) + {s'.lastGroup} ==> SpaceOf(s', g) == SpaceOf(s, g)
  {
    hide FindReady, Runnable, SwitchTo, ResolveStall, Now, Groups, Inv, SameTasks;
    StallKeeps(s, turn);
    var now := Now(s);
    if FindReady(s, now).Some? {
      SwitchStays(s, FindReady(s, now).value, now);
    } else {
      var (s1, index) := ResolveStall(s, turn);
      SameTasksSameGroups(s.parked, s1.parked);
      SameTasksInv(s, s1);
      if index.Some? {
        SwitchStays(s1, index.value, now);
      }
    }
  }

  lemma SwitchStays<M>(s: Env<M>, i: nat, now: nat)
    requires Inv(s) && i < |s.parked|
    ensures var (s', r) := SwitchTo(s, i, now);
            && r.Switched? && Inv(s') && s'.running.Some? && s'.icount == s.icount && s'.warp == s.warp
            && Groups(s'.parked) + {s'.lastGroup} <= Groups(s.parked) + {s.lastGroup}
            && forall g :: g in Groups(s'.parked) + {s'.lastGroup} ==> SpaceOf(s', g) == SpaceOf(s, g)
  {
    SwitchKeeps(s, i, now);
    GroupsWithout(s.parked, i);
    assert s.parked[i] in s.parked;
  }

  lemma SameTasksInv<M>(s: Env<M>, s': Env<M>)
    requires Inv(s) && SameTasks(s.parked, s'.parked)
    requires s'.groupMaps == s.groupMaps && s'.lastGroup == s.lastGroup && s'.nextPid >= s.nextPid
    requires s'.running.Some? ==> s'.running.value.tgid == s.lastGroup && s'.running.value.pid < s'.nextPid
    ensures Inv(s')
  {
    SameTasksSameGroups(s.parked, s'.parked);
    forall t | t in s'.parked
      ensures 0 < t.proc.tgid < s'.nextPid && t.proc.pid < s'.nextPid
    {
      var i :| 0 <= i < |s'.parked| && s'.parked[i] == t;
      assert s.parked[i] in s.parked;
    }
  }

  // ------------------------------------------------------------------- steps

  datatype CloneKind = Thread | ForkProcess | Vfork

  /** What a clone asks for: where to store the new id, in the parent's memory and in the child's,
      how the MMU stores it, and the registers the child starts with and a vfork parent resumes
      with. */
  datatype CloneSpec<!M> = CloneSpec(
    kind: CloneKind, parentTid: Option<nat>, childTid: Option<nat>, store: (M, nat, nat) -> M,
    childCpu: int, parentCpu: int)

  /** Where an exiting task wants its id cleared in memory, and how the MMU stores a word. */
  datatype Clearing<!M> = Clearing(at: Option<nat>, store: (M, nat, nat) -> M)

  datatype Step<!M> =
    | Guest(next: Env<M>)
    | Clone(spec: CloneSpec<M>, tidFault: bool, turn: HostTurn)
    | Block(state: ParkState, turn: HostTurn)
    | Exit(status: int, exitGroup: bool, flags: seq<Task>, clear: Clearing<M>, turn: HostTurn)
    | Kill(targets: seq<nat>)
    | Resume(turn: HostTurn)

  /** Anything else the running task does: it may change its own memory and registers, raise
      signals, wake, stop and continue others, reap children; time may pass. The vfork flag it
      carries, if any, is fired by its exec and by nothing else it does. */
  ghost predicate GuestOk<M>(s: Env<M>, next: Env<M>) {
    && s.running.Some? && next.running.Some?
    && next.running.value.pid == s.running.value.pid && next.running.value.tgid == s.running.value.tgid
    && SameTasks(s.parked, next.parked) && next.groupMaps == s.groupMaps
    && next.lastGroup == s.lastGroup && next.nextPid == s.nextPid
    && next.icount >= s.icount && next.warp >= s.warp
    && var flag := s.running.value.vforkDone;
       || (next.running.value.vforkDone == flag && next.world.fired == s.world.fired)
       || (flag.Some? && next.running.value.vforkDone.None? && next.world.fired == s.world.fired + {flag.value})
  }

  function Child(parent: Proc, kind: CloneKind, pid: nat): Proc {
    if kind.Thread? then Proc(pid, parent.tgid, parent.ppid, {}, parent.sigmask, None, false, None)
    else Proc(pid, pid, parent.tgid, {}, parent.sigmask, if kind.Vfork? then Some(pid) else None, false, None)
  }

  function Stored<M>(spec: CloneSpec<M>, mem: M, at: Option<nat>, pid: nat): M {
    if at.Some? then spec.store(mem, at.value, pid) else mem
  }

  /** The caller's memory after a clone: the id where the parent asked for it, and, in memory that
      a thread shares, where the child asked for it. */
  function ParentMemory<M>(spec: CloneSpec<M>, mem: M, pid: nat): M {
    var own := Stored(spec, mem, spec.parentTid, pid);
    if spec.kind.Thread? then Stored(spec, own, spec.childTid, pid) else own
  }

  /** A new process's memory: a copy of its parent's, taken after the parent's id is stored, with
      the id where the child asked for it. */
  function ChildMemory<M>(spec: CloneSpec<M>, mem: M, pid: nat): M {
    Stored(spec, Stored(spec, mem, spec.parentTid, pid), spec.childTid, pid)
  }

  /** `clone`, up to the point where a vfork parent gives up the CPU. */
  function Spawned<M>(s: Env<M>, spec: CloneSpec<M>): Env<M>
    requires s.running.Some?
  {
    var pid := s.nextPid;
    s.(nextPid := pid + 1,
       mmu := ParentMemory(spec, s.mmu, pid),
       groupMaps := if spec.kind.Thread? then s.groupMaps else s.groupMaps[pid := ChildMemory(spec, s.mmu, pid)],
       cpu := if spec.kind.Vfork? then spec.parentCpu else s.cpu,
       parked := s.parked + [Task(Child(s.running.value, spec.kind, pid), spec.childCpu, Ready)])
  }

  function OtherGroups(parked: seq<Task>, g: nat): (r: seq<Task>)
    ensures forall t :: t in r <==> t in parked && t.proc.tgid != g
  {
    if parked == [] then []
    else
      assert forall t :: t in parked <==> t == parked[0] || t in parked[1..];
      if parked[0].proc.tgid == g then OtherGroups(parked[1..], g) else [parked[0]] + OtherGroups(parked[1..], g)
  }

  /** The exit of the root process ends the machine instead. */
  predicate EndsMachine(p: Proc, exitGroup: bool) {
    p.tgid == ROOT_PID && (exitGroup || p.pid == p.tgid)
  }

  function Survivors<M>(s: Env<M>, exitGroup: bool): seq<Task>
    requires s.running.Some?
  {
    if exitGroup then OtherGroups(s.parked, s.running.value.tgid) else s.parked
  }

  function Cleared<M>(clear: Clearing<M>, mem: M): M {
    if clear.at.Some? then clear.store(mem, clear.at.value, 0) else mem
  }

  /** `exit`, up to the choice of the next task; `flags` are the survivors with the wakeups
      and the SIGCHLD that the exit causes. */
  function Gone<M>(s: Env<M>, status: int, exitGroup: bool, flags: seq<Task>, clear: Clearing<M>): Env<M>
    requires s.running.Some?
  {
    var p := s.running.value;
    s.(running := None, parked := flags, mmu := Cleared(clear, s.mmu),
       zombies := if p.pid == p.tgid || exitGroup then s.zombies + [Zombie(p.tgid, p.ppid, status)] else s.zombies,
       world := if p.vforkDone.Some? then s.world.(fired := s.world.fired + {p.vforkDone.value}) else s.world)
  }

  /** SIGKILL of one other group: its tasks go, its leader becomes a zombie, its suspended
      vfork parent is released, and its address space is dropped. */
  function KilledFrom<M>(s: Env<M>, target: nat, i: nat): Env<M>
    decreases |s.parked| - i
  {
    if i >= |s.parked| then s
    else if s.parked[i].proc.tgid != target then KilledFrom(s, target, i + 1)
    else
      var p := s.parked[i].proc;
      KilledFrom(
        s.(parked := Without(s.parked, i),
           zombies := if p.pid == p.tgid then s.zombies + [Zombie(p.tgid, p.ppid, 9)] else s.zombies,
           world := if p.vforkDone.Some? then s.world.(fired := s.world.fired + {p.vforkDone.value}) else s.world),
        target, i)
  }

  function KillGroup<M>(s: Env<M>, target: nat): Env<M> {
    var s' := KilledFrom(s, target, 0);
    if |s'.parked| < |s.parked| && !GroupHasParked(s'.parked, target) then s'.(groupMaps := s'.groupMaps - {target}) else s'
  }

  function KillAll<M>(s: Env<M>, targets: seq<nat>): Env<M>
    decreases |targets|
  {
    if targets == [] then s else KillAll(KillGroup(s, targets[0]), targets[1..])
  }

  ghost predicate Enabled<M>(s: Env<M>, step: Step<M>) {
    match step
    case Guest(next) => GuestOk(s, next)
    case Clone(spec, tidFault, turn) =>
      && s.running.Some? && (tidFault ==> spec.parentTid.Some?)
      && (spec.kind.Vfork? ==> TurnOk(ParkCurrent(Spawned(s, spec), VforkDone(s.nextPid)).parked, turn))
    case Block(state, turn) => s.running.Some? && TurnOk(ParkCurrent(s, state).parked, turn)
    case Exit(_, exitGroup, flags, _, turn) =>
      && s.running.Some? && !EndsMachine(s.running.value, exitGroup)
      && SameTasks(Survivors(s, exitGroup), flags) && TurnOk(flags, turn)
    case Kill(targets) => s.running.Some? && s.running.value.tgid !in targets
    case Resume(turn) => s.running.None? && TurnOk(s.parked, turn)
  }

  ghost function After<M>(s: Env<M>, step: Step<M>): (Env<M>, Switch)
    requires Enabled(s, step)
  {
    match step
    case Guest(next) => (next, Idle)
    case Clone(spec, tidFault, turn) =>
      if tidFault then (s.(nextPid := s.nextPid + 1), Idle)
      else if spec.kind.Vfork? then ScheduleNext(ParkCurrent(Spawned(s, spec), VforkDone(s.nextPid)), turn)
      else (Spawned(s, spec), Idle)
    case Block(state, turn) => ScheduleNext(ParkCurrent(s, state), turn)
    case Exit(status, exitGroup, flags, clear, turn) => ScheduleNext(Gone(s, status, exitGroup, flags, clear), turn)
    case Kill(targets) => (KillAll(s, targets), Idle)
    case Resume(turn) => ScheduleNext(s, turn)
  }

  // ------------------------------------------------ what every step preserves

  /** The memory a step leaves its own group, its instructions aside: what it was, with the ids a
      clone stores and an exit clears. */
  function OwnMemory<M>(s: Env<M>, step: Step<M>): M {
    if step.Clone? && !step.tidFault then ParentMemory(step.spec, s.mmu, s.nextPid)
    else if step.Exit? then Cleared(step.clear, s.mmu)
    else s.mmu
  }

  /** Every group alive afterwards keeps the memory it had; only the running group's own
      instructions and the ids of clone and exit change it. A new group is the one of a new process,
      and starts as a copy of its parent with the id stored in it. */
  ghost predicate MemoryKept<M>(s: Env<M>, s': Env<M>, step: Step<M>) {
    forall g :: g in Groups(s'.parked) + {s'.lastGroup} ==>
      if g == s.lastGroup then step.Guest? || SpaceOf(s', g) == Some(OwnMemory(s, step))
      else if g in Groups(s.parked) then SpaceOf(s', g) == SpaceOf(s, g)
      else
        && step.Clone? && !step.tidFault && !step.spec.kind.Thread? && g == s.nextPid
        && SpaceOf(s', g) == Some(ChildMemory(step.spec, s.mmu, s.nextPid))
  }

  ghost predicate Good<M>(s: Env<M>, step: Step<M>, r: (Env<M>, Switch)) {
    Inv(r.0) && !r.1.MissingSpace? && MemoryKept(s, r.0, step) && Now(r.0) >= Now(s)
  }

  lemma SpawnKeeps<M>(s: Env<M>, spec: CloneSpec<M>)
    requires Inv(s) && s.running.Some?
    ensures var s' := Spawned(s, spec);
            && Inv(s') && s'.lastGroup == s.lastGroup && s'.mmu == ParentMemory(spec, s.mmu, s.nextPid)
            && Groups(s'.parked) == Groups(s.parked) + {if spec.kind.Thread? then s.lastGroup else s.nextPid}
            && s.nextPid !in Groups(s.parked) && s.nextPid != s.lastGroup
            && forall g :: SpaceOf(s', g) ==
                 if g == s.lastGroup then Some(ParentMemory(spec, s.mmu, s.nextPid))
                 else if g == s.nextPid && !spec.kind.Thread? then Some(ChildMemory(spec, s.mmu, s.nextPid))
                 else SpaceOf(s, g)
  {
    var child := Task(Child(s.running.value, spec.kind, s.nextPid), spec.childCpu, Ready);
    GroupsPush(s.parked, child);
  }

  lemma GroupsPush(parked: seq<Task>, t: Task)
    ensures Groups(parked + [t]) == Groups(parked) + {t.proc.tgid}
  {
    assert forall u :: u in parked + [t] <==> u in parked || u == t;
    assert t in parked + [t];
  }

  lemma ParkKeeps<M>(s: Env<M>, state: ParkState)
    requires Inv(s) && s.running.Some?
    ensures var s' := ParkCurrent(s, state);
            && Inv(s') && s'.lastGroup == s.lastGroup && Groups(s'.parked) == Groups(s.parked) + {s.lastGroup}
            && forall g :: SpaceOf(s', g) == SpaceOf(s, g)
  {
    GroupsPush(s.parked, Task(s.running.value, s.cpu, state));
  }

  /** An exit takes tasks of the running group only. */
  lemma SurvivorGroups<M>(s: Env<M>, exitGroup: bool)
    requires s.running.Some? && s.running.value.tgid == s.lastGroup
    ensures var left := Survivors(s, exitGroup);
            && Groups(left) - {s.lastGroup} == Groups(s.parked) - {s.lastGroup} && Groups(left) <= Groups(s.parked)
            && forall t :: t in left ==> t in s.parked
  {
    var left := Survivors(s, exitGroup);
    forall t | t in s.parked && t.proc.tgid != s.lastGroup
      ensures t in left
    {
    }
  }

  lemma ExitKeeps<M>(s: Env<M>, status: int, exitGroup: bool, flags: seq<Task>, clear: Clearing<M>)
    requires Inv(s) && s.running.Some? && SameTasks(Survivors(s, exitGroup), flags)
    ensures var s' := Gone(s, status, exitGroup, flags, clear);
            && Inv(s') && s'.lastGroup == s.lastGroup && Groups(s'.parked) <= Groups(s.parked)
            && forall g :: SpaceOf(s', g) == if g == s.lastGroup then Some(Cleared(clear, s.mmu)) else SpaceOf(s, g)
  {
    hide Groups, Survivors, SameTasks;
    var left := Survivors(s, exitGroup);
    SurvivorGroups(s, exitGroup);
    var s1 := s.(parked := left, running := None);
    assert Inv(s1);
    SameTasksInv(s1, Gone(s, status, exitGroup, flags, clear));
    SameTasksSameGroups(left, flags);
  }

  /** SIGKILL removes a group's tasks and no other. */
  lemma {:induction false} KilledFromRemoves<M>(s: Env<M>, target: nat, i: nat)
    requires forall j :: 0 <= j < i && j < |s.parked| ==> s.parked[j].proc.tgid != target
    ensures var s' := KilledFrom(s, target, i);
            && s' == s.(parked := s'.parked, zombies := s'.zombies, world := s'.world)
            && (forall t :: t in s'.parked <==> t in s.parked && t.proc.tgid != target)
            && |s'.parked| <= |s.parked|
            && (|s'.parked| < |s.parked| <==> exists j :: i <= j < |s.parked| && s.parked[j].proc.tgid == target)
    decreases |s.parked| - i
  {
    if i < |s.parked| {
      if s.parked[i].proc.tgid != target {
        KilledFromRemoves(s, target, i + 1);
      } else {
        var p := s.parked[i].proc;
        var s1 := s.(parked := Without(s.parked, i),
                     zombies := if p.pid == p.tgid then s.zombies + [Zombie(p.tgid, p.ppid, 9)] else s.zombies,
                     world := if p.vforkDone.Some? then s.world.(fired := s.world.fired + {p.vforkDone.value}) else s.world);
        KilledFromRemoves(s1, target, i);
        WithoutMembers(s.parked, i);
      }
    }
  }

  lemma WithoutMembers(parked: seq<Task>, i: nat)
    requires i < |parked|
    ensures forall t :: t in parked <==> t == parked[i] || t in Without(parked, i)
  {
    GroupsWithout(parked, i);
    forall t | t in parked
      ensures t == parked[i] || t in Without(parked, i)
    {
      var j :| 0 <= j < |parked| && parked[j] == t;
      if j < i {
        assert Without(parked, i)[j] == t;
      } else if j > i {
        assert Without(parked, i)[j - 1] == t;
      }
    }
  }

  lemma KillKeeps<M>(s: Env<M>, target: nat)
    requires Inv(s) && target != s.lastGroup
    ensures var s' := KillGroup(s, target);
            && Inv(s') && s'.lastGroup == s.lastGroup && s'.running == s.running
            && s'.icount == s.icount && s'.warp == s.warp
            && Groups(s'.parked) == Groups(s.parked) - {target}
            && forall g :: g != target ==> SpaceOf(s', g) == SpaceOf(s, g)
  {
    KilledFromRemoves(s, target, 0);
    var s1 := KilledFrom(s, target, 0);
    assert Groups(s1.parked) == Groups(s.parked) - {target};
    assert !GroupHasParked(s1.parked, target);
    if |s1.parked| == |s.parked| {
      assert target !in Groups(s.parked);
    }
  }

  lemma {:induction false} KillAllKeeps<M>(s: Env<M>, targets: seq<nat>)
    requires Inv(s) && s.lastGroup !in targets
    ensures var s' := KillAll(s, targets);
            && Inv(s') && s'.lastGroup == s.lastGroup && s'.running == s.running
            && s'.icount == s.icount && s'.warp == s.warp
            && Groups(s'.parked) <= Groups(s.parked)
            && (forall g :: g in targets ==> g !in Groups(s'.parked) && g !in s'.groupMaps)
            && forall g :: g !in targets ==> SpaceOf(s', g) == SpaceOf(s, g)
    decreases |targets|
  {
    hide Groups, KillGroup, SpaceOf;
    if targets != [] {
      KillKeeps(s, targets[0]);
      KillAllKeeps(KillGroup(s, targets[0]), targets[1..]);
    }
  }

  lemma GuestGood<M>(s: Env<M>, step: Step<M>)
    requires Inv(s) && Enabled(s, step) && step.Guest?
    ensures Good(s, step, After(s, step))
  {
    SameTasksInv(s, step.next);
    SameTasksSameGroups(s.parked, step.next.parked);
  }

  /** Handing over the CPU after a change that left every group's memory alone. */
  lemma HandOver<M>(s: Env<M>, s1: Env<M>, step: Step<M>, turn: HostTurn)
    requires Inv(s1) && s1.running.None? && TurnOk(s1.parked, turn)
    requires MemoryKept(s, s1, step) && s1.icount == s.icount && s1.warp == s.warp
    requires !step.Guest?
    ensures Good(s, step, ScheduleNext(s1, turn))
  {
    hide Inv, Groups, ScheduleNext, SpaceOf;
    ScheduleKeeps(s1, turn);
  }

  lemma CloneGood<M>(s: Env<M>, step: Step<M>)
    requires Inv(s) && Enabled(s, step) && step.Clone?
    ensures Good(s, step, After(s, step))
  {
    hide Groups, ScheduleNext, ParentMemory, ChildMemory;
    SpawnKeeps(s, step.spec);
    if step.tidFault {
    } else if step.spec.kind.Vfork? {
      var s1 := Spawned(s, step.spec);
      ParkKeeps(s1, VforkDone(s.nextPid));
      HandOver(s, ParkCurrent(s1, VforkDone(s.nextPid)), step, step.turn);
    }
  }

  lemma BlockGood<M>(s: Env<M>, step: Step<M>)
    requires Inv(s) && Enabled(s, step) && step.Block?
    ensures Good(s, step, After(s, step))
  {
    hide Groups, ScheduleNext;
    ParkKeeps(s, step.state);
    HandOver(s, ParkCurrent(s, step.state), step, step.turn);
  }

  lemma ExitGood<M>(s: Env<M>, step: Step<M>)
    requires Inv(s) && Enabled(s, step) && step.Exit?
    ensures Good(s, step, After(s, step))
  {
    hide Groups, ScheduleNext;
    ExitKeeps(s, step.status, step.exitGroup, step.flags, step.clear);
    HandOver(s, Gone(s, step.status, step.exitGroup, step.flags, step.clear), step, step.turn);
  }

  lemma KillGood<M>(s: Env<M>, step: Step<M>)
    requires Inv(s) && Enabled(s, step) && step.Kill?
    ensures Good(s, step, After(s, step))
  {
    hide Groups, KillAll;
    KillAllKeeps(s, step.targets);
  }

  /** Every step keeps the saved address spaces exact, never finds one missing, keeps every
      live group's memory, and never takes guest time back. */
  lemma StepKeeps<M>(s: Env<M>, step: Step<M>)
    requires Inv(s) && Enabled(s, step)
    ensures Good(s, step, After(s, step))
  {
    hide Groups, ScheduleNext, SpaceOf, Inv, Good, After, Enabled;
    match step
    case Guest(_) => GuestGood(s, step);
    case Clone(_, _, _) => CloneGood(s, step);
    case Block(_, _) => BlockGood(s, step);
    case Exit(_, _, _, _, _) => ExitGood(s, step);
    case Kill(_) => KillGood(s, step);
    case Resume(turn) =>
      HandOver(s, s, step, turn) by { ResumeIsHandOver(s, step); }
      assert After(s, step) == ScheduleNext(s, turn) by { ResumeIsHandOver(s, step); }
  }

  lemma ResumeIsHandOver<M>(s: Env<M>, step: Step<M>)
    requires Enabled(s, step) && step.Resume?
    ensures s.running.None? && TurnOk(s.parked, step.turn) && MemoryKept(s, s, step)
    ensures After(s, step) == ScheduleNext(s, step.turn)
  {
  }

  /** The machine as it starts: one root process on the CPU. */
  ghost predicate Starts<M>(s: Env<M>) {
    && s.running.Some? && s.running.value.pid == ROOT_PID && s.running.value.tgid == ROOT_PID
    && s.running.value.vforkDone.None? && s.world.fired == {}
    && s.parked == [] && s.zombies == [] && s.groupMaps == map[]
    && s.lastGroup == ROOT_PID && s.nextPid == ROOT_PID + 1 && s.warp == 0
  }

  /** The states of a run, oldest first, each reached from the one before by an enabled step. */
  ghost predicate IsRun<M>(states: seq<Env<M>>, steps: seq<Step<M>>) {
    && |states| == |steps| + 1 && Starts(states[0])
    && forall i :: 0 <= i < |steps| ==> Enabled(states[i], steps[i]) && states[i + 1] == After(states[i], steps[i]).0
  }

  /** Over every run of clone, park, schedule, exit and kill: the saved address spaces are
      exactly those of the parked groups that the MMU does not hold, so a switch always
      finds the one it needs and no dead group's map is kept; and time never goes back. */
  lemma {:induction false} RunKeeps<M>(states: seq<Env<M>>, steps: seq<Step<M>>, i: nat)
    requires IsRun(states, steps) && i <= |steps|
    ensures Inv(states[i])
    ensures i > 0 ==> Good(states[i - 1], steps[i - 1], After(states[i - 1], steps[i - 1])) && Now(states[i]) >= Now(states[i - 1])
  {
    hide Good, After, Enabled;
    if i == 0 {
      assert Groups([]) == {};
    } else {
      RunKeeps(states, steps, i - 1);
      StepKeeps(states[i - 1], steps[i - 1]);
      GoodIsOrdered(states[i - 1], steps[i - 1], After(states[i - 1], steps[i - 1]));
    }
  }

  lemma GoodIsOrdered<M>(s: Env<M>, step: Step<M>, r: (Env<M>, Switch))
    requires Good(s, step, r)
    ensures Inv(r.0) && Now(r.0) >= Now(s)
  {
  }

  /** The task a scheduling decision puts on the CPU. */
  function Picked<M>(s: Env<M>, turn: HostTurn): Option<Task> {
    var ready := FindReady(s, Now(s));
    if ready.Some? then Some(s.parked[ready.value])
    else
      var (s', index) := ResolveStall(s, turn);
      if index.Some? then Some(s'.parked[index.value]) else None
  }

  /** A futex waiter that nobody woke and that is switched in is told of its timeout if and only if
      its deadline had come before the stall was resolved. So the telling is right, which is that
      a waiter past its deadline is told, except when the warp itself brought the clock there. */
  lemma FutexToldIff<M>(s: Env<M>, turn: HostTurn)
    requires Inv(s) && s.running.None? && TurnOk(s.parked, turn)
    requires Picked(s, turn).Some?
    requires var w := Picked(s, turn).value.state; w.Futex? && !w.woken && w.deadline.Some?
    ensures var (s', r) := ScheduleNext(s, turn); var d := Picked(s, turn).value.state.deadline.value;
            && r.Switched? && s'.running == Some(Picked(s, turn).value.proc)
            && (r.timedOut <==> d <= Now(s))
            && ((r.timedOut <==> d <= Now(s')) <==> !(Now(s) < d <= Now(s')))
  {
    hide Runnable, ResolveStall, Inv, Groups, SpaceOf, WaitSatisfied;
    ScheduleKeeps(s, turn);
    StallKeeps(s, turn);
  }

  /** A waiter that was ready before any stall is told exactly when it is past its deadline. */
  lemma ReadyFutexIsTold<M>(s: Env<M>, turn: HostTurn)
    requires Inv(s) && s.running.None? && TurnOk(s.parked, turn) && FindReady(s, Now(s)).Some?
    requires var w := Picked(s, turn).value.state; w.Futex? && !w.woken && w.deadline.Some?
    ensures var (s', r) := ScheduleNext(s, turn);
            Now(s') == Now(s) && (r.timedOut <==> Picked(s, turn).value.state.deadline.value <= Now(s'))
  {
    hide Runnable, ResolveStall, Inv, Groups, SpaceOf, WaitSatisfied;
    FutexToldIff(s, turn);
  }

  /** One process, parked on a futex until `deadline` with nobody to wake it, on an idle machine. */
  function LoneWaiter(deadline: nat): Env<int> {
    var p := Proc(ROOT_PID, ROOT_PID, 0, {}, {}, None, false, None);
    Env(None, 0, 0, [Task(p, 0, Futex(64, false, Some(deadline)))], [], map[], 0, ROOT_PID, ROOT_PID + 1, 0,
        World({}, map[], {}))
  }

  /** A futex wait that the idle warp ends: the waiter is switched in with the clock at its
      deadline, and is not told that it timed out. */
  lemma WarpedFutexIsNotTold(deadline: nat)
    requires 0 < deadline < U64_LIMIT
    ensures var s, turn := LoneWaiter(deadline), HostTurn(Silent, NoWatch); var (s', r) := ScheduleNext(s, turn);
            && Inv(s) && Now(s) == 0 && s'.running == Some(s.parked[0].proc) && Now(s') == deadline
            && r == Switched(false, false)
  {
    var s, turn := LoneWaiter(deadline), HostTurn(Silent, NoWatch);
    var t := s.parked[0];
    assert Groups(s.parked) == {ROOT_PID} by { assert t in s.parked; }
    assert !Runnable(s, t, 0);
    assert t in s.parked && deadline in Deadlines(t, s.world);
    var d := EarliestDeadline(s.parked, s.world);
    assert d == Some(deadline) by {
      var u :| u in s.parked && !u.proc.stopped && d.value in Deadlines(u, s.world);
    }
    var s3 := WarpTo(s, deadline, 0);
    assert Runnable(s3, t, Now(s3));
    assert FindReady(s3, Now(s3)) == Some(0);
  }

  // ------------------------------------------------------------ the handlers

  class LinuxEnv<M> {
    var running: Option<Proc>
    var cpu: int
    var icount: nat
    var parked: seq<Task>
    var zombies: seq<Zombie>
    var groupMaps: map<nat, M>
    var mmu: M
    var lastGroup: nat
    var nextPid: nat
    var warp: nat
    var world: World

    constructor (root: Proc, cpu: int, icount: nat, mmu: M)
      requires root.pid == ROOT_PID && root.tgid == ROOT_PID && root.vforkDone.None?
      ensures Starts(View()) && Inv(View())
    {
      running, this.cpu, this.icount, this.mmu := Some(root), cpu, icount, mmu;
      parked, zombies, groupMaps := [], [], map[];
      lastGroup, nextPid, warp, world := ROOT_PID, ROOT_PID + 1, 0, World({}, map[], {});
      new;
      assert Groups([]) == {};
    }

    function View(): Env<M>
      reads this
    {
      Env(running, cpu, icount, parked, zombies, groupMaps, mmu, lastGroup, nextPid, warp, world)
    }

    method FirstReady(now: nat) returns (r: Option<nat>)
      ensures r == FindReady(View(), now)
    {
      var i := 0;
      while i < |parked|
        invariant 0 <= i <= |parked|
        invariant FindReady(View(), now) == FindFrom(View(), now, i)
      {
        if Runnable(View(), parked[i], now) {
          return Some(i);
        }
        i := i + 1;
      }
      r := None;
    }

    method Earliest() returns (r: Option<nat>)
      ensures r == EarliestDeadline(parked, world)
    {
      r := None;
      var i := |parked|;
      while i > 0
        invariant 0 <= i <= |parked|
        invariant r == EarliestDeadline(parked[i..], world)
      {
        i := i - 1;
        assert parked[i..][1..] == parked[i + 1..];
        if !parked[i].proc.stopped {
          r := Earlier(Smallest(Deadlines(parked[i], world)), r);
        }
      }
    }

    method Stall(turn: HostTurn) returns (r: Option<nat>)
      modifies this
      ensures (View(), r) == old(ResolveStall(View(), turn))
    {
      hide FindReady, ResolveQuiet;
      var now := SaturatingAdd(icount, warp);
      if turn.typing.Typed? {
        world, parked := world.(ready := turn.typing.ready), turn.typing.parked;
        r := FirstReady(now);
        if r.Some? {
          return;
        }
      }
      r := StallQuiet(turn, now);
    }

    method StallQuiet(turn: HostTurn, now: nat) returns (r: Option<nat>)
      modifies this
      ensures (View(), r) == old(ResolveQuiet(View(), turn, now))
    {
      hide FindReady, EarliestDeadline, Runnable, Deadlines;
      var deadline := Earliest();
      match turn.network {
        case NoWatch =>
        case HostDriven(expired) =>
          if !expired {
            return None;
          }
        case Polled(woke, ready) =>
          if woke {
            world := world.(ready := ready);
            r := FirstReady(now);
            if r.Some? {
              return;
            }
          } else if deadline.None? {
            return None;
          }
      }
      if deadline.None? {
        return None;
      }
      if deadline.value > now {
        warp := warp + (deadline.value - now);
      }
      r := FirstReady(SaturatingAdd(icount, warp));
    }

    method Schedule(turn: HostTurn) returns (r: Switch)
      modifies this
      ensures (View(), r) == old(ScheduleNext(View(), turn))
    {
      hide FindReady, ResolveStall, SwitchTo;
      var now := SaturatingAdd(icount, warp);
      var index := FirstReady(now);
      if index.None? {
        index := Stall(turn);
        if index.None? {
          return Idle;
        }
      }
      r := Place(index.value, now);
    }

    method Place(index: nat, now: nat) returns (r: Switch)
      requires index < |parked|
      modifies this
      ensures (View(), r) == old(SwitchTo(View(), index, now))
    {
      hide WaitSatisfied, GroupHasParked, Runnable;
      var t := parked[index];
      parked := parked[..index] + parked[index + 1..];
      var timedOut := t.state.Futex? && !t.state.woken && t.state.deadline.Some? && now >= t.state.deadline.value;
      var conditionReady := WaitSatisfied(View(), t, now);
      var prev, next := lastGroup, t.proc.tgid;
      if prev != next {
        if prev != 0 && GroupHasParked(parked, prev) {
          groupMaps := groupMaps[prev := mmu];
        }
        if next !in groupMaps {
          return MissingSpace;
        }
        mmu := groupMaps[next];
        groupMaps := groupMaps - {next};
      }
      lastGroup := next;
      cpu := t.cpu;
      running := Some(t.proc);
      r := Switched(timedOut, conditionReady);
    }

    method Park(state: ParkState)
      requires running.Some?
      modifies this
      ensures View() == old(ParkCurrent(View(), state))
    {
      parked := parked + [Task(running.value, cpu, state)];
      running := None;
    }

    /** A blocking syscall: park, then hand over the CPU. */
    method BlockAndSwitch(state: ParkState, turn: HostTurn) returns (r: Switch)
      requires Inv(View()) && running.Some? && TurnOk(parked + [Task(running.value, cpu, state)], turn)
      modifies this
      ensures (View(), r) == old(After(View(), Block(state, turn)))
      ensures Good(old(View()), Block(state, turn), (View(), r))
    {
      hide ScheduleNext, Good, Inv;
      StepKeeps(View(), Block(state, turn));
      Park(state);
      r := Schedule(turn);
    }

    /** `clone`; a vfork parent is parked until its child execs or exits. */
    method CloneTask(spec: CloneSpec<M>, tidFault: bool, turn: HostTurn) returns (r: Switch)
      requires Inv(View()) && Enabled(View(), Clone(spec, tidFault, turn))
      modifies this
      ensures (View(), r) == old(After(View(), Clone(spec, tidFault, turn)))
      ensures Good(old(View()), Clone(spec, tidFault, turn), (View(), r))
    {
      hide ScheduleNext, Good, Inv;
      StepKeeps(View(), Clone(spec, tidFault, turn));
      var pid := nextPid;
      nextPid := nextPid + 1;
      if tidFault {
        return Idle;
      }
      if spec.parentTid.Some? {
        mmu := spec.store(mmu, spec.parentTid.value, pid);
      }
      var child := Child(running.value, spec.kind, pid);
      var childMemory := mmu;
      if spec.childTid.Some? {
        if spec.kind.Thread? {
          mmu := spec.store(mmu, spec.childTid.value, pid);
        } else {
          childMemory := spec.store(childMemory, spec.childTid.value, pid);
        }
      }
      if !spec.kind.Thread? {
        groupMaps := groupMaps[pid := childMemory];
      }
      parked := parked + [Task(child, spec.childCpu, Ready)];
      if spec.kind.Vfork? {
        cpu := spec.parentCpu;
        Park(VforkDone(pid));
        r := Schedule(turn);
      } else {
        r := Idle;
      }
    }

    /** The exit of a task other than the root process. */
    method TaskExit(status: int, exitGroup: bool, flags: seq<Task>, clear: Clearing<M>, turn: HostTurn) returns (r: Switch)
      requires Inv(View()) && Enabled(View(), Exit(status, exitGroup, flags, clear, turn))
      modifies this
      ensures (View(), r) == old(After(View(), Exit(status, exitGroup, flags, clear, turn)))
      ensures Good(old(View()), Exit(status, exitGroup, flags, clear, turn), (View(), r))
    {
      hide ScheduleNext, Good, Inv, OtherGroups;
      StepKeeps(View(), Exit(status, exitGroup, flags, clear, turn));
      var p := running.value;
      if clear.at.Some? {
        mmu := clear.store(mmu, clear.at.value, 0);
      }
      if p.vforkDone.Some? {
        world := world.(fired := world.fired + {p.vforkDone.value});
      }
      parked := flags;
      if p.pid == p.tgid || exitGroup {
        zombies := zombies + [Zombie(p.tgid, p.ppid, status)];
      }
      running := None;
      r := Schedule(turn);
    }

    /** SIGKILL of one other group. */
    method KillTarget(target: nat)
      modifies this
      ensures View() == old(KillGroup(View(), target))
    {
      hide GroupHasParked;
      ghost var start := View();
      var hit, i := false, 0;
      while i < |parked|
        invariant 0 <= i <= |parked| <= |start.parked|
        invariant KilledFrom(View(), target, i) == KilledFrom(start, target, 0)
        invariant hit <==> |parked| < |start.parked|
        decreases |parked| - i
      {
        if parked[i].proc.tgid == target {
          var p := parked[i].proc;
          parked := parked[..i] + parked[i + 1..];
          hit := true;
          if p.vforkDone.Some? {
            world := world.(fired := world.fired + {p.vforkDone.value});
          }
          if p.pid == p.tgid {
            zombies := zombies + [Zombie(p.tgid, p.ppid, 9)];
          }
        } else {
          i := i + 1;
        }
      }
      if hit && !GroupHasParked(parked, target) {
        groupMaps := groupMaps - {target};
      }
    }

    method KillTargets(targets: seq<nat>)
      requires Inv(View()) && running.Some? && running.value.tgid !in targets
      modifies this
      ensures View() == old(KillAll(View(), targets))
      ensures Good(old(View()), Kill(targets), (View(), Idle))
    {
      hide KillGroup, Good, Inv;
      StepKeeps(View(), Kill(targets));
      var i := 0;
      while i < |targets|
        invariant 0 <= i <= |targets|
        invariant KillAll(View(), targets[i..]) == old(KillAll(View(), targets))
      {
        assert targets[i..][1..] == targets[i + 1..];
        KillTarget(targets[i]);
        i := i + 1;
      }
    }
  }
}

/** Who is released when: a vfork parent by its child's exec or end, a waiting parent by its
    child's end. */
module Waits {
  import opened Base
  import opened Scheduler

  // ------------------------------------------------------------ vfork flags

  /** A live task carries the flag a vfork parent waits for. */
  ghost predicate Carried<M>(s: Env<M>, d: nat) {
    || (s.running.Some? && s.running.value.vforkDone == Some(d))
    || exists t :: t in s.parked && t.proc.vforkDone == Some(d)
  }

  predicate Distinct(parked: seq<Task>) {
    forall i, j :: 0 <= i < j < |parked| ==> parked[i].proc.pid != parked[j].proc.pid
  }

  /** A carried flag is its carrier's own id and has not been fired. */
  predicate FlagOk(p: Proc, fired: set<nat>) {
    p.vforkDone.Some? ==> p.vforkDone.value == p.pid && p.pid !in fired
  }

  ghost predicate Flags<M>(s: Env<M>) {
    && Distinct(s.parked)
    && (forall t :: t in s.parked ==> FlagOk(t.proc, s.world.fired))
    && (s.running.Some? ==> FlagOk(s.running.value, s.world.fired))
    && (s.running.Some? ==> forall t :: t in s.parked ==> t.proc.pid != s.running.value.pid)
    && (forall d :: d in s.world.fired ==> d < s.nextPid)
  }

  /** The same flags in the same hands. */
  ghost predicate SameFlags<M>(s: Env<M>, s': Env<M>) {
    && (Flags(s) ==> Flags(s')) && s'.world.fired == s.world.fired && s'.nextPid == s.nextPid && s'.zombies == s.zombies
    && forall d: nat :: Carried(s', d) <==> Carried(s, d)
  }

  lemma SameTasksSameFlags<M>(s: Env<M>, s': Env<M>)
    requires SameTasks(s.parked, s'.parked) && s'.running == s.running
    requires s'.world.fired == s.world.fired && s'.nextPid == s.nextPid && s'.zombies == s.zombies
    ensures SameFlags(s, s')
  {
    hide SameTasks;
    forall t | t in s'.parked
      ensures exists u :: u in s.parked && SameTask(u, t)
    {
      var u := SameTaskFrom(s.parked, s'.parked, t);
    }
    forall u | u in s.parked
      ensures exists t :: t in s'.parked && SameTask(u, t)
    {
      var t := SameTaskOf(s.parked, s'.parked, u);
    }
    if Distinct(s.parked) {
      SameTasksDistinct(s.parked, s'.parked);
    }
  }

  lemma SameTasksDistinct(a: seq<Task>, b: seq<Task>)
    requires SameTasks(a, b) && Distinct(a)
    ensures Distinct(b)
  {
    forall i, j | 0 <= i < j < |b|
      ensures b[i].proc.pid != b[j].proc.pid
    {
      assert SameTask(a[i], b[i]) && SameTask(a[j], b[j]);
    }
  }

  lemma SameTaskOf(a: seq<Task>, b: seq<Task>, t: Task) returns (u: Task)
    requires SameTasks(a, b) && t in a
    ensures u in b && SameTask(t, u)
  {
    var i :| 0 <= i < |a| && a[i] == t;
    u := b[i];
  }

  lemma SameTaskFrom(a: seq<Task>, b: seq<Task>, t: Task) returns (u: Task)
    requires SameTasks(a, b) && t in b
    ensures u in a && SameTask(u, t)
  {
    var i :| 0 <= i < |b| && b[i] == t;
    u := a[i];
  }

  lemma DistinctWithout(parked: seq<Task>, i: nat)
    requires Distinct(parked) && i < |parked|
    ensures Distinct(Without(parked, i))
    ensures forall t :: t in Without(parked, i) ==> t.proc.pid != parked[i].proc.pid
  {
    var rest := Without(parked, i);
    assert forall j :: 0 <= j < |rest| ==> rest[j] == parked[if j < i then j else j + 1];
  }

  lemma SwitchSameFlags<M>(s: Env<M>, i: nat, now: nat)
    requires Inv(s) && s.running.None? && i < |s.parked|
    ensures SameFlags(s, SwitchTo(s, i, now).0)
  {
    hide WaitSatisfied, Inv, GroupHasParked;
    SwitchKeeps(s, i, now);
    SwitchMoves(s, i, now);
    WithoutMembers(s.parked, i);
    if Flags(s) {
      DistinctWithout(s.parked, i);
    }
  }

  lemma SwitchMoves<M>(s: Env<M>, i: nat, now: nat)
    requires i < |s.parked|
    ensures var s' := SwitchTo(s, i, now).0;
            s'.parked == Without(s.parked, i) && s'.world == s.world && s'.nextPid == s.nextPid && s'.zombies == s.zombies
  {
  }

  lemma StallSameFlags<M>(s: Env<M>, turn: HostTurn)
    ensures ResolveStall(s, turn).0.world.fired == s.world.fired
  {
    hide FindReady, EarliestDeadline, Now;
  }

  /** Handing over the CPU neither fires a flag nor loses one, and reaps nobody. */
  lemma ScheduleSameFlags<M>(s: Env<M>, turn: HostTurn)
    requires Inv(s) && s.running.None? && TurnOk(s.parked, turn)
    ensures SameFlags(s, ScheduleNext(s, turn).0)
  {
    hide FindReady, Runnable, SwitchTo, ResolveStall, Now, Inv, SameTasks, Carried, Flags;
    StallKeeps(s, turn);
    StallSameFlags(s, turn);
    var now := Now(s);
    if FindReady(s, now).Some? {
      SwitchSameFlags(s, FindReady(s, now).value, now);
    } else {
      var (s1, index) := ResolveStall(s, turn);
      SameTasksInv(s, s1);
      SameTasksSameFlags(s, s1);
      if index.Some? {
        SwitchSameFlags(s1, index.value, now);
      }
    }
  }

  /** A new task carries a flag if and only if it is a vfork child, and then its own id. */
  lemma SpawnFlags<M>(s: Env<M>, spec: CloneSpec<M>)
    requires Inv(s) && Flags(s) && s.running.Some?
    ensures var s' := Spawned(s, spec);
            && Flags(s') && s'.world == s.world && s'.zombies == s.zombies
            && forall d: nat :: Carried(s', d) <==> Carried(s, d) || (spec.kind.Vfork? && d == s.nextPid)
  {
    hide ParentMemory, ChildMemory, Groups;
    var child := Task(Child(s.running.value, spec.kind, s.nextPid), spec.childCpu, Ready);
    assert forall t :: t in s.parked + [child] <==> t in s.parked || t == child;
    assert forall t :: t in s.parked ==> t.proc.pid < s.nextPid;
  }

  lemma ParkSameFlags<M>(s: Env<M>, state: ParkState)
    requires s.running.Some?
    ensures SameFlags(s, ParkCurrent(s, state))
  {
    var own := Task(s.running.value, s.cpu, state);
    assert forall t :: t in s.parked + [own] <==> t in s.parked || t == own;
  }

  lemma {:induction false} DistinctOthers(parked: seq<Task>, g: nat)
    requires Distinct(parked)
    ensures Distinct(OtherGroups(parked, g))
  {
    if parked != [] {
      assert Distinct(parked[1..]);
      DistinctOthers(parked[1..], g);
      assert forall t :: t in parked[1..] ==> t.proc.pid != parked[0].proc.pid;
    }
  }

  /** The flags left after an exit, and the one it fires. */
  lemma SurvivorFlags<M>(s: Env<M>, exitGroup: bool, fired: set<nat>, zombies: seq<Zombie>)
    requires Inv(s) && Flags(s) && s.running.Some?
    requires fired == s.world.fired + (if s.running.value.vforkDone.Some? then {s.running.value.vforkDone.value} else {})
    ensures var s' := s.(running := None, parked := Survivors(s, exitGroup), world := s.world.(fired := fired), zombies := zombies);
            Flags(s') && forall d: nat :: Carried(s', d) <==> exists t :: t in Survivors(s, exitGroup) && t.proc.vforkDone == Some(d)
  {
    hide Groups;
    DistinctOthers(s.parked, s.running.value.tgid);
  }

  lemma ExitFlags<M>(s: Env<M>, status: int, exitGroup: bool, flags: seq<Task>, clear: Clearing<M>)
    requires Inv(s) && Flags(s) && s.running.Some? && SameTasks(Survivors(s, exitGroup), flags)
    ensures var s', p := Gone(s, status, exitGroup, flags, clear), s.running.value;
            && Flags(s')
            && (forall d: nat :: d in s'.world.fired <==> d in s.world.fired || p.vforkDone == Some(d))
            && forall d: nat :: Carried(s', d) <==>
                 exists t :: t in s.parked && !(exitGroup && t.proc.tgid == p.tgid) && t.proc.vforkDone == Some(d)
  {
    hide Groups, Cleared, SameTasks, Inv, Flags, Carried;
    var s' := Gone(s, status, exitGroup, flags, clear);
    SurvivorFlags(s, exitGroup, s'.world.fired, s'.zombies);
    assert s'.world == s.world.(fired := s'.world.fired);
    SameTasksSameFlags(s.(running := None, parked := Survivors(s, exitGroup), world := s'.world, zombies := s'.zombies), s');
  }

  // ------------------------------------------------------------------ SIGKILL

  /** A task of the target groups carries flag `d`. */
  ghost predicate CarriedIn(parked: seq<Task>, targets: seq<nat>, d: nat) {
    exists t :: t in parked && t.proc.tgid in targets && t.proc.vforkDone == Some(d)
  }

  /** `z` reports the leader of a target group as killed. */
  ghost predicate ReportedIn(parked: seq<Task>, targets: seq<nat>, z: Zombie) {
    exists t :: t in parked && t.proc.tgid in targets && t.proc.pid == t.proc.tgid && z == Zombie(t.proc.tgid, t.proc.ppid, 9)
  }

  /** `s'` is `s` after the target groups were killed: their tasks are gone and no others, the flags
      they carried are fired and no others, and each leader is reported with status 9. */
  ghost predicate Killed<M>(s: Env<M>, s': Env<M>, targets: seq<nat>) {
    && s'.running == s.running && s'.nextPid == s.nextPid
    && (Distinct(s.parked) ==> Distinct(s'.parked))
    && (forall t :: t in s'.parked <==> t in s.parked && t.proc.tgid !in targets)
    && (forall d: nat :: d in s'.world.fired <==> d in s.world.fired || CarriedIn(s.parked, targets, d))
    && (forall z :: z in s'.zombies <==> z in s.zombies || ReportedIn(s.parked, targets, z))
  }

  lemma {:induction false} KilledFromFrees<M>(s: Env<M>, target: nat, i: nat)
    requires forall j :: 0 <= j < i && j < |s.parked| ==> s.parked[j].proc.tgid != target
    ensures Killed(s, KilledFrom(s, target, i), [target])
    decreases |s.parked| - i
  {
    KilledFromRemoves(s, target, i);
    if i < |s.parked| {
      if s.parked[i].proc.tgid != target {
        KilledFromFrees(s, target, i + 1);
      } else {
        var p := s.parked[i].proc;
        var s1 := s.(parked := Without(s.parked, i),
                     zombies := if p.pid == p.tgid then s.zombies + [Zombie(p.tgid, p.ppid, 9)] else s.zombies,
                     world := if p.vforkDone.Some? then s.world.(fired := s.world.fired + {p.vforkDone.value}) else s.world);
        KilledFromFrees(s1, target, i);
        KilledFromFirst(s, s1, KilledFrom(s, target, i), target, i);
      }
    }
  }

  lemma KilledFromFirst<M>(s: Env<M>, s1: Env<M>, s': Env<M>, target: nat, i: nat)
    requires i < |s.parked| && s.parked[i].proc.tgid == target && Killed(s1, s', [target])
    requires s1.running == s.running && s1.nextPid == s.nextPid && s1.parked == Without(s.parked, i)
    requires var p := s.parked[i].proc;
             && s1.zombies == (if p.pid == p.tgid then s.zombies + [Zombie(p.tgid, p.ppid, 9)] else s.zombies)
             && s1.world.fired == s.world.fired + (if p.vforkDone.Some? then {p.vforkDone.value} else {})
    ensures Killed(s, s', [target])
  {
    WithoutMembers(s.parked, i);
    if Distinct(s.parked) {
      DistinctWithout(s.parked, i);
    }
    var t := s.parked[i];
    assert forall d: nat :: CarriedIn(s.parked, [target], d) <==> CarriedIn(s1.parked, [target], d) || t.proc.vforkDone == Some(d);
    assert forall z :: ReportedIn(s.parked, [target], z) <==>
      ReportedIn(s1.parked, [target], z) || (t.proc.pid == t.proc.tgid && z == Zombie(t.proc.tgid, t.proc.ppid, 9));
  }

  lemma KillNobody<M>(s: Env<M>)
    ensures Killed(s, s, [])
  {
  }

  lemma KilledThen<M>(s: Env<M>, s1: Env<M>, s': Env<M>, first: nat, rest: seq<nat>)
    requires Killed(s, s1, [first]) && Killed(s1, s', rest)
    ensures Killed(s, s', [first] + rest)
  {
    var targets := [first] + rest;
    assert forall g :: g in targets <==> g in [first] || g in rest;
    assert forall d: nat :: CarriedIn(s.parked, targets, d) <==> CarriedIn(s.parked, [first], d) || CarriedIn(s1.parked, rest, d);
    assert forall z :: ReportedIn(s.parked, targets, z) <==> ReportedIn(s.parked, [first], z) || ReportedIn(s1.parked, rest, z);
  }

  /** SIGKILL of a list of groups. */
  lemma {:induction false} KillAllFrees<M>(s: Env<M>, targets: seq<nat>)
    ensures Killed(s, KillAll(s, targets), targets)
    decreases |targets|
  {
    hide Killed, KillGroup;
    if targets == [] {
      KillNobody(s);
    } else {
      KillGroupFrees(s, targets[0]);
      KillAllFrees(KillGroup(s, targets[0]), targets[1..]);
      KilledThen(s, KillGroup(s, targets[0]), KillAll(s, targets), targets[0], targets[1..]);
      assert [targets[0]] + targets[1..] == targets;
    }
  }

  lemma KillGroupFrees<M>(s: Env<M>, target: nat)
    ensures Killed(s, KillGroup(s, target), [target])
  {
    hide KilledFrom, GroupHasParked;
    KilledFromFrees(s, target, 0);
  }

  lemma KillFlags<M>(s: Env<M>, targets: seq<nat>)
    requires Inv(s) && Flags(s) && s.running.Some? && s.running.value.tgid !in targets
    ensures var s' := KillAll(s, targets);
            && Flags(s')
            && (forall d: nat :: d in s'.world.fired <==> d in s.world.fired || CarriedIn(s.parked, targets, d))
            && forall d: nat :: Carried(s', d) <==> Carried(s, d) && !CarriedIn(s.parked, targets, d)
  {
    hide KillAll, Groups;
    KillAllFrees(s, targets);
    SameFlagSameTask(s);
    var s' := KillAll(s, targets);
    forall t | t in s'.parked
      ensures FlagOk(t.proc, s'.world.fired)
    {
    }
  }

  /** In a good state a flag has one carrier. */
  lemma SameFlagSameTask<M>(s: Env<M>)
    requires Flags(s)
    ensures forall t, u :: t in s.parked && u in s.parked && t.proc.vforkDone.Some? && t.proc.vforkDone == u.proc.vforkDone ==> t == u
    ensures s.running.Some? && s.running.value.vforkDone.Some? ==>
              forall t :: t in s.parked ==> t.proc.vforkDone != s.running.value.vforkDone
  {
    forall t, u | t in s.parked && u in s.parked && t.proc.vforkDone.Some? && t.proc.vforkDone == u.proc.vforkDone
      ensures t == u
    {
      var i :| 0 <= i < |s.parked| && s.parked[i] == t;
      var j :| 0 <= j < |s.parked| && s.parked[j] == u;
    }
  }

  // ------------------------------------------------------- every step, every run

  /** The carrier of flag `d` execs, exits, is killed, or is swept away by a group exit. */
  ghost predicate Ends<M>(s: Env<M>, step: Step<M>, d: nat) {
    match step
    case Guest(next) => s.running.Some? && s.running.value.vforkDone == Some(d) && next.running.Some? && next.running.value.vforkDone.None?
    case Exit(_, _, _, _, _) => s.running.Some? && (s.running.value.vforkDone == Some(d) || Strands(s, step, d))
    case Kill(targets) => CarriedIn(s.parked, targets, d)
    case _ => false
  }

  /** Another thread of the carrier's group takes it away with `exit_group`. */
  ghost predicate Strands<M>(s: Env<M>, step: Step<M>, d: nat) {
    step.Exit? && step.exitGroup && s.running.Some? && CarriedIn(s.parked, [s.running.value.tgid], d)
  }

  ghost predicate VforkChild<M>(s: Env<M>, step: Step<M>, d: nat) {
    step.Clone? && !step.tidFault && step.spec.kind.Vfork? && d == s.nextPid
  }

  /** What a step does to every vfork flag: a flag is carried until its carrier ends, and is fired
      when its carrier ends unless a sibling's group exit took it. */
  ghost predicate FlagsFollow<M>(s: Env<M>, s': Env<M>, step: Step<M>) {
    && Flags(s') && s'.nextPid >= s.nextPid
    && (forall d: nat :: Carried(s', d) <==> (Carried(s, d) && !Ends(s, step, d)) || VforkChild(s, step, d))
    && (forall d: nat :: d in s'.world.fired <==> d in s.world.fired || (Carried(s, d) && Ends(s, step, d) && !Strands(s, step, d)))
  }

  lemma FollowThenSame<M>(s: Env<M>, s1: Env<M>, s': Env<M>, step: Step<M>)
    requires FlagsFollow(s, s1, step) && SameFlags(s1, s')
    ensures FlagsFollow(s, s', step)
  {
    hide Carried, Flags, Ends, Strands, VforkChild;
  }

  lemma GuestFollows<M>(s: Env<M>, step: Step<M>)
    requires Inv(s) && Flags(s) && Enabled(s, step) && step.Guest?
    ensures FlagsFollow(s, step.next, step)
  {
    hide Groups;
    var next := step.next;
    var s1 := s.(parked := next.parked, zombies := next.zombies);
    SameFlagSameTask(s);
    SameTasksSameFlags(s.(zombies := next.zombies), s1);
    assert Flags(s.(zombies := next.zombies));
    assert forall d: nat :: Carried(s1, d) <==> Carried(s, d) by {
      assert forall d: nat :: Carried(s.(zombies := next.zombies), d) <==> Carried(s, d);
    }
    SameFlagSameTask(s1);
  }

  lemma CloneFollows<M>(s: Env<M>, step: Step<M>)
    requires Inv(s) && Flags(s) && Enabled(s, step) && step.Clone?
    ensures FlagsFollow(s, After(s, step).0, step)
  {
    hide Inv, Flags, Carried, ScheduleNext, ParkCurrent;
    if step.tidFault {
      TidFaultFlags(s);
    } else {
      SpawnKeeps(s, step.spec);
      SpawnFlags(s, step.spec);
      var s1 := Spawned(s, step.spec);
      if step.spec.kind.Vfork? {
        var s2 := ParkCurrent(s1, VforkDone(s.nextPid));
        ParkKeeps(s1, VforkDone(s.nextPid));
        ParkSameFlags(s1, VforkDone(s.nextPid));
        ParkClears(s1, VforkDone(s.nextPid));
        ScheduleSameFlags(s2, step.turn);
      }
    }
  }

  lemma TidFaultFlags<M>(s: Env<M>)
    requires Flags(s)
    ensures var s' := s.(nextPid := s.nextPid + 1); Flags(s') && forall d: nat :: Carried(s', d) <==> Carried(s, d)
  {
  }

  lemma ParkClears<M>(s: Env<M>, state: ParkState)
    requires s.running.Some?
    ensures ParkCurrent(s, state).running.None?
  {
  }

  lemma BlockFollows<M>(s: Env<M>, step: Step<M>)
    requires Inv(s) && Flags(s) && Enabled(s, step) && step.Block?
    ensures FlagsFollow(s, After(s, step).0, step)
  {
    hide Inv, Flags, Carried, ScheduleNext, ParkCurrent;
    ParkKeeps(s, step.state);
    ParkSameFlags(s, step.state);
    ParkClears(s, step.state);
    ScheduleSameFlags(ParkCurrent(s, step.state), step.turn);
  }

  lemma ExitFollows<M>(s: Env<M>, step: Step<M>)
    requires Inv(s) && Flags(s) && Enabled(s, step) && step.Exit?
    ensures FlagsFollow(s, After(s, step).0, step)
  {
    hide Inv, Flags, ScheduleNext, SameTasks, Survivors;
    var s1 := Gone(s, step.status, step.exitGroup, step.flags, step.clear);
    ExitKeeps(s, step.status, step.exitGroup, step.flags, step.clear);
    ExitFlags(s, step.status, step.exitGroup, step.flags, step.clear);
    SameFlagSameTask(s);
    assert FlagsFollow(s, s1, step);
    ScheduleSameFlags(s1, step.turn);
    FollowThenSame(s, s1, After(s, step).0, step);
  }

  /** What a step does to the vfork flags, for every step. */
  lemma StepFollows<M>(s: Env<M>, step: Step<M>)
    requires Inv(s) && Flags(s) && Enabled(s, step)
    ensures FlagsFollow(s, After(s, step).0, step)
  {
    hide Inv, Flags, Carried, ScheduleNext, KillAll;
    match step
    case Guest(_) => GuestFollows(s, step);
    case Clone(_, _, _) => CloneFollows(s, step);
    case Block(_, _) => BlockFollows(s, step);
    case Exit(_, _, _, _, _) => ExitFollows(s, step);
    case Kill(targets) =>
      KillFlags(s, targets);
      KillAllFrees(s, targets);
      CarriedInCarried(s, targets);
    case Resume(turn) => ScheduleSameFlags(s, turn);
  }

  lemma CarriedInCarried<M>(s: Env<M>, targets: seq<nat>)
    ensures forall d: nat :: CarriedIn(s.parked, targets, d) ==> Carried(s, d)
  {
  }

  /** Over every run, in every state: a carried flag is its carrier's own id and not yet fired. */
  lemma {:induction false} RunFlags<M>(states: seq<Env<M>>, steps: seq<Step<M>>, i: nat)
    requires IsRun(states, steps) && i <= |steps|
    ensures Inv(states[i]) && Flags(states[i])
    ensures i > 0 ==> FlagsFollow(states[i - 1], states[i], steps[i - 1])
  {
    hide After, Enabled, Inv, Good;
    RunKeeps(states, steps, i);
    if i > 0 {
      RunFlags(states, steps, i - 1);
      StepFollows(states[i - 1], steps[i - 1]);
    }
  }

  /** Every unstopped parent suspended on flag `d` can run. */
  ghost predicate Released<M>(s: Env<M>, d: nat) {
    forall t, now: nat :: t in s.parked && t.state == VforkDone(d) && !t.proc.stopped ==> Runnable(s, t, now)
  }

  /** No parent suspended on flag `d` can run, whatever signals it has. */
  ghost predicate Held<M>(s: Env<M>, d: nat) {
    forall t, now: nat :: t in s.parked && t.state == VforkDone(d) ==> !Runnable(s, t, now)
  }

  lemma FiredReleases<M>(s: Env<M>, d: nat)
    ensures if d in s.world.fired then Released(s, d) else Held(s, d)
  {
  }

  /** At every step of every run, a vfork parent is held while its child lives without having
      exec'd. When the child execs, exits or is killed the parent is released, unless it was taken
      by the `exit_group` of another thread of its group: then the parent is held. */
  lemma VforkParentReleasedIff<M>(states: seq<Env<M>>, steps: seq<Step<M>>, i: nat, d: nat)
    requires IsRun(states, steps) && i < |steps| && Carried(states[i], d)
    ensures Held(states[i], d)
    ensures var s, s', step := states[i], states[i + 1], steps[i];
            if !Ends(s, step, d) then Held(s', d) && Carried(s', d)
            else if Strands(s, step, d) then Held(s', d) && !Carried(s', d)
            else Released(s', d) && !Carried(s', d)
  {
    hide After, Enabled, Released, Held, Ends, Strands, Inv;
    RunFlags(states, steps, i);
    RunFlags(states, steps, i + 1);
    FiredReleases(states[i], d);
    FiredReleases(states[i + 1], d);
    CarriedIsOld(states[i], d);
  }

  lemma CarriedIsOld<M>(s: Env<M>, d: nat)
    requires Inv(s) && Flags(s) && Carried(s, d)
    ensures d < s.nextPid && d !in s.world.fired
  {
    hide Groups;
  }

  /** A released parent stays released, and one whose flag nobody carries and nobody fired is held
      in every later state: it never runs again. */
  lemma {:induction false} ReleasedOrStrandedForGood<M>(states: seq<Env<M>>, steps: seq<Step<M>>, i: nat, j: nat, d: nat)
    requires IsRun(states, steps) && i <= j <= |steps| && d < states[i].nextPid && !Carried(states[i], d)
    ensures d < states[j].nextPid && !Carried(states[j], d)
    ensures d in states[j].world.fired <==> d in states[i].world.fired
    ensures if d in states[i].world.fired then Released(states[j], d) else Held(states[j], d)
    decreases j
  {
    hide After, Enabled, Carried, Released, Held, Ends, Strands, Inv, Flags;
    FiredReleases(states[j], d);
    if i < j {
      ReleasedOrStrandedForGood(states, steps, i, j - 1, d);
      RunFlags(states, steps, j);
    }
  }

  // ------------------------------------------------------------ waiting parents

  /** The parked and running tasks, as far as identity goes, are those of `s` in another order. */
  lemma ScheduleKeepsTask<M>(s: Env<M>, turn: HostTurn, t: Task)
    requires Inv(s) && s.running.None? && TurnOk(s.parked, turn) && t in s.parked
    ensures var s' := ScheduleNext(s, turn).0; IsLive(s', t.proc.pid, t.proc.tgid, t.proc.ppid)
  {
    hide FindReady, Runnable, SwitchTo, ResolveStall, Now, Inv, SameTasks;
    StallKeeps(s, turn);
    var now := Now(s);
    if FindReady(s, now).Some? {
      SwitchKeepsTask(s, FindReady(s, now).value, now, t);
    } else {
      var (s1, index) := ResolveStall(s, turn);
      SameTasksInv(s, s1);
      var u := SameTaskOf(s.parked, s1.parked, t);
      if index.Some? {
        SwitchKeepsTask(s1, index.value, now, u);
      }
    }
  }

  ghost predicate IsLive<M>(s: Env<M>, pid: nat, tgid: nat, ppid: nat) {
    || (s.running.Some? && s.running.value.pid == pid && s.running.value.tgid == tgid && s.running.value.ppid == ppid)
    || exists t :: t in s.parked && t.proc.pid == pid && t.proc.tgid == tgid && t.proc.ppid == ppid
  }

  lemma SwitchKeepsTask<M>(s: Env<M>, i: nat, now: nat, t: Task)
    requires Inv(s) && i < |s.parked| && t in s.parked
    ensures IsLive(SwitchTo(s, i, now).0, t.proc.pid, t.proc.tgid, t.proc.ppid)
  {
    hide Inv, SwitchTo;
    SwitchKeeps(s, i, now);
    SwitchMoves(s, i, now);
    WithoutMembers(s.parked, i);
  }

  /** A new process leads a group of its own and is its creator's child, so the creator's
      `wait4(-1)` will match it; a new thread is in its creator's group, with its creator's parent. */
  lemma NewTaskIs<M>(s: Env<M>, step: Step<M>)
    requires Inv(s) && Enabled(s, step) && step.Clone? && !step.tidFault
    ensures After(s, step).0.nextPid == s.nextPid + 1
    ensures var s', p := After(s, step).0, s.running.value;
            if step.spec.kind.Thread? then IsLive(s', s.nextPid, p.tgid, p.ppid)
            else IsLive(s', s.nextPid, s.nextPid, p.tgid) && Matches(-1, s.nextPid, p.tgid, p.tgid)
  {
    hide Inv, ScheduleNext, ParentMemory, ChildMemory;
    var s1 := Spawned(s, step.spec);
    var child := s1.parked[|s.parked|];
    assert child in s1.parked;
    if step.spec.kind.Vfork? {
      var s2 := ParkCurrent(s1, VforkDone(s.nextPid));
      SpawnKeeps(s, step.spec);
      ParkKeeps(s1, VforkDone(s.nextPid));
      assert child in s2.parked;
      ScheduleKeepsTask(s2, step.turn, child);
      ScheduleSameFlags(s2, step.turn);
    }
  }

  /** An unstopped task waiting for a child of which `z` is the report can run. */
  ghost predicate Answered<M>(s: Env<M>, z: Zombie) {
    forall t, now: nat :: t in s.parked && !t.proc.stopped && t.state.WaitChild? && Matches(t.state.pid, z.pid, z.ppid, t.proc.tgid) ==>
      Runnable(s, t, now)
  }

  lemma ReportAnswers<M>(s: Env<M>, z: Zombie)
    requires z in s.zombies
    ensures Answered(s, z)
  {
  }

  lemma ScheduleSameZombies<M>(s: Env<M>, turn: HostTurn)
    requires Inv(s) && s.running.None? && TurnOk(s.parked, turn)
    ensures ScheduleNext(s, turn).0.zombies == s.zombies
  {
    ScheduleSameFlags(s, turn);
  }

  /** The exit of a group leader or of a whole group adds one report, and every unstopped parent
      waiting for it can run; a thread that ends alone adds none. */
  lemma ExitAnswersWait<M>(s: Env<M>, step: Step<M>)
    requires Inv(s) && Enabled(s, step) && step.Exit?
    ensures var s', p := After(s, step).0, s.running.value; var z := Zombie(p.tgid, p.ppid, step.status);
            if p.pid == p.tgid || step.exitGroup then s'.zombies == s.zombies + [z] && Answered(s', z) else s'.zombies == s.zombies
  {
    hide Inv, ScheduleNext, Answered, SameTasks, Survivors;
    var s1 := Gone(s, step.status, step.exitGroup, step.flags, step.clear);
    ExitKeeps(s, step.status, step.exitGroup, step.flags, step.clear);
    ScheduleSameZombies(s1, step.turn);
    var p := s.running.value;
    if p.pid == p.tgid || step.exitGroup {
      ReportAnswers(After(s, step).0, Zombie(p.tgid, p.ppid, step.status));
    }
  }

  /** SIGKILL reports the leader of every target group, and no one else, with status 9. */
  lemma KillAnswersWait<M>(s: Env<M>, targets: seq<nat>, leader: Task)
    requires leader in s.parked && leader.proc.tgid in targets && leader.proc.pid == leader.proc.tgid
    ensures var z := Zombie(leader.proc.tgid, leader.proc.ppid, 9); z in KillAll(s, targets).zombies && Answered(KillAll(s, targets), z)
    ensures forall z :: z in KillAll(s, targets).zombies ==> z in s.zombies || ReportedIn(s.parked, targets, z)
  {
    hide KillAll, Answered;
    KillAllFrees(s, targets);
    var z := Zombie(leader.proc.tgid, leader.proc.ppid, 9);
    assert ReportedIn(s.parked, targets, z);
    ReportAnswers(KillAll(s, targets), z);
  }

  /** A new task can run at once, has no signal pending and blocks what its creator blocks. */
  lemma NewTaskRuns<M>(s: Env<M>, spec: CloneSpec<M>, now: nat)
    requires s.running.Some?
    ensures exists t :: t in Spawned(s, spec).parked && t.proc.pid == s.nextPid && Runnable(Spawned(s, spec), t, now)
              && t.proc.pending == {} && t.proc.sigmask == s.running.value.sigmask && t.cpu == spec.childCpu
  {
    var s' := Spawned(s, spec);
    var t := s'.parked[|s.parked|];
    assert t in s'.parked && Runnable(s', t, now);
  }

  /** A child that `t` waits for has stopped and not been reported. */
  ghost predicate StopToReport(parked: seq<Task>, t: Task)
    requires t.state.WaitChild?
  {
    exists c :: c in parked && c.proc.stopReport.Some? && Matches(t.state.pid, c.proc.tgid, c.proc.ppid, t.proc.tgid)
  }

  /** Why a task that is switched in without a stall stopped waiting: its condition holds, or else a
      signal it does not block is pending. */
  lemma ResumedBecause<M>(s: Env<M>, turn: HostTurn)
    requires Inv(s) && FindReady(s, Now(s)).Some?
    ensures var (s', r), t := ScheduleNext(s, turn), s.parked[FindReady(s, Now(s)).value];
            && r.Switched? && s'.running == Some(t.proc) && s'.cpu == t.cpu
            && (t.state.WaitChild? ==>
                  (r.conditionReady <==>
                    || (exists z :: z in s.zombies && Matches(t.state.pid, z.pid, z.ppid, t.proc.tgid))
                    || (t.state.untraced && StopToReport(s'.parked, t))))
            && (!t.state.WaitChild? ==> (r.conditionReady <==> WaitSatisfied(s, t, Now(s))))
            && (!r.conditionReady && t.proc.ppid != t.proc.tgid ==> t.proc.pending - t.proc.sigmask != {} && !t.state.VforkDone?)
  {
    hide Inv, GroupHasParked;
    var i := FindReady(s, Now(s)).value;
    SwitchKeeps(s, i, Now(s));
    WithoutMembers(s.parked, i);
  }

  /** The word stored where it was asked for, if anywhere. */
  function WithWord<M>(store: (M, nat, nat) -> M, mem: M, at: Option<nat>, word: nat): M {
    match at
    case None => mem
    case Some(a) => store(mem, a, word)
  }

  lemma SpaceAfterSchedule<M>(s: Env<M>, turn: HostTurn, t: Task)
    requires Inv(s) && s.running.None? && TurnOk(s.parked, turn) && t in s.parked
    ensures SpaceOf(ScheduleNext(s, turn).0, t.proc.tgid) == SpaceOf(s, t.proc.tgid)
  {
    hide ScheduleNext, SpaceOf;
    ScheduleKeeps(s, turn);
    ScheduleKeepsTask(s, turn, t);
    var s' := ScheduleNext(s, turn).0;
    assert t.proc.tgid in Groups(s'.parked) + {s'.lastGroup};
  }

  /** Where a clone stores the new id: a thread's creator sees both words, another creator only its
      own, and a new process both, in a copy of its creator's memory. */
  lemma CloneStores<M>(s: Env<M>, step: Step<M>)
    requires Inv(s) && Enabled(s, step) && step.Clone? && !step.tidFault
    ensures var s', spec := After(s, step).0, step.spec;
            var own := WithWord(spec.store, s.mmu, spec.parentTid, s.nextPid);
            var both := WithWord(spec.store, own, spec.childTid, s.nextPid);
            if spec.kind.Thread? then SpaceOf(s', s.lastGroup) == Some(both)
            else SpaceOf(s', s.lastGroup) == Some(own) && SpaceOf(s', s.nextPid) == Some(both)
  {
    hide ScheduleNext, Inv, Groups;
    SpawnKeeps(s, step.spec);
    var s1 := Spawned(s, step.spec);
    if step.spec.kind.Vfork? {
      ParkKeeps(s1, VforkDone(s.nextPid));
      var s2 := ParkCurrent(s1, VforkDone(s.nextPid));
      var child, parent := s2.parked[|s.parked|], s2.parked[|s.parked| + 1];
      assert child in s2.parked && parent in s2.parked;
      OwnGroup(s);
      SpaceAfterSchedule(s2, step.turn, child);
      SpaceAfterSchedule(s2, step.turn, parent);
    }
  }

  lemma OwnGroup<M>(s: Env<M>)
    requires Inv(s) && s.running.Some?
    ensures s.running.value.tgid == s.lastGroup
  {
  }

  /** The creator goes on as it was, unless it vforks: then it waits for its child, to resume with
      the registers of its answer. */
  lemma CreatorGoesOn<M>(s: Env<M>, step: Step<M>)
    requires Inv(s) && Flags(s) && Enabled(s, step) && step.Clone? && !step.tidFault
    ensures var s', p := After(s, step).0, s.running.value;
            if !step.spec.kind.Vfork? then s'.running == s.running && s'.cpu == s.cpu
            else exists t :: t in s'.parked && t.proc.pid == p.pid && t.cpu == step.spec.parentCpu && t.state == VforkDone(s.nextPid)
  {
    hide Inv, ScheduleNext, ParentMemory, ChildMemory, Flags;
    if step.spec.kind.Vfork? {
      var s1 := Spawned(s, step.spec);
      var s2 := ParkCurrent(s1, VforkDone(s.nextPid));
      SpawnKeeps(s, step.spec);
      ParkKeeps(s1, VforkDone(s.nextPid));
      var parent := s2.parked[|s.parked| + 1];
      assert parent in s2.parked;
      NotYetFired(s);
      ScheduleKeepsHeld(s2, step.turn, parent);
    }
  }

  lemma NotYetFired<M>(s: Env<M>)
    requires Flags(s)
    ensures s.nextPid !in s.world.fired
  {
  }

  /** A vfork parent that is held stays parked as it is. */
  lemma ScheduleKeepsHeld<M>(s: Env<M>, turn: HostTurn, t: Task)
    requires Inv(s) && s.running.None? && TurnOk(s.parked, turn) && t in s.parked
    requires t.state.VforkDone? && t.state.done !in s.world.fired
    ensures exists u :: u in ScheduleNext(s, turn).0.parked && SameTask(t, u)
  {
    hide FindReady, SwitchTo, ResolveStall, Now, Inv, SameTasks;
    StallKeeps(s, turn);
    StallSameFlags(s, turn);
    StallFinds(s, turn);
    var now := Now(s);
    SameTaskItself(t);
    if FindReady(s, now).Some? {
      SwitchMoves(s, FindReady(s, now).value, now);
      WithoutMembers(s.parked, FindReady(s, now).value);
    } else {
      var (s1, index) := ResolveStall(s, turn);
      var u := SameTaskOf(s.parked, s1.parked, t);
      if index.Some? {
        SwitchMoves(s1, index.value, now);
        WithoutMembers(s1.parked, index.value);
      }
    }
  }

  lemma SameTaskItself(t: Task)
    ensures SameTask(t, t)
  {
  }

  /** What resolving a stall finds can run. */
  lemma StallFinds<M>(s: Env<M>, turn: HostTurn)
    ensures var (s', index) := ResolveStall(s, turn); index.Some? ==> exists now: nat :: Runnable(s', s'.parked[index.value], now)
  {
    hide Runnable, EarliestDeadline, Now;
  }

  /** What an exit stores: zero where the task asked, for the threads that share its memory. */
  lemma ExitClears<M>(s: Env<M>, step: Step<M>, t: Task)
    requires Inv(s) && Enabled(s, step) && step.Exit? && t in step.flags && t.proc.tgid == s.lastGroup
    ensures SpaceOf(After(s, step).0, s.lastGroup) == Some(WithWord(step.clear.store, s.mmu, step.clear.at, 0))
  {
    hide ScheduleNext, Inv, Groups, SameTasks, Survivors;
    ExitKeeps(s, step.status, step.exitGroup, step.flags, step.clear);
    SpaceAfterSchedule(Gone(s, step.status, step.exitGroup, step.flags, step.clear), step.turn, t);
  }

  // ------------------------------------------------------------------ idling

  /** The machine after the keystrokes of a turn, and after the network's answer. */
  ghost function AsTyped<M>(s: Env<M>, turn: HostTurn): Env<M> {
    match turn.typing
    case Silent => s
    case Typed(ready, parked) => s.(parked := parked, world := World(ready, s.world.timers, s.world.fired))
  }

  ghost function AsPolled<M>(s: Env<M>, turn: HostTurn): Env<M> {
    match turn.network
    case Polled(true, ready) => s.(world := World(ready, s.world.timers, s.world.fired))
    case _ => s
  }

  ghost predicate NoneRuns<M>(s: Env<M>, now: nat) {
    forall t :: t in s.parked ==> !Runnable(s, t, now)
  }

  /** No moment would wake a task that is not stopped. */
  ghost predicate NoDeadline<M>(s: Env<M>) {
    forall t, d :: t in s.parked && !t.proc.stopped ==> d !in Deadlines(t, s.world)
  }

  ghost predicate InTime<M>(s: Env<M>) {
    && s.icount < U64_LIMIT && s.warp < U64_LIMIT
    && forall t, d :: t in s.parked && d in Deadlines(t, s.world) ==> d < U64_LIMIT
  }

  lemma FindNone<M>(s: Env<M>, now: nat)
    ensures FindReady(s, now).None? <==> NoneRuns(s, now)
  {
    hide Runnable;
    if FindReady(s, now).None? {
      forall t | t in s.parked
        ensures !Runnable(s, t, now)
      {
        var i :| 0 <= i < |s.parked| && s.parked[i] == t;
      }
    }
  }

  lemma DeadlineNone<M>(s: Env<M>)
    ensures EarliestDeadline(s.parked, s.world).None? <==> NoDeadline(s)
  {
    hide Deadlines;
  }

  /** The machine idles if and only if no task can run: not as things are, not after the keystrokes,
      and, unless the network is the host's to drive, not after the network's answer and at no
      later moment. */
  lemma IdleIff<M>(s: Env<M>, turn: HostTurn)
    requires Inv(s) && s.running.None? && TurnOk(s.parked, turn) && InTime(AsTyped(s, turn))
    ensures var typed := AsTyped(s, turn); var polled := AsPolled(typed, turn);
            ScheduleNext(s, turn).1 == Idle <==>
            && NoneRuns(s, Now(s)) && NoneRuns(typed, Now(s))
            && (turn.network == HostDriven(false) || (NoneRuns(polled, Now(s)) && NoDeadline(typed)))
  {
    hide Runnable, FindReady, EarliestDeadline, Inv, SwitchTo, NoneRuns, NoDeadline, Deadlines;
    var typed := AsTyped(s, turn);
    var polled := AsPolled(typed, turn);
    assert typed == AfterTyping(s, turn) && polled == AfterNetwork(typed, turn);
    FindNone(s, Now(s));
    FindNone(typed, Now(s));
    FindNone(polled, Now(s));
    DeadlineNone(typed);
    ScheduleKeeps(s, turn);
    if FindReady(s, Now(s)).None? && EarliestDeadline(typed.parked, typed.world).Some? && ReachesClock(s, turn) {
      DeadlineInTime(typed);
      WarpWakes(s, turn);
    }
    SwitchedIffFound(s, turn);
  }

  /** After a stall the first task that the keystrokes let run is run, and if they let none run and
      the network is polled, the first that its answer lets run. */
  lemma StallRuns<M>(s: Env<M>, turn: HostTurn)
    requires Inv(s) && s.running.None? && TurnOk(s.parked, turn) && NoneRuns(s, Now(s))
    ensures var typed, now, s' := AsTyped(s, turn), Now(s), ScheduleNext(s, turn).0;
            if FindReady(typed, now).Some? then s'.running == Some(typed.parked[FindReady(typed, now).value].proc)
            else
              var polled := AsPolled(typed, turn);
              FindReady(polled, now).Some? ==> s'.running == Some(polled.parked[FindReady(polled, now).value].proc)
  {
    hide Runnable, FindReady, EarliestDeadline, Inv, SwitchTo, NoneRuns, SameTasks;
    FindNone(s, Now(s));
    StallKeeps(s, turn);
    var (s1, index) := ResolveStall(s, turn);
    SameTasksInv(s, s1);
    if index.Some? {
      SwitchKeeps(s1, index.value, Now(s));
    }
  }

  lemma DeadlineInTime<M>(s: Env<M>)
    requires InTime(s) && EarliestDeadline(s.parked, s.world).Some?
    ensures EarliestDeadline(s.parked, s.world).value < U64_LIMIT
  {
    hide Deadlines;
  }

  lemma SwitchedIffFound<M>(s: Env<M>, turn: HostTurn)
    requires Inv(s) && s.running.None? && TurnOk(s.parked, turn)
    ensures ScheduleNext(s, turn).1 == Idle <==> FindReady(s, Now(s)).None? && ResolveStall(s, turn).1.None?
  {
    hide Runnable, FindReady, Inv, ResolveStall, SwitchTo, SameTasks;
    StallKeeps(s, turn);
    var s1 := ResolveStall(s, turn).0;
    SameTasksInv(s, s1);
    if FindReady(s, Now(s)).Some? {
      SwitchKeeps(s, FindReady(s, Now(s)).value, Now(s));
    } else if ResolveStall(s, turn).1.Some? {
      SwitchKeeps(s1, ResolveStall(s, turn).1.value, Now(s));
    }
  }

  // ------------------------------------------------- a vfork parent left waiting

  /** A root process on an idle machine. */
  const ROOT: Proc := Proc(ROOT_PID, ROOT_PID, 0, {}, {}, None, false, None)

  function Machine(running: Option<Proc>, parked: seq<Task>, zombies: seq<Zombie>, maps: map<nat, int>, last: nat, next: nat): Env<int> {
    Env(running, 0, 0, parked, zombies, maps, 0, last, next, 0, World({}, map[], {}))
  }

  const QUIET: HostTurn := HostTurn(Silent, NoWatch)
  const PLAIN: (int, nat, nat) -> int := (m, a, v) => m
  const PARENT: Task := Task(ROOT, 0, VforkDone(1001))
  const CHILD: Proc := Proc(1001, 1001, 1000, {}, {}, Some(1001), false, None)
  const THREAD: Proc := Proc(1002, 1001, 1000, {}, {}, None, false, None)

  /** The root vforks, the child starts a thread and waits on a futex, and the thread calls
      `exit_group`. */
  function StrandingSteps(): seq<Step<int>> {
    [Clone(CloneSpec(Vfork, None, None, PLAIN, 0, 0), false, QUIET),
     Clone(CloneSpec(Thread, None, None, PLAIN, 0, 0), false, QUIET),
     Block(Futex(64, false, None), QUIET),
     Exit(0, true, [PARENT], Clearing(None, PLAIN), QUIET)]
  }

  function StrandingStates(): seq<Env<int>> {
    [Machine(Some(ROOT), [], [], map[], 1000, 1001),
     Machine(Some(CHILD), [PARENT], [], map[1000 := 0], 1001, 1002),
     Machine(Some(CHILD), [PARENT, Task(THREAD, 0, Ready)], [], map[1000 := 0], 1001, 1003),
     Machine(Some(THREAD), [PARENT, Task(CHILD, 0, Futex(64, false, None))], [], map[1000 := 0], 1001, 1003),
     Machine(None, [PARENT], [Zombie(1001, 1000, 0)], map[1000 := 0], 1001, 1003)]
  }

  /** The run that shows it: the child is gone and reported, and its parent is held with nothing
      left to run. */
  lemma ParentStranded()
    ensures IsRun(StrandingStates(), StrandingSteps())
    ensures var s, step := StrandingStates()[3], StrandingSteps()[3];
            && Carried(s, 1001) && Strands(s, step, 1001) && After(s, step).1 == Idle
            && PARENT in After(s, step).0.parked && Held(After(s, step).0, 1001)
  {
    hide Held, After, Enabled, Runnable;
    StrandingRuns();
    ThreadEndsGroup();
    var s := StrandingStates()[3];
    assert Task(CHILD, 0, Futex(64, false, None)) in s.parked;
    FiredReleases(After(s, StrandingSteps()[3]).0, 1001);
  }

  lemma StrandingRuns()
    ensures IsRun(StrandingStates(), StrandingSteps())
  {
    hide After, Enabled;
    FirstVforks();
    ThreadStarts();
    ChildWaits();
    ThreadEndsGroup();
    var states, steps := StrandingStates(), StrandingSteps();
    forall i | 0 <= i < |steps|
      ensures Enabled(states[i], steps[i]) && states[i + 1] == After(states[i], steps[i]).0
    {
      hide StrandingStates, StrandingSteps;
      assert i == 0 || i == 1 || i == 2 || i == 3;
    }
  }

  lemma FirstVforks()
    ensures var s, step := StrandingStates()[0], StrandingSteps()[0];
            Enabled(s, step) && After(s, step).0 == StrandingStates()[1]
  {
    var s, step := StrandingStates()[0], StrandingSteps()[0];
    var s1 := ParkCurrent(Spawned(s, step.spec), VforkDone(1001));
    hide Runnable, FindReady, WaitSatisfied;
    assert s1.parked == [Task(CHILD, 0, Ready), PARENT];
    FirstIsReady(s1);
    assert Without(s1.parked, 0) == [PARENT];
    assert PARENT in [PARENT];
  }

  lemma FirstIsReady<M>(s: Env<M>)
    requires s.parked != [] && s.parked[0].state.Ready? && !s.parked[0].proc.stopped
    ensures FindReady(s, Now(s)) == Some(0)
  {
    assert Runnable(s, s.parked[0], Now(s));
  }

  lemma ThreadStarts()
    ensures var s, step := StrandingStates()[1], StrandingSteps()[1];
            Enabled(s, step) && After(s, step).0 == StrandingStates()[2]
  {
  }

  lemma ChildWaits()
    ensures var s, step := StrandingStates()[2], StrandingSteps()[2];
            Enabled(s, step) && After(s, step).0 == StrandingStates()[3]
  {
    var s, step := StrandingStates()[2], StrandingSteps()[2];
    var s1 := ParkCurrent(s, step.state);
    assert s1.parked == [PARENT, Task(THREAD, 0, Ready), Task(CHILD, 0, step.state)];
    assert !Runnable(s1, s1.parked[0], Now(s1)) && Runnable(s1, s1.parked[1], Now(s1));
    assert FindReady(s1, Now(s1)) == Some(1);
    assert Without(s1.parked, 1) == [PARENT, Task(CHILD, 0, step.state)];
  }

  lemma ThreadEndsGroup()
    ensures var s, step := StrandingStates()[3], StrandingSteps()[3];
            Enabled(s, step) && After(s, step) == (StrandingStates()[4], Idle)
  {
    var s, step := StrandingStates()[3], StrandingSteps()[3];
    assert s.parked[1..] == [s.parked[1]] && s.parked[1..][1..] == [];
    assert OtherGroups(s.parked[1..], 1001) == OtherGroups(s.parked[1..][1..], 1001) == [];
    assert OtherGroups(s.parked, 1001) == [PARENT] + OtherGroups(s.parked[1..], 1001);
    SameTasksItself([PARENT]);
    var s1 := StrandingStates()[4];
    assert Gone(s, 0, true, [PARENT], step.clear) == s1;
    assert !Runnable(s1, s1.parked[0], Now(s1));
    assert FindReady(s1, Now(s1)) == None;
    assert Deadlines(PARENT, s1.world) == [];
    var d := EarliestDeadline(s1.parked, s1.world);
    assert d == None;
  }
}

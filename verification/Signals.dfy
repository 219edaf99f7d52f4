/** Signal delivery on one thread: handler frames nest, each return restores what its own
    delivery interrupted, and the alternate stack is counted exactly. */
module Signals {
  import opened Base

  const NSIG: nat := 64
  const MINSIGSTKSZ: nat := 2048

  datatype Cpu = Cpu(rsp: nat, pc: nat, rdi: nat, rsi: nat, rdx: nat, rest: int, icount: nat)

  datatype Handler = Default | Ignore | Function(address: nat)

  datatype Action = Action(handler: Handler, noDefer: bool, onStack: bool, restorer: nat, mask: set<nat>)

  type Actions = map<nat, Action>

  datatype Thread = Thread(
    cpu: Cpu,
    pending: set<nat>, sigmask: set<nat>,
    saved: seq<Cpu>, savedMask: seq<set<nat>>, altFrames: seq<bool>,
    altstack: Option<(nat, nat)>, altDepth: nat)

  predicate Terminates(signal: nat) {
    signal !in {17, 18, 19, 20, 21, 22, 23, 28}
  }

  predicate Stops(signal: nat) {
    19 <= signal <= 22
  }

  function HandlerOf(actions: Actions, signal: nat): Handler {
    if signal in actions then actions[signal].handler else Default
  }

  /** The lowest-numbered signal of a set, from `from` on. */
  function Lowest(s: set<nat>, from: nat): (r: Option<nat>)
    ensures r.Some? ==> r.value in s && from <= r.value <= NSIG && forall x :: x in s && from <= x ==> r.value <= x
    ensures r.None? ==> forall x :: x in s && from <= x ==> x > NSIG
    decreases NSIG + 1 - from
  {
    if from > NSIG then None else if from in s then Some(from) else Lowest(s, from + 1)
  }

  /** Takes signals in number order: ignored ones are discarded; one that kills or stops by
      default is left for the syscall boundary; the first with a handler is chosen. */
  function Choose(pending: set<nat>, sigmask: set<nat>, actions: Actions): (r: (set<nat>, Option<nat>))
    ensures r.0 <= pending
    ensures r.1.Some? ==> r.1.value in pending - sigmask && r.1.value !in r.0 && HandlerOf(actions, r.1.value).Function?
    decreases |pending|
  {
    var next := Lowest(pending - sigmask, 1);
    if next.None? then (pending, None)
    else
      var handler := HandlerOf(actions, next.value);
      if handler.Default? && (Terminates(next.value) || Stops(next.value)) then (pending, None)
      else if handler.Function? then (pending - {next.value}, Some(next.value))
      else Choose(pending - {next.value}, sigmask, actions)
  }

  predicate Deliverable(pending: set<nat>, sigmask: set<nat>, sig: nat) {
    sig in pending && sig !in sigmask && 1 <= sig <= NSIG
  }

  /** A signal that is dropped when its turn comes: ignored, or by default neither killing nor
      stopping. */
  predicate Discards(actions: Actions, sig: nat) {
    var handler := HandlerOf(actions, sig);
    handler.Ignore? || (handler.Default? && !Terminates(sig) && !Stops(sig))
  }

  /** Every deliverable signal with a lower number is discarded, so the turn comes to this one. */
  predicate InTurn(pending: set<nat>, sigmask: set<nat>, actions: Actions, sig: nat) {
    && Deliverable(pending, sigmask, sig)
    && forall b :: 0 <= b < sig && Deliverable(pending, sigmask, b) ==> Discards(actions, b)
  }

  lemma LowestDeliverable(pending: set<nat>, sigmask: set<nat>, sig: nat)
    ensures var next := Lowest(pending - sigmask, 1);
            && (next.Some? ==> Deliverable(pending, sigmask, next.value))
            && (Deliverable(pending, sigmask, sig) ==> next.Some? && next.value <= sig)
  {
    hide Lowest;
    assert Deliverable(pending, sigmask, sig) ==> sig in pending - sigmask;
  }

  /** Whose turn comes, from the lowest deliverable signal on. */
  lemma TurnStep(pending: set<nat>, sigmask: set<nat>, actions: Actions, sig: nat)
    requires Lowest(pending - sigmask, 1).Some?
    ensures var next := Lowest(pending - sigmask, 1).value;
            InTurn(pending, sigmask, actions, sig) <==>
              sig == next || (Discards(actions, next) && InTurn(pending - {next}, sigmask, actions, sig))
  {
    hide Lowest, Discards;
    var next := Lowest(pending - sigmask, 1).value;
    var rest := pending - {next};
    LowestDeliverable(pending, sigmask, sig);
    assert forall b: nat :: Deliverable(rest, sigmask, b) <==> Deliverable(pending, sigmask, b) && b != next;
    if sig == next {
      forall b: nat ensures Deliverable(pending, sigmask, b) ==> next <= b {
        LowestDeliverable(pending, sigmask, b);
      }
    }
  }

  /** The choice, without the walk: chosen is the signal with a handler whose turn comes, taken
      are it and the discarded ones whose turn comes. A signal that kills or stops by default
      stays pending and ends every turn after its own. */
  lemma {:induction false} ChooseIs(pending: set<nat>, sigmask: set<nat>, actions: Actions, sig: nat)
    ensures var (left, chosen) := Choose(pending, sigmask, actions);
            && (chosen == Some(sig) <==> InTurn(pending, sigmask, actions, sig) && HandlerOf(actions, sig).Function?)
            && (sig in left <==>
                sig in pending && !(InTurn(pending, sigmask, actions, sig)
                                    && (HandlerOf(actions, sig).Function? || Discards(actions, sig))))
    decreases |pending|
  {
    hide Lowest, InTurn, Terminates, Stops;
    var next := Lowest(pending - sigmask, 1);
    if next.Some? {
      TurnStep(pending, sigmask, actions, sig);
      if Discards(actions, next.value) {
        ChooseIs(pending - {next.value}, sigmask, actions, sig);
        assert !InTurn(pending - {next.value}, sigmask, actions, next.value) by {
          OnlyPendingInTurn(pending - {next.value}, sigmask, actions, next.value);
        }
      }
    } else {
      LowestDeliverable(pending, sigmask, sig);
      OnlyPendingInTurn(pending, sigmask, actions, sig);
    }
  }

  lemma OnlyPendingInTurn(pending: set<nat>, sigmask: set<nat>, actions: Actions, sig: nat)
    ensures InTurn(pending, sigmask, actions, sig) ==> sig in pending && Deliverable(pending, sigmask, sig)
  {
  }

  /** Of the signals left to their defaults, those dropped when their turn comes are child status,
      continue, urgent data and window change; every other one waits for the syscall boundary. */
  lemma DefaultDrops(actions: Actions, sig: nat)
    requires HandlerOf(actions, sig).Default?
    ensures Discards(actions, sig) <==> sig in {17, 18, 23, 28}
  {
  }

  function SaturatingSub(a: nat, b: nat): nat {
    if a < b then 0 else a - b
  }

  predicate OnAlt(t: Thread, a: Action) {
    a.onStack && t.altstack.Some?
  }

  /** Where the frame's three parts go: siginfo, ucontext and the return address. */
  function FramePlaces(t: Thread, a: Action): (nat, nat, nat) {
    var top := if OnAlt(t, a) && t.altDepth == 0
               then SaturatingAdd(t.altstack.value.0, t.altstack.value.1) else t.cpu.rsp;
    var below := if !OnAlt(t, a) || t.altDepth > 0 then SaturatingSub(top, 128) else top;
    var siginfo := SaturatingSub(below, 128);
    var ucontext := SaturatingSub(siginfo, 256);
    (siginfo, ucontext, SaturatingSub(ucontext - ucontext % 16, 8))
  }

  /** Enters a handler: the interrupted state goes on the three stacks and the handler's
      mask takes effect. */
  function Enter(t: Thread, sig: nat, a: Action): Thread
    requires a.handler.Function?
  {
    var (siginfo, ucontext, sp) := FramePlaces(t, a);
    t.(saved := t.saved + [t.cpu], savedMask := t.savedMask + [t.sigmask], altFrames := t.altFrames + [OnAlt(t, a)],
       altDepth := if OnAlt(t, a) then t.altDepth + 1 else t.altDepth,
       sigmask := t.sigmask + (if a.noDefer then {} else {sig}) + a.mask,
       cpu := t.cpu.(rsp := sp, rdi := sig, rsi := siginfo, rdx := ucontext, pc := a.handler.address))
  }

  /** Delivers the lowest signal that has a handler. A frame that cannot be written abandons
      the delivery; the signal has been taken all the same. */
  function Deliver(t: Thread, actions: Actions, writable: bool): (Thread, bool) {
    var (left, chosen) := Choose(t.pending, t.sigmask, actions);
    var t1 := t.(pending := left);
    if chosen.None? || !writable then (t1, false)
    else (Enter(t1, chosen.value, actions[chosen.value]), true)
  }

  /** Leaves the innermost handler. The instruction count is global and does not rewind. */
  function Pop(t: Thread): Thread
    requires t.saved != [] && t.savedMask != []
  {
    var frames := if t.altFrames != [] then t.altFrames[..|t.altFrames| - 1] else [];
    var onAlt := t.altFrames != [] && t.altFrames[|t.altFrames| - 1];
    t.(saved := t.saved[..|t.saved| - 1], savedMask := t.savedMask[..|t.savedMask| - 1], altFrames := frames,
       altDepth := if onAlt then SaturatingSub(t.altDepth, 1) else t.altDepth,
       cpu := t.saved[|t.saved| - 1].(icount := t.cpu.icount), sigmask := t.savedMask[|t.savedMask| - 1])
  }

  /** `rt_sigreturn`: leave the handler, then enter the next if the restored mask allows one. */
  function SigReturn(t: Thread, actions: Actions, writable: bool): Thread {
    if t.saved == [] || t.savedMask == [] then
      t.(saved := if t.saved == [] then [] else t.saved[..|t.saved| - 1],
         savedMask := if t.savedMask == [] then [] else t.savedMask[..|t.savedMask| - 1])
    else
      var t1 := Pop(t);
      if t1.pending - t1.sigmask != {} then Deliver(t1, actions, writable).0 else t1
  }

  datatype AltOutcome = AltOk | EPERM | EINVAL | ENOMEM

  /** A request to `sigaltstack`: none, take it away, or register base and size with flags. */
  datatype AltRequest = Query | Disable | Register(base: nat, size: nat, otherFlags: bool)

  function SigAltStack(t: Thread, request: AltRequest): (Thread, AltOutcome) {
    if request.Query? then (t, AltOk)
    else if t.altDepth > 0 then (t, EPERM)
    else
      match request
      case Disable => (t.(altstack := None), AltOk)
      case Register(base, size, otherFlags) =>
        if otherFlags then (t, EINVAL)
        else if size < MINSIGSTKSZ then (t, ENOMEM)
        else if base + size >= U64_LIMIT then (t, EINVAL)
        else (t.(altstack := Some((base, size))), AltOk)
  }

  // -------------------------------------------------------------- invariants

  function CountTrue(frames: seq<bool>): nat {
    if frames == [] then 0
    else CountTrue(frames[..|frames| - 1]) + if frames[|frames| - 1] then 1 else 0
  }

  /** The three stacks have equal length, the depth counts the alternate-stack frames, and a
      handler runs on the alternate stack only while one is registered. */
  ghost predicate Nested(t: Thread) {
    && |t.saved| == |t.savedMask| == |t.altFrames|
    && t.altDepth == CountTrue(t.altFrames)
    && (t.altDepth > 0 ==> t.altstack.Some?)
  }

  lemma {:induction false} CountZero(frames: seq<bool>)
    ensures CountTrue(frames) == 0 <==> forall i :: 0 <= i < |frames| ==> !frames[i]
  {
    if frames != [] {
      var n := |frames| - 1;
      CountZero(frames[..n]);
      assert forall i :: 0 <= i < n ==> frames[..n][i] == frames[i];
    }
  }

  /** `sigaltstack` takes a stack if and only if no handler runs on the present one, no unknown flag
      is set, the stack is large enough and ends inside the address space; then it is the thread's
      stack. A refusal changes nothing. */
  lemma AltStackTakenIff(t: Thread, base: nat, size: nat, otherFlags: bool)
    requires Nested(t)
    ensures var (t', r) := SigAltStack(t, Register(base, size, otherFlags));
            && (r.AltOk? <==> (forall i :: 0 <= i < |t.altFrames| ==> !t.altFrames[i]) && !otherFlags && 2048 <= size && base + size < U64_LIMIT)
            && t' == (if r.AltOk? then t.(altstack := Some((base, size))) else t)
            && (r.EPERM? <==> exists i :: 0 <= i < |t.altFrames| && t.altFrames[i])
            && (r.ENOMEM? ==> size < 2048)
    ensures var (t', r) := SigAltStack(t, Disable);
            && (r.AltOk? <==> forall i :: 0 <= i < |t.altFrames| ==> !t.altFrames[i])
            && t' == (if r.AltOk? then t.(altstack := None) else t)
  {
    CountZero(t.altFrames);
  }

  /** Everything a thread can do that touches its signal state. */
  datatype Step =
    | Delivery(actions: Actions, writable: bool)
    | Return
    | AltStack(request: AltRequest)
    | Guest(cpu: Cpu, pending: set<nat>, sigmask: set<nat>)

  /** `rt_sigreturn` is `Return`, possibly followed by `Delivery`; between them the guest runs,
      signals are raised and the mask changes. */
  function Step1(t: Thread, step: Step): Thread {
    match step
    case Delivery(actions, writable) => Deliver(t, actions, writable).0
    case Return => if t.saved == [] || t.savedMask == [] then t else Pop(t)
    case AltStack(request) => SigAltStack(t, request).0
    case Guest(cpu, pending, sigmask) => t.(cpu := cpu, pending := pending, sigmask := sigmask)
  }

  function Run(t: Thread, steps: seq<Step>): Thread {
    if steps == [] then t else Step1(Run(t, steps[..|steps| - 1]), steps[|steps| - 1])
  }

  lemma CountPush(frames: seq<bool>, b: bool)
    ensures CountTrue(frames + [b]) == CountTrue(frames) + if b then 1 else 0
  {
    assert (frames + [b])[..|frames|] == frames;
  }

  lemma StepKeepsNested(t: Thread, step: Step)
    requires Nested(t)
    ensures Nested(Step1(t, step))
  {
    CountPush(t.altFrames, true);
    CountPush(t.altFrames, false);
  }

  /** Over every run the frame stacks stay aligned and the alternate stack is counted exactly. */
  lemma {:induction false} RunKeepsNested(t: Thread, steps: seq<Step>)
    requires Nested(t)
    ensures Nested(Run(t, steps))
  {
    if steps != [] {
      RunKeepsNested(t, steps[..|steps| - 1]);
      StepKeepsNested(Run(t, steps[..|steps| - 1]), steps[|steps| - 1]);
    }
  }

  /** `rt_sigreturn` is made of those steps. */
  lemma SigReturnIsSteps(t: Thread, actions: Actions, writable: bool)
    requires Nested(t)
    ensures SigReturn(t, actions, writable) ==
            if t.saved == [] then t
            else if Pop(t).pending - Pop(t).sigmask != {} then Run(t, [Return, Delivery(actions, writable)])
            else Run(t, [Return])
    ensures Nested(SigReturn(t, actions, writable))
  {
    var two := [Return, Delivery(actions, writable)];
    assert two[..1] == [Return] && [Return][..0] == [];
    assert Run(t, []) == t;
    assert Run(t, [Return]) == Step1(t, Return);
    assert Run(t, two) == Step1(Run(t, [Return]), two[1]);
    if t.saved != [] {
      RunKeepsNested(t, two);
      RunKeepsNested(t, [Return]);
    }
  }

  // ----------------------------------------------------------------- nesting

  /** Handler frames, oldest first. */
  ghost predicate Holds(t: Thread, outer: Thread) {
    && |outer.saved| <= |t.saved| && t.saved[..|outer.saved|] == outer.saved
    && |outer.savedMask| <= |t.savedMask| && t.savedMask[..|outer.savedMask|] == outer.savedMask
    && |outer.altFrames| <= |t.altFrames| && t.altFrames[..|outer.altFrames|] == outer.altFrames
  }

  /** No step of the run returns from a handler that was already running at its start. */
  ghost predicate StaysInside(t: Thread, steps: seq<Step>) {
    forall i :: 0 <= i <= |steps| ==> |Run(t, steps[..i]).saved| >= |t.saved|
  }

  lemma {:induction false} FramesKept(t: Thread, steps: seq<Step>)
    requires Nested(t) && StaysInside(t, steps)
    ensures Holds(Run(t, steps), t)
  {
    if steps != [] {
      var n := |steps| - 1;
      assert StaysInside(t, steps[..n]) by {
        forall i | 0 <= i <= n
          ensures |Run(t, steps[..n][..i]).saved| >= |t.saved|
        {
          assert steps[..n][..i] == steps[..i];
        }
      }
      FramesKept(t, steps[..n]);
      RunKeepsNested(t, steps[..n]);
      RunKeepsNested(t, steps);
      assert steps[..n + 1] == steps;
      assert |Run(t, steps).saved| >= |t.saved|;
      FrameKept(t, Run(t, steps[..n]), steps[n]);
    }
  }

  lemma FrameKept(outer: Thread, t: Thread, step: Step)
    requires Nested(outer) && Nested(t) && Holds(t, outer) && |Step1(t, step).saved| >= |outer.saved|
    ensures Holds(Step1(t, step), outer)
  {
  }

  /** Each return restores the mask and the CPU of its own delivery, all but the instruction
      count, whatever was delivered and returned from in between; the alternate stack is back
      where it was too. */
  lemma ReturnRestores(t: Thread, actions: Actions, steps: seq<Step>)
    requires Nested(t) && Deliver(t, actions, true).1
    requires StaysInside(Deliver(t, actions, true).0, steps)
    requires |Run(Deliver(t, actions, true).0, steps).saved| == |t.saved| + 1
    ensures var last := Run(Deliver(t, actions, true).0, steps);
            var after := Step1(last, Return);
            && after.cpu == t.cpu.(icount := last.cpu.icount) && after.sigmask == t.sigmask
            && after.saved == t.saved && after.savedMask == t.savedMask
            && after.altFrames == t.altFrames && after.altDepth == t.altDepth
  {
    var inside := Deliver(t, actions, true).0;
    assert Nested(inside) by { StepKeepsNested(t, Delivery(actions, true)); }
    FramesKept(inside, steps);
    RunKeepsNested(inside, steps);
    var last := Run(inside, steps);
    assert last.saved == inside.saved && last.savedMask == inside.savedMask && last.altFrames == inside.altFrames;
    assert inside.altFrames[..|t.altFrames|] == t.altFrames;
  }

  /** A delivery blocks what the handler asked for and its own signal, keeps everything that
      was blocked, and takes exactly the deliverable signals up to the one delivered, which is the
      lowest with a handler; all before it are discarded. */
  lemma DeliveryBlocks(t: Thread, actions: Actions)
    requires Deliver(t, actions, true).1
    ensures var (t', _) := Deliver(t, actions, true);
            var sig := Choose(t.pending, t.sigmask, actions).1.value;
            && t.sigmask <= t'.sigmask && actions[sig].mask <= t'.sigmask && (!actions[sig].noDefer ==> sig in t'.sigmask)
            && (forall x: nat :: x in t.pending - t'.pending <==> Deliverable(t.pending, t.sigmask, x) && x <= sig)
            && t'.pending <= t.pending && sig in t.pending - t'.pending
            && (forall x :: x in t.pending - t'.pending && x != sig ==> Discards(actions, x))
            && t'.cpu.rdi == sig && Function(t'.cpu.pc) == actions[sig].handler
  {
    var (left, chosen) := Choose(t.pending, t.sigmask, actions);
    var sig := chosen.value;
    ChooseIs(t.pending, t.sigmask, actions, sig);
    forall x
      ensures x in t.pending - left <==> Deliverable(t.pending, t.sigmask, x) && x <= sig
      ensures x in t.pending - left && x != sig ==> Discards(actions, x)
    {
      ChooseIs(t.pending, t.sigmask, actions, x);
    }
  }

  /** The three parts of a frame lie one below the other, under `top`, and the return address is
      aligned as the ABI asks. */
  predicate Stacked(places: (nat, nat, nat), top: int) {
    var (siginfo, ucontext, sp) := places;
    sp + 8 <= ucontext && ucontext + 256 <= siginfo && siginfo + 128 <= top && (sp + 8) % 16 == 0
  }

  /** The frame of a handler that interrupts code on its own stack, or that nests on the
      alternate stack, lies wholly below the interrupted frame and its red zone if and only if
      the address space has room for it down there. */
  lemma FrameBelowRedZone(t: Thread, a: Action)
    requires !OnAlt(t, a) || t.altDepth > 0
    ensures Stacked(FramePlaces(t, a), t.cpu.rsp - 128) <==> t.cpu.rsp >= 528
  {
  }

  /** What the handler is handed: the addresses of its frame's parts in the second and third
      argument, and a stack pointer at the return address. The first part lies just under the
      alternate stack's top when that stack is taken up, and under the interrupted frame and its
      red zone otherwise; each part lies just under the one before. */
  lemma HandlerIsHanded(t: Thread, actions: Actions)
    requires Deliver(t, actions, true).1
    ensures var cpu, a := Deliver(t, actions, true).0.cpu, actions[Choose(t.pending, t.sigmask, actions).1.value];
            var alone := a.onStack && t.altstack.Some? && t.altDepth == 0;
            var top: int := if alone then t.altstack.value.0 + t.altstack.value.1 else t.cpu.rsp - 128;
            && cpu.rest == t.cpu.rest && cpu.icount == t.cpu.icount
            && ((alone ==> top < U64_LIMIT) ==>
                && cpu.rsi == Max(top - 128, 0) && cpu.rdx == Max(cpu.rsi - 256, 0)
                && if cpu.rdx < 16 then cpu.rsp == 0
                   else cpu.rsp + 8 <= cpu.rdx < cpu.rsp + 24 && (cpu.rsp + 8) % 16 == 0)
  {
    hide Choose;
  }

  /** A registered stack is one that `sigaltstack` accepts. */
  predicate Registered(t: Thread) {
    t.altstack.Some? ==> t.altstack.value.1 >= MINSIGSTKSZ && t.altstack.value.0 + t.altstack.value.1 < U64_LIMIT
  }

  lemma {:induction false} RunKeepsRegistered(t: Thread, steps: seq<Step>)
    requires Registered(t)
    ensures Registered(Run(t, steps))
  {
    hide Choose, FramePlaces;
    if steps != [] {
      RunKeepsRegistered(t, steps[..|steps| - 1]);
    }
  }

  /** After any run, the first frame on the alternate stack lies wholly inside the registered
      stack, whatever the interrupted stack pointer was. */
  lemma FirstAltFrameInside(t: Thread, steps: seq<Step>, a: Action)
    requires Registered(t) && OnAlt(Run(t, steps), a) && Run(t, steps).altDepth == 0
    ensures var u := Run(t, steps);
            var (base, size) := u.altstack.value;
            Stacked(FramePlaces(u, a), base + size) && base <= FramePlaces(u, a).2
  {
    hide Run;
    RunKeepsRegistered(t, steps);
  }

  // ------------------------------------------------------------ the handlers

  class SignalState {
    var cpu: Cpu
    var pending: set<nat>
    var sigmask: set<nat>
    var saved: seq<Cpu>
    var savedMask: seq<set<nat>>
    var altFrames: seq<bool>
    var altstack: Option<(nat, nat)>
    var altDepth: nat

    constructor (cpu: Cpu, sigmask: set<nat>, altstack: Option<(nat, nat)>)
      ensures View() == Thread(cpu, {}, sigmask, [], [], [], altstack, 0) && Nested(View())
    {
      this.cpu, this.sigmask, this.altstack := cpu, sigmask, altstack;
      pending, saved, savedMask, altFrames, altDepth := {}, [], [], [], 0;
    }

    function View(): Thread
      reads this
    {
      Thread(cpu, pending, sigmask, saved, savedMask, altFrames, altstack, altDepth)
    }

    /** `writable` is whether the handler's stack can take the frame. */
    method DeliverSignal(actions: Actions, writable: bool) returns (delivered: bool)
      modifies this
      ensures (View(), delivered) == old(Deliver(View(), actions, writable))
      ensures old(Nested(View())) ==> Nested(View())
    {
      hide Choose, FramePlaces, Nested;
      ghost var start := View();
      if Nested(start) {
        StepKeepsNested(start, Delivery(actions, writable));
      }
      var chosen := TakeSignal(actions);
      if chosen.None? {
        return false;
      }
      var sig := chosen.value;
      var a := actions[sig];
      var interrupted := View();
      saved := saved + [cpu];
      savedMask := savedMask + [sigmask];
      if !a.noDefer {
        sigmask := sigmask + {sig};
      }
      sigmask := sigmask + a.mask;
      assert sigmask == interrupted.sigmask + (if a.noDefer then {} else {sig}) + a.mask;
      var onAlt := a.onStack && altstack.Some?;
      var (siginfo, ucontext, sp) := FramePlaces(interrupted, a);
      if !writable {
        saved := saved[..|saved| - 1];
        sigmask := savedMask[|savedMask| - 1];
        savedMask := savedMask[..|savedMask| - 1];
        return false;
      }
      if onAlt {
        altDepth := altDepth + 1;
      }
      altFrames := altFrames + [onAlt];
      cpu := cpu.(rsp := sp, rdi := sig, rsi := siginfo, rdx := ucontext, pc := a.handler.address);
      delivered := true;
    }

    /** Takes signals until one has a handler. */
    method TakeSignal(actions: Actions) returns (r: Option<nat>)
      modifies this`pending
      ensures (pending, r) == old(Choose(pending, sigmask, actions))
    {
      while true
        invariant Choose(pending, sigmask, actions) == old(Choose(pending, sigmask, actions))
        decreases |pending|
      {
        var next := Lowest(pending - sigmask, 1);
        if next.None? {
          return None;
        }
        var handler := HandlerOf(actions, next.value);
        if handler.Default? && (Terminates(next.value) || Stops(next.value)) {
          return None;
        }
        pending := pending - {next.value};
        if handler.Function? {
          return next;
        }
      }
    }

    method RtSigReturn(actions: Actions, writable: bool)
      requires Nested(View())
      modifies this
      ensures View() == old(SigReturn(View(), actions, writable)) && Nested(View())
    {
      hide Deliver;
      SigReturnIsSteps(View(), actions, writable);
      if saved == [] {
        return;
      }
      var snapshot, mask := saved[|saved| - 1], savedMask[|savedMask| - 1];
      saved, savedMask := saved[..|saved| - 1], savedMask[..|savedMask| - 1];
      var onAlt := altFrames[|altFrames| - 1];
      altFrames := altFrames[..|altFrames| - 1];
      if onAlt {
        altDepth := SaturatingSub(altDepth, 1);
      }
      cpu := snapshot.(icount := cpu.icount);
      sigmask := mask;
      if pending - sigmask != {} {
        var _ := DeliverSignal(actions, writable);
      }
    }

    method AlternateStack(request: AltRequest) returns (r: AltOutcome)
      requires Nested(View())
      modifies this`altstack
      ensures (View(), r) == old(SigAltStack(View(), request)) && Nested(View())
    {
      match request
      case Query => r := AltOk;
      case Disable =>
        if altDepth > 0 {
          return EPERM;
        }
        altstack := None;
        r := AltOk;
      case Register(base, size, otherFlags) =>
        if altDepth > 0 {
          return EPERM;
        }
        if otherFlags {
          return EINVAL;
        }
        if size < MINSIGSTKSZ {
          return ENOMEM;
        }
        if base + size >= U64_LIMIT {
          return EINVAL;
        }
        altstack := Some((base, size));
        r := AltOk;
    }
  }
}

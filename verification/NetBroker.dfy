/** A broker whose transport lives in the host, behind a meter: the guest's calls become
    commands, the host's deliveries become input, and every payload byte is charged. */
module NetBroker {
  import opened Base
  import opened NetCalls

  const EPERM: nat := 1
  const EBADF: nat := 9
  const STREAM_MAX: nat := 0x10_0000
  const DATAGRAM_MAX: nat := 0x1_0000

  datatype Endpoint = Endpoint(rx: seq<byte>, datagrams: seq<Datagram>, closed: bool, error: Option<nat>, local: Option<nat>)

  const FRESH: Endpoint := Endpoint([], [], false, None, None)

  datatype Command =
    | DoConnect(handle: nat, addr: nat)
    | DoSend(handle: nat, bytes: seq<byte>)
    | DoShutdown(handle: nat)
    | DoOpenUdp(handle: nat)
    | DoSendTo(handle: nat, addr: nat, bytes: seq<byte>)
    | DoClose(handle: nat)

  datatype Host = Host(endpoints: map<nat, Endpoint>, commands: seq<Command>, next: nat)

  /** `limit` is the first number a machine word cannot hold. */
  datatype Meter = Meter(sent: nat, received: nat, budget: Option<nat>, limit: nat)

  datatype State = State(host: Host, meter: Meter)

  datatype Delivery =
    | Connected(handle: nat, local: Option<nat>)
    | Arrived(handle: nat, bytes: seq<byte>)
    | DatagramArrived(handle: nat, datagram: Datagram)
    | PeerClosed(handle: nat)
    | Failed(handle: nat, errno: nat)

  /** What can happen: a guest call, a delivery from the host, the host taking its commands, the
      host moving the budget. */
  datatype Op = Guest(call: Call) | FromHost(delivery: Delivery) | Take | SetBudget(budget: Option<nat>)

  // --------------------------------------------------------- the host broker

  /** Addition that stops at the last number below `limit`. */
  function SaturatingSum(a: nat, b: nat, limit: nat): nat {
    if b == 0 || a + b < limit then a + b else if a < limit then limit - 1 else a
  }

  /** A fresh endpoint under the next handle; the handle counter saturates. */
  function OpenHandle(h: Host, command: Command): (Host, Answer) {
    (Host(h.endpoints[h.next := FRESH], h.commands + [command], SaturatingSum(h.next, 1, U64_LIMIT)),
     Opened(Good(h.next)))
  }

  function HostSend(h: Host, handle: nat, command: Command, size: nat): (Host, Answer) {
    if handle !in h.endpoints then (h, Sent(Bad(EBADF)))
    else if h.endpoints[handle].error.Some? then (h, Sent(Bad(h.endpoints[handle].error.value)))
    else (h.(commands := h.commands + [command]), Sent(Good(size)))
  }

  function Clip(want: nat, have: nat, most: nat): nat {
    Min(Min(want, have), most)
  }

  function HostRecv(h: Host, handle: nat, max: nat): (Host, Answer) {
    if handle !in h.endpoints then (h, Got(Bad(EBADF)))
    else
      var e := h.endpoints[handle];
      if e.rx != [] then
        var take := Clip(max, |e.rx|, STREAM_MAX);
        (h.(endpoints := h.endpoints[handle := e.(rx := e.rx[take..])]), Got(Good(Data(e.rx[..take]))))
      else if e.error.Some? then (h, Got(Bad(e.error.value)))
      else if e.closed then (h, Got(Good(Closed)))
      else (h, Got(Good(WouldBlock)))
  }

  function HostRecvFrom(h: Host, handle: nat, max: nat): (Host, Answer) {
    if handle !in h.endpoints then (h, GotFrom(Bad(EBADF)))
    else
      var e := h.endpoints[handle];
      if e.datagrams != [] then
        var d := e.datagrams[0];
        (h.(endpoints := h.endpoints[handle := e.(datagrams := e.datagrams[1..])]),
         GotFrom(Good(Some(d.(bytes := d.bytes[..Clip(max, |d.bytes|, DATAGRAM_MAX)])))))
      else if e.error.Some? then (h, GotFrom(Bad(e.error.value)))
      else (h, GotFrom(Good(None)))
  }

  /** A read on the handle would make progress: data, the end, or an error to report. */
  predicate CanRead(h: Host, handle: nat) {
    && handle in h.endpoints
    && var e := h.endpoints[handle]; e.rx != [] || e.datagrams != [] || e.closed || e.error.Some?
  }

  function HostCall(h: Host, call: Call): (Host, Answer) {
    match call
    case Connect(addr) => OpenHandle(h, DoConnect(h.next, addr))
    case OpenUdp => OpenHandle(h, DoOpenUdp(h.next))
    case Send(handle, bytes) => HostSend(h, handle, DoSend(handle, bytes), |bytes|)
    case SendTo(handle, addr, bytes) => HostSend(h, handle, DoSendTo(handle, addr, bytes), |bytes|)
    case Recv(handle, max) => HostRecv(h, handle, max)
    case RecvFrom(handle, max) => HostRecvFrom(h, handle, max)
    case Shutdown(handle) =>
      if handle in h.endpoints then (h.(commands := h.commands + [DoShutdown(handle)]), Shut(Good(())))
      else (h, Shut(Bad(EBADF)))
    case Readable(handle) => (h, Told(CanRead(h, handle)))
    case LocalAddr(handle) => (h, Local(if handle in h.endpoints then h.endpoints[handle].local else None))
    case WaitReady(handles, _) => (h, Told(exists i :: 0 <= i < |handles| && CanRead(h, handles[i])))
    case Close(handle) =>
      if handle in h.endpoints
      then (h.(endpoints := h.endpoints - {handle}, commands := h.commands + [DoClose(handle)]), Gone)
      else (h, Gone)
  }

  /** The endpoint a delivery is for; an unknown handle gets a fresh one. */
  function EndpointOf(h: Host, handle: nat): Endpoint {
    if handle in h.endpoints then h.endpoints[handle] else FRESH
  }

  function Delivered(h: Host, d: Delivery): Host {
    var e := EndpointOf(h, d.handle);
    var after := match d
      case Connected(_, local) => e.(local := local)
      case Arrived(_, bytes) => e.(rx := e.rx + bytes)
      case DatagramArrived(_, datagram) => e.(datagrams := e.datagrams + [datagram])
      case PeerClosed(_) => e.(closed := true)
      case Failed(_, errno) => if e.error.None? then e.(error := Some(errno)) else e;
    h.(endpoints := h.endpoints[d.handle := after])
  }

  // --------------------------------------------------------------- the meter

  function Total(m: Meter): nat {
    SaturatingSum(m.sent, m.received, m.limit)
  }

  /** How much of a request may go ahead. */
  function Allowance(m: Meter, want: nat): nat {
    if m.budget.None? then want else Min(want, Max(m.budget.value - Total(m), 0))
  }

  function Charged(m: Meter, sent: nat, received: nat): Meter {
    m.(sent := SaturatingSum(m.sent, sent, m.limit), received := SaturatingSum(m.received, received, m.limit))
  }

  predicate Spent(m: Meter, want: nat) {
    Allowance(m, want) == 0 && want > 0
  }

  /** The bytes an answer hands to the guest, and the bytes it accepts from it. */
  function Inward(a: Answer): nat {
    match a
    case Got(Good(Data(bytes))) => |bytes|
    case GotFrom(Good(Some(d))) => |d.bytes|
    case _ => 0
  }

  function Outward(a: Answer): nat {
    if a.Sent? && a.count.Good? then a.count.value else 0
  }

  /** The call as the meter lets it through, or the answer it gives instead: a stream transfer is
      clipped, a datagram that does not fit is refused whole. */
  function Admitted(m: Meter, call: Call): Option<Call> {
    match call
    case Send(handle, bytes) => if Spent(m, |bytes|) then None else Some(Send(handle, bytes[..Allowance(m, |bytes|)]))
    case SendTo(_, _, bytes) => if Allowance(m, |bytes|) < |bytes| then None else Some(call)
    case Recv(handle, max) => if Spent(m, max) then None else Some(Recv(handle, Allowance(m, max)))
    case RecvFrom(handle, max) => if Spent(m, max) then None else Some(RecvFrom(handle, Allowance(m, max)))
    case _ => Some(call)
  }

  function Refusal(call: Call): Answer {
    match call
    case Recv(_, _) => Got(Bad(EPERM))
    case RecvFrom(_, _) => GotFrom(Bad(EPERM))
    case _ => Sent(Bad(EPERM))
  }

  function MeteredCall(s: State, call: Call): (State, Answer) {
    var admitted := Admitted(s.meter, call);
    if admitted.None? then (s, Refusal(call))
    else
      var r := HostCall(s.host, admitted.value);
      (State(r.0, Charged(s.meter, Outward(r.1), Inward(r.1))), r.1)
  }

  function After(s: State, op: Op): State {
    match op
    case Guest(call) => MeteredCall(s, call).0
    case FromHost(d) => s.(host := Delivered(s.host, d))
    case Take => s.(host := s.host.(commands := []))
    case SetBudget(budget) => s.(meter := s.meter.(budget := budget))
  }

  function Start(budget: Option<nat>, limit: nat): State {
    State(Host(map[], [], 1), Meter(0, 0, budget, limit))
  }

  function Run(s: State, ops: seq<Op>): State {
    if ops == [] then s else After(Run(s, ops[..|ops| - 1]), ops[|ops| - 1])
  }

  // -------------------------------------------------------------- the budget

  /** What the guest's calls of a run moved, by their answers. */
  function Moved(s: State, ops: seq<Op>): (r: (nat, nat)) {
    if ops == [] then (0, 0)
    else
      var n := |ops| - 1;
      var before := Moved(s, ops[..n]);
      if ops[n].Guest? then
        var a := MeteredCall(Run(s, ops[..n]), ops[n].call).1;
        (before.0 + Outward(a), before.1 + Inward(a))
      else before
  }

  /** The budget in force after a run: the last one set. */
  function BudgetNow(budget: Option<nat>, ops: seq<Op>): Option<nat> {
    if ops == [] then budget
    else if ops[|ops| - 1].SetBudget? then ops[|ops| - 1].budget
    else BudgetNow(budget, ops[..|ops| - 1])
  }

  lemma AdmittedFits(s: State, call: Call)
    requires s.meter.budget.Some?
    ensures var a := MeteredCall(s, call).1;
            Outward(a) + Inward(a) <= Max(s.meter.budget.value - Total(s.meter), 0)
  {
  }

  /** The meter is exactly what crossed, as far as a machine word can count, however the budget
      was moved. */
  lemma {:induction false} MeterCounts(budget: Option<nat>, limit: nat, ops: seq<Op>)
    requires limit > 0
    ensures var s := Run(Start(budget, limit), ops); var m := Moved(Start(budget, limit), ops);
            s.meter == Meter(Min(m.0, limit - 1), Min(m.1, limit - 1), BudgetNow(budget, ops), limit)
  {
    hide HostCall, Delivered, Admitted;
    if ops != [] {
      var n := |ops| - 1;
      MeterCounts(budget, limit, ops[..n]);
      if ops[n].Guest? {
        RefusalMovesNothing(ops[n].call);
      }
    }
  }

  /** A call moves bytes only if everything moved so far, those bytes included, is within the
      budget then in force, whatever budgets were in force before. */
  lemma CallWithinBudget(budget: Option<nat>, limit: nat, ops: seq<Op>, call: Call)
    requires BudgetNow(budget, ops).Some? && BudgetNow(budget, ops).value < limit
    ensures var before, after := Moved(Start(budget, limit), ops), Moved(Start(budget, limit), ops + [Guest(call)]);
            after == before || after.0 + after.1 <= BudgetNow(budget, ops).value
  {
    hide HostCall, Delivered, Admitted, Moved, Run, BudgetNow, MeteredCall;
    var s := Run(Start(budget, limit), ops);
    MeterCounts(budget, limit, ops);
    AdmittedFits(s, call);
    MovedByCall(Start(budget, limit), ops, call);
  }

  lemma MovedByCall(s: State, ops: seq<Op>, call: Call)
    ensures var before, a := Moved(s, ops), MeteredCall(Run(s, ops), call).1;
            Moved(s, ops + [Guest(call)]) == (before.0 + Outward(a), before.1 + Inward(a))
  {
    hide MeteredCall, Outward, Inward;
    assert (ops + [Guest(call)])[..|ops|] == ops;
  }

  /** No budget set in a run, from the start on, was above `peak`, and there always was one. */
  predicate BudgetsUpTo(budget: Option<nat>, ops: seq<Op>, peak: nat) {
    && budget.Some? && budget.value <= peak
    && forall i :: 0 <= i < |ops| && ops[i].SetBudget? ==> ops[i].budget.Some? && ops[i].budget.value <= peak
  }

  lemma {:induction false} BudgetNowUpTo(budget: Option<nat>, ops: seq<Op>, peak: nat)
    requires BudgetsUpTo(budget, ops, peak)
    ensures BudgetNow(budget, ops).Some? && BudgetNow(budget, ops).value <= peak
  {
    if ops != [] && !ops[|ops| - 1].SetBudget? {
      BudgetNowUpTo(budget, ops[..|ops| - 1], peak);
    }
  }

  /** What was sent and received never exceeds the largest budget there was, and the meter is
      exactly what crossed. */
  lemma {:induction false} BudgetHolds(budget: Option<nat>, limit: nat, ops: seq<Op>, peak: nat)
    requires peak < limit && BudgetsUpTo(budget, ops, peak)
    ensures var s := Run(Start(budget, limit), ops); var m := Moved(Start(budget, limit), ops);
            && m.0 + m.1 <= peak && s.meter == Meter(m.0, m.1, BudgetNow(budget, ops), limit)
  {
    hide MeteredCall, Delivered, BudgetNow;
    MeterCounts(budget, limit, ops);
    if ops != [] {
      var n := |ops| - 1;
      BudgetHolds(budget, limit, ops[..n], peak);
      if ops[n].Guest? {
        BudgetNowUpTo(budget, ops[..n], peak);
        CallWithinBudget(budget, limit, ops[..n], ops[n].call);
        assert ops == ops[..n] + [Guest(ops[n].call)];
      }
    }
  }

  lemma RefusalMovesNothing(call: Call)
    ensures Outward(Refusal(call)) == 0 && Inward(Refusal(call)) == 0
  {
  }

  // ---------------------------------------------------------------- streams

  /** The operation opens or closes the handle, which ends one lifetime and begins another. */
  predicate Turns(s: State, op: Op, handle: nat) {
    && op.Guest?
    && (op.call == Close(handle) || ((op.call.Connect? || op.call.OpenUdp?) && s.host.next == handle))
  }

  function Rx(s: State, handle: nat): seq<byte> {
    EndpointOf(s.host, handle).rx
  }

  function ArrivesNow(op: Op, handle: nat): seq<byte> {
    if op.FromHost? && op.delivery.Arrived? && op.delivery.handle == handle then op.delivery.bytes else []
  }

  function ReadNow(s: State, op: Op, handle: nat): seq<byte> {
    if op.Guest? && op.call.Recv? && op.call.handle == handle then
      match MeteredCall(s, op.call).1 case Got(Good(Data(bytes))) => bytes case _ => []
    else []
  }

  /** Stream bytes the host delivered in the handle's present lifetime, in order. */
  function StreamIn(s: State, ops: seq<Op>, handle: nat): seq<byte> {
    if ops == [] then []
    else
      var n := |ops| - 1;
      if Turns(Run(s, ops[..n]), ops[n], handle) then []
      else StreamIn(s, ops[..n], handle) + ArrivesNow(ops[n], handle)
  }

  /** Stream bytes the guest read in that lifetime, in order. */
  function StreamRead(s: State, ops: seq<Op>, handle: nat): seq<byte> {
    if ops == [] then []
    else
      var n := |ops| - 1;
      if Turns(Run(s, ops[..n]), ops[n], handle) then []
      else StreamRead(s, ops[..n], handle) + ReadNow(Run(s, ops[..n]), ops[n], handle)
  }

  lemma RecvSplits(s: State, handle: nat, max: nat)
    ensures Rx(s, handle) == ReadNow(s, Guest(Recv(handle, max)), handle) + Rx(After(s, Guest(Recv(handle, max))), handle)
  {
  }

  lemma OthersKeepRx(s: State, call: Call, handle: nat)
    requires !Turns(s, Guest(call), handle) && !(call.Recv? && call.handle == handle)
    ensures Rx(After(s, Guest(call)), handle) == Rx(s, handle)
  {
    hide Charged, Inward, Outward;
  }

  lemma DeliveryRx(s: State, d: Delivery, handle: nat)
    ensures Rx(After(s, FromHost(d)), handle) == Rx(s, handle) + ArrivesNow(FromHost(d), handle)
  {
  }

  lemma TurnEmpties(s: State, op: Op, handle: nat)
    requires Turns(s, op, handle)
    ensures Rx(After(s, op), handle) == []
  {
    hide Charged, Inward, Outward;
  }

  /** At every point of every run, what was delivered on a handle is what the guest has read
      from it followed by what is still buffered: nothing lost, doubled or out of order. */
  lemma {:induction false} StreamInOrder(budget: Option<nat>, limit: nat, ops: seq<Op>, handle: nat)
    ensures var s := Start(budget, limit);
            StreamIn(s, ops, handle) == StreamRead(s, ops, handle) + Rx(Run(s, ops), handle)
  {
    hide MeteredCall, Delivered, Rx, ReadNow, ArrivesNow, Turns;
    var s := Start(budget, limit);
    if ops == [] {
      assert Rx(s, handle) == [] by { StartEmpty(budget, limit, handle); }
    } else {
      var n := |ops| - 1;
      StreamInOrder(budget, limit, ops[..n], handle);
      var before, op := Run(s, ops[..n]), ops[n];
      if Turns(before, op, handle) {
        TurnEmpties(before, op, handle);
      } else {
        StreamStep(before, op, handle);
        var read, now := StreamRead(s, ops[..n], handle), ReadNow(before, op, handle);
        assert (read + Rx(before, handle)) + ArrivesNow(op, handle) == read + (Rx(before, handle) + ArrivesNow(op, handle));
        assert read + (now + Rx(After(before, op), handle)) == (read + now) + Rx(After(before, op), handle);
      }
    }
  }

  lemma StartEmpty(budget: Option<nat>, limit: nat, handle: nat)
    ensures Rx(Start(budget, limit), handle) == []
  {
  }

  lemma StreamStep(s: State, op: Op, handle: nat)
    requires !Turns(s, op, handle)
    ensures Rx(s, handle) + ArrivesNow(op, handle) == ReadNow(s, op, handle) + Rx(After(s, op), handle)
  {
    hide MeteredCall, Delivered, Turns;
    match op
    case Guest(call) =>
      if call.Recv? && call.handle == handle {
        RecvSplits(s, handle, call.max);
      } else {
        OthersKeepRx(s, call, handle);
      }
    case FromHost(d) => DeliveryRx(s, d, handle);
    case Take =>
    case SetBudget(_) =>
  }

  /** An open handle is readable exactly when a read of one kind or the other would not be told
      to wait. */
  lemma ReadableMakesProgress(h: Host, handle: nat, max: nat)
    requires handle in h.endpoints
    ensures HostCall(h, Readable(handle)).1 == Told(
              || HostCall(h, Recv(handle, max)).1 != Got(Good(WouldBlock))
              || HostCall(h, RecvFrom(handle, max)).1 != GotFrom(Good(None)))
  {
  }

  /** The host broker was asked and answered with something other than data. */
  predicate NoData(s: State, handle: nat, max: nat) {
    Admitted(s.meter, Recv(handle, max)).Some? &&
    match MeteredCall(s, Recv(handle, max)).1 case Got(Good(Data(_))) => false case _ => true
  }

  /** An answer from the host broker that is not data, an error or the end of the stream among
      them, comes only when the guest has read everything delivered so far. */
  lemma EndsOnlyDrained(budget: Option<nat>, limit: nat, ops: seq<Op>, handle: nat, max: nat)
    requires NoData(Run(Start(budget, limit), ops), handle, max)
    ensures var s := Start(budget, limit); StreamIn(s, ops, handle) == StreamRead(s, ops, handle)
  {
    hide Run, StreamIn, StreamRead;
    StreamInOrder(budget, limit, ops, handle);
  }

  // --------------------------------------------------------------- outgoing

  /** The commands the host has taken, in order. */
  function Taken(s: State, ops: seq<Op>): seq<Command> {
    if ops == [] then []
    else
      var n := |ops| - 1;
      Taken(s, ops[..n]) + if ops[n].Take? then Run(s, ops[..n]).host.commands else []
  }

  /** The stream bytes a list of commands sends on a handle. */
  function StreamOut(commands: seq<Command>, handle: nat): seq<byte> {
    if commands == [] then []
    else
      var last := commands[|commands| - 1];
      StreamOut(commands[..|commands| - 1], handle) + if last.DoSend? && last.handle == handle then last.bytes else []
  }

  /** The bytes of a send that its answer accepted. */
  function AcceptedNow(s: State, op: Op, handle: nat): seq<byte> {
    if op.Guest? && op.call.Send? && op.call.handle == handle && Outward(MeteredCall(s, op.call).1) <= |op.call.bytes|
    then op.call.bytes[..Outward(MeteredCall(s, op.call).1)] else []
  }

  function Accepted(s: State, ops: seq<Op>, handle: nat): seq<byte> {
    if ops == [] then []
    else
      var n := |ops| - 1;
      Accepted(s, ops[..n], handle) + AcceptedNow(Run(s, ops[..n]), ops[n], handle)
  }

  lemma OutAppend(commands: seq<Command>, c: Command, handle: nat)
    ensures StreamOut(commands + [c], handle) ==
            StreamOut(commands, handle) + if c.DoSend? && c.handle == handle then c.bytes else []
  {
    assert (commands + [c])[..|commands|] == commands;
  }

  lemma {:induction false} OutConcat(a: seq<Command>, b: seq<Command>, handle: nat)
    ensures StreamOut(a + b, handle) == StreamOut(a, handle) + StreamOut(b, handle)
    decreases |b|
  {
    hide StreamOut;
    if b == [] {
      NothingOut(handle);
      assert a + b == a;
    } else {
      var n := |b| - 1;
      OutConcat(a, b[..n], handle);
      assert a + b == (a + b[..n]) + [b[n]] && b == b[..n] + [b[n]];
      OutAppend(a + b[..n], b[n], handle);
      OutAppend(b[..n], b[n], handle);
    }
  }

  /** A call adds to the pending commands the bytes its answer accepts. */
  lemma CallSends(s: State, call: Call, handle: nat)
    ensures StreamOut(After(s, Guest(call)).host.commands, handle) ==
            StreamOut(s.host.commands, handle) + AcceptedNow(s, Guest(call), handle)
  {
    hide StreamOut, Charged, Inward, EndpointOf;
    var after := After(s, Guest(call)).host.commands;
    if after != s.host.commands {
      var c := after[|after| - 1];
      assert after == s.host.commands + [c];
      OutAppend(s.host.commands, c, handle);
    }
  }

  /** What the guest was told was sent on a handle is, in order, what the host is given to send. */
  lemma {:induction false} SentInOrder(budget: Option<nat>, limit: nat, ops: seq<Op>, handle: nat)
    ensures var s := Start(budget, limit);
            StreamOut(Taken(s, ops) + Run(s, ops).host.commands, handle) == Accepted(s, ops, handle)
  {
    hide MeteredCall, StreamOut, AcceptedNow;
    var s := Start(budget, limit);
    if ops == [] {
      NothingOut(handle);
    } else {
      var n := |ops| - 1;
      var before, op := Run(s, ops[..n]), ops[n];
      SentInOrder(budget, limit, ops[..n], handle);
      OutConcat(Taken(s, ops[..n]), before.host.commands, handle);
      match op
      case Guest(call) =>
        CallSends(before, call, handle);
        OutConcat(Taken(s, ops[..n]), After(before, op).host.commands, handle);
        assert Taken(s, ops) == Taken(s, ops[..n]);
      case FromHost(_) =>
        assert Taken(s, ops) == Taken(s, ops[..n]);
        assert AcceptedNow(before, op, handle) == [] by { OnlyGuestsSend(before, op, handle); }
      case SetBudget(_) =>
        assert Taken(s, ops) == Taken(s, ops[..n]);
        assert AcceptedNow(before, op, handle) == [] by { OnlyGuestsSend(before, op, handle); }
      case Take =>
        assert Taken(s, ops) + [] == Taken(s, ops[..n]) + before.host.commands;
        assert AcceptedNow(before, op, handle) == [] by { OnlyGuestsSend(before, op, handle); }
    }
  }

  lemma NothingOut(handle: nat)
    ensures StreamOut([], handle) == []
  {
  }

  lemma OnlyGuestsSend(s: State, op: Op, handle: nat)
    requires !op.Guest?
    ensures AcceptedNow(s, op, handle) == []
  {
  }

  // --------------------------------------------------------------- datagrams

  function Queue(s: State, handle: nat): seq<Datagram> {
    EndpointOf(s.host, handle).datagrams
  }

  /** Datagrams delivered in the handle's present lifetime. */
  function DatagramsIn(s: State, ops: seq<Op>, handle: nat): seq<Datagram> {
    if ops == [] then []
    else
      var n := |ops| - 1;
      if Turns(Run(s, ops[..n]), ops[n], handle) then []
      else DatagramsIn(s, ops[..n], handle) + DatagramNow(ops[n], handle)
  }

  function DatagramNow(op: Op, handle: nat): seq<Datagram> {
    if op.FromHost? && op.delivery.DatagramArrived? && op.delivery.handle == handle then [op.delivery.datagram] else []
  }

  /** The datagram a call takes off the queue, before it is cut to the caller's room. */
  function PoppedNow(s: State, op: Op, handle: nat): seq<Datagram> {
    if op.Guest? && op.call.RecvFrom? && op.call.handle == handle && Admitted(s.meter, op.call).Some? && Queue(s, handle) != []
    then [Queue(s, handle)[0]] else []
  }

  function Popped(s: State, ops: seq<Op>, handle: nat): seq<Datagram> {
    if ops == [] then []
    else
      var n := |ops| - 1;
      if Turns(Run(s, ops[..n]), ops[n], handle) then []
      else Popped(s, ops[..n], handle) + PoppedNow(Run(s, ops[..n]), ops[n], handle)
  }

  lemma DatagramStep(s: State, op: Op, handle: nat)
    ensures !Turns(s, op, handle) ==>
              Queue(s, handle) + DatagramNow(op, handle) == PoppedNow(s, op, handle) + Queue(After(s, op), handle)
    ensures Turns(s, op, handle) ==> Queue(After(s, op), handle) == []
  {
    hide Charged, Inward, Outward, Allowance, Spent, Clip, CanRead;
  }

  /** Datagrams are taken whole, once each and in the order they were delivered. */
  lemma {:induction false} DatagramsInOrder(budget: Option<nat>, limit: nat, ops: seq<Op>, handle: nat)
    ensures var s := Start(budget, limit);
            DatagramsIn(s, ops, handle) == Popped(s, ops, handle) + Queue(Run(s, ops), handle)
  {
    hide MeteredCall, Delivered, Queue, PoppedNow, DatagramNow, Turns, Admitted;
    var s := Start(budget, limit);
    if ops == [] {
      assert Queue(s, handle) == [] by { StartQueues(budget, limit, handle); }
    } else {
      var n := |ops| - 1;
      DatagramsInOrder(budget, limit, ops[..n], handle);
      var before, op := Run(s, ops[..n]), ops[n];
      DatagramStep(before, op, handle);
      if !Turns(before, op, handle) {
        var popped, now := Popped(s, ops[..n], handle), PoppedNow(before, op, handle);
        assert (popped + Queue(before, handle)) + DatagramNow(op, handle) == popped + (Queue(before, handle) + DatagramNow(op, handle));
        assert popped + (now + Queue(After(before, op), handle)) == (popped + now) + Queue(After(before, op), handle);
      }
    }
  }

  lemma StartQueues(budget: Option<nat>, limit: nat, handle: nat)
    ensures Queue(Start(budget, limit), handle) == []
  {
  }

  /** A taken datagram reaches the guest from its sender, cut to the room asked for, to the
      budget and to the largest datagram. */
  lemma DatagramCut(s: State, handle: nat, max: nat)
    requires PoppedNow(s, Guest(RecvFrom(handle, max)), handle) != []
    ensures var d := PoppedNow(s, Guest(RecvFrom(handle, max)), handle)[0];
            var room := Clip(Allowance(s.meter, max), |d.bytes|, DATAGRAM_MAX);
            MeteredCall(s, RecvFrom(handle, max)).1 == GotFrom(Good(Some(Datagram(d.bytes[..room], d.sender))))
  {
  }

  // --------------------------------------------------- what the meter lets by

  /** Everything that crossed so far fits a machine word, and so does a budget. */
  predicate Exact(m: Meter) {
    m.sent + m.received < m.limit && (m.budget.Some? ==> m.budget.value < m.limit)
  }

  /** What is left of the budget, if there is one. */
  function Left(m: Meter): Option<nat> {
    if m.budget.None? then None else Some(Max(m.budget.value - (m.sent + m.received), 0))
  }

  /** The call as it reaches the host: a stream transfer wants no more than is left of the budget,
      and is refused only if it wants something and nothing is left; a datagram is sent whole if
      there is room for all of it and is refused otherwise; every other call goes through. */
  lemma MeterAdmits(m: Meter, call: Call)
    requires Exact(m)
    ensures var left, r := Left(m), Admitted(m, call);
            match call
            case Send(handle, bytes) =>
              if left.Some? && left.value == 0 && bytes != [] then r == None
              else r == Some(Send(handle, if left.None? || |bytes| <= left.value then bytes else bytes[..left.value]))
            case SendTo(_, _, bytes) => r == if left.Some? && left.value < |bytes| then None else Some(call)
            case Recv(handle, max) =>
              if left.Some? && left.value == 0 && max > 0 then r == None
              else r == Some(Recv(handle, if left.None? || max <= left.value then max else left.value))
            case RecvFrom(handle, max) =>
              if left.Some? && left.value == 0 && max > 0 then r == None
              else r == Some(RecvFrom(handle, if left.None? || max <= left.value then max else left.value))
            case _ => r == Some(call)
  {
    assert call.Send? ==> call.bytes[..|call.bytes|] == call.bytes;
  }

  /** A refused call changes nothing and says that it is not permitted. */
  lemma RefusedChangesNothing(s: State, call: Call)
    requires Admitted(s.meter, call).None?
    ensures var (s', a) := MeteredCall(s, call);
            s' == s && (a == Sent(Bad(1)) || a == Got(Bad(1)) || a == GotFrom(Bad(1))) && Suits(call, a)
  {
  }

  /** What an admitted call on a handle answers besides data: a handle that is not open is a bad
      descriptor; one that has failed answers a send with its failure; otherwise the send is taken
      whole, and a shutdown is always taken. */
  lemma HandleAnswers(h: Host, call: Call)
    requires call.Send? || call.SendTo? || call.Recv? || call.RecvFrom? || call.Shutdown?
    ensures var a, e := HostCall(h, call).1, EndpointOf(h, call.handle);
            if call.handle !in h.endpoints then
              a == match call case Recv(_, _) => Got(Bad(9)) case RecvFrom(_, _) => GotFrom(Bad(9)) case Shutdown(_) => Shut(Bad(9)) case _ => Sent(Bad(9))
            else
              && (call.Shutdown? ==> a == Shut(Good(())))
              && (call.Send? || call.SendTo? ==> a == Sent(if e.error.Some? then Bad(e.error.value) else Good(|call.bytes|)))
  {
  }

  // ------------------------------------------------------------ what is ordered

  /** The command that a call orders from the host, by its answer. */
  function Ordered(s: State, call: Call, a: Answer): seq<Command> {
    match call
    case Connect(addr) => if a.Opened? && a.handle.Good? then [DoConnect(a.handle.value, addr)] else []
    case OpenUdp => if a.Opened? && a.handle.Good? then [DoOpenUdp(a.handle.value)] else []
    case Send(handle, bytes) => if Outward(a) <= |bytes| && a.Sent? && a.count.Good? then [DoSend(handle, bytes[..Outward(a)])] else []
    case SendTo(handle, addr, bytes) => if a.Sent? && a.count.Good? then [DoSendTo(handle, addr, bytes)] else []
    case Shutdown(handle) => if a.Shut? && a.done.Good? then [DoShutdown(handle)] else []
    case Close(handle) => if handle in s.host.endpoints then [DoClose(handle)] else []
    case _ => []
  }

  /** A call that succeeds orders what it says, once and after everything ordered before; any other
      orders nothing. A send that is clipped reports how much was taken. */
  lemma CallOrders(s: State, call: Call)
    ensures var (s', a) := MeteredCall(s, call);
            s'.host.commands == s.host.commands + Ordered(s, call, a) && Suits(call, a)
  {
  }

  function Opens(ops: seq<Op>): nat {
    if ops == [] then 0
    else Opens(ops[..|ops| - 1]) + if ops[|ops| - 1].Guest? && (ops[|ops| - 1].call.Connect? || ops[|ops| - 1].call.OpenUdp?) then 1 else 0
  }

  /** Handles are given out in order from one: the next is one more than were opened, up to the
      last number of a word. */
  lemma {:induction false} HandlesInOrder(budget: Option<nat>, limit: nat, ops: seq<Op>)
    ensures Run(Start(budget, limit), ops).host.next == Min(1 + Opens(ops), U64_LIMIT - 1)
  {
    hide Admitted, Delivered, Charged;
    if ops != [] {
      HandlesInOrder(budget, limit, ops[..|ops| - 1]);
      NextHandle(Run(Start(budget, limit), ops[..|ops| - 1]), ops[|ops| - 1]);
    }
  }

  lemma NextHandle(s: State, op: Op)
    ensures var opens := op.Guest? && (op.call.Connect? || op.call.OpenUdp?);
            && (!opens ==> After(s, op).host.next == s.host.next)
            && (opens && s.host.next < U64_LIMIT ==> After(s, op).host.next == Min(s.host.next + 1, U64_LIMIT - 1))
            && (opens ==> MeteredCall(s, op.call).1 == Opened(Good(s.host.next)))
  {
  }

  // -------------------------------------------------- ends, errors, addresses

  /** The handle is opened or closed at operation `j` of the run. */
  predicate TurnsAt(s: State, ops: seq<Op>, handle: nat, j: nat)
    requires j < |ops|
  {
    Turns(Run(s, ops[..j]), ops[j], handle)
  }

  /** Operation `i` belongs to the handle's present lifetime. */
  predicate Lately(s: State, ops: seq<Op>, handle: nat, i: nat) {
    i < |ops| && forall j :: i <= j < |ops| ==> !TurnsAt(s, ops, handle, j)
  }

  lemma LatelyStep(s: State, ops: seq<Op>, handle: nat, i: nat)
    requires ops != []
    ensures var n := |ops| - 1;
            Lately(s, ops, handle, i) <==> !TurnsAt(s, ops, handle, n) && (i == n || Lately(s, ops[..n], handle, i))
  {
    hide Turns, Run;
    var n := |ops| - 1;
    forall j | 0 <= j < n
      ensures TurnsAt(s, ops[..n], handle, j) == TurnsAt(s, ops, handle, j)
    {
      assert ops[..n][..j] == ops[..j];
    }
  }

  predicate FailsAt(ops: seq<Op>, handle: nat, i: nat) {
    i < |ops| && ops[i].FromHost? && ops[i].delivery.Failed? && ops[i].delivery.handle == handle
  }

  predicate ConnectsAt(ops: seq<Op>, handle: nat, i: nat) {
    i < |ops| && ops[i].FromHost? && ops[i].delivery.Connected? && ops[i].delivery.handle == handle
  }

  /** What one operation does to the end, the error and the address of a handle. */
  lemma EndpointStep(s: State, op: Op, handle: nat)
    ensures var e, e' := EndpointOf(s.host, handle), EndpointOf(After(s, op).host, handle);
            if Turns(s, op, handle) then e' == FRESH
            else
              && e'.closed == (e.closed || op == FromHost(PeerClosed(handle)))
              && e'.error == (if e.error.None? && FailsAt([op], handle, 0) then Some(op.delivery.errno) else e.error)
              && e'.local == (if ConnectsAt([op], handle, 0) then op.delivery.local else e.local)
  {
  }

  predicate ClosesAt(ops: seq<Op>, handle: nat, i: nat) {
    i < |ops| && ops[i] == FromHost(PeerClosed(handle))
  }

  lemma LatelySteps(s: State, ops: seq<Op>, handle: nat)
    requires ops != []
    ensures var n := |ops| - 1;
            && (Lately(s, ops, handle, n) <==> !Turns(Run(s, ops[..n]), ops[n], handle))
            && forall i: nat :: i < n ==> (Lately(s, ops, handle, i) <==> Lately(s, ops, handle, n) && Lately(s, ops[..n], handle, i))
  {
    hide Turns, Run, Lately;
    var n := |ops| - 1;
    LatelyStep(s, ops, handle, n);
    forall i: nat | i < n
      ensures Lately(s, ops, handle, i) <==> Lately(s, ops, handle, n) && Lately(s, ops[..n], handle, i)
    {
      LatelyStep(s, ops, handle, i);
    }
  }

  /** The end of the stream is marked if and only if the peer closed in the handle's present
      lifetime. */
  lemma {:induction false} ClosedIff(s: State, ops: seq<Op>, handle: nat)
    requires s.host.endpoints == map[]
    ensures EndpointOf(Run(s, ops).host, handle).closed <==>
            exists i: nat :: Lately(s, ops, handle, i) && ClosesAt(ops, handle, i)
  {
    hide After, Lately, Turns;
    if ops != [] {
      var n := |ops| - 1;
      ClosedIff(s, ops[..n], handle);
      EndpointStep(Run(s, ops[..n]), ops[n], handle);
      LatelySteps(s, ops, handle);
      assert forall i: nat :: i < n ==> (ClosesAt(ops, handle, i) <==> ClosesAt(ops[..n], handle, i));
      if i: nat :| Lately(s, ops[..n], handle, i) && ClosesAt(ops[..n], handle, i) {
        assert i < n && ClosesAt(ops, handle, i);
      }
    }
  }

  /** Failure `i` is the first of the handle's present lifetime. */
  predicate FirstFailure(s: State, ops: seq<Op>, handle: nat, i: nat) {
    && Lately(s, ops, handle, i) && FailsAt(ops, handle, i)
    && forall j: nat :: j < i && Lately(s, ops, handle, j) ==> !FailsAt(ops, handle, j)
  }

  /** The error of a handle is the first failure of its present lifetime, if there is one. */
  lemma {:induction false} ErrorIff(s: State, ops: seq<Op>, handle: nat)
    requires s.host.endpoints == map[]
    ensures var error := EndpointOf(Run(s, ops).host, handle).error;
            && (forall i: nat :: FirstFailure(s, ops, handle, i) ==> error == Some(ops[i].delivery.errno))
            && (error.None? <==> forall i: nat :: Lately(s, ops, handle, i) ==> !FailsAt(ops, handle, i))
  {
    hide After, Lately, Turns;
    if ops != [] {
      var n := |ops| - 1;
      ErrorIff(s, ops[..n], handle);
      EndpointStep(Run(s, ops[..n]), ops[n], handle);
      LatelySteps(s, ops, handle);
      assert forall i: nat :: i < n ==> (FailsAt(ops, handle, i) <==> FailsAt(ops[..n], handle, i));
      assert forall i: nat :: i < n && FirstFailure(s, ops, handle, i) ==> FirstFailure(s, ops[..n], handle, i);
      if i: nat :| Lately(s, ops[..n], handle, i) && FailsAt(ops[..n], handle, i) {
        assert i < n && FailsAt(ops, handle, i);
      }
    }
  }

  /** Connection `i` is the latest of the handle's present lifetime. */
  predicate LastConnection(s: State, ops: seq<Op>, handle: nat, i: nat) {
    && Lately(s, ops, handle, i) && ConnectsAt(ops, handle, i)
    && forall j: nat :: i < j < |ops| ==> !ConnectsAt(ops, handle, j)
  }

  /** The local address of a handle is the one its latest connection came with. */
  lemma {:induction false} LocalIff(s: State, ops: seq<Op>, handle: nat)
    requires s.host.endpoints == map[]
    ensures var local := EndpointOf(Run(s, ops).host, handle).local;
            && HostCall(Run(s, ops).host, LocalAddr(handle)).1 == Local(local)
            && (forall i: nat :: LastConnection(s, ops, handle, i) ==> local == ops[i].delivery.local)
            && ((forall i: nat :: Lately(s, ops, handle, i) ==> !ConnectsAt(ops, handle, i)) ==> local == None)
  {
    hide After, Lately, Turns;
    if ops != [] {
      var n := |ops| - 1;
      LocalIff(s, ops[..n], handle);
      EndpointStep(Run(s, ops[..n]), ops[n], handle);
      LatelySteps(s, ops, handle);
      assert forall i: nat :: i < n ==> (ConnectsAt(ops, handle, i) <==> ConnectsAt(ops[..n], handle, i));
      assert forall i: nat :: i < n && LastConnection(s, ops, handle, i) ==> LastConnection(s, ops[..n], handle, i);
      if i: nat :| Lately(s, ops[..n], handle, i) && ConnectsAt(ops[..n], handle, i) {
        assert i < n && ConnectsAt(ops, handle, i);
      }
      forall i: nat | LastConnection(s, ops, handle, i)
        ensures EndpointOf(Run(s, ops).host, handle).local == ops[i].delivery.local
      {
        if i < n {
          assert LastConnection(s, ops[..n], handle, i) && ops[..n][i] == ops[i];
          assert !ConnectsAt(ops, handle, n);
        }
      }
    }
  }

  /** What a read of a drained stream answers: the first failure of the handle's lifetime, else the
      end if the peer closed, else that nothing has come yet. */
  lemma DrainedAnswers(budget: Option<nat>, limit: nat, ops: seq<Op>, handle: nat, max: nat)
    requires var s := Run(Start(budget, limit), ops);
             handle in s.host.endpoints && !Spent(s.meter, max) && Rx(s, handle) == []
    ensures var s := Start(budget, limit); var r := MeteredCall(Run(s, ops), Recv(handle, max));
            && r.0.host == Run(s, ops).host
            && (forall i: nat :: FirstFailure(s, ops, handle, i) ==> r.1 == Got(Bad(ops[i].delivery.errno)))
            && ((forall i: nat :: Lately(s, ops, handle, i) ==> !FailsAt(ops, handle, i)) ==>
                  r.1 == Got(Good(if exists i: nat :: Lately(s, ops, handle, i) && ClosesAt(ops, handle, i) then Closed else WouldBlock)))
  {
    hide Run, Lately, Spent, Allowance, Charged;
    var s := Start(budget, limit);
    ClosedIff(s, ops, handle);
    ErrorIff(s, ops, handle);
  }

  // ------------------------------------------------------------- the brokers

  class HostBroker {
    var endpoints: map<nat, Endpoint>
    var commands: seq<Command>
    var next: nat

    function Now(): Host
      reads this
    {
      Host(endpoints, commands, next)
    }

    constructor ()
      ensures Now() == Host(map[], [], 1)
    {
      endpoints, commands, next := map[], [], 1;
    }

    method TcpConnect(addr: nat) returns (r: Reply<nat>)
      modifies this
      ensures (Now(), Opened(r)) == HostCall(old(Now()), Connect(addr))
    {
      var handle := next;
      next := SaturatingSum(next, 1, U64_LIMIT);
      endpoints := endpoints[handle := FRESH];
      commands := commands + [DoConnect(handle, addr)];
      return Good(handle);
    }

    method TcpSend(handle: nat, bytes: seq<byte>) returns (r: Reply<nat>)
      modifies this
      ensures (Now(), Sent(r)) == HostCall(old(Now()), Send(handle, bytes))
    {
      if handle !in endpoints {
        return Bad(EBADF);
      }
      if endpoints[handle].error.Some? {
        return Bad(endpoints[handle].error.value);
      }
      commands := commands + [DoSend(handle, bytes)];
      return Good(|bytes|);
    }

    method TcpRecv(handle: nat, max: nat) returns (r: Reply<Chunk>)
      modifies this
      ensures (Now(), Got(r)) == HostCall(old(Now()), Recv(handle, max))
    {
      if handle !in endpoints {
        return Bad(EBADF);
      }
      var e := endpoints[handle];
      if e.rx != [] {
        var take := Clip(max, |e.rx|, STREAM_MAX);
        endpoints := endpoints[handle := e.(rx := e.rx[take..])];
        return Good(Data(e.rx[..take]));
      }
      if e.error.Some? {
        return Bad(e.error.value);
      }
      return if e.closed then Good(Closed) else Good(WouldBlock);
    }

    method UdpSendTo(handle: nat, addr: nat, bytes: seq<byte>) returns (r: Reply<nat>)
      modifies this
      ensures (Now(), Sent(r)) == HostCall(old(Now()), SendTo(handle, addr, bytes))
    {
      if handle !in endpoints {
        return Bad(EBADF);
      }
      if endpoints[handle].error.Some? {
        return Bad(endpoints[handle].error.value);
      }
      commands := commands + [DoSendTo(handle, addr, bytes)];
      return Good(|bytes|);
    }

    method UdpRecvFrom(handle: nat, max: nat) returns (r: Reply<Option<Datagram>>)
      modifies this
      ensures (Now(), GotFrom(r)) == HostCall(old(Now()), RecvFrom(handle, max))
    {
      if handle !in endpoints {
        return Bad(EBADF);
      }
      var e := endpoints[handle];
      if e.datagrams != [] {
        var d := e.datagrams[0];
        endpoints := endpoints[handle := e.(datagrams := e.datagrams[1..])];
        return Good(Some(Datagram(d.bytes[..Clip(max, |d.bytes|, DATAGRAM_MAX)], d.sender)));
      }
      return if e.error.Some? then Bad(e.error.value) else Good(None);
    }

    method Readable(handle: nat) returns (r: bool)
      ensures (Now(), Told(r)) == HostCall(Now(), Call.Readable(handle))
    {
      if handle !in endpoints {
        return false;
      }
      var e := endpoints[handle];
      return e.rx != [] || e.datagrams != [] || e.closed || e.error.Some?;
    }

    /** Never blocks: answers for what has been delivered. */
    method WaitReady(handles: seq<nat>, timeout: nat) returns (r: bool)
      ensures (Now(), Told(r)) == HostCall(Now(), Call.WaitReady(handles, timeout))
    {
      for i := 0 to |handles|
        invariant forall j :: 0 <= j < i ==> !CanRead(Now(), handles[j])
      {
        var ready := Readable(handles[i]);
        if ready {
          return true;
        }
      }
      return false;
    }

    method CloseHandle(handle: nat)
      modifies this
      ensures (Now(), Gone) == HostCall(old(Now()), Close(handle))
    {
      if handle in endpoints {
        endpoints := endpoints - {handle};
        commands := commands + [DoClose(handle)];
      }
    }

    method Deliver(d: Delivery)
      modifies this
      ensures Now() == Delivered(old(Now()), d)
    {
      var e := if d.handle in endpoints then endpoints[d.handle] else FRESH;
      match d {
        case Connected(_, local) => e := e.(local := local);
        case Arrived(_, bytes) => e := e.(rx := e.rx + bytes);
        case DatagramArrived(_, datagram) => e := e.(datagrams := e.datagrams + [datagram]);
        case PeerClosed(_) => e := e.(closed := true);
        case Failed(_, errno) =>
          if e.error.None? {
            e := e.(error := Some(errno));
          }
      }
      endpoints := endpoints[d.handle := e];
    }
  }

  class MeteredBroker {
    const inner: HostBroker
    var meter: Meter

    function Now(): State
      reads this, inner
    {
      State(inner.Now(), meter)
    }

    constructor (inner: HostBroker, meter: Meter)
      ensures this.inner == inner && this.meter == meter
    {
      this.inner, this.meter := inner, meter;
    }

    /** Takes effect on the next call. */
    method SetBudget(bytes: Option<nat>)
      modifies this
      ensures Now() == After(old(Now()), Op.SetBudget(bytes))
    {
      meter := meter.(budget := bytes);
    }

    method TcpSend(handle: nat, bytes: seq<byte>) returns (r: Reply<nat>)
      modifies this, inner
      ensures (Now(), Sent(r)) == MeteredCall(old(Now()), Send(handle, bytes))
    {
      var allowance := Allowance(meter, |bytes|);
      if allowance == 0 && bytes != [] {
        return Bad(EPERM);
      }
      r := inner.TcpSend(handle, bytes[..allowance]);
      if r.Good? {
        meter := Charged(meter, r.value, 0);
      }
    }

    method TcpRecv(handle: nat, max: nat) returns (r: Reply<Chunk>)
      modifies this, inner
      ensures (Now(), Got(r)) == MeteredCall(old(Now()), Recv(handle, max))
    {
      var allowance := Allowance(meter, max);
      if allowance == 0 && max > 0 {
        return Bad(EPERM);
      }
      r := inner.TcpRecv(handle, allowance);
      if r.Good? && r.value.Data? {
        meter := Charged(meter, 0, |r.value.bytes|);
      }
    }

    method UdpSendTo(handle: nat, addr: nat, bytes: seq<byte>) returns (r: Reply<nat>)
      modifies this, inner
      ensures (Now(), Sent(r)) == MeteredCall(old(Now()), SendTo(handle, addr, bytes))
    {
      if Allowance(meter, |bytes|) < |bytes| {
        return Bad(EPERM);
      }
      r := inner.UdpSendTo(handle, addr, bytes);
      if r.Good? {
        meter := Charged(meter, r.value, 0);
      }
    }

    method UdpRecvFrom(handle: nat, max: nat) returns (r: Reply<Option<Datagram>>)
      modifies this, inner
      ensures (Now(), GotFrom(r)) == MeteredCall(old(Now()), RecvFrom(handle, max))
    {
      var allowance := Allowance(meter, max);
      if allowance == 0 && max > 0 {
        return Bad(EPERM);
      }
      r := inner.UdpRecvFrom(handle, allowance);
      if r.Good? && r.value.Some? {
        meter := Charged(meter, 0, |r.value.value.bytes|);
      }
    }
  }
}

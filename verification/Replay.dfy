/** Recording what crosses the network interface, and answering the same calls from the
    recording alone. */
module Replay {
  import opened Base
  import opened NetCalls

  const ECONNREFUSED: nat := 111
  const EAFNOSUPPORT: nat := 97

  datatype Event =
    | TcpConnect(addr: nat, result: Reply<nat>)
    | UdpOpen(result: Reply<nat>)
    | SentBytes(handle: nat, len: nat)
    | SentDatagram(handle: nat, addr: nat, len: nat)
    | Received(handle: nat, chunk: Reply<Chunk>)
    | ReceivedFrom(handle: nat, datagram: Option<Datagram>)
    | ClosedHandle(handle: nat)

  // -------------------------------------------------------------- recording

  /** The event a call leaves in the log: failed sends, failed datagram receives, shutdowns and
      questions about readiness or addresses leave none. */
  function Noted(call: Call, answer: Answer): seq<Event>
    requires Suits(call, answer)
  {
    match call
    case Connect(addr) => [TcpConnect(addr, answer.handle)]
    case OpenUdp => [UdpOpen(answer.handle)]
    case Send(handle, _) => if answer.count.Good? then [SentBytes(handle, answer.count.value)] else []
    case SendTo(handle, addr, _) => if answer.count.Good? then [SentDatagram(handle, addr, answer.count.value)] else []
    case Recv(handle, _) => [Received(handle, answer.chunk)]
    case RecvFrom(handle, _) => if answer.datagram.Good? then [ReceivedFrom(handle, answer.datagram.value)] else []
    case Close(handle) => [ClosedHandle(handle)]
    case Shutdown(_) => []
    case Readable(_) => []
    case LocalAddr(_) => []
    case WaitReady(_, _) => []
  }

  datatype Exchange = Exchange(call: Call, answer: Answer)

  predicate Session(s: seq<Exchange>) {
    forall i :: 0 <= i < |s| ==> Suits(s[i].call, s[i].answer)
  }

  function Log(s: seq<Exchange>): seq<Event>
    requires Session(s)
  {
    if s == [] then []
    else Log(s[..|s| - 1]) + Noted(s[|s| - 1].call, s[|s| - 1].answer)
  }

  // ---------------------------------------------------------------- replay

  datatype Step = Step(answer: Answer, cursor: nat)

  predicate Next(log: seq<Event>, cursor: nat, kind: Event -> bool) {
    cursor < |log| && kind(log[cursor])
  }

  /** Moves past the next event, of whatever kind. */
  function Advanced(log: seq<Event>, cursor: nat): nat {
    if cursor < |log| then cursor + 1 else cursor
  }

  /** What replay answers at a point of the log. Every send is answered in full, everything is
      ready, and no address is known. */
  function Answered(log: seq<Event>, cursor: nat, call: Call): (r: Step)
    ensures Suits(call, r.answer)
  {
    match call
    case Connect(_) =>
      Step(Opened(if Next(log, cursor, (e: Event) => e.TcpConnect?) then log[cursor].result else Bad(ECONNREFUSED)),
           Advanced(log, cursor))
    case OpenUdp =>
      Step(Opened(if Next(log, cursor, (e: Event) => e.UdpOpen?) then log[cursor].result else Bad(EAFNOSUPPORT)),
           Advanced(log, cursor))
    case Send(_, bytes) =>
      Step(Sent(Good(|bytes|)), if Next(log, cursor, (e: Event) => e.SentBytes?) then cursor + 1 else cursor)
    case SendTo(_, _, bytes) =>
      Step(Sent(Good(|bytes|)), if Next(log, cursor, (e: Event) => e.SentDatagram?) then cursor + 1 else cursor)
    case Recv(_, _) =>
      Step(Got(if Next(log, cursor, (e: Event) => e.Received?) then log[cursor].chunk else Good(Closed)),
           Advanced(log, cursor))
    case RecvFrom(_, _) =>
      Step(GotFrom(Good(if Next(log, cursor, (e: Event) => e.ReceivedFrom?) then log[cursor].datagram else None)),
           Advanced(log, cursor))
    case Shutdown(_) => Step(Shut(Good(())), cursor)
    case Readable(_) => Step(Told(true), cursor)
    case LocalAddr(_) => Step(Local(None), cursor)
    case WaitReady(_, _) => Step(Told(true), cursor)
    case Close(_) =>
      Step(Gone, if Next(log, cursor, (e: Event) => e.ClosedHandle?) then cursor + 1 else cursor)
  }

  /** Where replay stands after the calls of a session. */
  function CursorAfter(log: seq<Event>, s: seq<Exchange>): nat {
    if s == [] then 0 else Answered(log, CursorAfter(log, s[..|s| - 1]), s[|s| - 1].call).cursor
  }

  /** What replay answers to call `i`, after the calls before it. */
  function Replayed(log: seq<Event>, s: seq<Exchange>, i: nat): Answer
    requires i < |s|
  {
    Answered(log, CursorAfter(log, s[..i]), s[i].call).answer
  }

  // --------------------------------------------------------------- fidelity

  /** The live answers replay can reproduce: a send accepted whole, no failed datagram receive or
      shutdown, nothing found not ready, and no local address. */
  predicate Whole(x: Exchange) {
    match x.call
    case Send(_, bytes) => x.answer == Sent(Good(|bytes|))
    case SendTo(_, _, bytes) => x.answer == Sent(Good(|bytes|))
    case RecvFrom(_, _) => x.answer.GotFrom? && x.answer.datagram.Good?
    case Shutdown(_) => x.answer == Shut(Good(()))
    case Readable(_) => x.answer == Told(true)
    case LocalAddr(_) => x.answer == Local(None)
    case WaitReady(_, _) => x.answer == Told(true)
    case _ => true
  }

  /** The exchanges that leave replay in step with the log: the live send and the live datagram
      receive did not fail. */
  predicate InStep(x: Exchange) {
    match x.call
    case Send(_, _) => x.answer.Sent? && x.answer.count.Good?
    case SendTo(_, _, _) => x.answer.Sent? && x.answer.count.Good?
    case RecvFrom(_, _) => x.answer.GotFrom? && x.answer.datagram.Good?
    case _ => true
  }

  predicate AllInStep(s: seq<Exchange>) {
    forall i :: 0 <= i < |s| ==> InStep(s[i])
  }

  predicate AllWhole(s: seq<Exchange>) {
    forall i :: 0 <= i < |s| ==> Whole(s[i])
  }

  predicate Faithful(s: seq<Exchange>)
    requires Session(s)
  {
    forall i :: 0 <= i < |s| ==> Replayed(Log(s), s, i) == s[i].answer
  }

  lemma {:induction false} LogPrefix(s: seq<Exchange>, i: nat)
    requires Session(s) && i <= |s|
    ensures Log(s[..i]) <= Log(s)
    decreases |s|
  {
    if i == |s| {
      assert s[..i] == s;
    } else {
      var n := |s| - 1;
      LogPrefix(s[..n], i);
      assert s[..n][..i] == s[..i];
    }
  }

  /** One exchange: from a cursor at the end of what was logged before it, replay moves to the end
      of what is logged after it, and gives the same answer exactly when it can. */
  lemma StepFaithful(log: seq<Event>, cursor: nat, x: Exchange)
    requires Suits(x.call, x.answer) && InStep(x) && cursor + |Noted(x.call, x.answer)| <= |log|
    requires log[cursor..cursor + |Noted(x.call, x.answer)|] == Noted(x.call, x.answer)
    ensures var step := Answered(log, cursor, x.call);
            && step.cursor == cursor + |Noted(x.call, x.answer)|
            && (step.answer == x.answer <==> Whole(x))
  {
    var noted := Noted(x.call, x.answer);
    if noted != [] {
      assert log[cursor] == log[cursor..cursor + 1][0] == noted[0];
    }
  }

  lemma {:induction false} CursorTracks(s: seq<Exchange>, i: nat)
    requires Session(s) && AllInStep(s) && i <= |s|
    ensures CursorAfter(Log(s), s[..i]) == |Log(s[..i])|
    ensures i < |s| ==> (Replayed(Log(s), s, i) == s[i].answer <==> Whole(s[i]))
    decreases i
  {
    hide Answered, Noted, Whole, InStep, Suits;
    if i > 0 {
      CursorTracks(s, i - 1);
      assert s[..i][..i - 1] == s[..i - 1];
      NextFaithful(s, i - 1);
    }
    if i < |s| {
      NextFaithful(s, i);
    }
  }

  lemma NextFaithful(s: seq<Exchange>, i: nat)
    requires Session(s) && AllInStep(s) && i < |s|
    ensures var step := Answered(Log(s), |Log(s[..i])|, s[i].call);
            step.cursor == |Log(s[..i + 1])| && (step.answer == s[i].answer <==> Whole(s[i]))
  {
    hide Answered, Noted, Whole, InStep, Suits;
    LogPrefix(s, i + 1);
    assert s[..i + 1][..i] == s[..i];
    var before, noted := Log(s[..i]), Noted(s[i].call, s[i].answer);
    var log := Log(s);
    assert Log(s[..i + 1]) == before + noted;
    assert log[..|before| + |noted|] == before + noted;
    assert log[|before|..|before| + |noted|] == (before + noted)[|before|..] == noted;
    StepFaithful(log, |before|, s[i]);
  }

  /** Call by call: as long as no send and no datagram receive failed live, replay gives the live
      answer to a call if and only if that answer is one it can reproduce. A short send, a
      readiness question answered no or a known address spoils its own answer and no other. */
  lemma ReplayFaithfulAt(s: seq<Exchange>, i: nat)
    requires Session(s) && AllInStep(s) && i < |s|
    ensures Replayed(Log(s), s, i) == s[i].answer <==> Whole(s[i])
  {
    CursorTracks(s, i);
  }

  lemma WholeInStep(s: seq<Exchange>)
    requires AllWhole(s)
    ensures AllInStep(s)
  {
    forall i | 0 <= i < |s| ensures InStep(s[i]) {
      assert Whole(s[i]);
    }
  }

  /** Replay gives the live answer at every call of a session, whatever handles interleave, if
      and only if every send was accepted whole, no datagram receive or shutdown failed, whatever
      was asked to be ready was, and no local address was known when asked for. */
  lemma ReplayFaithful(s: seq<Exchange>)
    requires Session(s)
    ensures Faithful(s) <==> AllWhole(s)
  {
    hide CursorAfter, Log;
    if AllWhole(s) {
      WholeInStep(s);
      forall i | 0 <= i < |s| ensures Replayed(Log(s), s, i) == s[i].answer {
        CursorTracks(s, i);
      }
    }
    if Faithful(s) {
      forall i | 0 <= i < |s| ensures Whole(s[i]) {
        assert Replayed(Log(s), s, i) == s[i].answer;
      }
    }
  }

  // ------------------------------------------------------ a deterministic guest

  /** The first `n` exchanges of a guest whose next call depends only on the answers so far,
      against a network that answers as it likes. */
  function LiveRun(guest: seq<Answer> -> Call, network: seq<Exchange> -> Answer, n: nat): seq<Exchange> {
    if n == 0 then []
    else
      var before := LiveRun(guest, network, n - 1);
      before + [Exchange(guest(Answers(before)), network(before))]
  }

  function Answers(s: seq<Exchange>): (r: seq<Answer>)
    ensures |r| == |s|
  {
    if s == [] then [] else Answers(s[..|s| - 1]) + [s[|s| - 1].answer]
  }

  /** The same guest, answered from a log. */
  function ReplayRun(guest: seq<Answer> -> Call, log: seq<Event>, n: nat): seq<Exchange> {
    if n == 0 then []
    else
      var before := ReplayRun(guest, log, n - 1);
      var call := guest(Answers(before));
      before + [Exchange(call, Answered(log, CursorAfter(log, before), call).answer)]
  }

  lemma {:induction false} LiveLength(guest: seq<Answer> -> Call, network: seq<Exchange> -> Answer, n: nat)
    ensures |LiveRun(guest, network, n)| == n
    ensures n > 0 ==> LiveRun(guest, network, n)[..n - 1] == LiveRun(guest, network, n - 1)
  {
    if n > 0 {
      LiveLength(guest, network, n - 1);
    }
  }

  lemma {:induction false} LivePrefix(guest: seq<Answer> -> Call, network: seq<Exchange> -> Answer, k: nat, n: nat)
    requires k <= n
    ensures |LiveRun(guest, network, n)| == n && LiveRun(guest, network, n)[..k] == LiveRun(guest, network, k)
    decreases n
  {
    LiveLength(guest, network, n);
    if k < n {
      LivePrefix(guest, network, k, n - 1);
      assert LiveRun(guest, network, n)[..n - 1][..k] == LiveRun(guest, network, n)[..k];
    }
  }

  /** A guest replayed against the log of its own live run makes the same calls and gets the
      same answers, all the way. */
  lemma {:induction false} GuestReplays(guest: seq<Answer> -> Call, network: seq<Exchange> -> Answer, k: nat, n: nat)
    requires k <= n && Session(LiveRun(guest, network, n)) && AllWhole(LiveRun(guest, network, n))
    ensures ReplayRun(guest, Log(LiveRun(guest, network, n)), k) == LiveRun(guest, network, k)
    decreases k
  {
    hide Answered, Log, CursorAfter, Session, AllWhole;
    if k > 0 {
      var s := LiveRun(guest, network, n);
      GuestReplays(guest, network, k - 1, n);
      LivePrefix(guest, network, k - 1, n);
      LivePrefix(guest, network, k, n);
      ReplayFaithful(s);
      assert s[..k][k - 1] == s[k - 1];
      assert Replayed(Log(s), s, k - 1) == s[k - 1].answer;
    }
  }

  lemma {:induction false} ReplayLength(guest: seq<Answer> -> Call, log: seq<Event>, n: nat)
    ensures |ReplayRun(guest, log, n)| == n
    ensures n > 0 ==> ReplayRun(guest, log, n)[..n - 1] == ReplayRun(guest, log, n - 1)
  {
    hide Answered, CursorAfter;
    if n > 0 {
      ReplayLength(guest, log, n - 1);
    }
  }

  lemma {:induction false} ReplayPrefix(guest: seq<Answer> -> Call, log: seq<Event>, k: nat, n: nat)
    requires k <= n
    ensures |ReplayRun(guest, log, n)| == n && ReplayRun(guest, log, n)[..k] == ReplayRun(guest, log, k)
    decreases n
  {
    hide ReplayRun;
    ReplayLength(guest, log, n);
    if k < n {
      ReplayPrefix(guest, log, k, n - 1);
      assert ReplayRun(guest, log, n)[..n - 1][..k] == ReplayRun(guest, log, n)[..k];
    }
  }

  /** A guest replayed against the log of its own live run goes the same way if and only if replay
      can reproduce every answer it got. */
  lemma GuestReplaysIff(guest: seq<Answer> -> Call, network: seq<Exchange> -> Answer, n: nat)
    requires Session(LiveRun(guest, network, n))
    ensures ReplayRun(guest, Log(LiveRun(guest, network, n)), n) == LiveRun(guest, network, n) <==>
            AllWhole(LiveRun(guest, network, n))
  {
    hide Answered, Log, CursorAfter, Session, AllWhole, LiveRun;
    var s := LiveRun(guest, network, n);
    var log := Log(s);
    if AllWhole(s) {
      GuestReplays(guest, network, n, n);
    }
    if ReplayRun(guest, log, n) == s {
      ReplayPrefix(guest, log, n, n);
      forall i | 0 <= i < |s| ensures Replayed(log, s, i) == s[i].answer {
        ReplayPrefix(guest, log, i, n);
        ReplayPrefix(guest, log, i + 1, n);
        assert s[i] == s[..i + 1][i] == ReplayRun(guest, log, i + 1)[i];
      }
      ReplayFaithful(s);
    }
  }

  /** A session of one short send: replay tells the guest that everything was sent. */
  lemma ShortSendReplaysFull()
    ensures var s := [Exchange(Send(1, [7, 8]), Sent(Good(1)))];
            Session(s) && Replayed(Log(s), s, 0) == Sent(Good(2)) && !Faithful(s)
  {
    var s := [Exchange(Send(1, [7, 8]), Sent(Good(1)))];
    assert s[..0] == [];
    ReplayFaithful(s);
    assert !Whole(s[0]);
  }

  // ------------------------------------------------------------- the brokers

  class RecordingBroker {
    var events: seq<Event>

    constructor ()
      ensures events == []
    {
      events := [];
    }

    /** Hands on the inner broker's answer to a connect. */
    method TcpConnect(addr: nat, inner: Reply<nat>) returns (r: Reply<nat>)
      modifies this
      ensures r == inner && events == old(events) + Noted(Connect(addr), Opened(inner))
    {
      events := events + [Event.TcpConnect(addr, inner)];
      return inner;
    }

    method TcpSend(handle: nat, bytes: seq<byte>, inner: Reply<nat>) returns (r: Reply<nat>)
      modifies this
      ensures r == inner && events == old(events) + Noted(Send(handle, bytes), Sent(inner))
    {
      if inner.Good? {
        events := events + [SentBytes(handle, inner.value)];
      }
      return inner;
    }

    method TcpRecv(handle: nat, max: nat, inner: Reply<Chunk>) returns (r: Reply<Chunk>)
      modifies this
      ensures r == inner && events == old(events) + Noted(Recv(handle, max), Got(inner))
    {
      events := events + [Received(handle, inner)];
      return inner;
    }

    method UdpOpen(inner: Reply<nat>) returns (r: Reply<nat>)
      modifies this
      ensures r == inner && events == old(events) + Noted(OpenUdp, Opened(inner))
    {
      events := events + [Event.UdpOpen(inner)];
      return inner;
    }

    method UdpSendTo(handle: nat, addr: nat, bytes: seq<byte>, inner: Reply<nat>) returns (r: Reply<nat>)
      modifies this
      ensures r == inner && events == old(events) + Noted(SendTo(handle, addr, bytes), Sent(inner))
    {
      if inner.Good? {
        events := events + [SentDatagram(handle, addr, inner.value)];
      }
      return inner;
    }

    method UdpRecvFrom(handle: nat, max: nat, inner: Reply<Option<Datagram>>) returns (r: Reply<Option<Datagram>>)
      modifies this
      ensures r == inner && events == old(events) + Noted(RecvFrom(handle, max), GotFrom(inner))
    {
      if inner.Good? {
        events := events + [ReceivedFrom(handle, inner.value)];
      }
      return inner;
    }

    /** Handed on without a trace, as are the next three. */
    method TcpShutdown(handle: nat, inner: Reply<()>) returns (r: Reply<()>)
      ensures r == inner && Noted(Shutdown(handle), Shut(inner)) == []
    {
      return inner;
    }

    method Readable(handle: nat, inner: bool) returns (r: bool)
      ensures r == inner && Noted(Call.Readable(handle), Told(inner)) == []
    {
      return inner;
    }

    method LocalAddr(handle: nat, inner: Option<nat>) returns (r: Option<nat>)
      ensures r == inner && Noted(Call.LocalAddr(handle), Local(inner)) == []
    {
      return inner;
    }

    method WaitReady(handles: seq<nat>, timeout: nat, inner: bool) returns (r: bool)
      ensures r == inner && Noted(Call.WaitReady(handles, timeout), Told(inner)) == []
    {
      return inner;
    }

    method CloseHandle(handle: nat)
      modifies this
      ensures events == old(events) + Noted(Close(handle), Gone)
    {
      events := events + [ClosedHandle(handle)];
    }
  }

  class ReplayBroker {
    const events: seq<Event>
    var cursor: nat

    constructor (events: seq<Event>)
      ensures this.events == events && cursor == 0
    {
      this.events, cursor := events, 0;
    }

    method NextEvent() returns (r: Option<Event>)
      modifies this
      ensures cursor == Advanced(events, old(cursor))
      ensures r == if old(cursor) < |events| then Some(events[old(cursor)]) else None
    {
      if cursor >= |events| {
        return None;
      }
      r := Some(events[cursor]);
      cursor := cursor + 1;
    }

    method TcpConnect(addr: nat) returns (r: Reply<nat>)
      modifies this
      ensures Step(Opened(r), cursor) == Answered(events, old(cursor), Connect(addr))
    {
      var e := NextEvent();
      return if e.Some? && e.value.TcpConnect? then e.value.result else Bad(ECONNREFUSED);
    }

    method TcpSend(handle: nat, bytes: seq<byte>) returns (r: Reply<nat>)
      modifies this
      ensures Step(Sent(r), cursor) == Answered(events, old(cursor), Send(handle, bytes))
    {
      if cursor < |events| && events[cursor].SentBytes? {
        cursor := cursor + 1;
      }
      return Good(|bytes|);
    }

    method TcpRecv(handle: nat, max: nat) returns (r: Reply<Chunk>)
      modifies this
      ensures Step(Got(r), cursor) == Answered(events, old(cursor), Recv(handle, max))
    {
      var e := NextEvent();
      return if e.Some? && e.value.Received? then e.value.chunk else Good(Closed);
    }

    method UdpOpen() returns (r: Reply<nat>)
      modifies this
      ensures Step(Opened(r), cursor) == Answered(events, old(cursor), OpenUdp)
    {
      var e := NextEvent();
      return if e.Some? && e.value.UdpOpen? then e.value.result else Bad(EAFNOSUPPORT);
    }

    method UdpSendTo(handle: nat, addr: nat, bytes: seq<byte>) returns (r: Reply<nat>)
      modifies this
      ensures Step(Sent(r), cursor) == Answered(events, old(cursor), SendTo(handle, addr, bytes))
    {
      if cursor < |events| && events[cursor].SentDatagram? {
        cursor := cursor + 1;
      }
      return Good(|bytes|);
    }

    method UdpRecvFrom(handle: nat, max: nat) returns (r: Reply<Option<Datagram>>)
      modifies this
      ensures Step(GotFrom(r), cursor) == Answered(events, old(cursor), RecvFrom(handle, max))
    {
      var e := NextEvent();
      return Good(if e.Some? && e.value.ReceivedFrom? then e.value.datagram else None);
    }

    method TcpShutdown(handle: nat) returns (r: Reply<()>)
      ensures Step(Shut(r), cursor) == Answered(events, cursor, Shutdown(handle))
    {
      return Good(());
    }

    method Readable(handle: nat) returns (r: bool)
      ensures Step(Told(r), cursor) == Answered(events, cursor, Call.Readable(handle))
    {
      return true;
    }

    method LocalAddr(handle: nat) returns (r: Option<nat>)
      ensures Step(Local(r), cursor) == Answered(events, cursor, Call.LocalAddr(handle))
    {
      return None;
    }

    method WaitReady(handles: seq<nat>, timeout: nat) returns (r: bool)
      ensures Step(Told(r), cursor) == Answered(events, cursor, Call.WaitReady(handles, timeout))
    {
      return true;
    }

    method CloseHandle(handle: nat)
      modifies this
      ensures Step(Gone, cursor) == Answered(events, old(cursor), Close(handle))
    {
      if cursor < |events| && events[cursor].ClosedHandle? {
        cursor := cursor + 1;
      }
    }
  }
}

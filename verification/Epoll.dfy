/** Epoll interests and the map that suppresses delivered edges, against the history of what
    each wait saw. */
module Epoll {
  import opened Base

  datatype Condition = Readable | Writable | HangUp

  /** What was registered for a descriptor; an edge-triggered interest reports changes only. */
  datatype Interest = Interest(fd: nat, wantsIn: bool, wantsOut: bool, edge: bool, data: nat)

  /** A condition mask and the activity count it was seen with. */
  datatype Seen = Seen(mask: set<Condition>, activity: nat)

  /** How an open descriptor looks at a wait. */
  datatype Look = Look(readable: bool, writable: bool, hungUp: bool, activity: nat)

  /** Interests in descriptor order. */
  datatype State = State(interests: seq<Interest>, fired: map<nat, Seen>)

  datatype Report = Report(mask: set<Condition>, data: nat)

  datatype Errno = EEXIST | ENOENT | EBADF

  // ------------------------------------------------------------ interests

  predicate Sorted(s: seq<Interest>) {
    forall i, j :: 0 <= i < j < |s| ==> s[i].fd < s[j].fd
  }

  predicate Has(s: seq<Interest>, fd: nat) {
    exists i :: 0 <= i < |s| && s[i].fd == fd
  }

  function Put(s: seq<Interest>, x: Interest): seq<Interest> {
    if s == [] then [x]
    else if x.fd == s[0].fd then [x] + s[1..]
    else if x.fd < s[0].fd then [x] + s
    else [s[0]] + Put(s[1..], x)
  }

  function Cut(s: seq<Interest>, fd: nat): seq<Interest> {
    if s == [] then [] else if s[0].fd == fd then s[1..] else [s[0]] + Cut(s[1..], fd)
  }

  lemma {:induction false} PutHas(s: seq<Interest>, x: Interest, y: Interest)
    requires Sorted(s)
    ensures y in Put(s, x) <==> y == x || (y in s && y.fd != x.fd)
  {
    if s != [] {
      assert s == [s[0]] + s[1..];
      assert forall z :: z in s[1..] ==> s[0].fd < z.fd;
      if x.fd > s[0].fd {
        PutHas(s[1..], x, y);
      }
    }
  }

  lemma {:induction false} PutSorted(s: seq<Interest>, x: Interest)
    requires Sorted(s)
    ensures Sorted(Put(s, x))
  {
    if s != [] && x.fd > s[0].fd {
      var rest := Put(s[1..], x);
      PutSorted(s[1..], x);
      forall j | 0 <= j < |rest| ensures s[0].fd < rest[j].fd {
        PutHas(s[1..], x, rest[j]);
      }
    }
  }

  lemma {:induction false} CutHas(s: seq<Interest>, fd: nat, y: Interest)
    requires Sorted(s)
    ensures y in Cut(s, fd) <==> y in s && y.fd != fd
  {
    if s != [] {
      assert s == [s[0]] + s[1..];
      assert forall z :: z in s[1..] ==> s[0].fd < z.fd;
      if s[0].fd != fd {
        CutHas(s[1..], fd, y);
      }
    }
  }

  lemma {:induction false} CutSorted(s: seq<Interest>, fd: nat)
    requires Sorted(s)
    ensures Sorted(Cut(s, fd))
  {
    if s != [] && s[0].fd != fd {
      var rest := Cut(s[1..], fd);
      CutSorted(s[1..], fd);
      forall j | 0 <= j < |rest| ensures s[0].fd < rest[j].fd {
        CutHas(s[1..], fd, rest[j]);
      }
    }
  }

  // -------------------------------------------------------------- one wait

  /** The conditions that hold now: the requested ones that are ready, and hang-up always. */
  function Fired(x: Interest, look: Look): set<Condition> {
    (if x.wantsIn && look.readable then {Readable} else {})
    + (if look.hungUp then {HangUp} else {})
    + (if x.wantsOut && look.writable then {Writable} else {})
  }

  /** What the map holds for a descriptor, as the scan reads it. */
  function Previous(fired: map<nat, Seen>, fd: nat, activity: nat): Seen {
    if fd in fired then fired[fd] else Seen({}, activity)
  }

  /** What to report for one interest: everything that holds, less, for an edge-triggered one,
      what was delivered already and has seen no activity since. */
  function Due(fired: map<nat, Seen>, x: Interest, look: Look): set<Condition> {
    if !x.edge then Fired(x, look)
    else
      var prev := Previous(fired, x.fd, look.activity);
      Fired(x, look) - if look.activity == prev.activity then prev.mask else {}
  }

  function Marked(fired: map<nat, Seen>, x: Interest, look: Look): map<nat, Seen> {
    if Fired(x, look) == {} then fired - {x.fd} else fired[x.fd := Seen(Fired(x, look), look.activity)]
  }

  predicate Changed(fired: map<nat, Seen>, x: Interest, look: Look) {
    Seen(Fired(x, look), look.activity) != Previous(fired, x.fd, look.activity)
  }

  /** The map after the first `n` interests; the scan reads the map as it was before. */
  function MarkedAll(s: State, looks: map<nat, Look>, n: nat): map<nat, Seen>
    requires n <= |s.interests|
  {
    if n == 0 then s.fired
    else
      var x, m := s.interests[n - 1], MarkedAll(s, looks, n - 1);
      if x.edge && x.fd in looks && Changed(s.fired, x, looks[x.fd]) then Marked(m, x, looks[x.fd]) else m
  }

  /** Everything due among the first `n` interests, in order, however long. */
  function AllDue(s: State, looks: map<nat, Look>, n: nat): seq<Report>
    requires n <= |s.interests|
  {
    if n == 0 then []
    else
      var x, before := s.interests[n - 1], AllDue(s, looks, n - 1);
      if x.fd in looks && Due(s.fired, x, looks[x.fd]) != {}
      then before + [Report(Due(s.fired, x, looks[x.fd]), x.data)] else before
  }

  /** What `epoll_wait` wants to answer: what is due, up to the length of the result list. */
  function Ready(s: State, looks: map<nat, Look>, max: nat): seq<Report> {
    var due := AllDue(s, looks, |s.interests|);
    due[..Min(|due|, Room(max))]
  }

  /** What reaches the guest: the list is stored in its memory after the marks are made, and that
      store can fail, or suspend the call so that it starts over. */
  function Answer(s: State, looks: map<nat, Look>, max: nat, stored: bool): Option<seq<Report>> {
    if Ready(s, looks, max) == [] || stored then Some(Ready(s, looks, max)) else None
  }

  function Room(max: nat): nat {
    Max(1, Min(max, 256))
  }

  // ------------------------------------------------------------------- runs

  /** `open` says whether the descriptor exists when it is registered, `stored` whether the result
      list of a wait could be stored. */
  datatype Op =
    | Add(interest: Interest, open: bool)
    | Modify(interest: Interest, open: bool)
    | Delete(fd: nat)
    | Wait(looks: map<nat, Look>, max: nat, stored: bool)

  function After(s: State, op: Op): State {
    match op
    case Add(x, open) => if !open || Has(s.interests, x.fd) then s else State(Put(s.interests, x), s.fired - {x.fd})
    case Modify(x, open) => if !open then s else State(Put(s.interests, x), s.fired - {x.fd})
    case Delete(fd) => if Has(s.interests, fd) then State(Cut(s.interests, fd), s.fired - {fd}) else s
    case Wait(looks, _, _) => s.(fired := MarkedAll(s, looks, |s.interests|))
  }

  const START: State := State([], map[])

  function Run(ops: seq<Op>): State {
    if ops == [] then START else After(Run(ops[..|ops| - 1]), ops[|ops| - 1])
  }

  // ---------------------------------------------------------------- history

  /** The operation registers, re-arms or removes the descriptor. */
  predicate Rearms(s: State, op: Op, fd: nat) {
    match op
    case Add(x, open) => x.fd == fd && open && !Has(s.interests, fd)
    case Modify(x, open) => x.fd == fd && open
    case Delete(d) => d == fd && Has(s.interests, fd)
    case Wait(_, _, _) => false
  }

  function Find(s: seq<Interest>, fd: nat): Option<Interest> {
    if s == [] then None else if s[|s| - 1].fd == fd then Some(s[|s| - 1]) else Find(s[..|s| - 1], fd)
  }

  /** What a wait saw of an edge-triggered interest that was open. */
  function Sight(s: State, op: Op, fd: nat): Option<Seen> {
    var x := Find(s.interests, fd);
    if op.Wait? && x.Some? && x.value.edge && fd in op.looks
    then Some(Seen(Fired(x.value, op.looks[fd]), op.looks[fd].activity)) else None
  }

  /** What the latest wait that looked at the descriptor saw, since it was last armed. */
  function LastSight(ops: seq<Op>, fd: nat): Option<Seen> {
    if ops == [] then None
    else
      var n := |ops| - 1;
      var s := Run(ops[..n]);
      if Rearms(s, ops[n], fd) then None
      else if Sight(s, ops[n], fd).Some? then Sight(s, ops[n], fd)
      else LastSight(ops[..n], fd)
  }

  /** The map says the same as the history: it holds the last sight, and nothing when that was
      empty or there was none. */
  predicate Tells(fired: map<nat, Seen>, fd: nat, last: Option<Seen>) {
    if last.None? || last.value.mask == {} then fd !in fired else fd in fired && fired[fd] == last.value
  }

  lemma {:induction false} FindIs(s: seq<Interest>, fd: nat)
    requires Sorted(s)
    ensures Find(s, fd).Some? <==> Has(s, fd)
    ensures forall x :: x in s && x.fd == fd ==> Find(s, fd) == Some(x)
    ensures Find(s, fd).Some? ==> Find(s, fd).value in s && Find(s, fd).value.fd == fd
  {
    if s != [] {
      var n := |s| - 1;
      FindIs(s[..n], fd);
      assert s == s[..n] + [s[n]];
      assert forall i :: 0 <= i < n ==> s[..n][i] == s[i];
    }
  }

  lemma {:induction false} RunSorted(ops: seq<Op>)
    ensures Sorted(Run(ops).interests)
  {
    hide Put, Cut, MarkedAll;
    if ops != [] {
      var n := |ops| - 1;
      RunSorted(ops[..n]);
      var s := Run(ops[..n]);
      match ops[n]
      case Add(x, _) => PutSorted(s.interests, x);
      case Modify(x, _) => PutSorted(s.interests, x);
      case Delete(fd) => CutSorted(s.interests, fd);
      case Wait(_, _, _) =>
    }
  }

  function Lookup(m: map<nat, Seen>, fd: nat): Option<Seen> {
    if fd in m then Some(m[fd]) else None
  }

  function MarkOf(fired: map<nat, Seen>, x: Interest, look: Look): Option<Seen> {
    if !Changed(fired, x, look) then Lookup(fired, x.fd)
    else if Fired(x, look) == {} then None
    else Some(Seen(Fired(x, look), look.activity))
  }

  lemma MarkedLookup(m: map<nat, Seen>, x: Interest, look: Look, fd: nat)
    ensures Lookup(Marked(m, x, look), fd) ==
            if fd != x.fd then Lookup(m, fd)
            else if Fired(x, look) == {} then None else Some(Seen(Fired(x, look), look.activity))
  {
    hide Fired;
  }

  /** A wait sets the map for a descriptor from that descriptor's own interest alone. */
  lemma {:induction false} MarkedAt(s: State, looks: map<nat, Look>, n: nat, fd: nat)
    requires Sorted(s.interests) && n <= |s.interests|
    ensures var x := Find(s.interests[..n], fd);
            Lookup(MarkedAll(s, looks, n), fd) ==
            if x.Some? && x.value.edge && fd in looks then MarkOf(s.fired, x.value, looks[fd]) else Lookup(s.fired, fd)
  {
    hide Fired, Changed, Marked, Lookup, Sorted, Has;
    if n > 0 {
      MarkedAt(s, looks, n - 1, fd);
      var x, front, rest := s.interests[n - 1], s.interests[..n], s.interests[..n - 1];
      assert front[..n - 1] == rest && front[n - 1] == x;
      if x.fd in looks {
        MarkedLookup(MarkedAll(s, looks, n - 1), x, looks[x.fd], fd);
      }
      if x.fd == fd {
        NotBefore(s.interests, n - 1);
      }
    }
  }

  lemma NotBefore(s: seq<Interest>, n: nat)
    requires Sorted(s) && n < |s|
    ensures Find(s[..n], s[n].fd) == None
  {
    assert forall i :: 0 <= i < n ==> s[..n][i] == s[i];
    FindIs(s[..n], s[n].fd);
  }

  lemma WaitTells(s: State, looks: map<nat, Look>, max: nat, stored: bool, fd: nat, last: Option<Seen>)
    requires Sorted(s.interests) && Tells(s.fired, fd, last)
    ensures var u, sight := After(s, Wait(looks, max, stored)), Sight(s, Wait(looks, max, stored), fd);
            Tells(u.fired, fd, if sight.Some? then sight else last)
  {
    hide Fired, Sorted;
    MarkedAt(s, looks, |s.interests|, fd);
    assert s.interests[..|s.interests|] == s.interests;
    FindIs(s.interests, fd);
  }

  /** After every run the map says what the history says, for every descriptor. */
  lemma {:induction false} MapIsHistory(ops: seq<Op>, fd: nat)
    ensures Tells(Run(ops).fired, fd, LastSight(ops, fd))
  {
    hide Put, Cut, MarkedAll, Sight;
    if ops != [] {
      var n := |ops| - 1;
      var s := Run(ops[..n]);
      MapIsHistory(ops[..n], fd);
      RunSorted(ops[..n]);
      match ops[n]
      case Add(_, _) => NoSight(s, ops[n], fd);
      case Modify(_, _) => NoSight(s, ops[n], fd);
      case Delete(_) => NoSight(s, ops[n], fd);
      case Wait(looks, max, stored) => WaitTells(s, looks, max, stored, fd, LastSight(ops[..n], fd));
    }
  }

  lemma NoSight(s: State, op: Op, fd: nat)
    requires !op.Wait?
    ensures Sight(s, op, fd) == None
  {
  }

  /** The condition is one the interest gets to see, and it holds now. Hang-up is never asked for. */
  predicate Holds(x: Interest, look: Look, c: Condition) {
    match c
    case Readable => x.wantsIn && look.readable
    case Writable => x.wantsOut && look.writable
    case HangUp => look.hungUp
  }

  lemma FiredIs(x: Interest, look: Look, c: Condition)
    ensures c in Fired(x, look) <==> Holds(x, look, c)
  {
  }

  /** A condition of a level-triggered descriptor is due exactly when it holds now. */
  lemma LevelRule(fired: map<nat, Seen>, x: Interest, look: Look, c: Condition)
    requires !x.edge
    ensures c in Due(fired, x, look) <==> Holds(x, look, c)
  {
    FiredIs(x, look, c);
  }

  /** A condition of an edge-triggered descriptor is due exactly when it holds now and either
      nothing was seen since the descriptor was armed, or it did not hold at the previous look,
      or there has been activity since. */
  lemma EdgeRule(ops: seq<Op>, x: Interest, look: Look, c: Condition)
    requires x in Run(ops).interests && x.edge
    ensures var last := LastSight(ops, x.fd);
            c in Due(Run(ops).fired, x, look) <==>
            Holds(x, look, c) && (last.None? || c !in last.value.mask || look.activity != last.value.activity)
  {
    hide LastSight, Run, Fired, Holds;
    FiredIs(x, look, c);
    MapIsHistory(ops, x.fd);
  }

  // ---------------------------------------------------------- the result list

  /** The reports due before interest `k` is reached. */
  function Ahead(s: State, looks: map<nat, Look>, k: nat): nat
    requires k <= |s.interests|
  {
    |AllDue(s, looks, k)|
  }

  lemma {:induction false} DueGrows(s: State, looks: map<nat, Look>, k: nat, n: nat)
    requires k <= n <= |s.interests|
    ensures AllDue(s, looks, k) <= AllDue(s, looks, n)
    decreases n
  {
    hide Due;
    if k < n {
      DueGrows(s, looks, k, n - 1);
    }
  }

  /** What is due for an interest is in the list exactly when fewer reports than it has room for
      are due ahead of it, and then at that place. */
  lemma ListedIffRoom(s: State, looks: map<nat, Look>, max: nat, k: nat)
    requires k < |s.interests| && s.interests[k].fd in looks
    requires Due(s.fired, s.interests[k], looks[s.interests[k].fd]) != {}
    ensures var x, ready, at := s.interests[k], Ready(s, looks, max), Ahead(s, looks, k);
            at < |ready| <==> at == 0 || (at < max && at < 256)
    ensures var x, ready, at := s.interests[k], Ready(s, looks, max), Ahead(s, looks, k);
            at < |ready| ==> ready[at] == Report(Due(s.fired, x, looks[x.fd]), x.data)
  {
    hide Due;
    DueGrows(s, looks, k + 1, |s.interests|);
  }

  /** Whether the answer of a wait holds the report due for interest `k`. */
  predicate Reaches(s: State, looks: map<nat, Look>, max: nat, stored: bool, k: nat)
    requires k < |s.interests| && s.interests[k].fd in looks
  {
    var x, answer, at := s.interests[k], Answer(s, looks, max, stored), Ahead(s, looks, k);
    answer.Some? && at < |answer.value| && answer.value[at] == Report(Due(s.fired, x, looks[x.fd]), x.data)
  }

  /** What is due for an interest reaches the guest if and only if there is room for it in the
      list, which has at least one place and no more than the guest or 256 allow, and the list can
      be stored. */
  lemma ReportedIffRoomAndStored(s: State, looks: map<nat, Look>, max: nat, stored: bool, k: nat)
    requires k < |s.interests| && s.interests[k].fd in looks
    requires Due(s.fired, s.interests[k], looks[s.interests[k].fd]) != {}
    ensures var at := Ahead(s, looks, k);
            Reaches(s, looks, max, stored, k) <==> (at == 0 || (at < max && at < 256)) && stored
  {
    hide Due, Ready, Ahead;
    ListedIffRoom(s, looks, max, k);
    ListedIsDue(s, looks, max, k);
  }

  /** What is due for an interest has a place among everything due, and a list with room for it is
      not empty. */
  lemma ListedIsDue(s: State, looks: map<nat, Look>, max: nat, k: nat)
    requires k < |s.interests| && s.interests[k].fd in looks
    requires Due(s.fired, s.interests[k], looks[s.interests[k].fd]) != {}
    ensures Ahead(s, looks, k) < |AllDue(s, looks, |s.interests|)|
    ensures Ahead(s, looks, k) < Room(max) ==> Ready(s, looks, max) != []
  {
    hide Due;
    DueGrows(s, looks, k + 1, |s.interests|);
  }

  /** A wait is the last to find an edge: whether it reported the edge or not, the next look, if
      nothing has changed, finds nothing due. */
  lemma LookedIsNotDue(s: State, looks: map<nat, Look>, max: nat, stored: bool, k: nat)
    requires Sorted(s.interests) && k < |s.interests| && s.interests[k].edge && s.interests[k].fd in looks
    ensures var x := s.interests[k];
            Due(After(s, Wait(looks, max, stored)).fired, x, looks[x.fd]) == {}
  {
    hide Fired;
    var x := s.interests[k];
    FindIs(s.interests, x.fd);
    MarkedAt(s, looks, |s.interests|, x.fd);
    assert s.interests[..|s.interests|] == s.interests;
  }

  /** So an edge that is due is kept from the guest, and from the wait that starts over, unless it
      found room and the list could be stored. */
  lemma EdgeLostIff(ops: seq<Op>, looks: map<nat, Look>, max: nat, stored: bool, k: nat)
    requires k < |Run(ops).interests|
    requires var x := Run(ops).interests[k]; x.edge && x.fd in looks && Due(Run(ops).fired, x, looks[x.fd]) != {}
    ensures var s, x := Run(ops), Run(ops).interests[k];
            && (Reaches(s, looks, max, stored, k) <==>
                  (Ahead(s, looks, k) == 0 || (Ahead(s, looks, k) < max && Ahead(s, looks, k) < 256)) && stored)
            && Due(After(s, Wait(looks, max, stored)).fired, x, looks[x.fd]) == {}
  {
    hide Run, Due, After, Reaches, Ahead, Sorted;
    RunSorted(ops);
    ReportedIffRoomAndStored(Run(ops), looks, max, stored, k);
    LookedIsNotDue(Run(ops), looks, max, stored, k);
  }

  /** One ready descriptor, a list with room, and a store that fails: the wait answers with
      nothing, and the retry with the same look finds nothing and waits on. */
  lemma FailedStoreLosesEdge(look: Look, max: nat)
    requires look.readable && !look.hungUp
    ensures var a := Interest(3, true, false, true, 30);
            var looks := map[3 := look];
            var s := Run([Add(a, true)]);
            && Answer(s, looks, max, true) == Some([Report({Readable}, 30)])
            && Answer(s, looks, max, false) == None
            && Answer(After(s, Wait(looks, max, false)), looks, max, true) == Some([])
  {
    var a := Interest(3, true, false, true, 30);
    var looks := map[3 := look];
    var ops := [Add(a, true)];
    assert ops[..0] == [] && Run(ops) == After(Run(ops[..0]), ops[0]);
    assert After(START, ops[0]) == State([a], map[]);
    var s := Run(ops);
    assert s.interests == [a] && s.fired == map[];
    assert Fired(a, look) == {Readable};
    assert AllDue(s, looks, 1) == [Report({Readable}, 30)];
    assert Ready(s, looks, max) == [Report({Readable}, 30)];
    LookedIsNotDue(s, looks, max, false, 0);
    var u := After(s, Wait(looks, max, false));
    assert AllDue(u, looks, 1) == [];
    assert Ready(u, looks, max) == [];
  }

  /** A full list loses edges: the second of two ready descriptors is not reported, is marked as
      delivered all the same, and is not due at the next wait. */
  lemma FullListLosesEdge(look: Look)
    requires look.readable && !look.hungUp
    ensures var a, b := Interest(3, true, false, true, 30), Interest(4, true, false, true, 40);
            var looks := map[3 := look, 4 := look];
            var s := Run([Add(a, true), Add(b, true)]);
            && Ready(s, looks, 1) == [Report({Readable}, 30)]
            && Due(After(s, Wait(looks, 1, true)).fired, b, look) == {}
  {
    var a, b := Interest(3, true, false, true, 30), Interest(4, true, false, true, 40);
    var looks := map[3 := look, 4 := look];
    var ops := [Add(a, true), Add(b, true)];
    assert ops[..1] == [Add(a, true)] && ops[..1][..0] == [];
    assert Run(ops[..1]) == State([a], map[]);
    var s := Run(ops);
    assert s.interests == [a, b] && s.fired == map[];
    assert Fired(a, look) == {Readable} && Fired(b, look) == {Readable};
    assert AllDue(s, looks, 1) == [Report({Readable}, 30)];
    assert MarkedAll(s, looks, 1) == map[3 := Seen({Readable}, look.activity)];
    assert MarkedAll(s, looks, 2)[4] == Seen({Readable}, look.activity);
  }

  // -------------------------------------------------------------- the object

  class EpollInner {
    var interests: seq<Interest>
    var edgeFired: map<nat, Seen>

    function Now(): State
      reads this
    {
      State(interests, edgeFired)
    }

    constructor ()
      ensures Now() == START
    {
      interests, edgeFired := [], map[];
    }

    /** Registering or changing an interest. */
    method Register(x: Interest, open: bool, change: bool) returns (r: Option<Errno>)
      modifies this
      ensures Now() == After(old(Now()), if change then Modify(x, open) else Add(x, open))
      ensures r == if !open then Some(EBADF) else if !change && Has(old(interests), x.fd) then Some(EEXIST) else None
    {
      if !open {
        return Some(EBADF);
      }
      if !change && Has(interests, x.fd) {
        return Some(EEXIST);
      }
      interests := Put(interests, x);
      edgeFired := edgeFired - {x.fd};
      return None;
    }

    method Remove(fd: nat) returns (r: Option<Errno>)
      modifies this
      ensures Now() == After(old(Now()), Delete(fd))
      ensures r == if Has(old(interests), fd) then None else Some(ENOENT)
    {
      if !Has(interests, fd) {
        return Some(ENOENT);
      }
      interests := Cut(interests, fd);
      edgeFired := edgeFired - {fd};
      return None;
    }

    /** One wait: a scan of the interests, then the marks it collected, then the store of the
        result list, which fails unless `stored`. */
    method EpollWait(looks: map<nat, Look>, max: nat, stored: bool) returns (r: Option<seq<Report>>)
      modifies this
      ensures Now() == After(old(Now()), Wait(looks, max, stored))
      ensures r == Answer(old(Now()), looks, max, stored)
    {
      var ready := Scan(looks, max);
      return if ready != [] && !stored then None else Some(ready);
    }

    method Scan(looks: map<nat, Look>, max: nat) returns (ready: seq<Report>)
      modifies this
      ensures Now() == old(Now()).(fired := MarkedAll(old(Now()), looks, |old(interests)|))
      ensures ready == Ready(old(Now()), looks, max)
    {
      hide Due, Changed, Marked;
      ready := [];
      var marks: seq<nat> := [];
      var i := 0;
      while i < |interests|
        invariant i <= |interests|
        invariant Now() == old(Now())
        invariant ready == Prefix(AllDue(Now(), looks, i), Room(max))
        invariant forall j :: 0 <= j < |marks| ==> marks[j] < i
        invariant ApplyMarks(Now(), looks, marks, |marks|) == MarkedAll(Now(), looks, i)
      {
        var x := interests[i];
        if x.fd in looks {
          var look := looks[x.fd];
          var due := Due(edgeFired, x, look);
          if x.edge && Changed(edgeFired, x, look) {
            ApplyMore(Now(), looks, marks, i);
            marks := marks + [i];
          }
          if due != {} && |ready| < Room(max) {
            ready := ready + [Report(due, x.data)];
          }
        }
        i := i + 1;
      }
      ghost var start := Now();
      var k := 0;
      while k < |marks|
        invariant k <= |marks| && interests == start.interests
        invariant edgeFired == ApplyMarks(start, looks, marks, k)
      {
        var x := interests[marks[k]];
        if x.fd in looks {
          edgeFired := Marked(edgeFired, x, looks[x.fd]);
        }
        k := k + 1;
      }
    }
  }

  function Prefix(s: seq<Report>, n: nat): seq<Report> {
    s[..Min(|s|, n)]
  }

  /** The map after the first `n` collected marks. */
  function ApplyMarks(s: State, looks: map<nat, Look>, marks: seq<nat>, n: nat): map<nat, Seen>
    requires n <= |marks| && forall j :: 0 <= j < |marks| ==> marks[j] < |s.interests|
  {
    if n == 0 then s.fired
    else
      var x, m := s.interests[marks[n - 1]], ApplyMarks(s, looks, marks, n - 1);
      if x.fd in looks then Marked(m, x, looks[x.fd]) else m
  }

  lemma ApplyMore(s: State, looks: map<nat, Look>, marks: seq<nat>, i: nat)
    requires i < |s.interests| && forall j :: 0 <= j < |marks| ==> marks[j] < |s.interests|
    ensures ApplyMarks(s, looks, marks + [i], |marks|) == ApplyMarks(s, looks, marks, |marks|)
  {
    ApplySame(s, looks, marks, i, |marks|);
  }

  lemma {:induction false} ApplySame(s: State, looks: map<nat, Look>, marks: seq<nat>, i: nat, n: nat)
    requires n <= |marks| && i < |s.interests| && forall j :: 0 <= j < |marks| ==> marks[j] < |s.interests|
    ensures ApplyMarks(s, looks, marks + [i], n) == ApplyMarks(s, looks, marks, n)
  {
    if n > 0 {
      ApplySame(s, looks, marks, i, n - 1);
    }
  }
}

/** Page-in tickets: over every run, a completion is believed exactly when nothing has
    edited the address space it was asked for. */
module Tickets {
  import opened Base
  import opened Chunks
  import opened Mappings
  import opened DemandPager
  import opened LazyMachine

  /** Generations run through 1 .. 2^64 - 1 and start over. */
  const CYCLE: nat := U64_LIMIT - 1

  function BumpBy(g: nat, n: nat): nat {
    if n == 0 then g else Bump(BumpBy(g, n - 1))
  }

  lemma {:induction false} BumpByIs(g: nat, n: nat)
    requires 1 <= g <= CYCLE
    ensures BumpBy(g, n) == 1 + (g - 1 + n) % CYCLE
  {
    if n > 0 {
      BumpByIs(g, n - 1);
      ModStep(g - 1 + n - 1);
    }
  }

  lemma ModStep(k: nat)
    ensures (k + 1) % CYCLE == if k % CYCLE == CYCLE - 1 then 0 else k % CYCLE + 1
  {
    var q, r := k / CYCLE, k % CYCLE;
    assert k == q * CYCLE + r;
  }

  /** A generation comes round again exactly every 2^64 - 1 edits. */
  lemma GenerationRepeats(g: nat, n: nat)
    requires 1 <= g <= CYCLE
    ensures BumpBy(g, n) == g <==> n % CYCLE == 0
  {
    BumpByIs(g, n);
    var q, r := n / CYCLE, n % CYCLE;
    assert n == r + q * CYCLE;
    ModPeriod(g - 1 + r, q);
    SumRepeats(g - 1, r);
  }

  lemma SumRepeats(a: nat, r: nat)
    requires a < CYCLE && r < CYCLE
    ensures (a + r) % CYCLE == a <==> r == 0
  {
    if a + r >= CYCLE {
      ModPeriod(a + r - CYCLE, 1);
    }
  }

  lemma {:induction false} ModPeriod(k: nat, q: nat)
    ensures (k + q * CYCLE) % CYCLE == k % CYCLE
  {
    var d, r := k / CYCLE, k % CYCLE;
    assert k + q * CYCLE == (d + q) * CYCLE + r;
  }

  // ------------------------------------------------ the table of one space

  /** Whether an operation edits an address space that has a table. */
  predicate Edits(op: Op, asid: nat) {
    match op
    case MapFile(x, _) => x == asid
    case UnmapRange(x, start, len) => x == asid && start + len < U64_LIMIT
    case ProtectRange(x, start, len, _) => x == asid && start + len < U64_LIMIT
    case RemapRange(x, _, _, _, _) => x == asid
    case _ => false
  }

  /** Whether an operation drops the table, and its generation with it: a replacement, or an
      unmap that runs past the end of the address space. */
  predicate Drops(op: Op, asid: nat) {
    match op
    case UnmapRange(x, start, len) => x == asid && start + len >= U64_LIMIT
    case Exec(x, _) => x == asid
    case _ => false
  }

  /** What has become of the table a run started with: kept, with so many edits; gone; or made
      again by a later mapping, with so many edits from that mapping on. */
  datatype Life = Kept(edits: nat) | Gone | Again(edits: nat)

  function Lived(life: Life, op: Op, asid: nat): Life {
    if Drops(op, asid) then Gone
    else if !Edits(op, asid) then life
    else
      match life
      case Kept(n) => Kept(n + 1)
      case Again(n) => Again(n + 1)
      case Gone => if op.MapFile? then Again(1) else Gone
  }

  function LifeOf(ops: seq<Op>, asid: nat): Life {
    if ops == [] then Kept(0) else Lived(LifeOf(ops[..|ops| - 1], asid), ops[|ops| - 1], asid)
  }

  /** The generation of the table now, when it was `g` at first. A table made again counts from
      the beginning. */
  function Carried(life: Life, g: nat): Option<nat> {
    match life
    case Kept(n) => Some(BumpBy(g, n))
    case Gone => None
    case Again(n) => Some(BumpBy(0, n))
  }

  /** The table has the generation it had at first: after a whole number of cycles of edits, or,
      made again, when it has as many edits, up to whole cycles, as the generation counts. */
  predicate Alive(life: Life, g: nat) {
    match life
    case Kept(n) => n % CYCLE == 0
    case Gone => false
    case Again(n) => n > 0 && (n - 1) % CYCLE == g - 1
  }

  lemma AliveIs(life: Life, g: nat)
    requires 1 <= g <= CYCLE && (life.Again? ==> life.edits > 0)
    ensures Carried(life, g) == Some(g) <==> Alive(life, g)
  {
    hide BumpBy;
    match life
    case Kept(n) => GenerationRepeats(g, n);
    case Gone =>
    case Again(n) =>
      BumpBySplit(n - 1);
      BumpByIs(1, n - 1);
  }

  lemma {:induction false} BumpBySplit(n: nat)
    ensures BumpBy(0, n + 1) == BumpBy(1, n)
  {
    if n > 0 {
      BumpBySplit(n - 1);
    }
  }

  // ------------------------------------------------------------- the request

  /** A request as its fault leaves it: pending, the latest, and about the current generation. */
  ghost predicate JustAsked(s: Machine, r: PageRequest) {
    && s.pager.pending == Some(r) && r.asid in s.pager.spaces && r.asid < s.nextAsid
    && s.pager.spaces[r.asid].generation == r.generation && 1 <= r.generation <= CYCLE
    && s.pager.nextTicket == r.ticket && 1 <= r.ticket <= CYCLE
  }

  /** A delivery that ends a pending request: it carries the ticket, and is either accepted or
      finds the request stale. One that only fails its digest or the budget does not. */
  ghost predicate Settles(image: Image, s: Machine, r: PageRequest, op: Op) {
    && op.Deliver? && op.ticket == r.ticket
    && (Current(s.pager, r) ==> Admits(s.store, image.digest, r.hash, op.bytes, op.capacity))
  }

  /** No delivery of a run has ended the request. */
  ghost predicate Unsettled(image: Image, s: Machine, r: PageRequest, ops: seq<Op>)
    requires Sound(image) && Inv(image, s) && RunFrom(image, s, ops).Some?
  {
    ops == [] ||
    (var n := |ops| - 1;
     Unsettled(image, s, r, ops[..n]) && !Settles(image, RunFrom(image, s, ops[..n]).value, r, ops[n]))
  }

  ghost predicate Asks(s: Machine, s': Machine) {
    s.pager.pending.None? && s'.pager.pending.Some?
  }

  /** How many requests a run makes. */
  ghost function Requests(image: Image, s: Machine, ops: seq<Op>): nat
    requires Sound(image) && Inv(image, s) && RunFrom(image, s, ops).Some?
  {
    if ops == [] then 0
    else
      var n := |ops| - 1;
      Requests(image, s, ops[..n])
      + if Asks(RunFrom(image, s, ops[..n]).value, RunFrom(image, s, ops).value) then 1 else 0
  }

  /** Where a request stands: its table is as the run left it; it is pending until settled; and
      from then on whatever is pending is a later request. */
  ghost predicate Standing(s: Machine, r: PageRequest, life: Life, unsettled: bool, requests: nat) {
    && r.asid < s.nextAsid && (life.Again? ==> life.edits > 0)
    && Generation(s, r.asid) == Carried(life, r.generation)
    && s.pager.nextTicket == BumpBy(r.ticket, requests)
    && (s.pager.pending.Some? ==> s.pager.pending.value.ticket == s.pager.nextTicket)
    && (unsettled ==> s.pager.pending == Some(r))
    && (!unsettled && s.pager.pending.Some? ==> requests > 0)
  }

  function Generation(s: Machine, asid: nat): Option<nat> {
    if asid in s.pager.spaces then Some(s.pager.spaces[asid].generation) else None
  }

  /** What one operation does to the generation of an address space that exists already. */
  lemma GenerationStep(image: Image, s: Machine, op: Op, asid: nat)
    requires Inv(image, s) && Enabled(image, s, op) && asid < s.nextAsid
    ensures var s', g := LazyStep(image, s, op), Generation(s, asid);
            && asid < s'.nextAsid
            && Generation(s', asid) ==
               if Drops(op, asid) then None
               else if Edits(op, asid) && g.Some? then Some(Bump(g.value))
               else if Edits(op, asid) && op.MapFile? then Some(Bump(0))
               else g
  {
    hide Eager, Aligned, AllWellFormed, AllComplete, FrameOk, PageOf, Remapped, Unmapped, Protected, Vacant,
         BuildPage, FaultPage, FramesMoved, FramesWithout, Touching, ChildKeys, Admits, Put;
  }

  /** What one operation does to the pending request. */
  lemma PendingStep(image: Image, s: Machine, op: Op)
    requires Inv(image, s) && Enabled(image, s, op)
    ensures var s' := LazyStep(image, s, op);
            && s'.pager.nextTicket == (if Asks(s, s') then Bump(s.pager.nextTicket) else s.pager.nextTicket)
            && (Asks(s, s') ==> s'.pager.pending.value.ticket == s'.pager.nextTicket)
            && (s.pager.pending.Some? ==>
                  s'.pager.pending == if Settles(image, s, s.pager.pending.value, op) then None else s.pager.pending)
  {
    hide Eager, Aligned, AllWellFormed, AllComplete, FrameOk, PageOf, Remapped, Unmapped, Protected, Vacant,
         BuildPage, FaultPage, FramesMoved, FramesWithout, Touching, ChildKeys, Admits, Put;
  }

  lemma StandingStep(image: Image, s: Machine, r: PageRequest, op: Op, life: Life, unsettled: bool, requests: nat)
    requires Inv(image, s) && Enabled(image, s, op) && Standing(s, r, life, unsettled, requests)
    ensures var s' := LazyStep(image, s, op);
            Standing(s', r, Lived(life, op, r.asid), unsettled && !Settles(image, s, r, op),
                     requests + if Asks(s, s') then 1 else 0)
  {
    hide LazyStep, Enabled, Edits, Drops, Settles, Inv;
    GenerationStep(image, s, op, r.asid);
    PendingStep(image, s, op);
  }

  lemma {:induction false} StandingAfter(image: Image, s: Machine, r: PageRequest, ops: seq<Op>)
    requires Sound(image) && Inv(image, s) && JustAsked(s, r) && RunFrom(image, s, ops).Some?
    ensures Standing(RunFrom(image, s, ops).value, r, LifeOf(ops, r.asid), Unsettled(image, s, r, ops), Requests(image, s, ops))
  {
    hide Inv, Enabled, LazyStep, Standing, Settles, Asks, Lived;
    if ops == [] {
      StandingAtFirst(s, r);
    } else {
      var n := |ops| - 1;
      StandingAfter(image, s, r, ops[..n]);
      RunKeepsInv(image, s, ops[..n]);
      StandingStep(image, RunFrom(image, s, ops[..n]).value, r, ops[n], LifeOf(ops[..n], r.asid),
                   Unsettled(image, s, r, ops[..n]), Requests(image, s, ops[..n]));
    }
  }

  lemma StandingAtFirst(s: Machine, r: PageRequest)
    requires JustAsked(s, r)
    ensures Standing(s, r, Kept(0), true, 0)
  {
  }

  /** After any run since a request that no delivery has settled yet, a completion is accepted if
      and only if its ticket, digest and budget are right, the table has the generation it had,
      and the page is still mapped. */
  lemma TicketSafety(image: Image, s: Machine, r: PageRequest, ops: seq<Op>, ticket: nat, bytes: seq<byte>, capacity: nat)
    requires Sound(image) && Inv(image, s) && JustAsked(s, r) && RunFrom(image, s, ops).Some?
    ensures var s' := RunFrom(image, s, ops).value;
            Unsettled(image, s, r, ops) ==>
              (Accepts(s'.pager, s'.store, image.digest, ticket, bytes, capacity) <==>
               && ticket == r.ticket && Admits(s'.store, image.digest, r.hash, bytes, capacity)
               && Alive(LifeOf(ops, r.asid), r.generation) && Governed(s'.pager, r.asid, r.page))
  {
    hide Inv, Governed, Admits, Carried, LifeOf, RunFrom, Alive, Unsettled;
    StandingAfter(image, s, r, ops);
    AliveIs(LifeOf(ops, r.asid), r.generation);
  }

  /** A settled ticket is dead: it is accepted again exactly when a whole number of cycles of new
      requests has brought the counter round to it, and then for the request that has it now. */
  lemma SettledStays(image: Image, s: Machine, r: PageRequest, ops: seq<Op>, bytes: seq<byte>, capacity: nat)
    requires Sound(image) && Inv(image, s) && JustAsked(s, r) && RunFrom(image, s, ops).Some?
    ensures var s' := RunFrom(image, s, ops).value; var now := s'.pager.pending;
            !Unsettled(image, s, r, ops) ==>
              (Accepts(s'.pager, s'.store, image.digest, r.ticket, bytes, capacity) <==>
               && Requests(image, s, ops) > 0 && Requests(image, s, ops) % CYCLE == 0
               && now.Some? && Current(s'.pager, now.value) && Admits(s'.store, image.digest, now.value.hash, bytes, capacity))
  {
    hide Inv, Current, Admits, Carried, LifeOf, RunFrom, Unsettled, Requests;
    StandingAfter(image, s, r, ops);
    GenerationRepeats(r.ticket, Requests(image, s, ops));
  }

  /** A late completion leaves the chunk store as it was: one for a table that has lost its
      generation, and one for a request settled before, unless the counter has come round. */
  lemma StaleChangesNothing(image: Image, s: Machine, r: PageRequest, ops: seq<Op>, ticket: nat, bytes: seq<byte>, capacity: nat)
    requires Sound(image) && Inv(image, s) && JustAsked(s, r) && RunFrom(image, s, ops).Some?
    ensures var s', n := RunFrom(image, s, ops).value, Requests(image, s, ops);
            (Unsettled(image, s, r, ops) && !Alive(LifeOf(ops, r.asid), r.generation))
            || (!Unsettled(image, s, r, ops) && ticket == r.ticket && (n == 0 || n % CYCLE != 0)) ==>
              Completed(s'.pager, s'.store, image.digest, ticket, bytes, capacity).1 == s'.store
  {
    hide Inv, RunFrom, Accepts, Unsettled, LifeOf, Alive, Requests;
    TicketSafety(image, s, r, ops, ticket, bytes, capacity);
    SettledStays(image, s, r, ops, bytes, capacity);
  }

  /** As long as the table is not dropped, any number of edits short of a full cycle makes a
      request stale. */
  lemma EditsMakeStale(ops: seq<Op>, asid: nat, g: nat)
    requires 1 <= g <= CYCLE && LifeOf(ops, asid).Kept? && 0 < LifeOf(ops, asid).edits < CYCLE
    ensures !Alive(LifeOf(ops, asid), g)
  {
    SumRepeats(0, LifeOf(ops, asid).edits);
  }

  /** Generations never leave 1 .. 2^64 - 1. */
  ghost predicate Generations(s: Machine) {
    forall x :: x in s.pager.spaces ==> 1 <= s.pager.spaces[x].generation <= CYCLE
  }

  lemma GenerationsStep(image: Image, s: Machine, op: Op)
    requires Inv(image, s) && Enabled(image, s, op) && Generations(s)
    ensures Generations(LazyStep(image, s, op))
  {
    hide Eager, Aligned, AllWellFormed, AllComplete, FrameOk, PageOf, Remapped, Unmapped, Protected, Vacant,
         BuildPage, FaultPage, FramesMoved, FramesWithout, Touching;
  }

  lemma {:induction false} GenerationsAfter(image: Image, s: Machine, ops: seq<Op>)
    requires Sound(image) && Inv(image, s) && Generations(s) && RunFrom(image, s, ops).Some?
    ensures Generations(RunFrom(image, s, ops).value)
  {
    hide Inv, Enabled, LazyStep, Generations;
    if ops != [] {
      var n := |ops| - 1;
      GenerationsAfter(image, s, ops[..n]);
      RunKeepsInv(image, s, ops[..n]);
      GenerationsStep(image, RunFrom(image, s, ops[..n]).value, ops[n]);
    }
  }

  /** Every new request of every run starts out about the current generation. */
  lemma RequestIsCurrent(image: Image, store: Store, ops: seq<Op>, asid: nat, address: nat, access: AccessKind)
    requires Sound(image) && Verified(store.chunks, image.digest) && Run(image, store, ops).Some?
    requires asid in Run(image, store, ops).value.live && !Run(image, store, ops).value.Waiting()
    ensures var s := Run(image, store, ops).value;
            Inv(image, s) &&
            var (p, r) := Resolved(s.pager, s.store.chunks, asid, address, access);
            && (r.MissingPage? ==> JustAsked(s.(pager := p), r.request) && Current(p, r.request))
            && (r.MissingPage? <==> p.pending.Some?)
  {
    hide Eager, Aligned, AllWellFormed, AllComplete, PageOf, Touching, BuildPage, EagerRun, FrameOk, RunFrom, FaultPage;
    InitialOk(image, store);
    RunKeepsInv(image, Initial(store), ops);
    GenerationsAfter(image, Initial(store), ops);
    var s := Run(image, store, ops).value;
    assert asid in s.pager.spaces || MappingsOf(s.pager, asid) == [];
    var target := FaultPage(s.pager, asid, address, access);
    if target.Some? {
      TouchingNothing(target.value);
      TouchingLayouts(s.pager, asid, target.value);
    }
  }

  /** A dropped table that is mapped again revives a request exactly when it comes to the request's
      generation: a request of generation g is stale after the drop, and alive again when the
      new mapping and the edits since are g in number, up to whole cycles. */
  lemma DroppedRevives(drop: Op, m: FileMapping, asid: nat, g: nat, edits: seq<Op>)
    requires 1 <= g <= CYCLE && Drops(drop, asid) && forall i :: 0 <= i < |edits| ==> Edits(edits[i], asid)
    ensures !Alive(LifeOf([drop], asid), g)
    ensures Alive(LifeOf([drop, MapFile(asid, m)] + edits, asid), g) <==> |edits| % CYCLE == g - 1
  {
    hide Edits, Drops;
    assert [drop][..0] == [];
    AgainCounts(drop, m, asid, edits);
  }

  lemma {:induction false} AgainCounts(drop: Op, m: FileMapping, asid: nat, edits: seq<Op>)
    requires Drops(drop, asid) && forall i :: 0 <= i < |edits| ==> Edits(edits[i], asid)
    ensures LifeOf([drop, MapFile(asid, m)] + edits, asid) == Again(1 + |edits|)
    decreases |edits|
  {
    hide Edits, Drops;
    var two := [drop, MapFile(asid, m)];
    if edits == [] {
      assert two[..1] == [drop] && [drop][..0] == [] && two + edits == two;
      assert LifeOf([drop], asid) == Gone;
      MapsEdit(m, asid);
    } else {
      var n := |edits| - 1;
      AgainCounts(drop, m, asid, edits[..n]);
      assert (two + edits)[..2 + n] == two + edits[..n];
      EditsDoNotDrop(edits[n], asid);
    }
  }

  lemma MapsEdit(m: FileMapping, asid: nat)
    ensures Edits(MapFile(asid, m), asid) && !Drops(MapFile(asid, m), asid)
  {
  }

  lemma EditsDoNotDrop(op: Op, asid: nat)
    ensures Edits(op, asid) ==> !Drops(op, asid)
  {
  }

  /** Such a run exists in the pager itself: a first mapping, a request, an unmap that runs past
      the end of the address space and the mapping again leave the request current. */
  lemma OverflowRevivesTicket(m: FileMapping, hash: Hash, access: AccessKind, start: nat, len: nat)
    requires WellFormed(m) && start < U64_LIMIT && len < U64_LIMIT && start + len >= U64_LIMIT
    ensures var mapped := Mapped(PagerState(map[], {}, None, 0), 7, m);
            var r := Request(mapped, 7, m.start, hash, access);
            var asked := mapped.(pending := Some(r), nextTicket := r.ticket);
            Current(Mapped(UnmappedSpace(asked, 7, start, len), 7, m), r)
  {
    assert [m][0] == m && [m][..0] == [];
    assert Touching([m], m.start) == Touching([], m.start) + [m];
  }
}

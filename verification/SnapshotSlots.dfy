/** The browser's snapshot store: two slots written in turn, each validated by length and
    digest, so that a save interrupted anywhere never loses the last one that completed. */
module SnapshotSlots {
  import opened Base
  import opened Bytes

  const MAX_SAFE_INTEGER: nat := 0x1f_ffff_ffff_ffff
  const HEADER: nat := 52

  /** "WTWFS02" and a zero byte. */
  const MAGIC: seq<byte> := [87, 84, 87, 70, 83, 48, 50, 0]

  /** A 32-byte digest of a payload. */
  type Digest = d: seq<byte> -> seq<byte> | forall p :: |d(p)| == 32 witness p => seq(32, i => 0)

  datatype Snapshot = Snapshot(generation: nat, payload: seq<byte>)

  // ---------------------------------------------------------------- encoding

  /** Magic, generation, payload length, payload digest, payload. The length word keeps only
      the low 32 bits. */
  function Encode(digest: Digest, generation: nat, payload: seq<byte>): (r: seq<byte>)
    ensures |r| == HEADER + |payload|
  {
    MAGIC + LittleEndian(generation, 8) + LittleEndian(|payload|, 4) + digest(payload) + payload
  }

  /** The snapshot a slot holds, if it is complete and digest-valid. */
  function Decode(digest: Digest, bytes: seq<byte>): Option<Snapshot> {
    if |bytes| < HEADER then None
    else if bytes[..8] != MAGIC then None
    else
      var generation, length := FromLittleEndian(bytes[8..16]), FromLittleEndian(bytes[16..20]);
      if generation > MAX_SAFE_INTEGER || |bytes| != HEADER + length then None
      else if digest(bytes[HEADER..]) != bytes[20..HEADER] then None
      else Some(Snapshot(generation, bytes[HEADER..]))
  }

  lemma EncodeFields(digest: Digest, generation: nat, payload: seq<byte>)
    ensures var e := Encode(digest, generation, payload);
            && e[..8] == MAGIC && e[8..16] == LittleEndian(generation, 8) && e[16..20] == LittleEndian(|payload|, 4)
            && e[20..HEADER] == digest(payload) && e[HEADER..] == payload
  {
    hide LittleEndian;
    Fields(MAGIC, LittleEndian(generation, 8), LittleEndian(|payload|, 4), digest(payload), payload);
  }

  lemma Fields(a: seq<byte>, b: seq<byte>, c: seq<byte>, d: seq<byte>, rest: seq<byte>)
    requires |a| == 8 && |b| == 8 && |c| == 4 && |d| == 32
    ensures var e := a + b + c + d + rest;
            e[..8] == a && e[8..16] == b && e[16..20] == c && e[20..HEADER] == d && e[HEADER..] == rest
  {
    var ab, abc := a + b, a + b + c;
    var abcd := abc + d;
    assert ab[8..16] == b;
    assert abc[16..20] == c && abc[8..16] == ab[8..16];
    assert abcd[20..HEADER] == d && abcd[16..20] == abc[16..20] && abcd[8..16] == abc[8..16];
  }

  /** A snapshot reads back exactly when its length fits the 32-bit word. */
  lemma RoundTrip(digest: Digest, generation: nat, payload: seq<byte>)
    requires generation <= MAX_SAFE_INTEGER
    ensures Decode(digest, Encode(digest, generation, payload)) ==
            if |payload| < U32_LIMIT then Some(Snapshot(generation, payload)) else None
  {
    hide Encode, LittleEndian, FromLittleEndian;
    EncodeFields(digest, generation, payload);
    Widths();
    WordFits(generation, 8);
    WordRoundTrip(|payload|, 4);
  }

  /** The length of a payload as its length word has it. */
  function Short(payload: seq<byte>): (r: nat)
    ensures r <= |payload| && (|payload| < U32_LIMIT ==> r == |payload|)
  {
    |payload| % U32_LIMIT
  }

  /** A strict prefix of an encoding is valid only if it stops exactly where the length word says
      and the digest does not tell the rest was lost. For a payload whose length fits the word
      that is never. */
  lemma PrefixDecodes(digest: Digest, generation: nat, payload: seq<byte>, n: nat)
    requires generation <= MAX_SAFE_INTEGER && n < HEADER + |payload|
    ensures Decode(digest, Encode(digest, generation, payload)[..n]) ==
            if n == HEADER + Short(payload) && digest(payload[..Short(payload)]) == digest(payload)
            then Some(Snapshot(generation, payload[..Short(payload)])) else None
  {
    hide Encode, LittleEndian, FromLittleEndian, Short, Pow256;
    if n >= HEADER {
      EncodeFields(digest, generation, payload);
      Widths();
      WordFits(generation, 8);
      LengthWord(payload);
      CutFields(Encode(digest, generation, payload), n);
    }
  }

  lemma LengthWord(payload: seq<byte>)
    ensures FromLittleEndian(LittleEndian(|payload|, 4)) == Short(payload)
  {
    hide LittleEndian, FromLittleEndian;
    Widths();
    WordRoundTrip(|payload|, 4);
  }

  lemma CutFields(e: seq<byte>, n: nat)
    requires HEADER <= n <= |e|
    ensures e[..n][..8] == e[..8] && e[..n][8..16] == e[8..16] && e[..n][16..20] == e[16..20]
    ensures e[..n][20..HEADER] == e[20..HEADER] && e[..n][HEADER..] == e[HEADER..][..n - HEADER]
  {
  }

  // -------------------------------------------------------------- the slots

  /** The files: two slots and the older single-file snapshot. */
  datatype Files = Files(slot0: Option<seq<byte>>, slot1: Option<seq<byte>>, legacy: Option<seq<byte>>)

  function Held(digest: Digest, file: Option<seq<byte>>): Option<Snapshot> {
    if file.None? then None else Decode(digest, file.value)
  }

  datatype Candidate = Candidate(slot: nat, snapshot: Snapshot)

  /** The valid slot of the highest generation; on a tie the first. */
  function Newest(digest: Digest, f: Files): (r: Option<Candidate>)
    ensures r.Some? ==> r.value.slot < 2
  {
    var a, b := Held(digest, f.slot0), Held(digest, f.slot1);
    if a.Some? && (b.None? || b.value.generation <= a.value.generation) then Some(Candidate(0, a.value))
    else if b.Some? then Some(Candidate(1, b.value))
    else None
  }

  function ReadBack(digest: Digest, f: Files): Option<seq<byte>> {
    var newest := Newest(digest, f);
    if newest.Some? then Some(newest.value.snapshot.payload) else f.legacy
  }

  /** The slot to write: the one that does not hold the newest snapshot. */
  function NextSlot(newest: Option<Candidate>): nat {
    if newest.None? then 0 else if newest.value.slot == 0 then 1 else 0
  }

  function NextGeneration(newest: Option<Candidate>): nat {
    if newest.None? then 1 else newest.value.snapshot.generation + 1
  }

  /** The generation counter has reached its last exact integer; saving is refused. */
  predicate Exhausted(newest: Option<Candidate>) {
    newest.Some? && newest.value.snapshot.generation >= MAX_SAFE_INTEGER
  }

  function WithSlot(f: Files, slot: nat, bytes: seq<byte>): Files {
    if slot == 0 then f.(slot0 := Some(bytes)) else f.(slot1 := Some(bytes))
  }

  /** What a save leaves. `Interrupted` stops before the new bytes are in place: the slot keeps
      its old bytes, or holds a strict prefix of the new ones. `Unswept` stops after they are
      in place and before the old single file is deleted. */
  datatype Save =
    | Complete(payload: seq<byte>)
    | Unswept(payload: seq<byte>)
    | Interrupted(payload: seq<byte>, written: Option<nat>)

  function SlotBytes(digest: Digest, f: Files, payload: seq<byte>): seq<byte> {
    Encode(digest, NextGeneration(Newest(digest, f)), payload)
  }

  /** The bytes the save leaves in its slot, if it got as far as the slot. */
  function Written(bytes: seq<byte>, save: Save): Option<seq<byte>>
    requires bytes != []
  {
    if !save.Interrupted? then Some(bytes)
    else if save.written.None? then None
    else Some(bytes[..Min(save.written.value, |bytes| - 1)])
  }

  function AfterSave(digest: Digest, f: Files, save: Save): Files {
    var newest := Newest(digest, f);
    if Exhausted(newest) then f
    else
      var written := Written(SlotBytes(digest, f, save.payload), save);
      var u := if written.None? then f else WithSlot(f, NextSlot(newest), written.value);
      if save.Complete? then u.(legacy := None) else u
  }

  function AfterAll(digest: Digest, f: Files, saves: seq<Save>): Files {
    if saves == [] then f else AfterSave(digest, AfterAll(digest, f, saves[..|saves| - 1]), saves[|saves| - 1])
  }

  /** A store of just one snapshot, and the older file. */
  datatype Cell = Cell(saved: Option<Snapshot>, legacy: Option<seq<byte>>)

  function Reading(cell: Cell): Option<seq<byte>> {
    if cell.saved.Some? then Some(cell.saved.value.payload) else cell.legacy
  }

  predicate Spent(cell: Cell) {
    cell.saved.Some? && cell.saved.value.generation >= MAX_SAFE_INTEGER
  }

  /** What a save makes readable: its payload if all bytes are in place and the length fits its
      word; of an interrupted one nothing, unless the payload is too long for its word, the save
      stopped exactly at the length that word has, and the digest cannot tell. */
  function Landed(digest: Digest, save: Save): Option<seq<byte>> {
    var p := save.payload;
    if save.Interrupted? then
      if save.written.Some? && Min(save.written.value, HEADER + |p| - 1) == HEADER + Short(p) && digest(p[..Short(p)]) == digest(p)
      then Some(p[..Short(p)]) else None
    else if |p| < U32_LIMIT then Some(p) else None
  }

  /** What the save does to the one cell: what landed replaces the snapshot and advances the
      generation, until that is spent; a completed save drops the older file. */
  function Keep(digest: Digest, cell: Cell, save: Save): Cell {
    if Spent(cell) then cell
    else
      var p, g := Landed(digest, save), if cell.saved.None? then 1 else cell.saved.value.generation + 1;
      Cell(if p.Some? then Some(Snapshot(g, p.value)) else cell.saved, if save.Complete? then None else cell.legacy)
  }

  function KeepAll(digest: Digest, cell: Cell, saves: seq<Save>): Cell {
    if saves == [] then cell else Keep(digest, KeepAll(digest, cell, saves[..|saves| - 1]), saves[|saves| - 1])
  }

  function CellOf(digest: Digest, f: Files): Cell {
    var newest := Newest(digest, f);
    Cell(if newest.Some? then Some(newest.value.snapshot) else None, f.legacy)
  }

  /** The snapshot that is read is a good one, no other good one is newer, and of two equally new
      ones it is the first. */
  lemma NewestIs(digest: Digest, f: Files)
    ensures var a, b, r := Held(digest, f.slot0), Held(digest, f.slot1), Newest(digest, f);
            && (r.None? <==> a.None? && b.None?)
            && (a.Some? && b.Some? ==> r.Some? && (r.value.slot == 1 <==> a.value.generation < b.value.generation))
            && (r.Some? && r.value.slot == 0 ==> a.Some? && r == Some(Candidate(0, a.value)))
            && (r.Some? && r.value.slot == 1 ==> b.Some? && r == Some(Candidate(1, b.value)))
  {
  }

  /** A save goes to the slot that is not the newest, and to the first when there is none. */
  lemma NextSlotIs(newest: Option<Candidate>)
    requires newest.Some? ==> newest.value.slot < 2
    ensures NextSlot(newest) < 2 && if newest.None? then NextSlot(newest) == 0 else NextSlot(newest) != newest.value.slot
  {
  }

  lemma WrittenDecodes(digest: Digest, generation: nat, save: Save)
    requires generation <= MAX_SAFE_INTEGER
    ensures var written, p := Written(Encode(digest, generation, save.payload), save), Landed(digest, save);
            if written.None? then p.None?
            else Decode(digest, written.value) == if p.Some? then Some(Snapshot(generation, p.value)) else None
  {
    hide Encode, Decode, Short;
    RoundTrip(digest, generation, save.payload);
    if save.Interrupted? && save.written.Some? {
      PrefixDecodes(digest, generation, save.payload, Min(save.written.value, HEADER + |save.payload| - 1));
    }
  }

  lemma SaveKeeps(digest: Digest, f: Files, save: Save)
    ensures CellOf(digest, AfterSave(digest, f, save)) == Keep(digest, CellOf(digest, f), save)
  {
    hide Encode, Decode, Landed, Written;
    if !Exhausted(Newest(digest, f)) {
      WrittenDecodes(digest, NextGeneration(Newest(digest, f)), save);
    }
  }

  /** The two slots are as good as one indestructible cell: after any sequence of saves,
      completed or interrupted, of payloads of any length, from any files whatever. */
  lemma {:induction false} CrashSafe(digest: Digest, f: Files, saves: seq<Save>)
    ensures CellOf(digest, AfterAll(digest, f, saves)) == KeepAll(digest, CellOf(digest, f), saves)
    ensures ReadBack(digest, AfterAll(digest, f, saves)) == Reading(KeepAll(digest, CellOf(digest, f), saves))
  {
    hide AfterSave, Keep;
    if saves != [] {
      var n := |saves| - 1;
      CrashSafe(digest, f, saves[..n]);
      SaveKeeps(digest, AfterAll(digest, f, saves[..n]), saves[n]);
    }
  }

  lemma {:induction false} LastLandedIsKept(digest: Digest, cell: Cell, saves: seq<Save>, i: nat)
    requires i < |saves| && Landed(digest, saves[i]).Some? && !Spent(KeepAll(digest, cell, saves[..i]))
    requires forall j :: i < j < |saves| ==> Landed(digest, saves[j]).None?
    ensures var kept := KeepAll(digest, cell, saves).saved;
            kept.Some? && Some(kept.value.payload) == Landed(digest, saves[i])
    decreases |saves|
  {
    hide Landed;
    var n := |saves| - 1;
    if i < n {
      assert saves[..n][..i] == saves[..i];
      LastLandedIsKept(digest, cell, saves[..n], i);
    }
  }

  /** So reading returns the payload of the last save that landed, whatever failed after it. */
  lemma LastLandedIsRead(digest: Digest, f: Files, saves: seq<Save>, i: nat)
    requires i < |saves| && Landed(digest, saves[i]).Some? && !Spent(CellOf(digest, AfterAll(digest, f, saves[..i])))
    requires forall j :: i < j < |saves| ==> Landed(digest, saves[j]).None?
    ensures ReadBack(digest, AfterAll(digest, f, saves)) == Landed(digest, saves[i])
  {
    hide Landed, AfterAll, KeepAll, ReadBack, CellOf;
    CrashSafe(digest, f, saves[..i]);
    CrashSafe(digest, f, saves);
    LastLandedIsKept(digest, CellOf(digest, f), saves, i);
  }

  /** A payload that fits its word lands exactly when its save got all bytes into place. */
  lemma FittingLands(digest: Digest, save: Save)
    requires |save.payload| < U32_LIMIT
    ensures Landed(digest, save) == if save.Interrupted? then None else Some(save.payload)
  {
  }

  /** For payloads that fit: reading returns the payload of the last save that got all its bytes
      into place, however many were interrupted after it. */
  lemma LastSaveIsRead(digest: Digest, f: Files, saves: seq<Save>, i: nat)
    requires i < |saves| && !saves[i].Interrupted? && !Spent(CellOf(digest, AfterAll(digest, f, saves[..i])))
    requires forall j :: i <= j < |saves| ==> |saves[j].payload| < U32_LIMIT
    requires forall j :: i < j < |saves| ==> saves[j].Interrupted?
    ensures ReadBack(digest, AfterAll(digest, f, saves)) == Some(saves[i].payload)
  {
    hide Landed, AfterAll, ReadBack, CellOf;
    forall j | i <= j < |saves| ensures Landed(digest, saves[j]) == if saves[j].Interrupted? then None else Some(saves[j].payload) {
      FittingLands(digest, saves[j]);
    }
    LastLandedIsRead(digest, f, saves, i);
  }

  /** A save that is not refused reads back if and only if its length fits the 32-bit word. */
  lemma SavedIffFits(digest: Digest, f: Files, payload: seq<byte>)
    requires !Exhausted(Newest(digest, f))
    ensures ReadBack(digest, AfterSave(digest, f, Complete(payload))) == Some(payload) <==> |payload| < U32_LIMIT
  {
    hide Encode;
    RoundTrip(digest, NextGeneration(Newest(digest, f)), payload);
    HeldFits(digest, f.slot0);
    HeldFits(digest, f.slot1);
  }

  /** A longer first save loses the old single-file snapshot and saves nothing. */
  lemma OversizedFirstSave(digest: Digest, f: Files, payload: seq<byte>)
    requires Newest(digest, f).None? && |payload| >= U32_LIMIT
    ensures ReadBack(digest, AfterSave(digest, f, Complete(payload))) == None
  {
    hide Encode, Decode;
    RoundTrip(digest, 1, payload);
  }

  lemma HeldFits(digest: Digest, file: Option<seq<byte>>)
    ensures Held(digest, file).Some? ==> |Held(digest, file).value.payload| < U32_LIMIT
  {
    hide FromLittleEndian;
    if Held(digest, file).Some? {
      FromBounded(file.value[16..20]);
      Widths();
    }
  }

  // ------------------------------------------------------- the store itself

  class SlotStore {
    const digest: Digest
    var slot0: Option<seq<byte>>
    var slot1: Option<seq<byte>>
    var legacy: Option<seq<byte>>

    function State(): Files
      reads this
    {
      Files(slot0, slot1, legacy)
    }

    constructor (digest: Digest)
      ensures this.digest == digest && State() == Files(None, None, None)
    {
      this.digest := digest;
      slot0, slot1, legacy := None, None, None;
    }

    /** The decodable slots, newest first; slots of one generation keep their order. */
    method Candidates() returns (r: seq<Candidate>)
      ensures |r| == (if Held(digest, slot0).Some? then 1 else 0) + if Held(digest, slot1).Some? then 1 else 0
      ensures Newest(digest, State()) == if r == [] then None else Some(r[0])
      ensures |r| == 2 ==> r[1].slot == 1 - r[0].slot && r[1].snapshot.generation <= r[0].snapshot.generation
    {
      r := [];
      var files := [slot0, slot1];
      for i := 0 to 2
        invariant forall j :: 0 <= j < |r| ==> r[j].slot < i && Held(digest, files[r[j].slot]) == Some(r[j].snapshot)
        invariant |r| <= i
        invariant i >= 1 ==> (|r| == 1 || i == 2 || Held(digest, slot0).None?)
        invariant i == 1 ==> |r| == if Held(digest, slot0).Some? then 1 else 0
        invariant i == 2 ==> |r| == (if Held(digest, slot0).Some? then 1 else 0) + if Held(digest, slot1).Some? then 1 else 0
        invariant |r| == 2 ==> r[0].slot == 0 && r[1].slot == 1
      {
        var held := Held(digest, files[i]);
        if held.Some? {
          r := r + [Candidate(i, held.value)];
        }
      }
      if |r| == 2 && r[1].snapshot.generation > r[0].snapshot.generation {
        r := [r[1], r[0]];
      }
    }

    method ReadSnapshot() returns (r: Option<seq<byte>>)
      ensures r == Reading(CellOf(digest, State()))
    {
      var candidates := Candidates();
      if candidates != [] {
        return Some(candidates[0].snapshot.payload);
      }
      return legacy;
    }

    /** One save, stopped where `save` says; false when the counter is spent. */
    method WriteSnapshot(save: Save) returns (ok: bool)
      modifies this
      ensures State() == AfterSave(digest, old(State()), save)
      ensures ok <==> !Spent(CellOf(digest, old(State())))
    {
      hide Encode, Decode, Held;
      var candidates := Candidates();
      if candidates != [] && candidates[0].snapshot.generation >= MAX_SAFE_INTEGER {
        return false;
      }
      var generation := if candidates == [] then 1 else candidates[0].snapshot.generation + 1;
      var bytes := Encode(digest, generation, save.payload);
      if save.Interrupted? && save.written.None? {
        return true;
      }
      if save.Interrupted? {
        bytes := bytes[..Min(save.written.value, |bytes| - 1)];
      }
      if candidates != [] && candidates[0].slot == 0 {
        slot1 := Some(bytes);
      } else {
        slot0 := Some(bytes);
      }
      if save.Complete? {
        legacy := None;
      }
      return true;
    }
  }
}

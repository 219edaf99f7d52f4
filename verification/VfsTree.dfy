/** Path resolution and whole runs of filesystem operations: what every run keeps of the link
    counts, and what reclamation may therefore free. */
module VfsTree {
  import opened Base
  import Text
  import opened VfsLinks

  // ------------------------------------------------------------------ paths

  function Meaningful(pieces: seq<Name>): seq<Name> {
    if pieces == [] then []
    else (if pieces[0] == [] || pieces[0] == DOT then [] else [pieces[0]]) + Meaningful(pieces[1..])
  }

  function Components(path: seq<byte>): seq<Name> {
    Meaningful(Text.Split(path, SLASH))
  }

  datatype Resolved = Resolved(parent: nat, name: Name, node: Option<nat>)

  datatype Found = At(spot: Resolved) | Lost(errno: Errno)

  /** A spot names what it found through an entry of its parent, or found a directory itself. */
  predicate Genuine(t: Tree, spot: Resolved) {
    && IsDir(t, spot.parent)
    && (spot.node.None? ==> !Has(t, spot.parent, spot.name))
    && (spot.node.Some? ==>
          || IsDir(t, spot.node.value)
          || (Has(t, spot.parent, spot.name) && Child(t, spot.parent, spot.name) == spot.node.value))
  }

  /** The spot of a directory reached without naming an entry. */
  function Here(t: Tree, n: nat): Found
    requires n < |t.nodes|
  {
    At(Resolved(t.nodes[n].parent, DOT, Some(n)))
  }

  /** Resolves a path from a directory, following at most eight symbolic links in a chain. */
  function ResolveDepth(t: Tree, start: nat, path: seq<byte>, follow: bool, depth: nat): (r: Found)
    requires Sound(t) && IsDir(t, start) && depth <= 9
    ensures r.At? ==> Genuine(t, r.spot)
    decreases 9 - depth, |Components(path)| + 1
  {
    if depth > 8 then Lost(ELOOP)
    else
      var from := if path != [] && path[0] == SLASH then ROOT else start;
      if Components(path) == [] then
        ParentIsDir(t, from);
        Here(t, from)
      else Walk(t, from, Components(path), follow, depth)
  }

  function Walk(t: Tree, current: nat, comps: seq<Name>, follow: bool, depth: nat): (r: Found)
    requires Sound(t) && IsDir(t, current) && depth <= 8 && comps != []
    ensures r.At? ==> Genuine(t, r.spot)
    decreases 9 - depth, |comps|
  {
    ParentIsDir(t, current);
    var up := t.nodes[current].parent;
    var last := |comps| == 1;
    if comps[0] == DOTDOT then
      ParentIsDir(t, up);
      if last then Here(t, up) else Walk(t, up, comps[1..], follow, depth)
    else if !Has(t, current, comps[0]) then
      if last then At(Resolved(current, comps[0], None)) else Lost(ENOENT)
    else
      ChildInRange(t, current, comps[0]);
      var next := Child(t, current, comps[0]);
      if last then
        if follow && t.nodes[next].kind.Symlink? then ResolveDepth(t, current, t.nodes[next].kind.target, true, depth + 1)
        else At(Resolved(current, comps[0], Some(next)))
      else if t.nodes[next].kind.Symlink? then
        var through := ResolveDepth(t, current, t.nodes[next].kind.target, true, depth + 1);
        if through.Lost? then through
        else if through.spot.node.None? then Lost(ENOENT)
        else if !IsDir(t, through.spot.node.value) then Lost(ENOTDIR)
        else Walk(t, through.spot.node.value, comps[1..], follow, depth)
      else if IsDir(t, next) then Walk(t, next, comps[1..], follow, depth)
      else Lost(ENOTDIR)
  }

  function Resolve(t: Tree, start: nat, path: seq<byte>, follow: bool): (r: Found)
    requires Sound(t) && IsDir(t, start)
    ensures r.At? ==> Genuine(t, r.spot)
  {
    if path == [] then Lost(ENOENT) else ResolveDepth(t, start, path, follow, 0)
  }

  /** A path resolves as its front part does, links followed, and then the rest from there; a
      front part that is missing or not a directory ends it. */
  lemma {:induction false} WalkSplits(t: Tree, current: nat, a: seq<Name>, b: seq<Name>, follow: bool, depth: nat)
    requires Sound(t) && IsDir(t, current) && depth <= 8 && a != [] && b != []
    ensures Walk(t, current, a + b, follow, depth) ==
            var front := Walk(t, current, a, true, depth);
            if front.Lost? then front
            else if front.spot.node.None? then Lost(ENOENT)
            else if !IsDir(t, front.spot.node.value) then Lost(ENOTDIR)
            else Walk(t, front.spot.node.value, b, follow, depth)
    decreases |a|
  {
    hide SoundNodes, ResolveDepth;
    ParentIsDir(t, current);
    ParentIsDir(t, t.nodes[current].parent);
    assert (a + b)[0] == a[0] && (a + b)[1..] == a[1..] + b;
    if |a| == 1 {
      assert a[1..] + b == b;
    }
    if Has(t, current, a[0]) {
      ChildInRange(t, current, a[0]);
    }
    var next := Stepped(t, current, a[0], depth);
    if |a| > 1 && next.Some? {
      WalkSplits(t, next.value, a[1..], b, follow, depth);
    }
  }

  /** The directory one component leads to, if it leads to one. */
  function Stepped(t: Tree, current: nat, c: Name, depth: nat): (r: Option<nat>)
    requires Sound(t) && IsDir(t, current) && depth <= 8
    ensures r.Some? ==> IsDir(t, r.value)
  {
    ParentIsDir(t, current);
    if c == DOTDOT then Some(t.nodes[current].parent)
    else if !Has(t, current, c) then None
    else
      ChildInRange(t, current, c);
      var next := Child(t, current, c);
      if t.nodes[next].kind.Symlink? then
        var through := ResolveDepth(t, current, t.nodes[next].kind.target, true, depth + 1);
        if through.At? && through.spot.node.Some? && IsDir(t, through.spot.node.value) then through.spot.node else None
      else if IsDir(t, next) then Some(next) else None
  }

  // ------------------------------------------------------- host-side setup

  function NewDir(t: Tree, parent: nat, name: Name): Tree
    requires IsDir(t, parent)
  {
    PutEntry(Alloc(t, Fresh(Dir(map[]), 0x1ed, parent)), parent, name, |t.nodes|)
  }

  lemma NewDirSound(t: Tree, parent: nat, name: Name)
    requires Sound(t) && Queue(t) && IsDir(t, parent)
    ensures Sound(NewDir(t, parent, name)) && Queue(NewDir(t, parent, name))
  {
    hide Sound, Queue;
    assert SoundNode(t.nodes, Fresh(Dir(map[]), 0x1ed, parent));
    AllocSound(t, Fresh(Dir(map[]), 0x1ed, parent));
    PutSound(Alloc(t, Fresh(Dir(map[]), 0x1ed, parent)), parent, name, |t.nodes|);
  }

  /** Makes the missing directories of a chain. */
  function MadeChain(t: Tree, current: nat, comps: seq<Name>): (o: Outcome)
    requires Sound(t) && Queue(t) && current < |t.nodes|
    ensures Sound(o.tree) && Queue(o.tree) && |t.nodes| <= |o.tree.nodes|
    ensures o.answer.Done? ==> o.answer.node < |o.tree.nodes|
    decreases |comps|
  {
    if comps == [] then Outcome(t, Done(current))
    else if comps[0] == DOTDOT then
      ParentIsDir(t, current);
      MadeChain(t, t.nodes[current].parent, comps[1..])
    else if !IsDir(t, current) then Outcome(t, Fail(ENOTDIR))
    else if Has(t, current, comps[0]) then
      ChildInRange(t, current, comps[0]);
      var next := Child(t, current, comps[0]);
      if !IsDir(t, next) then Outcome(t, Fail(ENOTDIR)) else MadeChain(t, next, comps[1..])
    else
      NewDirSound(t, current, comps[0]);
      MadeChain(NewDir(t, current, comps[0]), |t.nodes|, comps[1..])
  }

  /** Position of the last slash, or zero. */
  function LastSlash(path: seq<byte>): (r: nat)
    ensures r <= |path|
  {
    if path == [] then 0
    else if path[|path| - 1] == SLASH then |path| - 1
    else LastSlash(path[..|path| - 1])
  }

  predicate Occupied(t: Tree, path: seq<byte>)
    requires Sound(t)
  {
    var r := Resolve(t, ROOT, path, false);
    r.At? && r.spot.node.Some? && IsDir(t, r.spot.node.value)
  }

  lemma ChildrenInRange(t: Tree, dir: nat, name: Name)
    requires Sound(t)
    ensures Has(t, dir, name) ==> Child(t, dir, name) < |t.nodes|
  {
    if Has(t, dir, name) {
      ChildInRange(t, dir, name);
    }
  }

  /** Creates or replaces the node at a path, making its parent directories. */
  function Added(t: Tree, path: seq<byte>, kind: Kind, mode: nat): Outcome
    requires Sound(t) && Queue(t)
  {
    if !kind.Dir? && Occupied(t, path) then Outcome(t, Fail(EISDIR))
    else
      var m := MadeChain(t, ROOT, Components(path[..LastSlash(path)]));
      if m.answer.Fail? then m
      else
        var r := Resolve(m.tree, ROOT, path, false);
        if r.Lost? then Outcome(m.tree, Fail(r.errno))
        else PlacedAt(m.tree, r.spot, kind, mode)
  }

  function PlacedAt(t: Tree, spot: Resolved, kind: Kind, mode: nat): (o: Outcome)
    requires Sound(t) && IsDir(t, spot.parent)
    ensures |o.tree.nodes| == |t.nodes| + 1
  {
    var u := Alloc(t, Fresh(kind, mode, spot.parent));
    ChildrenInRange(t, spot.parent, spot.name);
    assert u.nodes[spot.parent] == t.nodes[spot.parent];
    Outcome(Replaced(u, spot.parent, spot.name, |t.nodes|), Done(|t.nodes|))
  }

  // --------------------------------------------------------- keeping track

  lemma TracksTogether(t: Tree, u: Tree, v: Tree)
    requires Tracks(t, u, None) && Tracks(u, v, None)
    ensures Tracks(t, v, None)
  {
    hide Balance, Sound, Queue;
    forall n | 0 <= n < |v.nodes| ensures n < |t.nodes| ==> Balance(v, n) == Balance(t, n)
      ensures n >= |t.nodes| ==> Balance(v, n) >= 0
    {
      if n < |u.nodes| {
        assert Balance(v, n) == Balance(u, n);
      }
    }
  }

  lemma TracksSelf(t: Tree)
    requires Inv(t)
    ensures Tracks(t, t, None)
  {
  }

  lemma NewDirTracks(t: Tree, parent: nat, name: Name)
    requires Inv(t) && IsDir(t, parent) && !Has(t, parent, name)
    ensures Tracks(t, NewDir(t, parent, name), None)
  {
    hide Balance, Sound, Queue;
    NewDirSound(t, parent, name);
    AllocTracks(t, Dir(map[]), 0x1ed, parent);
    var u := Alloc(t, Fresh(Dir(map[]), 0x1ed, parent));
    forall n | 0 <= n < |u.nodes| ensures Balance(NewDir(t, parent, name), n) == Balance(u, n) - One(n == |t.nodes|) {
      PutBalance(u, parent, name, |t.nodes|, n);
    }
  }

  lemma {:induction false} ChainTracks(t: Tree, current: nat, comps: seq<Name>)
    requires Inv(t) && current < |t.nodes|
    ensures Tracks(t, MadeChain(t, current, comps).tree, None)
    decreases |comps|
  {
    hide Sound, Queue, Balance, Tracks, NewDir;
    TracksSelf(t);
    if comps != [] && comps[0] == DOTDOT {
      ParentIsDir(t, current);
      ChainTracks(t, t.nodes[current].parent, comps[1..]);
    } else if comps != [] && Has(t, current, comps[0]) {
      ChildInRange(t, current, comps[0]);
      ChainTracks(t, Child(t, current, comps[0]), comps[1..]);
    } else if comps != [] && IsDir(t, current) {
      var u := NewDir(t, current, comps[0]);
      assert |u.nodes| == |t.nodes| + 1 by { NewDirSize(t, current, comps[0]); }
      NewDirTracks(t, current, comps[0]);
      TracksInv(t, u, None);
      ChainTracks(u, |t.nodes|, comps[1..]);
      TracksTogether(t, u, MadeChain(u, |t.nodes|, comps[1..]).tree);
    }
  }

  lemma NewDirSize(t: Tree, parent: nat, name: Name)
    requires IsDir(t, parent)
    ensures |NewDir(t, parent, name).nodes| == |t.nodes| + 1
  {
  }

  lemma PlacedTracks(t: Tree, spot: Resolved, kind: Kind, mode: nat)
    requires Inv(t) && IsDir(t, spot.parent) && (kind.Dir? ==> kind.entries == map[])
    ensures Tracks(t, PlacedAt(t, spot, kind, mode).tree, None)
    ensures Balance(PlacedAt(t, spot, kind, mode).tree, |t.nodes|) == 0
  {
    hide Balance, Sound, Queue, Replaced;
    AllocTracks(t, kind, mode, spot.parent);
    var u := Alloc(t, Fresh(kind, mode, spot.parent));
    if Has(t, spot.parent, spot.name) {
      NamedHasLink(t, spot.parent, spot.name);
    }
    assert Has(u, spot.parent, spot.name) ==> Has(t, spot.parent, spot.name);
    ReplacedTracks(u, spot.parent, spot.name, |t.nodes|);
  }

  lemma AddedTracks(t: Tree, path: seq<byte>, kind: Kind, mode: nat)
    requires Inv(t) && (kind.Dir? ==> kind.entries == map[])
    ensures Tracks(t, Added(t, path, kind, mode).tree, None)
  {
    hide SoundNodes, Queue, Balance, Tracks, MadeChain, Resolve, PlacedAt, Components;
    TracksSelf(t);
    var m := MadeChain(t, ROOT, Components(path[..LastSlash(path)]));
    ChainTracks(t, ROOT, Components(path[..LastSlash(path)]));
    TracksInv(t, m.tree, None);
    var r := Resolve(m.tree, ROOT, path, false);
    if m.answer.Done? && r.At? {
      PlacedTracks(m.tree, r.spot, kind, mode);
      TracksTogether(t, m.tree, PlacedAt(m.tree, r.spot, kind, mode).tree);
    }
  }

  // ----------------------------------------------------------------- runs

  /** The operations of the host and of the guest's system calls. A `base` is the directory a
      relative path starts from. */
  datatype Op =
    | Add(path: seq<byte>, kind: Kind, mode: nat)
    | MakeChain(path: seq<byte>)
    | Create(base: nat, path: seq<byte>, follow: bool, kind: Kind, mode: nat, room: bool)
    | Link(oldBase: nat, oldPath: seq<byte>, newBase: nat, newPath: seq<byte>)
    | Unlink(base: nat, path: seq<byte>, rmdir: bool)
    | Rename(oldBase: nat, oldPath: seq<byte>, newBase: nat, newPath: seq<byte>)
    | Rewrite(node: nat, kind: Kind)
    | Release(referenced: set<nat>)

  /** Bases are directories, new directories start empty, and writing or truncating replaces the
      contents of a node that is not a directory. */
  predicate Enabled(t: Tree, op: Op) {
    match op
    case Add(_, kind, _) => kind.Dir? ==> kind.entries == map[]
    case MakeChain(_) => true
    case Create(base, _, _, kind, _, _) => IsDir(t, base) && (kind.Dir? ==> kind.entries == map[])
    case Link(oldBase, _, newBase, _) => IsDir(t, oldBase) && IsDir(t, newBase)
    case Unlink(base, _, _) => IsDir(t, base)
    case Rename(oldBase, _, newBase, _) => IsDir(t, oldBase) && IsDir(t, newBase)
    case Rewrite(node, kind) => node < |t.nodes| && !IsDir(t, node) && !kind.Dir?
    case Release(_) => true
  }

  function AfterCreate(t: Tree, base: nat, path: seq<byte>, follow: bool, kind: Kind, mode: nat, room: bool): Tree
    requires Sound(t) && IsDir(t, base)
  {
    var r := Resolve(t, base, path, follow);
    if r.Lost? || r.spot.node.Some? then t
    else Created(t, r.spot.parent, r.spot.name, kind, mode, room).tree
  }

  function AfterLink(t: Tree, oldBase: nat, oldPath: seq<byte>, newBase: nat, newPath: seq<byte>): Tree
    requires Sound(t) && IsDir(t, oldBase) && IsDir(t, newBase)
  {
    var r := Resolve(t, oldBase, oldPath, true);
    if r.Lost? || r.spot.node.None? || IsDir(t, r.spot.node.value) then t
    else
      ChildInRange(t, r.spot.parent, r.spot.name);
      var s := Resolve(t, newBase, newPath, false);
      if s.Lost? || s.spot.node.Some? then t
      else Linked(t, s.spot.parent, s.spot.name, r.spot.node.value).tree
  }

  function AfterUnlink(t: Tree, base: nat, path: seq<byte>, rmdir: bool): Tree
    requires Sound(t) && IsDir(t, base)
  {
    var r := Resolve(t, base, path, false);
    if r.Lost? then t
    else
      ChildrenInRange(t, r.spot.parent, r.spot.name);
      Unlinked(t, r.spot.parent, r.spot.name, rmdir).tree
  }

  function AfterRename(t: Tree, oldBase: nat, oldPath: seq<byte>, newBase: nat, newPath: seq<byte>): Tree
    requires Sound(t) && IsDir(t, oldBase) && IsDir(t, newBase)
  {
    var r, s := Resolve(t, oldBase, oldPath, false), Resolve(t, newBase, newPath, false);
    if r.Lost? || s.Lost? then t
    else
      ChildrenInRange(t, r.spot.parent, r.spot.name);
      ChildrenInRange(t, s.spot.parent, s.spot.name);
      Renamed(t, r.spot.parent, r.spot.name, s.spot.parent, s.spot.name).tree
  }

  function After(t: Tree, op: Op): Tree
    requires Sound(t) && Queue(t) && Enabled(t, op)
  {
    match op
    case Add(path, kind, mode) => Added(t, path, kind, mode).tree
    case MakeChain(path) => MadeChain(t, ROOT, Components(path)).tree
    case Create(base, path, follow, kind, mode, room) => AfterCreate(t, base, path, follow, kind, mode, room)
    case Link(oldBase, oldPath, newBase, newPath) => AfterLink(t, oldBase, oldPath, newBase, newPath)
    case Unlink(base, path, rmdir) => AfterUnlink(t, base, path, rmdir)
    case Rename(oldBase, oldPath, newBase, newPath) => AfterRename(t, oldBase, oldPath, newBase, newPath)
    case Rewrite(node, kind) => t.(nodes := t.nodes[node := t.nodes[node].(kind := kind)])
    case Release(referenced) => Released(t, referenced)
  }

  /** The node whose two names the operation merges, which only a rename can do. */
  function Gain(t: Tree, op: Op): Option<nat>
    requires Sound(t) && Enabled(t, op)
  {
    if !op.Rename? then None
    else
      var r := Resolve(t, op.oldBase, op.oldPath, false);
      var s := Resolve(t, op.newBase, op.newPath, false);
      if r.Lost? || s.Lost? then None
      else Merged(t, r.spot.parent, r.spot.name, s.spot.parent, s.spot.name)
  }

  lemma RewriteTracks(t: Tree, node: nat, kind: Kind)
    requires Inv(t) && node < |t.nodes| && !IsDir(t, node) && !kind.Dir?
    ensures Tracks(t, t.(nodes := t.nodes[node := t.nodes[node].(kind := kind)]), None)
  {
    hide Names, Sound;
    var x := t.nodes[node].(kind := kind);
    ParentIsDir(t, node);
    FieldSound(t, node, x);
    EditQueue(t, node, x);
    forall n | 0 <= n < |t.nodes| ensures Names(t.nodes[node := x], n) == Names(t.nodes, n) {
      NamesUpdate(t.nodes, node, x, n);
    }
  }

  lemma LinkTracks(t: Tree, op: Op)
    requires Inv(t) && op.Link? && Enabled(t, op)
    ensures Tracks(t, After(t, op), None)
  {
    hide Sound, Queue, Tracks, Resolve;
    TracksSelf(t);
    var r := Resolve(t, op.oldBase, op.oldPath, true);
    var s := Resolve(t, op.newBase, op.newPath, false);
    if r.At? && s.At? && r.spot.node.Some? && !IsDir(t, r.spot.node.value) {
      NamedHasLink(t, r.spot.parent, r.spot.name);
      LinkedTracks(t, s.spot.parent, s.spot.name, r.spot.node.value);
    }
  }

  lemma RenameTracks(t: Tree, op: Op)
    requires Inv(t) && op.Rename? && Enabled(t, op)
    ensures Tracks(t, After(t, op), Gain(t, op))
  {
    hide Sound, Queue, Tracks, Resolve, Renamed, Merged;
    TracksSelf(t);
    var r := Resolve(t, op.oldBase, op.oldPath, false);
    var s := Resolve(t, op.newBase, op.newPath, false);
    if r.At? && s.At? {
      ChildrenInRange(t, r.spot.parent, r.spot.name);
      ChildrenInRange(t, s.spot.parent, s.spot.name);
      RenamedTracks(t, r.spot.parent, r.spot.name, s.spot.parent, s.spot.name);
    }
  }

  lemma UnlinkTracks(t: Tree, op: Op)
    requires Inv(t) && op.Unlink? && Enabled(t, op)
    ensures Tracks(t, After(t, op), None)
  {
    hide Sound, Queue, Tracks, Resolve, Unlinked;
    TracksSelf(t);
    var r := Resolve(t, op.base, op.path, false);
    if r.At? {
      ChildrenInRange(t, r.spot.parent, r.spot.name);
      UnlinkedTracks(t, r.spot.parent, r.spot.name, op.rmdir);
    }
  }

  lemma CreateTracks(t: Tree, op: Op)
    requires Inv(t) && op.Create? && Enabled(t, op)
    ensures Tracks(t, After(t, op), None)
  {
    hide Sound, Queue, Tracks, Resolve, Created;
    TracksSelf(t);
    var r := Resolve(t, op.base, op.path, op.follow);
    if r.At? {
      CreatedTracks(t, r.spot.parent, r.spot.name, op.kind, op.mode, op.room);
    }
  }

  lemma StepTracks(t: Tree, op: Op)
    requires Inv(t) && Enabled(t, op)
    ensures Tracks(t, After(t, op), Gain(t, op))
  {
    hide SoundNodes, Queue, Tracks, Added, MadeChain, Released, AfterCreate, AfterLink, AfterUnlink, AfterRename, Components;
    match op
    case Add(path, kind, mode) => AddedTracks(t, path, kind, mode);
    case MakeChain(path) => ChainTracks(t, ROOT, Components(path));
    case Create(_, _, _, _, _, _) => CreateTracks(t, op);
    case Link(_, _, _, _) => LinkTracks(t, op);
    case Unlink(_, _, _) => UnlinkTracks(t, op);
    case Rename(_, _, _, _) => RenameTracks(t, op);
    case Rewrite(node, kind) => RewriteTracks(t, node, kind);
    case Release(referenced) => ReleasedTracks(t, referenced);
  }

  lemma StepInv(t: Tree, op: Op)
    requires Inv(t) && Enabled(t, op)
    ensures Inv(After(t, op))
  {
    hide Tracks, After, Gain, Balance, Sound, Queue;
    StepTracks(t, op);
    TracksInv(t, After(t, op), Gain(t, op));
  }

  /** Each operation is one the state allows. */
  ghost predicate IsRun(t: Tree, ops: seq<Op>)
    requires Inv(t)
    decreases |ops|
  {
    ops != [] ==> Enabled(t, ops[0]) && (StepInv(t, ops[0]); IsRun(After(t, ops[0]), ops[1..]))
  }

  ghost function RunTo(t: Tree, ops: seq<Op>): (u: Tree)
    requires Inv(t) && IsRun(t, ops)
    ensures Inv(u)
    decreases |ops|
  {
    if ops == [] then t else StepInv(t, ops[0]); RunTo(After(t, ops[0]), ops[1..])
  }

  /** How many renames of the run merge two names of node `n`. */
  ghost function Merges(t: Tree, ops: seq<Op>, n: nat): nat
    requires Inv(t) && IsRun(t, ops)
    decreases |ops|
  {
    if ops == [] then 0
    else StepInv(t, ops[0]); One(Gain(t, ops[0]) == Some(n)) + Merges(After(t, ops[0]), ops[1..], n)
  }

  /** Over every run, link counts are exact up to the merging renames: a node's count exceeds its
      names by what it did before the run plus one for each rename that merged two of them. */
  lemma {:induction false} CountsExact(t: Tree, ops: seq<Op>, n: nat)
    requires Inv(t) && IsRun(t, ops) && n < |t.nodes|
    ensures |t.nodes| <= |RunTo(t, ops).nodes|
    ensures RunTo(t, ops).nodes[n].kind.Dir? == t.nodes[n].kind.Dir?
    ensures Balance(RunTo(t, ops), n) == Balance(t, n) + Merges(t, ops, n)
    decreases |ops|
  {
    if ops != [] {
      hide After, Gain, Inv, Balance, Sound, Queue;
      StepTracks(t, ops[0]);
      StepInv(t, ops[0]);
      CountsExact(After(t, ops[0]), ops[1..], n);
    }
  }

  /** A file whose count starts exact has as many links as names after a run if and only if the
      run merged no two of its names. */
  lemma LinksAreNames(t: Tree, ops: seq<Op>, n: nat)
    requires Inv(t) && IsRun(t, ops) && n < |t.nodes| && !IsDir(t, n) && Balance(t, n) == 0
    ensures |t.nodes| <= |RunTo(t, ops).nodes|
    ensures RunTo(t, ops).nodes[n].nlink == Names(RunTo(t, ops).nodes, n) <==> Merges(t, ops, n) == 0
  {
    hide Inv, IsRun, RunTo, Merges, Names;
    CountsExact(t, ops, n);
  }

  /** In every reachable state, reclaiming leaves alone each node that is a directory, that an
      entry anywhere names, or that a descriptor refers to; and it empties every other queued
      node. */
  lemma ReclaimSafe(t: Tree, ops: seq<Op>, referenced: set<nat>, n: nat)
    requires Inv(t) && IsRun(t, ops) && n < |RunTo(t, ops).nodes|
    ensures var u := RunTo(t, ops);
            var v := Released(u, referenced);
            && |v.nodes| == |u.nodes|
            && (IsDir(u, n) || Names(u.nodes, n) > 0 || n in referenced ==> v.nodes[n] == u.nodes[n])
            && (n in u.unlinked && n !in referenced ==> v.nodes[n].kind == File([]) && n !in v.unlinked)
            && (n !in u.unlinked ==> v.nodes[n] == u.nodes[n])
  {
    hide Inv, IsRun, RunTo, Names;
    ReleasedTracks(RunTo(t, ops), referenced);
  }

  /** Once a rename has left a count too high, the node is never queued again, so its contents
      outlive its last name. */
  lemma MergedNeverReclaimed(t: Tree, ops: seq<Op>, n: nat)
    requires Inv(t) && IsRun(t, ops) && n < |t.nodes| && Balance(t, n) > 0
    ensures n !in RunTo(t, ops).unlinked
  {
    hide IsRun, RunTo, Merges, Names;
    CountsExact(t, ops, n);
  }

  /** A new filesystem before its skeleton is added. */
  function Bare(): Tree {
    Tree([Node(Dir(map[]), 0x1ed, 2, 0, ROOT)], [])
  }

  lemma BareInv()
    ensures Inv(Bare())
  {
    NobodyNamesIn(Bare().nodes, 0);
    assert SoundNode(Bare().nodes, Bare().nodes[0]);
  }

  /** A root directory and one file with two links or one. */
  function Small(entries: map<Name, nat>, nlink: nat): Tree {
    Tree([Node(Dir(entries), 0x1ed, 2, 0, ROOT), Node(File([7]), 0x1a4, nlink, 0, ROOT)], [])
  }

  /** A path of one plain byte names an entry of the directory it starts from. */
  lemma ByteResolves(t: Tree, b: byte, follow: bool)
    requires Sound(t) && IsDir(t, ROOT) && b != SLASH && [b] != DOT
    requires Has(t, ROOT, [b]) ==> Child(t, ROOT, [b]) < |t.nodes| && !t.nodes[Child(t, ROOT, [b])].kind.Symlink?
    ensures Resolve(t, ROOT, [b], follow) ==
            At(Resolved(ROOT, [b], if Has(t, ROOT, [b]) then Some(Child(t, ROOT, [b])) else None))
  {
    hide SoundNodes, Components;
    ByteComponents(b);
    assert ResolveDepth(t, ROOT, [b], follow, 0) == Walk(t, ROOT, [[b]], follow, 0);
    assert [b] != DOTDOT && |[[b]]| == 1;
  }

  lemma ByteComponents(b: byte)
    requires b != SLASH && [b] != DOT
    ensures Components([b]) == [[b]]
  {
    var path: seq<byte> := [b];
    var rest := Text.Split(path[1..], SLASH);
    assert path[1..] == [] && rest == [[]];
    assert Text.Split(path, SLASH) == [[path[0]] + rest[0]] + rest[1..];
    assert [b] + rest[0] == [b];
    assert Text.Split(path, SLASH) == [[b]] && [[b]][1..] == [];
    assert Meaningful([[b]]) == [[b]] + Meaningful([[b]][1..]);
  }

  const LEAK: seq<Op> := [
    Create(ROOT, [97], false, File([7]), 0x1a4, true), Link(ROOT, [97], ROOT, [98]),
    Rename(ROOT, [97], ROOT, [98]), Unlink(ROOT, [98], false)]

  lemma LeakCreates()
    requires Inv(Bare())
    ensures Enabled(Bare(), LEAK[0]) && After(Bare(), LEAK[0]) == Small(map[[97] := 1], 1)
  {
    hide SoundNodes, Resolve;
    ByteResolves(Bare(), 97, false);
  }

  lemma LeakLinks(t: Tree)
    requires Inv(t) && t == Small(map[[97] := 1], 1)
    ensures Enabled(t, LEAK[1]) && After(t, LEAK[1]) == Small(map[[97] := 1, [98] := 1], 2)
  {
    hide SoundNodes, Resolve;
    ByteResolves(t, 97, true);
    ByteResolves(t, 98, false);
  }

  lemma LeakRenames(t: Tree)
    requires Inv(t) && t == Small(map[[97] := 1, [98] := 1], 2)
    ensures Enabled(t, LEAK[2]) && After(t, LEAK[2]) == Small(map[[98] := 1], 2)
  {
    hide SoundNodes, Resolve;
    ByteResolves(t, 97, false);
    ByteResolves(t, 98, false);
    assert map[[97] := 1, [98] := 1] - {[97]} == map[[98] := 1];
    assert map[[98] := 1][[98] := 1] == map[[98] := 1];
  }

  lemma LeakUnlinks(t: Tree)
    requires Inv(t) && t == Small(map[[98] := 1], 2)
    ensures Enabled(t, LEAK[3]) && After(t, LEAK[3]) == Small(map[], 1)
  {
    hide SoundNodes, Resolve;
    ByteResolves(t, 98, false);
    assert map[[98] := 1] - {[98]} == map[];
  }

  /** Four operations on a new filesystem: make a file, give it a second name, rename the first
      name onto the second, remove that. No entry names the file any more, yet its link count is
      one, its contents are kept and it is not queued for reclaiming. */
  lemma RenameLeak()
    ensures Inv(Bare()) && IsRun(Bare(), LEAK) && RunTo(Bare(), LEAK) == Small(map[], 1)
    ensures Names(Small(map[], 1).nodes, 1) == 0
  {
    hide Inv, After, Enabled, Names;
    BareInv();
    LeakCreates();
    var t1 := Small(map[[97] := 1], 1);
    StepInv(Bare(), LEAK[0]);
    LeakLinks(t1);
    var t2 := Small(map[[97] := 1, [98] := 1], 2);
    StepInv(t1, LEAK[1]);
    LeakRenames(t2);
    var t3 := Small(map[[98] := 1], 2);
    StepInv(t2, LEAK[2]);
    LeakUnlinks(t3);
    StepInv(t3, LEAK[3]);
    assert LEAK[1..][0] == LEAK[1] && LEAK[1..][1..] == LEAK[2..];
    assert LEAK[2..][0] == LEAK[2] && LEAK[2..][1..] == LEAK[3..];
    assert LEAK[3..][0] == LEAK[3] && LEAK[3..][1..] == [];
    EndOfRun(Small(map[], 1));
    RunStep(t3, LEAK[3..]);
    RunStep(t2, LEAK[2..]);
    RunStep(t1, LEAK[1..]);
    RunStep(Bare(), LEAK);
    TwoNodes(Small(map[], 1).nodes, 1);
    assert Naming(map[], 1) == {};
  }

  lemma EndOfRun(t: Tree)
    requires Inv(t)
    ensures IsRun(t, []) && RunTo(t, []) == t
  {
  }

  lemma RunStep(t: Tree, ops: seq<Op>)
    requires Inv(t) && ops != [] && Enabled(t, ops[0]) && Inv(After(t, ops[0])) && IsRun(After(t, ops[0]), ops[1..])
    ensures IsRun(t, ops) && RunTo(t, ops) == RunTo(After(t, ops[0]), ops[1..])
  {
    hide After, Sound, Queue, Balance;
  }

  lemma TwoNodes(nodes: seq<Node>, n: nat)
    requires |nodes| == 2
    ensures Names(nodes, n) == NamesIn(nodes[0], n) + NamesIn(nodes[1], n)
  {
    var one := nodes[..1];
    assert one[..0] == [];
    assert Names(one[..0], n) == 0;
    assert Names(one, n) == NamesIn(nodes[0], n);
  }
}

/** Nothing is forgotten: a node that has lost its last link waits in the queue until it is
    emptied. */
module Reclaiming {
  import opened Base
  import opened VfsLinks
  import opened VfsTree
  import Paths

  /** The node has no links and is not queued. */
  predicate Orphan(t: Tree, n: nat) {
    n < |t.nodes| && t.nodes[n].nlink == 0 && n !in t.unlinked
  }

  /** A change after which every orphan was one before, with the contents it had, and nothing has
      left the queue. */
  ghost predicate Minds(t: Tree, u: Tree) {
    && |t.nodes| <= |u.nodes|
    && (forall n: nat :: Orphan(u, n) ==> Orphan(t, n) && u.nodes[n].kind == t.nodes[n].kind)
    && (forall n :: n in t.unlinked ==> n in u.unlinked)
  }

  lemma MindsOn(t: Tree, u: Tree, v: Tree)
    requires Minds(t, u) && Minds(u, v)
    ensures Minds(t, v)
  {
  }

  lemma DropMinds(t: Tree, n: nat)
    requires n < |t.nodes|
    ensures Minds(t, DropLink(t, n))
  {
  }

  lemma AllocMinds(t: Tree, kind: Kind, mode: nat, parent: nat)
    ensures Minds(t, Alloc(t, Fresh(kind, mode, parent)))
  {
  }

  /** An orphan is no directory, because a directory keeps a link for itself. */
  lemma OrphanIsNoDir(t: Tree, n: nat)
    requires Inv(t) && Orphan(t, n)
    ensures !IsDir(t, n)
  {
    hide Names, Sound;
    assert Balance(t, n) >= 0;
  }

  /** An edit of the entries of a directory that has a link. */
  lemma EntriesMind(t: Tree, u: Tree, dir: nat)
    requires IsDir(t, dir) && !Orphan(t, dir) && u.unlinked == t.unlinked
    requires dir < |u.nodes| && u.nodes == t.nodes[dir := t.nodes[dir].(kind := u.nodes[dir].kind)]
    ensures Minds(t, u)
  {
  }

  lemma ReplacedMinds(t: Tree, dir: nat, name: Name, node: nat)
    requires IsDir(t, dir) && !Orphan(t, dir) && (Has(t, dir, name) ==> Child(t, dir, name) < |t.nodes|)
    ensures Minds(t, Replaced(t, dir, name, node))
  {
    hide Minds, DropLink;
    var u := PutEntry(t, dir, name, node);
    EntriesMind(t, u, dir);
    if Has(t, dir, name) {
      DropMinds(u, Child(t, dir, name));
      MindsOn(t, u, DropLink(u, Child(t, dir, name)));
    }
  }

  lemma DirIsLinked(t: Tree, dir: nat)
    requires Inv(t) && IsDir(t, dir)
    ensures !Orphan(t, dir)
  {
    if Orphan(t, dir) {
      OrphanIsNoDir(t, dir);
    }
  }

  lemma CreatedMinds(t: Tree, parent: nat, name: Name, kind: Kind, mode: nat, room: bool)
    requires Inv(t) && IsDir(t, parent)
    ensures Minds(t, Created(t, parent, name, kind, mode, room).tree)
  {
    hide Minds, Inv;
    var u := Alloc(t, Fresh(kind, mode, parent));
    MindsSelf(t);
    AllocMinds(t, kind, mode, parent);
    DirIsLinked(t, parent);
    EntriesMind(u, PutEntry(u, parent, name, |t.nodes|), parent);
    MindsOn(t, u, PutEntry(u, parent, name, |t.nodes|));
  }

  lemma MindsSelf(t: Tree)
    ensures Minds(t, t)
  {
  }

  lemma LinkedMinds(t: Tree, parent: nat, name: Name, node: nat)
    requires Inv(t) && IsDir(t, parent) && node < |t.nodes|
    ensures Minds(t, Linked(t, parent, name, node).tree)
  {
    hide Inv;
    DirIsLinked(t, parent);
    var u := PutEntry(t, parent, name, node);
    EntriesMind(t, u, parent);
  }

  lemma UnlinkedMinds(t: Tree, parent: nat, name: Name, rmdir: bool)
    requires Inv(t) && IsDir(t, parent) && (Has(t, parent, name) ==> Child(t, parent, name) < |t.nodes|)
    ensures Minds(t, Unlinked(t, parent, name, rmdir).tree)
  {
    hide Minds, DropLink, Inv;
    MindsSelf(t);
    if Has(t, parent, name) {
      DirIsLinked(t, parent);
      var u := CutEntry(t, parent, name);
      EntriesMind(t, u, parent);
      DropMinds(u, Child(t, parent, name));
      MindsOn(t, u, DropLink(u, Child(t, parent, name)));
    }
  }

  lemma RenamedMinds(t: Tree, oldParent: nat, oldName: Name, newParent: nat, newName: Name)
    requires Inv(t) && IsDir(t, oldParent) && IsDir(t, newParent)
    requires Has(t, oldParent, oldName) ==> Child(t, oldParent, oldName) < |t.nodes|
    requires Has(t, newParent, newName) ==> Child(t, newParent, newName) < |t.nodes|
    ensures Minds(t, Renamed(t, oldParent, oldName, newParent, newName).tree)
  {
    hide Minds, Replaced, Inv;
    MindsSelf(t);
    DirIsLinked(t, oldParent);
    DirIsLinked(t, newParent);
    if Has(t, oldParent, oldName) {
      var c, node := CutEntry(t, oldParent, oldName), Child(t, oldParent, oldName);
      EntriesMind(t, c, oldParent);
      ReplacedMinds(c, newParent, newName, node);
      var u := Replaced(c, newParent, newName, node);
      MindsOn(t, c, u);
      ReplaceNames(c, newParent, newName, node);
      var v := u.(nodes := u.nodes[node := u.nodes[node].(parent := newParent)]);
      ParentMinds(u, node, newParent);
      MindsOn(t, u, v);
    }
  }

  lemma ParentMinds(t: Tree, n: nat, parent: nat)
    requires n < |t.nodes|
    ensures Minds(t, t.(nodes := t.nodes[n := t.nodes[n].(parent := parent)]))
  {
  }

  lemma ExtendsMinds(t: Tree, u: Tree)
    requires Inv(t) && Paths.Extends(t, u)
    ensures Minds(t, u)
  {
    hide Inv;
    forall n: nat | Orphan(u, n)
      ensures Orphan(t, n) && u.nodes[n].kind == t.nodes[n].kind
    {
      if n < |t.nodes| {
        assert Paths.KeptNode(t.nodes[n], u.nodes[n], |t.nodes|);
        if Orphan(t, n) {
          OrphanIsNoDir(t, n);
        }
      }
    }
  }

  lemma AddedMinds(t: Tree, path: seq<byte>, kind: Kind, mode: nat)
    requires Inv(t)
    ensures Minds(t, Added(t, path, kind, mode).tree)
  {
    hide Minds, SoundNodes, Queue, Balance, MadeChain, Resolve, Components, Paths.Extends, Replaced, Paths.Descend;
    MindsSelf(t);
    var comps := Components(path[..LastSlash(path)]);
    var m := MadeChain(t, ROOT, comps);
    Paths.MadeChainIs(t, ROOT, comps);
    ExtendsMinds(t, m.tree);
    ChainTracks(t, ROOT, comps);
    TracksInv(t, m.tree, None);
    var r := Resolve(m.tree, ROOT, path, false);
    if m.answer.Done? && r.At? {
      PlacedMinds(m.tree, r.spot, kind, mode);
      MindsOn(t, m.tree, PlacedAt(m.tree, r.spot, kind, mode).tree);
    }
  }

  lemma PlacedMinds(t: Tree, spot: Resolved, kind: Kind, mode: nat)
    requires Inv(t) && IsDir(t, spot.parent)
    ensures Minds(t, PlacedAt(t, spot, kind, mode).tree)
  {
    hide Minds, Inv, Replaced;
    var u := Alloc(t, Fresh(kind, mode, spot.parent));
    AllocMinds(t, kind, mode, spot.parent);
    DirIsLinked(t, spot.parent);
    ChildrenInRange(t, spot.parent, spot.name) by { InvSound(t); }
    assert Has(u, spot.parent, spot.name) ==> Has(t, spot.parent, spot.name);
    ReplacedMinds(u, spot.parent, spot.name, |t.nodes|);
    MindsOn(t, u, Replaced(u, spot.parent, spot.name, |t.nodes|));
  }

  lemma InvSound(t: Tree)
    requires Inv(t)
    ensures Sound(t)
  {
  }

  /** Every node without links is queued, or is empty already. */
  ghost predicate Accounted(t: Tree) {
    forall n: nat :: Orphan(t, n) ==> t.nodes[n].kind == File([])
  }

  /** Writes go to nodes that have a link or are still queued, as those behind a descriptor are. */
  predicate WritesHeld(t: Tree, op: Op) {
    op.Rewrite? ==> !Orphan(t, op.node)
  }

  lemma MindsAccounted(t: Tree, u: Tree)
    requires Minds(t, u) && Accounted(t)
    ensures Accounted(u)
  {
  }

  lemma StepMinds(t: Tree, op: Op)
    requires Inv(t) && Enabled(t, op) && !op.Rewrite? && !op.Release?
    ensures Minds(t, After(t, op))
  {
    hide SoundNodes, Queue, Balance, Minds, Added, MadeChain, Released, Components, Resolve, Created, Linked, Unlinked, Renamed, Paths.Extends, Paths.Descend;
    MindsSelf(t);
    match op
    case Add(path, kind, mode) => AddedMinds(t, path, kind, mode);
    case MakeChain(path) =>
      Paths.MadeChainIs(t, ROOT, Components(path));
      ExtendsMinds(t, MadeChain(t, ROOT, Components(path)).tree);
    case Create(base, path, follow, kind, mode, room) =>
      var r := Resolve(t, base, path, follow);
      if r.At? {
        CreatedMinds(t, r.spot.parent, r.spot.name, kind, mode, room);
      }
    case Link(oldBase, oldPath, newBase, newPath) =>
      var r, s := Resolve(t, oldBase, oldPath, true), Resolve(t, newBase, newPath, false);
      if r.At? && r.spot.node.Some? && !IsDir(t, r.spot.node.value) && s.At? {
        ChildInRange(t, r.spot.parent, r.spot.name);
        LinkedMinds(t, s.spot.parent, s.spot.name, r.spot.node.value);
      }
    case Unlink(base, path, rmdir) =>
      var r := Resolve(t, base, path, false);
      if r.At? {
        ChildrenInRange(t, r.spot.parent, r.spot.name);
        UnlinkedMinds(t, r.spot.parent, r.spot.name, rmdir);
      }
    case Rename(oldBase, oldPath, newBase, newPath) =>
      var r, s := Resolve(t, oldBase, oldPath, false), Resolve(t, newBase, newPath, false);
      if r.At? && s.At? {
        ChildrenInRange(t, r.spot.parent, r.spot.name);
        ChildrenInRange(t, s.spot.parent, s.spot.name);
        RenamedMinds(t, r.spot.parent, r.spot.name, s.spot.parent, s.spot.name);
      }
    case Rewrite(_, _) =>
    case Release(_) =>
  }

  lemma StepAccounted(t: Tree, op: Op)
    requires Inv(t) && Enabled(t, op) && WritesHeld(t, op) && Accounted(t)
    ensures Accounted(After(t, op))
  {
    hide SoundNodes, Queue, Balance, Minds, Added, MadeChain, AfterCreate, AfterLink, AfterUnlink, AfterRename, Released;
    if op.Release? {
      ReleasedTracks(t, op.referenced);
      ReleasedSize(t, op.referenced);
    } else if !op.Rewrite? {
      StepMinds(t, op);
      MindsAccounted(t, After(t, op));
    }
  }

  ghost predicate RunWritesHeld(t: Tree, ops: seq<Op>)
    requires Inv(t) && IsRun(t, ops)
    decreases |ops|
  {
    ops != [] ==> WritesHeld(t, ops[0]) && (StepInv(t, ops[0]); RunWritesHeld(After(t, ops[0]), ops[1..]))
  }

  lemma {:induction false} RunAccounted(t: Tree, ops: seq<Op>)
    requires Inv(t) && IsRun(t, ops) && RunWritesHeld(t, ops) && Accounted(t)
    ensures Accounted(RunTo(t, ops))
    decreases |ops|
  {
    hide Accounted, After, Balance, SoundNodes, Queue, WritesHeld;
    if ops != [] {
      StepInv(t, ops[0]);
      StepAccounted(t, ops[0]);
      RunAccounted(After(t, ops[0]), ops[1..]);
    }
  }

  lemma AccountedReleased(t: Tree, referenced: set<nat>, n: nat)
    requires Inv(t) && Accounted(t) && n < |t.nodes| && t.nodes[n].nlink == 0
    ensures n in t.unlinked || t.nodes[n].kind == File([])
    ensures n !in referenced ==> |Released(t, referenced).nodes| == |t.nodes| && Released(t, referenced).nodes[n].kind == File([])
  {
    hide Inv, Released, Tracks;
    assert n !in t.unlinked ==> Orphan(t, n);
    ReleasedTracks(t, referenced);
    ReleasedSize(t, referenced);
  }

  lemma ReleasedSize(t: Tree, referenced: set<nat>)
    ensures |Released(t, referenced).nodes| == |t.nodes|
  {
  }

  /** After every run, a node that has no links is waiting in the queue or is empty already; so
      reclaiming leaves empty every node that has no links and that no descriptor refers to. */
  lemma ReclaimComplete(t: Tree, ops: seq<Op>, referenced: set<nat>, n: nat)
    requires Inv(t) && IsRun(t, ops) && RunWritesHeld(t, ops) && Accounted(t)
    ensures var u := RunTo(t, ops);
            n < |u.nodes| && u.nodes[n].nlink == 0 ==>
            && (n in u.unlinked || u.nodes[n].kind == File([]))
            && (n !in referenced ==> |Released(u, referenced).nodes| == |u.nodes| && Released(u, referenced).nodes[n].kind == File([]))
  {
    hide Inv, IsRun, RunTo, Released, Accounted, RunWritesHeld, Tracks;
    RunAccounted(t, ops);
    var u := RunTo(t, ops);
    if n < |u.nodes| && u.nodes[n].nlink == 0 {
      AccountedReleased(u, referenced, n);
    }
  }
}

/** Link counts and deferred reclamation in the in-memory filesystem: nodes live in an arena,
    names live in directories, and a node's contents are freed once nothing names it. */
module VfsLinks {
  import opened Base
  import opened Chunks

  type Name = seq<byte>

  const ROOT: nat := 0
  const SLASH: byte := 47
  const DOT: Name := [46]
  const DOTDOT: Name := [46, 46]

  datatype Kind =
    | Dir(entries: map<Name, nat>)
    | File(data: seq<byte>)
    | Chunked(file: ChunkedFile)
    | Symlink(target: seq<byte>)
    | CharDev(dev: nat)

  datatype Node = Node(kind: Kind, mode: nat, nlink: nat, mtime: int, parent: nat)

  datatype Tree = Tree(nodes: seq<Node>, unlinked: seq<nat>)

  datatype Errno = ENOENT | EEXIST | ENOTDIR | EISDIR | ENOTEMPTY | ENOSPC | ELOOP

  datatype Answer = Done(node: nat) | Fail(errno: Errno)

  /** The tree an operation leaves, and what it answers. */
  datatype Outcome = Outcome(tree: Tree, answer: Answer)

  predicate IsDir(t: Tree, n: nat) {
    n < |t.nodes| && t.nodes[n].kind.Dir?
  }

  predicate Has(t: Tree, dir: nat, name: Name) {
    IsDir(t, dir) && name in t.nodes[dir].kind.entries
  }

  function Child(t: Tree, dir: nat, name: Name): nat
    requires Has(t, dir, name)
  {
    t.nodes[dir].kind.entries[name]
  }

  // -------------------------------------------------------- small edits

  function Alloc(t: Tree, n: Node): Tree {
    t.(nodes := t.nodes + [n])
  }

  function Fresh(kind: Kind, mode: nat, parent: nat): Node {
    Node(kind, mode, if kind.Dir? then 2 else 1, 0, parent)
  }

  function PutEntry(t: Tree, dir: nat, name: Name, child: nat): Tree
    requires IsDir(t, dir)
  {
    t.(nodes := t.nodes[dir := t.nodes[dir].(kind := Dir(t.nodes[dir].kind.entries[name := child]))])
  }

  function CutEntry(t: Tree, dir: nat, name: Name): Tree
    requires IsDir(t, dir)
  {
    t.(nodes := t.nodes[dir := t.nodes[dir].(kind := Dir(t.nodes[dir].kind.entries - {name}))])
  }

  function SetLinks(t: Tree, n: nat, nlink: nat): Tree
    requires n < |t.nodes|
  {
    t.(nodes := t.nodes[n := t.nodes[n].(nlink := nlink)])
  }

  /** One link fewer, saturating at zero; a node that reaches zero is queued once. */
  function DropLink(t: Tree, n: nat): Tree
    requires n < |t.nodes|
  {
    var nlink := if t.nodes[n].nlink == 0 then 0 else t.nodes[n].nlink - 1;
    var u := SetLinks(t, n, nlink);
    if nlink == 0 && n !in t.unlinked then u.(unlinked := t.unlinked + [n]) else u
  }

  // -------------------------------------------------------------- operations

  function Created(t: Tree, parent: nat, name: Name, kind: Kind, mode: nat, room: bool): (o: Outcome)
    requires parent < |t.nodes|
    ensures |o.tree.nodes| >= |t.nodes| && (o.answer.Done? ==> |o.tree.nodes| == |t.nodes| + 1)
  {
    if name == [] || name == DOT || name == DOTDOT then Outcome(t, Fail(EEXIST))
    else if !room then Outcome(t, Fail(ENOSPC))
    else
      var u := Alloc(t, Fresh(kind, mode, parent));
      if !IsDir(u, parent) then Outcome(u, Fail(ENOTDIR))
      else if Has(u, parent, name) then Outcome(u, Fail(EEXIST))
      else Outcome(PutEntry(u, parent, name, |t.nodes|), Done(|t.nodes|))
  }

  function Linked(t: Tree, parent: nat, name: Name, node: nat): Outcome
    requires parent < |t.nodes| && node < |t.nodes|
  {
    if !IsDir(t, parent) then Outcome(t, Fail(ENOTDIR))
    else if Has(t, parent, name) then Outcome(t, Fail(EEXIST))
    else
      var u := PutEntry(t, parent, name, node);
      Outcome(SetLinks(u, node, u.nodes[node].nlink + 1), Done(node))
  }

  function Unlinked(t: Tree, parent: nat, name: Name, rmdir: bool): Outcome
    requires parent < |t.nodes|
    requires Has(t, parent, name) ==> Child(t, parent, name) < |t.nodes|
  {
    if !IsDir(t, parent) then Outcome(t, Fail(ENOTDIR))
    else if !Has(t, parent, name) then Outcome(t, Fail(ENOENT))
    else
      var node := Child(t, parent, name);
      if IsDir(t, node) && !rmdir then Outcome(t, Fail(EISDIR))
      else if IsDir(t, node) && t.nodes[node].kind.entries != map[] then Outcome(t, Fail(ENOTEMPTY))
      else if !IsDir(t, node) && rmdir then Outcome(t, Fail(ENOTDIR))
      else Outcome(DropLink(CutEntry(t, parent, name), node), Done(node))
  }

  function Replaced(t: Tree, dir: nat, name: Name, node: nat): Tree
    requires IsDir(t, dir) && (Has(t, dir, name) ==> Child(t, dir, name) < |t.nodes|)
  {
    var u := PutEntry(t, dir, name, node);
    if Has(t, dir, name) && Child(t, dir, name) != node then DropLink(u, Child(t, dir, name)) else u
  }

  function Renamed(t: Tree, oldParent: nat, oldName: Name, newParent: nat, newName: Name): Outcome
    requires oldParent < |t.nodes| && newParent < |t.nodes|
    requires Has(t, oldParent, oldName) ==> Child(t, oldParent, oldName) < |t.nodes|
    requires Has(t, newParent, newName) ==> Child(t, newParent, newName) < |t.nodes|
  {
    if !IsDir(t, oldParent) then Outcome(t, Fail(ENOTDIR))
    else if !Has(t, oldParent, oldName) then Outcome(t, Fail(ENOENT))
    else if !IsDir(t, newParent) then Outcome(t, Fail(ENOTDIR))
    else if Has(t, newParent, newName) && IsDir(t, Child(t, newParent, newName))
            && t.nodes[Child(t, newParent, newName)].kind.entries != map[] then Outcome(t, Fail(ENOTEMPTY))
    else
      var node := Child(t, oldParent, oldName);
      var u := Replaced(CutEntry(t, oldParent, oldName), newParent, newName, node);
      Outcome(u.(nodes := u.nodes[node := u.nodes[node].(parent := newParent)]), Done(node))
  }

  /** Empties every queued node the caller does not list, and keeps the others queued. */
  function Released(t: Tree, referenced: set<nat>): Tree {
    Tree(Emptied(t.nodes, t.unlinked, referenced), Kept(t.unlinked, referenced))
  }

  function Emptied(nodes: seq<Node>, list: seq<nat>, referenced: set<nat>): (r: seq<Node>)
    ensures |r| == |nodes|
    decreases list
  {
    if list == [] then nodes
    else
      var n := list[0];
      Emptied(if n in referenced || n >= |nodes| then nodes else nodes[n := nodes[n].(kind := File([]))],
              list[1..], referenced)
  }

  function Kept(list: seq<nat>, referenced: set<nat>): seq<nat> {
    if list == [] then [] else (if list[0] in referenced then [list[0]] else []) + Kept(list[1..], referenced)
  }

  // ------------------------------------------------------- counting names

  function Naming(m: map<Name, nat>, n: nat): set<Name> {
    set k | k in m && m[k] == n
  }

  function NamesIn(d: Node, n: nat): nat {
    if d.kind.Dir? then |Naming(d.kind.entries, n)| else 0
  }

  /** How many directory entries, anywhere in the arena, name node `n`. */
  function Names(nodes: seq<Node>, n: nat): nat {
    if nodes == [] then 0 else Names(nodes[..|nodes| - 1], n) + NamesIn(nodes[|nodes| - 1], n)
  }

  lemma {:induction false} NamesUpdate(nodes: seq<Node>, i: nat, x: Node, n: nat)
    requires i < |nodes|
    ensures Names(nodes[i := x], n) == Names(nodes, n) - NamesIn(nodes[i], n) + NamesIn(x, n)
  {
    hide NamesIn;
    var last := |nodes| - 1;
    if i == last {
      assert nodes[i := x][..last] == nodes[..last];
    } else {
      NamesUpdate(nodes[..last], i, x, n);
      assert nodes[i := x][..last] == nodes[..last][i := x];
    }
  }

  lemma NamesAppend(nodes: seq<Node>, x: Node, n: nat)
    ensures Names(nodes + [x], n) == Names(nodes, n) + NamesIn(x, n)
  {
    hide NamesIn;
    assert (nodes + [x])[..|nodes|] == nodes;
  }

  lemma {:induction false} NamesAtLeast(nodes: seq<Node>, d: nat, n: nat)
    requires d < |nodes|
    ensures Names(nodes, n) >= NamesIn(nodes[d], n)
  {
    hide NamesIn;
    if d < |nodes| - 1 {
      NamesAtLeast(nodes[..|nodes| - 1], d, n);
    }
  }

  lemma NamingPut(m: map<Name, nat>, k: Name, c: nat, n: nat)
    ensures |Naming(m[k := c], n)| == |Naming(m, n)| - One(k in m && m[k] == n) + One(c == n)
  {
    var rest := Naming(m, n) - {k};
    assert Naming(m, n) == if k in m && m[k] == n then rest + {k} else rest;
    assert Naming(m[k := c], n) == if c == n then rest + {k} else rest;
  }

  lemma NamingCut(m: map<Name, nat>, k: Name, n: nat)
    ensures |Naming(m - {k}, n)| == |Naming(m, n)| - One(k in m && m[k] == n)
  {
    var rest := Naming(m, n) - {k};
    assert Naming(m, n) == if k in m && m[k] == n then rest + {k} else rest;
    assert Naming(m - {k}, n) == rest;
  }

  /** An entry is counted. */
  lemma NamedCounts(t: Tree, dir: nat, name: Name)
    requires Has(t, dir, name)
    ensures Names(t.nodes, Child(t, dir, name)) >= 1
  {
    var n := Child(t, dir, name);
    assert name in Naming(t.nodes[dir].kind.entries, n);
    NamesAtLeast(t.nodes, dir, n);
  }

  // ----------------------------------------------------------- the balance

  /** How far a node's link count exceeds the names it has, beyond the one a directory keeps
      for itself. */
  function Balance(t: Tree, n: nat): int
    requires n < |t.nodes|
  {
    t.nodes[n].nlink - Names(t.nodes, n) - One(t.nodes[n].kind.Dir?)
  }

  lemma PutBalance(t: Tree, dir: nat, name: Name, child: nat, n: nat)
    requires IsDir(t, dir) && n < |t.nodes|
    ensures Balance(PutEntry(t, dir, name, child), n) ==
            Balance(t, n) + One(Has(t, dir, name) && Child(t, dir, name) == n) - One(child == n)
  {
    hide Naming;
    NamesUpdate(t.nodes, dir, PutEntry(t, dir, name, child).nodes[dir], n);
    NamingPut(t.nodes[dir].kind.entries, name, child, n);
  }

  lemma CutBalance(t: Tree, dir: nat, name: Name, n: nat)
    requires IsDir(t, dir) && n < |t.nodes|
    ensures Balance(CutEntry(t, dir, name), n) ==
            Balance(t, n) + One(Has(t, dir, name) && Child(t, dir, name) == n)
  {
    hide Naming;
    NamesUpdate(t.nodes, dir, CutEntry(t, dir, name).nodes[dir], n);
    NamingCut(t.nodes[dir].kind.entries, name, n);
  }

  lemma SetLinksBalance(t: Tree, x: nat, nlink: nat, n: nat)
    requires x < |t.nodes| && n < |t.nodes|
    ensures Balance(SetLinks(t, x, nlink), n) ==
            Balance(t, n) + if x == n then nlink - t.nodes[n].nlink else 0
  {
    hide Naming;
    NamesUpdate(t.nodes, x, SetLinks(t, x, nlink).nodes[x], n);
  }

  lemma DropBalance(t: Tree, x: nat, n: nat)
    requires x < |t.nodes| && n < |t.nodes| && t.nodes[x].nlink > 0
    ensures Balance(DropLink(t, x), n) == Balance(t, n) - One(x == n)
  {
    SetLinksBalance(t, x, t.nodes[x].nlink - 1, n);
  }

  // ----------------------------------------------------- the kept invariant

  predicate InRange(entries: map<Name, nat>, count: nat) {
    forall name :: name in entries ==> entries[name] < count
  }

  predicate SoundNode(nodes: seq<Node>, x: Node) {
    && x.parent < |nodes| && nodes[x.parent].kind.Dir?
    && (x.kind.Dir? ==> InRange(x.kind.entries, |nodes|))
  }

  predicate SoundNodes(nodes: seq<Node>) {
    forall n :: 0 <= n < |nodes| ==> SoundNode(nodes, nodes[n])
  }

  /** The root is a directory, every index names a node, and every parent is a directory. */
  predicate Sound(t: Tree) {
    IsDir(t, ROOT) && SoundNodes(t.nodes)
  }

  lemma ChildInRange(t: Tree, dir: nat, name: Name)
    requires Sound(t) && Has(t, dir, name)
    ensures Child(t, dir, name) < |t.nodes|
  {
    assert SoundNode(t.nodes, t.nodes[dir]);
  }

  lemma ParentIsDir(t: Tree, n: nat)
    requires Sound(t) && n < |t.nodes|
    ensures IsDir(t, t.nodes[n].parent)
  {
    assert SoundNode(t.nodes, t.nodes[n]);
  }

  /** The queue lists, once each, nodes without links. */
  predicate Queue(t: Tree) {
    && (forall i :: 0 <= i < |t.unlinked| ==> t.unlinked[i] < |t.nodes| && t.nodes[t.unlinked[i]].nlink == 0)
    && (forall i, j :: 0 <= i < j < |t.unlinked| ==> t.unlinked[i] != t.unlinked[j])
  }

  ghost predicate Inv(t: Tree) {
    Sound(t) && Queue(t) && forall n :: 0 <= n < |t.nodes| ==> Balance(t, n) >= 0
  }

  /** One step from `t` to `u`: no node changes between directory and not, and every balance
      stays, except that of `gain`, which grows by one. */
  ghost predicate Tracks(t: Tree, u: Tree, gain: Option<nat>) {
    && Sound(u) && Queue(u) && |t.nodes| <= |u.nodes|
    && (forall n :: 0 <= n < |t.nodes| ==> t.nodes[n].kind.Dir? == u.nodes[n].kind.Dir?)
    && (forall n :: 0 <= n < |t.nodes| ==> Balance(u, n) == Balance(t, n) + One(gain == Some(n)))
    && (forall n :: |t.nodes| <= n < |u.nodes| ==> Balance(u, n) >= 0)
  }

  lemma TracksInv(t: Tree, u: Tree, gain: Option<nat>)
    requires Inv(t) && Tracks(t, u, gain)
    ensures Inv(u)
  {
    hide Balance, Sound, Queue;
    forall n | 0 <= n < |u.nodes| ensures Balance(u, n) >= 0 {
      if n < |t.nodes| {
        assert Balance(t, n) >= 0;
      }
    }
  }

  /** A queued node is not a directory, and nothing names it. */
  lemma QueuedIsUnnamed(t: Tree, i: nat)
    requires Inv(t) && i < |t.unlinked|
    ensures !IsDir(t, t.unlinked[i]) && Names(t.nodes, t.unlinked[i]) == 0
  {
    hide Names, Sound;
    assert Balance(t, t.unlinked[i]) >= 0;
  }

  /** A named node has a link to lose, so decrements never saturate. */
  lemma NamedHasLink(t: Tree, dir: nat, name: Name)
    requires Inv(t) && Has(t, dir, name)
    ensures Child(t, dir, name) < |t.nodes| && t.nodes[Child(t, dir, name)].nlink >= 1
    ensures Child(t, dir, name) !in t.unlinked
  {
    hide Names;
    NamedCounts(t, dir, name);
    ChildInRange(t, dir, name);
    assert Balance(t, Child(t, dir, name)) >= 0;
  }

  // ------------------------------------------------ each edit, structurally

  /** Editing one node keeps the structure when the new node is sound and directories stay. */
  lemma EditSound(nodes: seq<Node>, n: nat, x: Node)
    requires SoundNodes(nodes) && n < |nodes| && SoundNode(nodes, x) && x.kind.Dir? == nodes[n].kind.Dir?
    ensures SoundNodes(nodes[n := x])
  {
    hide InRange;
    var edited := nodes[n := x];
    forall m | 0 <= m < |nodes| ensures SoundNode(edited, edited[m]) {
      assert SoundNode(nodes, nodes[m]);
    }
  }

  lemma EditQueue(t: Tree, n: nat, x: Node)
    requires Queue(t) && n < |t.nodes| && (x.nlink == t.nodes[n].nlink || n !in t.unlinked)
    ensures Queue(t.(nodes := t.nodes[n := x]))
  {
  }

  lemma PutSound(t: Tree, dir: nat, name: Name, child: nat)
    requires Sound(t) && Queue(t) && IsDir(t, dir) && child < |t.nodes|
    ensures Sound(PutEntry(t, dir, name, child)) && Queue(PutEntry(t, dir, name, child))
  {
    hide SoundNodes, Queue;
    var x := PutEntry(t, dir, name, child).nodes[dir];
    assert SoundNode(t.nodes, x) by { ParentIsDir(t, dir); EntriesInRange(t, dir); }
    EditSound(t.nodes, dir, x);
    EditQueue(t, dir, x);
  }

  lemma EntriesInRange(t: Tree, dir: nat)
    requires Sound(t) && IsDir(t, dir)
    ensures InRange(t.nodes[dir].kind.entries, |t.nodes|)
  {
    assert SoundNode(t.nodes, t.nodes[dir]);
  }

  lemma CutSound(t: Tree, dir: nat, name: Name)
    requires Sound(t) && Queue(t) && IsDir(t, dir)
    ensures Sound(CutEntry(t, dir, name)) && Queue(CutEntry(t, dir, name))
  {
    hide SoundNodes, Queue;
    var x := CutEntry(t, dir, name).nodes[dir];
    assert SoundNode(t.nodes, x) by { ParentIsDir(t, dir); EntriesInRange(t, dir); }
    EditSound(t.nodes, dir, x);
    EditQueue(t, dir, x);
  }

  lemma FieldSound(t: Tree, n: nat, x: Node)
    requires Sound(t) && n < |t.nodes| && IsDir(t, x.parent)
    requires x.kind == t.nodes[n].kind || (!x.kind.Dir? && !t.nodes[n].kind.Dir?)
    ensures Sound(t.(nodes := t.nodes[n := x]))
  {
    hide SoundNodes, InRange;
    if x.kind.Dir? {
      EntriesInRange(t, n);
    }
    EditSound(t.nodes, n, x);
  }

  lemma DropSound(t: Tree, n: nat)
    requires Sound(t) && Queue(t) && n < |t.nodes| && t.nodes[n].nlink > 0
    ensures Sound(DropLink(t, n)) && Queue(DropLink(t, n))
  {
    hide Sound;
    assert n !in t.unlinked;
    var x := t.nodes[n].(nlink := t.nodes[n].nlink - 1);
    ParentIsDir(t, n);
    FieldSound(t, n, x);
    assert DropLink(t, n).nodes == t.nodes[n := x];
    SoundByNodes(t.(nodes := t.nodes[n := x]), DropLink(t, n));
  }

  lemma SoundByNodes(t: Tree, u: Tree)
    requires Sound(t) && u.nodes == t.nodes
    ensures Sound(u)
  {
  }

  lemma AllocSound(t: Tree, x: Node)
    requires Sound(t) && Queue(t) && SoundNode(t.nodes, x)
    ensures Sound(Alloc(t, x)) && Queue(Alloc(t, x))
  {
    var u := Alloc(t, x);
    forall n | 0 <= n < |u.nodes| ensures SoundNode(u.nodes, u.nodes[n]) {
      assert n < |t.nodes| ==> SoundNode(t.nodes, t.nodes[n]);
    }
  }

  lemma AllocTracks(t: Tree, kind: Kind, mode: nat, parent: nat)
    requires Inv(t) && IsDir(t, parent) && (kind.Dir? ==> kind.entries == map[])
    ensures Tracks(t, Alloc(t, Fresh(kind, mode, parent)), None)
    ensures Balance(Alloc(t, Fresh(kind, mode, parent)), |t.nodes|) == 1
  {
    hide Names, Sound, Queue;
    var x := Fresh(kind, mode, parent);
    AllocSound(t, x);
    forall n | 0 <= n <= |t.nodes| ensures Names(Alloc(t, x).nodes, n) == Names(t.nodes, n) {
      NamesAppend(t.nodes, x, n);
    }
    NobodyNames(t);
  }

  lemma {:induction false} NobodyNamesIn(nodes: seq<Node>, n: nat)
    requires forall d, k :: 0 <= d < |nodes| && nodes[d].kind.Dir? && k in nodes[d].kind.entries ==> nodes[d].kind.entries[k] != n
    ensures Names(nodes, n) == 0
  {
    if nodes != [] {
      var last := |nodes| - 1;
      assert forall d :: 0 <= d < last ==> nodes[..last][d] == nodes[d];
      NobodyNamesIn(nodes[..last], n);
      if nodes[last].kind.Dir? {
        assert Naming(nodes[last].kind.entries, n) == {};
      }
    }
  }

  lemma NobodyNames(t: Tree)
    requires Sound(t)
    ensures Names(t.nodes, |t.nodes|) == 0
  {
    forall d, k | 0 <= d < |t.nodes| && t.nodes[d].kind.Dir? && k in t.nodes[d].kind.entries
      ensures t.nodes[d].kind.entries[k] != |t.nodes|
    {
      ChildInRange(t, d, k);
    }
    NobodyNamesIn(t.nodes, |t.nodes|);
  }

  // ----------------------------------------------------- each operation

  lemma CreatedTracks(t: Tree, parent: nat, name: Name, kind: Kind, mode: nat, room: bool)
    requires Inv(t) && IsDir(t, parent) && (kind.Dir? ==> kind.entries == map[])
    ensures var o := Created(t, parent, name, kind, mode, room);
            && Tracks(t, o.tree, None)
            && (o.answer.Done? ==> o.answer.node == |t.nodes| && Balance(o.tree, |t.nodes|) == 0)
  {
    hide Balance, Sound, Queue;
    var o := Created(t, parent, name, kind, mode, room);
    if o.tree != t {
      AllocTracks(t, kind, mode, parent);
      var u := Alloc(t, Fresh(kind, mode, parent));
      if o.answer.Done? {
        PutSound(u, parent, name, |t.nodes|);
        forall n | 0 <= n < |u.nodes| ensures Balance(o.tree, n) == Balance(u, n) - One(|t.nodes| == n) {
          PutBalance(u, parent, name, |t.nodes|, n);
        }
      }
    }
  }

  lemma LinkedTracks(t: Tree, parent: nat, name: Name, node: nat)
    requires Inv(t) && parent < |t.nodes| && node < |t.nodes| && t.nodes[node].nlink >= 1
    ensures Tracks(t, Linked(t, parent, name, node).tree, None)
  {
    hide Balance, Sound;
    var o := Linked(t, parent, name, node);
    if o.answer.Done? {
      var u := PutEntry(t, parent, name, node);
      PutSound(t, parent, name, node);
      assert u.nodes[node].nlink == t.nodes[node].nlink;
      assert IsDir(u, u.nodes[node].parent) by { ParentIsDir(u, node); }
      FieldSound(u, node, u.nodes[node].(nlink := u.nodes[node].nlink + 1));
      forall n | 0 <= n < |t.nodes| ensures Balance(o.tree, n) == Balance(t, n) {
        PutBalance(t, parent, name, node, n);
        SetLinksBalance(u, node, u.nodes[node].nlink + 1, n);
      }
      assert Queue(o.tree);
    }
  }

  lemma UnlinkedTracks(t: Tree, parent: nat, name: Name, rmdir: bool)
    requires Inv(t) && parent < |t.nodes|
    requires Has(t, parent, name) ==> Child(t, parent, name) < |t.nodes|
    ensures Tracks(t, Unlinked(t, parent, name, rmdir).tree, None)
  {
    hide Balance, Names, Sound, Queue;
    var o := Unlinked(t, parent, name, rmdir);
    if o.answer.Done? {
      var u, node := CutEntry(t, parent, name), Child(t, parent, name);
      NamedHasLink(t, parent, name);
      CutSound(t, parent, name);
      DropSound(u, node);
      forall n | 0 <= n < |t.nodes| ensures Balance(o.tree, n) == Balance(t, n) {
        CutBalance(t, parent, name, n);
        DropBalance(u, node, n);
      }
    }
  }

  lemma ReplacedTracks(t: Tree, dir: nat, name: Name, node: nat)
    requires Sound(t) && Queue(t) && IsDir(t, dir) && node < |t.nodes|
    requires Has(t, dir, name) ==> Child(t, dir, name) < |t.nodes| && t.nodes[Child(t, dir, name)].nlink > 0
    ensures var u := Replaced(t, dir, name, node);
            && Sound(u) && Queue(u) && |u.nodes| == |t.nodes|
            && (forall n :: 0 <= n < |t.nodes| ==> t.nodes[n].kind.Dir? == u.nodes[n].kind.Dir?)
            && (forall n :: 0 <= n < |t.nodes| ==>
                  Balance(u, n) == Balance(t, n) - One(node == n) + One(node == n && Has(t, dir, name) && Child(t, dir, name) == n))
  {
    hide Balance, Sound, Queue;
    var p, u := PutEntry(t, dir, name, node), Replaced(t, dir, name, node);
    PutSound(t, dir, name, node);
    if Has(t, dir, name) && Child(t, dir, name) != node {
      DropSound(p, Child(t, dir, name));
      forall n | 0 <= n < |t.nodes| ensures Balance(u, n) == Balance(t, n) - One(node == n) {
        PutBalance(t, dir, name, node, n);
        DropBalance(p, Child(t, dir, name), n);
      }
    } else {
      forall n | 0 <= n < |t.nodes|
        ensures Balance(u, n) ==
                Balance(t, n) - One(node == n) + One(node == n && Has(t, dir, name) && Child(t, dir, name) == n)
      {
        PutBalance(t, dir, name, node, n);
      }
    }
  }

  /** The node two different names of which a rename would merge into one. */
  function Merged(t: Tree, oldParent: nat, oldName: Name, newParent: nat, newName: Name): Option<nat> {
    if && Has(t, oldParent, oldName) && Has(t, newParent, newName)
       && (oldParent, oldName) != (newParent, newName)
       && Child(t, oldParent, oldName) == Child(t, newParent, newName)
       && !(IsDir(t, Child(t, oldParent, oldName)) && t.nodes[Child(t, oldParent, oldName)].kind.entries != map[])
    then Some(Child(t, oldParent, oldName)) else None
  }

  /** A rename keeps every balance but that of a node it merges two names of: the count is then
      left one too high. */
  lemma RenamedTracks(t: Tree, oldParent: nat, oldName: Name, newParent: nat, newName: Name)
    requires Inv(t) && oldParent < |t.nodes| && newParent < |t.nodes|
    requires Has(t, oldParent, oldName) ==> Child(t, oldParent, oldName) < |t.nodes|
    requires Has(t, newParent, newName) ==> Child(t, newParent, newName) < |t.nodes|
    ensures Tracks(t, Renamed(t, oldParent, oldName, newParent, newName).tree,
                   Merged(t, oldParent, oldName, newParent, newName))
  {
    hide Balance, Sound, Queue, Replaced;
    var o := Renamed(t, oldParent, oldName, newParent, newName);
    if o.answer.Done? {
      var node, c := Child(t, oldParent, oldName), CutEntry(t, oldParent, oldName);
      CutSound(t, oldParent, oldName);
      if Has(c, newParent, newName) {
        NamedHasLink(t, newParent, newName);
      }
      var u := Replaced(c, newParent, newName, node);
      ReplacedTracks(c, newParent, newName, node);
      assert IsDir(u, newParent);
      var x := u.nodes[node].(parent := newParent);
      FieldSound(u, node, x);
      EditQueue(u, node, x);
      forall n | 0 <= n < |t.nodes|
        ensures Balance(o.tree, n) == Balance(t, n) + One(Merged(t, oldParent, oldName, newParent, newName) == Some(n))
      {
        CutBalance(t, oldParent, oldName, n);
        ParentBalance(u, node, newParent, n);
      }
    }
  }

  lemma ParentBalance(t: Tree, x: nat, parent: nat, n: nat)
    requires x < |t.nodes| && n < |t.nodes|
    ensures Balance(t.(nodes := t.nodes[x := t.nodes[x].(parent := parent)]), n) == Balance(t, n)
  {
    hide Naming;
    NamesUpdate(t.nodes, x, t.nodes[x].(parent := parent), n);
  }

  // ------------------------------------------------------------ reclamation

  lemma {:induction false} EmptiedAt(nodes: seq<Node>, list: seq<nat>, referenced: set<nat>, n: nat)
    requires n < |nodes|
    ensures Emptied(nodes, list, referenced)[n] ==
            if n in list && n !in referenced then nodes[n].(kind := File([])) else nodes[n]
    decreases list
  {
    if list != [] {
      var x := list[0];
      var next := if x in referenced || x >= |nodes| then nodes else nodes[x := nodes[x].(kind := File([]))];
      EmptiedAt(next, list[1..], referenced, n);
      assert list == [x] + list[1..];
    }
  }

  lemma {:induction false} KeptAre(list: seq<nat>, referenced: set<nat>)
    requires forall i, j :: 0 <= i < j < |list| ==> list[i] != list[j]
    ensures var r := Kept(list, referenced);
            && (forall n :: n in r <==> n in list && n in referenced)
            && (forall i, j :: 0 <= i < j < |r| ==> r[i] != r[j])
  {
    if list != [] {
      KeptAre(list[1..], referenced);
      assert list == [list[0]] + list[1..];
      assert list[0] !in list[1..];
    }
  }

  lemma {:induction false} SameNames(a: seq<Node>, b: seq<Node>, n: nat)
    requires |a| == |b| && forall i :: 0 <= i < |a| ==> NamesIn(a[i], n) == NamesIn(b[i], n)
    ensures Names(a, n) == Names(b, n)
  {
    hide NamesIn;
    if a != [] {
      SameNames(a[..|a| - 1], b[..|b| - 1], n);
    }
  }

  /** Reclaiming keeps every count, empties exactly the queued nodes nobody refers to, and
      leaves alone every directory, every named node and every referenced one. */
  lemma ReleasedTracks(t: Tree, referenced: set<nat>)
    requires Inv(t)
    ensures Tracks(t, Released(t, referenced), None)
    ensures var u := Released(t, referenced);
            && (forall n :: 0 <= n < |t.nodes| ==>
                  u.nodes[n] == if n in t.unlinked && n !in referenced then t.nodes[n].(kind := File([])) else t.nodes[n])
            && (forall n :: 0 <= n < |t.nodes| && (n in referenced || IsDir(t, n) || Names(t.nodes, n) > 0)
                            ==> u.nodes[n] == t.nodes[n])
            && (forall n :: n in u.unlinked <==> n in t.unlinked && n in referenced)
  {
    hide Emptied, Kept, Names, Balance, Sound, SoundNode;
    var u := Released(t, referenced);
    KeptAre(t.unlinked, referenced);
    forall n | 0 <= n < |t.nodes|
      ensures u.nodes[n] == if n in t.unlinked && n !in referenced then t.nodes[n].(kind := File([])) else t.nodes[n]
      ensures n in t.unlinked ==> !IsDir(t, n) && Names(t.nodes, n) == 0
    {
      EmptiedAt(t.nodes, t.unlinked, referenced, n);
      if n in t.unlinked {
        var i :| 0 <= i < |t.unlinked| && t.unlinked[i] == n;
        QueuedIsUnnamed(t, i);
      }
    }
    forall i | 0 <= i < |u.unlinked| ensures u.unlinked[i] < |u.nodes| && u.nodes[u.unlinked[i]].nlink == 0 {
      assert u.unlinked[i] in t.unlinked;
    }
    ReleaseSound(t, u);
    forall n | 0 <= n < |t.nodes| ensures Balance(u, n) == Balance(t, n) {
      ReleaseBalance(t, u, n);
    }
  }

  lemma ReleaseSound(t: Tree, u: Tree)
    requires Sound(t) && |u.nodes| == |t.nodes|
    requires forall n :: 0 <= n < |t.nodes| ==>
               u.nodes[n] == t.nodes[n] || (!IsDir(t, n) && u.nodes[n] == t.nodes[n].(kind := File([])))
    ensures Sound(u)
  {
    forall n | 0 <= n < |u.nodes| ensures SoundNode(u.nodes, u.nodes[n]) {
      assert SoundNode(t.nodes, t.nodes[n]);
    }
  }

  lemma ReleaseBalance(t: Tree, u: Tree, n: nat)
    requires |u.nodes| == |t.nodes| && n < |t.nodes|
    requires forall m :: 0 <= m < |t.nodes| ==>
               u.nodes[m] == t.nodes[m] || (!IsDir(t, m) && u.nodes[m] == t.nodes[m].(kind := File([])))
    ensures Balance(u, n) == Balance(t, n)
  {
    SameNames(t.nodes, u.nodes, n);
  }

  // ----------------------------------------------------------- the namespace

  /** What a name in a directory leads to. */
  function Lookup(t: Tree, dir: nat, name: Name): Option<nat> {
    if Has(t, dir, name) then Some(Child(t, dir, name)) else None
  }

  /** The two trees differ in the namespace only at one name, which now leads to `to`. */
  ghost predicate Points(t: Tree, u: Tree, dir: nat, name: Name, to: Option<nat>) {
    forall d: nat, k: Name :: Lookup(u, d, k) == if d == dir && k == name then to else Lookup(t, d, k)
  }

  /** Every node that is not a directory keeps its contents. */
  ghost predicate SameContents(t: Tree, u: Tree) {
    && |t.nodes| <= |u.nodes|
    && forall n :: 0 <= n < |t.nodes| && !t.nodes[n].kind.Dir? ==> u.nodes[n].kind == t.nodes[n].kind
  }

  /** Creating points a free name at a new node that holds what was asked for, and a refusal
      leaves the namespace alone. */
  lemma CreateNames(t: Tree, parent: nat, name: Name, kind: Kind, mode: nat, room: bool)
    requires parent < |t.nodes| && Sound(t) && (kind.Dir? ==> kind.entries == map[])
    ensures var o := Created(t, parent, name, kind, mode, room);
            && SameContents(t, o.tree)
            && (o.answer.Done? ==>
                  && Points(t, o.tree, parent, name, Some(o.answer.node)) && Lookup(t, parent, name) == None
                  && o.answer.node == |t.nodes| && o.tree.nodes[o.answer.node] == Fresh(kind, mode, parent))
            && (o.answer.Fail? ==> forall d: nat, k: Name :: Lookup(o.tree, d, k) == Lookup(t, d, k))
  {
    hide SoundNodes;
  }

  lemma LinkNames(t: Tree, parent: nat, name: Name, node: nat)
    requires parent < |t.nodes| && node < |t.nodes|
    ensures var o := Linked(t, parent, name, node);
            && SameContents(t, o.tree)
            && (o.answer.Done? ==> Points(t, o.tree, parent, name, Some(node)) && Lookup(t, parent, name) == None)
            && (o.answer.Fail? ==> o.tree == t)
  {
  }

  lemma UnlinkNames(t: Tree, parent: nat, name: Name, rmdir: bool)
    requires parent < |t.nodes| && (Has(t, parent, name) ==> Child(t, parent, name) < |t.nodes|)
    ensures var o := Unlinked(t, parent, name, rmdir);
            && SameContents(t, o.tree)
            && (o.answer.Done? ==> Points(t, o.tree, parent, name, None) && Lookup(t, parent, name) == Some(o.answer.node))
            && (o.answer.Fail? ==> o.tree == t)
  {
  }

  /** Renaming moves one name: the new one leads where the old one did, the old one is free
      unless they are the same, and no other name changes. */
  lemma RenameNames(t: Tree, oldParent: nat, oldName: Name, newParent: nat, newName: Name)
    requires oldParent < |t.nodes| && newParent < |t.nodes|
    requires Has(t, oldParent, oldName) ==> Child(t, oldParent, oldName) < |t.nodes|
    requires Has(t, newParent, newName) ==> Child(t, newParent, newName) < |t.nodes|
    ensures var o := Renamed(t, oldParent, oldName, newParent, newName);
            && SameContents(t, o.tree)
            && (o.answer.Fail? ==> o.tree == t)
            && (o.answer.Done? ==>
                  && Lookup(t, oldParent, oldName) == Some(o.answer.node)
                  && forall d: nat, k: Name :: Lookup(o.tree, d, k) ==
                       if d == newParent && k == newName then Some(o.answer.node)
                       else if d == oldParent && k == oldName then None
                       else Lookup(t, d, k))
  {
    hide Replaced, CutEntry;
    var o := Renamed(t, oldParent, oldName, newParent, newName);
    if o.answer.Done? {
      var node, c := o.answer.node, CutEntry(t, oldParent, oldName);
      CutNames(t, oldParent, oldName);
      assert Has(c, newParent, newName) ==> Lookup(c, newParent, newName) == Lookup(t, newParent, newName);
      ReplaceNames(c, newParent, newName, node);
      var u := Replaced(c, newParent, newName, node);
      forall d: nat, k: Name ensures Lookup(o.tree, d, k) == Lookup(u, d, k) {
      }
      assert forall n :: 0 <= n < |t.nodes| ==> o.tree.nodes[n].kind == u.nodes[n].kind;
    }
  }

  /** What was renamed has its new directory for a parent, and no other node's parent changes. */
  lemma RenameReparents(t: Tree, oldParent: nat, oldName: Name, newParent: nat, newName: Name)
    requires oldParent < |t.nodes| && newParent < |t.nodes|
    requires Has(t, oldParent, oldName) ==> Child(t, oldParent, oldName) < |t.nodes|
    requires Has(t, newParent, newName) ==> Child(t, newParent, newName) < |t.nodes|
    ensures var o := Renamed(t, oldParent, oldName, newParent, newName);
            && |o.tree.nodes| == |t.nodes|
            && forall n :: 0 <= n < |t.nodes| ==>
                 o.tree.nodes[n].parent == if o.answer == Done(n) then newParent else t.nodes[n].parent
  {
    hide Replaced, CutEntry;
    if Has(t, oldParent, oldName) && IsDir(t, newParent) {
      CutNames(t, oldParent, oldName);
      var c := CutEntry(t, oldParent, oldName);
      assert Has(c, newParent, newName) ==> Lookup(c, newParent, newName) == Lookup(t, newParent, newName);
      ReplaceNames(c, newParent, newName, Child(t, oldParent, oldName));
      EditParents(t, oldParent, oldName);
      ReplaceParents(c, newParent, newName, Child(t, oldParent, oldName));
    }
  }

  lemma EditParents(t: Tree, dir: nat, name: Name)
    requires IsDir(t, dir)
    ensures forall n :: 0 <= n < |t.nodes| ==> CutEntry(t, dir, name).nodes[n].parent == t.nodes[n].parent
  {
  }

  lemma ReplaceParents(t: Tree, dir: nat, name: Name, node: nat)
    requires IsDir(t, dir) && (Has(t, dir, name) ==> Child(t, dir, name) < |t.nodes|)
    ensures |Replaced(t, dir, name, node).nodes| == |t.nodes|
    ensures forall n :: 0 <= n < |t.nodes| ==> Replaced(t, dir, name, node).nodes[n].parent == t.nodes[n].parent
  {
  }

  lemma CutNames(t: Tree, dir: nat, name: Name)
    requires IsDir(t, dir)
    ensures Points(t, CutEntry(t, dir, name), dir, name, None)
    ensures SameContents(t, CutEntry(t, dir, name)) && |CutEntry(t, dir, name).nodes| == |t.nodes|
    ensures forall d: nat :: IsDir(CutEntry(t, dir, name), d) <==> IsDir(t, d)
  {
  }

  lemma ReplaceNames(t: Tree, dir: nat, name: Name, node: nat)
    requires IsDir(t, dir) && (Has(t, dir, name) ==> Child(t, dir, name) < |t.nodes|)
    ensures Points(t, Replaced(t, dir, name, node), dir, name, Some(node))
    ensures SameContents(t, Replaced(t, dir, name, node)) && |Replaced(t, dir, name, node).nodes| == |t.nodes|
  {
  }
}

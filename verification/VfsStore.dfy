/** The filesystem as its methods update it in place, against the trees of `VfsLinks` and
    `VfsTree`. */
module VfsStore {
  import opened Base
  import opened VfsLinks
  import opened VfsTree

  /** The nodes descriptors of any table refer to. */
  function Referred(tables: seq<seq<Option<nat>>>): set<nat> {
    if tables == [] then {} else Referred(tables[..|tables| - 1]) + InTable(tables[|tables| - 1])
  }

  function InTable(table: seq<Option<nat>>): set<nat> {
    if table == [] then {}
    else InTable(table[..|table| - 1]) + if table[|table| - 1].Some? then {table[|table| - 1].value} else {}
  }

  /** A node is referred to exactly when some descriptor of some table names it. */
  lemma {:induction false} ReferredIs(tables: seq<seq<Option<nat>>>, n: nat)
    ensures n in Referred(tables) <==> exists i :: 0 <= i < |tables| && Some(n) in tables[i]
  {
    if tables != [] {
      var last := |tables| - 1;
      ReferredIs(tables[..last], n);
      InTableIs(tables[last], n);
      assert forall i :: 0 <= i < last ==> tables[..last][i] == tables[i];
    }
  }

  lemma {:induction false} InTableIs(table: seq<Option<nat>>, n: nat)
    ensures n in InTable(table) <==> Some(n) in table
  {
    if table != [] {
      InTableIs(table[..|table| - 1], n);
      assert table == table[..|table| - 1] + [table[|table| - 1]];
    }
  }

  class Vfs {
    var nodes: seq<Node>
    var unlinked: seq<nat>

    function State(): Tree
      reads this
    {
      Tree(nodes, unlinked)
    }

    constructor ()
      ensures State() == Bare() && Inv(State())
    {
      nodes := [Node(Dir(map[]), 0x1ed, 2, 0, ROOT)];
      unlinked := [];
      new;
      BareInv();
    }

    method Insert(dir: nat, name: Name, child: nat)
      requires IsDir(State(), dir)
      modifies this
      ensures State() == PutEntry(old(State()), dir, name, child)
    {
      nodes := nodes[dir := nodes[dir].(kind := Dir(nodes[dir].kind.entries[name := child]))];
    }

    method Drop(node: nat)
      requires node < |nodes|
      modifies this
      ensures State() == DropLink(old(State()), node)
    {
      var nlink := if nodes[node].nlink == 0 then 0 else nodes[node].nlink - 1;
      nodes := nodes[node := nodes[node].(nlink := nlink)];
      if nlink == 0 && node !in unlinked {
        unlinked := unlinked + [node];
      }
    }

    method Create(parent: nat, name: Name, kind: Kind, mode: nat, room: bool) returns (r: Answer)
      requires parent < |nodes|
      modifies this
      ensures Outcome(State(), r) == Created(old(State()), parent, name, kind, mode, room)
    {
      if name == [] || name == DOT || name == DOTDOT {
        return Fail(EEXIST);
      }
      if !room {
        return Fail(ENOSPC);
      }
      var node := |nodes|;
      nodes := nodes + [Fresh(kind, mode, parent)];
      if !nodes[parent].kind.Dir? {
        return Fail(ENOTDIR);
      }
      if name in nodes[parent].kind.entries {
        return Fail(EEXIST);
      }
      Insert(parent, name, node);
      return Done(node);
    }

    method Link(parent: nat, name: Name, node: nat) returns (r: Answer)
      requires parent < |nodes| && node < |nodes|
      modifies this
      ensures Outcome(State(), r) == Linked(old(State()), parent, name, node)
    {
      if !nodes[parent].kind.Dir? {
        return Fail(ENOTDIR);
      }
      if name in nodes[parent].kind.entries {
        return Fail(EEXIST);
      }
      Insert(parent, name, node);
      nodes := nodes[node := nodes[node].(nlink := nodes[node].nlink + 1)];
      return Done(node);
    }

    method Unlink(parent: nat, name: Name, rmdir: bool) returns (r: Answer)
      requires parent < |nodes|
      requires Has(State(), parent, name) ==> Child(State(), parent, name) < |nodes|
      modifies this
      ensures Outcome(State(), r) == Unlinked(old(State()), parent, name, rmdir)
    {
      if !nodes[parent].kind.Dir? {
        return Fail(ENOTDIR);
      }
      if name !in nodes[parent].kind.entries {
        return Fail(ENOENT);
      }
      var node := nodes[parent].kind.entries[name];
      if nodes[node].kind.Dir? {
        if !rmdir {
          return Fail(EISDIR);
        }
        if nodes[node].kind.entries != map[] {
          return Fail(ENOTEMPTY);
        }
      } else if rmdir {
        return Fail(ENOTDIR);
      }
      nodes := nodes[parent := nodes[parent].(kind := Dir(nodes[parent].kind.entries - {name}))];
      Drop(node);
      return Done(node);
    }

    method Rename(oldParent: nat, oldName: Name, newParent: nat, newName: Name) returns (r: Answer)
      requires oldParent < |nodes| && newParent < |nodes|
      requires Has(State(), oldParent, oldName) ==> Child(State(), oldParent, oldName) < |nodes|
      requires Has(State(), newParent, newName) ==> Child(State(), newParent, newName) < |nodes|
      modifies this
      ensures Outcome(State(), r) == Renamed(old(State()), oldParent, oldName, newParent, newName)
    {
      if !nodes[oldParent].kind.Dir? {
        return Fail(ENOTDIR);
      }
      if oldName !in nodes[oldParent].kind.entries {
        return Fail(ENOENT);
      }
      var node := nodes[oldParent].kind.entries[oldName];
      if !nodes[newParent].kind.Dir? {
        return Fail(ENOTDIR);
      }
      if newName in nodes[newParent].kind.entries {
        var existing := nodes[nodes[newParent].kind.entries[newName]].kind;
        if existing.Dir? && existing.entries != map[] {
          return Fail(ENOTEMPTY);
        }
      }
      nodes := nodes[oldParent := nodes[oldParent].(kind := Dir(nodes[oldParent].kind.entries - {oldName}))];
      Replace(newParent, newName, node);
      nodes := nodes[node := nodes[node].(parent := newParent)];
      return Done(node);
    }

    /** Points a name at a node; what it named before loses a link. */
    method Replace(dir: nat, name: Name, node: nat)
      requires IsDir(State(), dir) && (Has(State(), dir, name) ==> Child(State(), dir, name) < |nodes|)
      modifies this
      ensures State() == Replaced(old(State()), dir, name, node)
    {
      var displaced := if name in nodes[dir].kind.entries then Some(nodes[dir].kind.entries[name]) else None;
      Insert(dir, name, node);
      if displaced.Some? && displaced.value != node {
        Drop(displaced.value);
      }
    }

    method ReleaseUnreferenced(referenced: set<nat>)
      modifies this
      ensures State() == Released(old(State()), referenced)
    {
      hide Emptied, Kept;
      var list := unlinked;
      var stillOpen: seq<nat> := [];
      assert list[0..] == list && list[|list|..] == [];
      for i := 0 to |list|
        invariant Emptied(nodes, list[i..], referenced) == Emptied(old(nodes), list, referenced)
        invariant stillOpen + Kept(list[i..], referenced) == Kept(list, referenced)
      {
        var node := list[i];
        TailStep(nodes, list, i, referenced);
        assert stillOpen + Kept(list[i..], referenced) ==
               (stillOpen + if node in referenced then [node] else []) + Kept(list[i + 1..], referenced);
        if node in referenced {
          stillOpen := stillOpen + [node];
        } else if node < |nodes| {
          nodes := nodes[node := nodes[node].(kind := File([]))];
        }
      }
      NothingLeft(nodes, referenced);
      unlinked := stillOpen;
    }

    /** Frees what is unlinked and no descriptor of any table still names. */
    method Reclaim(tables: seq<seq<Option<nat>>>)
      modifies this
      ensures State() == Released(old(State()), Referred(tables))
    {
      if unlinked == [] {
        return;
      }
      var referenced := {};
      for i := 0 to |tables|
        invariant referenced == Referred(tables[..i])
        invariant State() == old(State())
      {
        ghost var before := referenced;
        var table := tables[i];
        for j := 0 to |table|
          invariant referenced == before + InTable(table[..j])
          invariant State() == old(State())
        {
          assert table[..j + 1][..j] == table[..j];
          if table[j].Some? {
            referenced := referenced + {table[j].value};
          }
        }
        assert table[..|table|] == table;
        assert tables[..i + 1][..i] == tables[..i];
      }
      assert tables[..|tables|] == tables;
      ReleaseUnreferenced(referenced);
    }

    method MkdirP(path: seq<byte>) returns (r: Answer)
      requires Sound(State()) && Queue(State())
      modifies this
      ensures Outcome(State(), r) == MadeChain(old(State()), ROOT, Components(path))
    {
      hide Queue, SoundNodes, Components;
      var comps := Components(path);
      var current: nat := ROOT;
      for i := 0 to |comps|
        invariant Sound(State()) && Queue(State()) && current < |nodes|
        invariant MadeChain(State(), current, comps[i..]) == MadeChain(old(State()), ROOT, comps)
      {
        var c := comps[i];
        assert comps[i..][0] == c && comps[i..][1..] == comps[i + 1..];
        if c == DOTDOT {
          ParentIsDir(State(), current);
          current := nodes[current].parent;
        } else {
          if !nodes[current].kind.Dir? {
            return Fail(ENOTDIR);
          }
          if c in nodes[current].kind.entries {
            ChildInRange(State(), current, c);
            if !nodes[nodes[current].kind.entries[c]].kind.Dir? {
              return Fail(ENOTDIR);
            }
            current := nodes[current].kind.entries[c];
          } else {
            NewDirSound(State(), current, c);
            var node := |nodes|;
            nodes := nodes + [Fresh(Dir(map[]), 0x1ed, current)];
            Insert(current, c, node);
            current := node;
          }
        }
      }
      return Done(current);
    }

    method AddNode(path: seq<byte>, kind: Kind, mode: nat) returns (r: Answer)
      requires Sound(State()) && Queue(State())
      modifies this
      ensures Outcome(State(), r) == Added(old(State()), path, kind, mode)
    {
      hide Queue, SoundNodes, Components, MadeChain, ResolveDepth;
      if !kind.Dir? {
        var there := ResolvePath(ROOT, path, false);
        if there.At? && there.spot.node.Some? && IsDir(State(), there.spot.node.value) {
          return Fail(EISDIR);
        }
      }
      var made := MkdirP(path[..LastSlash(path)]);
      if made.Fail? {
        return made;
      }
      var found := ResolvePath(ROOT, path, false);
      if found.Lost? {
        return Fail(found.errno);
      }
      var node := |nodes|;
      ChildrenInRange(State(), found.spot.parent, found.spot.name);
      nodes := nodes + [Fresh(kind, mode, found.spot.parent)];
      Replace(found.spot.parent, found.spot.name, node);
      return Done(node);
    }

    method ResolvePath(start: nat, path: seq<byte>, follow: bool) returns (r: Found)
      requires Sound(State()) && IsDir(State(), start)
      ensures r == Resolve(State(), start, path, follow)
    {
      if path == [] {
        return Lost(ENOENT);
      }
      r := ResolveFrom(start, path, follow, 0);
    }

    method ResolveFrom(start: nat, path: seq<byte>, follow: bool, depth: nat) returns (r: Found)
      requires Sound(State()) && IsDir(State(), start) && depth <= 9
      ensures r == ResolveDepth(State(), start, path, follow, depth)
      decreases 9 - depth
    {
      hide SoundNodes, Components;
      if depth > 8 {
        return Lost(ELOOP);
      }
      var current: nat := if path != [] && path[0] == SLASH then ROOT else start;
      var comps := Components(path);
      if comps == [] {
        return At(Resolved(nodes[current].parent, DOT, Some(current)));
      }
      for i := 0 to |comps|
        invariant IsDir(State(), current)
        invariant i < |comps| ==> Walk(State(), current, comps[i..], follow, depth) == ResolveDepth(State(), start, path, follow, depth)
        invariant i < |comps|
      {
        var c, last := comps[i], i + 1 == |comps|;
        assert comps[i..][0] == c && comps[i..][1..] == comps[i + 1..];
        if c == DOTDOT {
          ParentIsDir(State(), current);
          current := nodes[current].parent;
          if last {
            return At(Resolved(nodes[current].parent, DOT, Some(current)));
          }
        } else if c !in nodes[current].kind.entries {
          return if last then At(Resolved(current, c, None)) else Lost(ENOENT);
        } else {
          ChildInRange(State(), current, c);
          var next := nodes[current].kind.entries[c];
          var link := nodes[next].kind.Symlink?;
          if last {
            if follow && link {
              r := ResolveFrom(current, nodes[next].kind.target, true, depth + 1);
              return;
            }
            return At(Resolved(current, c, Some(next)));
          }
          if link {
            var through := ResolveFrom(current, nodes[next].kind.target, true, depth + 1);
            if through.Lost? {
              return through;
            }
            if through.spot.node.None? {
              return Lost(ENOENT);
            }
            next := through.spot.node.value;
          }
          if !IsDir(State(), next) {
            return Lost(ENOTDIR);
          }
          current := next;
        }
      }
    }
  }

  lemma NothingLeft(nodes: seq<Node>, referenced: set<nat>)
    ensures Emptied(nodes, [], referenced) == nodes && Kept([], referenced) == []
  {
  }

  lemma TailStep(nodes: seq<Node>, list: seq<nat>, i: nat, referenced: set<nat>)
    requires i < |list|
    ensures var n := list[i];
            && Kept(list[i..], referenced) == (if n in referenced then [n] else []) + Kept(list[i + 1..], referenced)
            && Emptied(nodes, list[i..], referenced) ==
               Emptied(if n in referenced || n >= |nodes| then nodes else nodes[n := nodes[n].(kind := File([]))],
                       list[i + 1..], referenced)
  {
    assert list[i..][0] == list[i] && list[i..][1..] == list[i + 1..];
  }
}

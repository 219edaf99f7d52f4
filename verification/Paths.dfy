/** What a path means: which components it has, where it starts, and how each component leads
    on, stated as relations and without the loop that follows them. */
module Paths {
  import opened Base
  import Text
  import opened VfsLinks
  import opened VfsTree

  /** A directory reached without naming an entry. */
  ghost predicate Itself(t: Tree, n: nat, spot: Resolved) {
    n < |t.nodes| && spot == Resolved(t.nodes[n].parent, DOT, Some(n))
  }

  /** Where a path starts. */
  function Origin(path: seq<byte>, start: nat): nat {
    if [SLASH] <= path then ROOT else start
  }

  /** Directory `d` holds a symbolic link with this target under this name. */
  ghost predicate LinkAt(t: Tree, d: nat, c: Name, target: seq<byte>)
    requires Sound(t)
  {
    Has(t, d, c) && (ChildInRange(t, d, c); t.nodes[Child(t, d, c)].kind == Symlink(target))
  }

  /** The component `c` names `spot` in directory `d`: its parent for "..", an entry or the place of
      one, or what the target of a link there leads to, through at most `links` more links. */
  ghost predicate Names(t: Tree, d: nat, c: Name, spot: Resolved, follow: bool, links: nat)
    requires Sound(t)
    decreases links, 0
  {
    IsDir(t, d) &&
    if c == DOTDOT then Itself(t, t.nodes[d].parent, spot)
    else if !Has(t, d, c) then spot == Resolved(d, c, None)
    else if follow && exists target :: LinkAt(t, d, c, target) then
      links > 0 && exists target :: LinkAt(t, d, c, target) && Chain(t, Origin(target, d), Components(target), spot, true, links - 1)
    else spot == Resolved(d, c, Some(Child(t, d, c)))
  }

  /** The component leads from directory `d` to directory `next`. */
  ghost predicate Leads(t: Tree, d: nat, c: Name, next: nat, links: nat)
    requires Sound(t)
    decreases links, 1
  {
    IsDir(t, next) && exists spot :: Names(t, d, c, spot, true, links) && spot.node == Some(next)
  }

  /** The directories passed on the way to a component. */
  ghost predicate Route(t: Tree, d: nat, comps: seq<Name>, route: seq<nat>, links: nat)
    requires Sound(t)
    decreases links, 2
  {
    && 0 < |route| <= |comps| && route[0] == d
    && forall i :: 0 <= i < |route| - 1 ==> Leads(t, route[i], comps[i], route[i + 1], links)
  }

  /** The components lead, one after the other, from directory `d` to `spot`. */
  ghost predicate Chain(t: Tree, d: nat, comps: seq<Name>, spot: Resolved, follow: bool, links: nat)
    requires Sound(t)
    decreases links, 3
  {
    if comps == [] then Itself(t, d, spot)
    else
      exists route :: Route(t, d, comps, route, links) && |route| == |comps| &&
        Names(t, route[|route| - 1], comps[|route| - 1], spot, follow, links)
  }

  /** What a component that is not the last must not turn out to be. */
  ghost predicate NotDir(t: Tree, spot: Resolved, e: Errno) {
    if spot.node.None? then e == ENOENT else !IsDir(t, spot.node.value) && e == ENOTDIR
  }

  /** The component fails with `e`: one link too many, a link whose own target fails, or, before the
      last component, nothing there or no directory. */
  ghost predicate Fails(t: Tree, d: nat, c: Name, e: Errno, last: bool, follow: bool, links: nat)
    requires Sound(t)
    decreases links, 4
  {
    || ((!last || follow) && c != DOTDOT &&
        exists target :: LinkAt(t, d, c, target) && (links == 0 ==> e == ELOOP) &&
          (links > 0 ==> Broken(t, Origin(target, d), Components(target), e, true, links - 1)))
    || (!last && exists spot :: Names(t, d, c, spot, true, links) && NotDir(t, spot, e))
  }

  /** Some component on the way fails with `e`. */
  ghost predicate Broken(t: Tree, d: nat, comps: seq<Name>, e: Errno, follow: bool, links: nat)
    requires Sound(t)
    decreases links, 5
  {
    exists route :: Route(t, d, comps, route, links) &&
      Fails(t, route[|route| - 1], comps[|route| - 1], e, |route| == |comps|, follow, links)
  }

  // ------------------------------------------------------- one component at a time

  lemma ChainOne(t: Tree, d: nat, c: Name, spot: Resolved, follow: bool, links: nat)
    requires Sound(t)
    ensures Chain(t, d, [c], spot, follow, links) <==> Names(t, d, c, spot, follow, links)
  {
    hide Names, Leads, Route, Chain;
    if Chain(t, d, [c], spot, follow, links) {
      var route := RouteOf(t, d, [c], spot, follow, links);
      RouteAtStart(t, d, [c], route, links);
    }
    if Names(t, d, c, spot, follow, links) {
      RouteStarts(t, d, [c], links);
      ChainBy(t, d, [c], [d], spot, follow, links);
    }
  }

  lemma BrokenOne(t: Tree, d: nat, c: Name, e: Errno, follow: bool, links: nat)
    requires Sound(t)
    ensures Broken(t, d, [c], e, follow, links) <==> Fails(t, d, c, e, true, follow, links)
  {
    hide Names, Leads, Fails, Route, Broken;
    if Broken(t, d, [c], e, follow, links) {
      var route := BreakOf(t, d, [c], e, follow, links);
    }
    if Fails(t, d, c, e, true, follow, links) {
      RouteStarts(t, d, [c], links);
      BrokenBy(t, d, [c], [d], e, follow, links);
    }
  }

  lemma RouteGrows(t: Tree, d: nat, comps: seq<Name>, next: nat, route: seq<nat>, links: nat)
    requires Sound(t) && comps != [] && Leads(t, d, comps[0], next, links) && Route(t, next, comps[1..], route, links)
    ensures Route(t, d, comps, [d] + route, links)
  {
    hide Leads;
    var long := [d] + route;
    forall i | 0 <= i < |long| - 1
      ensures Leads(t, long[i], comps[i], long[i + 1], links)
    {
      if i > 0 {
        assert Leads(t, route[i - 1], comps[1..][i - 1], route[i], links);
      }
    }
  }

  lemma RouteShrinks(t: Tree, d: nat, comps: seq<Name>, route: seq<nat>, links: nat)
    requires Sound(t) && Route(t, d, comps, route, links) && |route| > 1
    ensures Leads(t, d, comps[0], route[1], links) && Route(t, route[1], comps[1..], route[1..], links)
  {
    hide Leads;
    forall i | 0 <= i < |route| - 2
      ensures Leads(t, route[1..][i], comps[1..][i], route[1..][i + 1], links)
    {
      assert Leads(t, route[i + 1], comps[i + 1], route[i + 2], links);
    }
  }

  lemma ChainMore(t: Tree, d: nat, comps: seq<Name>, spot: Resolved, follow: bool, links: nat)
    requires Sound(t) && |comps| > 1
    ensures Chain(t, d, comps, spot, follow, links) <==>
            exists next :: Leads(t, d, comps[0], next, links) && Chain(t, next, comps[1..], spot, follow, links)
  {
    hide Names, Leads, Route, Chain;
    if Chain(t, d, comps, spot, follow, links) {
      var next := ChainFirst(t, d, comps, spot, follow, links);
    }
    if next :| Leads(t, d, comps[0], next, links) && Chain(t, next, comps[1..], spot, follow, links) {
      ChainGrows(t, d, comps, next, spot, follow, links);
    }
  }

  lemma ChainBy(t: Tree, d: nat, comps: seq<Name>, route: seq<nat>, spot: Resolved, follow: bool, links: nat)
    requires Sound(t) && Route(t, d, comps, route, links) && |route| == |comps|
    requires Names(t, route[|route| - 1], comps[|route| - 1], spot, follow, links)
    ensures Chain(t, d, comps, spot, follow, links)
  {
    hide Names, Leads;
  }

  lemma RouteOf(t: Tree, d: nat, comps: seq<Name>, spot: Resolved, follow: bool, links: nat) returns (route: seq<nat>)
    requires Sound(t) && comps != [] && Chain(t, d, comps, spot, follow, links)
    ensures Route(t, d, comps, route, links) && |route| == |comps|
    ensures Names(t, route[|route| - 1], comps[|route| - 1], spot, follow, links)
  {
    hide Names, Leads, Route;
    route :| Route(t, d, comps, route, links) && |route| == |comps| &&
      Names(t, route[|route| - 1], comps[|route| - 1], spot, follow, links);
  }

  lemma BrokenBy(t: Tree, d: nat, comps: seq<Name>, route: seq<nat>, e: Errno, follow: bool, links: nat)
    requires Sound(t) && Route(t, d, comps, route, links) && 0 < |route| <= |comps|
    requires Fails(t, route[|route| - 1], comps[|route| - 1], e, |route| == |comps|, follow, links)
    ensures Broken(t, d, comps, e, follow, links)
  {
    hide Names, Leads, Route, Fails;
  }

  lemma BreakOf(t: Tree, d: nat, comps: seq<Name>, e: Errno, follow: bool, links: nat) returns (route: seq<nat>)
    requires Sound(t) && Broken(t, d, comps, e, follow, links)
    ensures Route(t, d, comps, route, links) && 0 < |route| <= |comps| && route[0] == d
    ensures Fails(t, route[|route| - 1], comps[|route| - 1], e, |route| == |comps|, follow, links)
  {
    hide Names, Leads, Fails;
    route :| Route(t, d, comps, route, links) &&
      Fails(t, route[|route| - 1], comps[|route| - 1], e, |route| == |comps|, follow, links);
  }

  lemma ChainFirst(t: Tree, d: nat, comps: seq<Name>, spot: Resolved, follow: bool, links: nat) returns (next: nat)
    requires Sound(t) && |comps| > 1 && Chain(t, d, comps, spot, follow, links)
    ensures Leads(t, d, comps[0], next, links) && Chain(t, next, comps[1..], spot, follow, links)
  {
    hide Names, Leads, Route, Chain;
    var route := RouteOf(t, d, comps, spot, follow, links);
    RouteShrinks(t, d, comps, route, links);
    next := route[1];
    assert route[1..][|route| - 2] == route[|route| - 1];
    ChainBy(t, next, comps[1..], route[1..], spot, follow, links);
  }

  lemma ChainGrows(t: Tree, d: nat, comps: seq<Name>, next: nat, spot: Resolved, follow: bool, links: nat)
    requires Sound(t) && |comps| > 1 && Leads(t, d, comps[0], next, links) && Chain(t, next, comps[1..], spot, follow, links)
    ensures Chain(t, d, comps, spot, follow, links)
  {
    hide Names, Leads, Route, Chain;
    var route := RouteOf(t, next, comps[1..], spot, follow, links);
    RouteGrows(t, d, comps, next, route, links);
    assert ([d] + route)[|route|] == route[|route| - 1];
    ChainBy(t, d, comps, [d] + route, spot, follow, links);
  }

  lemma BrokenMore(t: Tree, d: nat, comps: seq<Name>, e: Errno, follow: bool, links: nat)
    requires Sound(t) && |comps| > 1
    ensures Broken(t, d, comps, e, follow, links) <==>
            || Fails(t, d, comps[0], e, false, follow, links)
            || exists next :: Leads(t, d, comps[0], next, links) && Broken(t, next, comps[1..], e, follow, links)
  {
    hide Names, Leads, Route, Fails, Broken;
    if Broken(t, d, comps, e, follow, links) && !Fails(t, d, comps[0], e, false, follow, links) {
      var next := BrokenLater(t, d, comps, e, follow, links);
    }
    if Fails(t, d, comps[0], e, false, follow, links) {
      BrokenAtOnce(t, d, comps, e, follow, links);
    }
    if next :| Leads(t, d, comps[0], next, links) && Broken(t, next, comps[1..], e, follow, links) {
      BrokenGrows(t, d, comps, next, e, follow, links);
    }
  }

  lemma BrokenAtOnce(t: Tree, d: nat, comps: seq<Name>, e: Errno, follow: bool, links: nat)
    requires Sound(t) && |comps| > 1 && Fails(t, d, comps[0], e, false, follow, links)
    ensures Broken(t, d, comps, e, follow, links)
  {
    hide Names, Leads, Route, Fails, Broken;
    RouteStarts(t, d, comps, links);
    BrokenBy(t, d, comps, [d], e, follow, links);
  }

  lemma BrokenLater(t: Tree, d: nat, comps: seq<Name>, e: Errno, follow: bool, links: nat) returns (next: nat)
    requires Sound(t) && |comps| > 1 && Broken(t, d, comps, e, follow, links) && !Fails(t, d, comps[0], e, false, follow, links)
    ensures Leads(t, d, comps[0], next, links) && Broken(t, next, comps[1..], e, follow, links)
  {
    hide Names, Leads, Route, Fails, Broken;
    var route := BreakOf(t, d, comps, e, follow, links);
    RouteShrinks(t, d, comps, route, links);
    next := route[1];
    assert route[1..][|route| - 2] == route[|route| - 1];
    BrokenBy(t, next, comps[1..], route[1..], e, follow, links);
  }

  lemma BrokenGrows(t: Tree, d: nat, comps: seq<Name>, next: nat, e: Errno, follow: bool, links: nat)
    requires Sound(t) && |comps| > 1 && Leads(t, d, comps[0], next, links) && Broken(t, next, comps[1..], e, follow, links)
    ensures Broken(t, d, comps, e, follow, links)
  {
    hide Names, Leads, Route, Fails, Broken;
    var route := BreakOf(t, next, comps[1..], e, follow, links);
    RouteGrows(t, d, comps, next, route, links);
    assert ([d] + route)[|route|] == route[|route| - 1];
    BrokenBy(t, d, comps, [d] + route, e, follow, links);
  }

  lemma RouteAtStart(t: Tree, d: nat, comps: seq<Name>, route: seq<nat>, links: nat)
    requires Sound(t) && Route(t, d, comps, route, links)
    ensures route[0] == d
  {
  }

  lemma RouteStarts(t: Tree, d: nat, comps: seq<Name>, links: nat)
    requires Sound(t) && comps != []
    ensures Route(t, d, comps, [d], links)
  {
  }

  // ------------------------------------------------------------- the whole path

  /** Resolution from `d` answers what the relations say. */
  ghost predicate Agrees(t: Tree, r: Found, d: nat, comps: seq<Name>, follow: bool, links: nat)
    requires Sound(t)
  {
    && (forall spot :: r == At(spot) <==> Chain(t, d, comps, spot, follow, links))
    && (forall e :: r == Lost(e) <==> Broken(t, d, comps, e, follow, links))
  }

  lemma LinkIs(t: Tree, d: nat, c: Name)
    requires Sound(t)
    ensures Has(t, d, c) ==> Child(t, d, c) < |t.nodes|
    ensures forall target :: LinkAt(t, d, c, target) <==> Has(t, d, c) && t.nodes[Child(t, d, c)].kind == Symlink(target)
    ensures (exists target :: LinkAt(t, d, c, target)) <==> Has(t, d, c) && t.nodes[Child(t, d, c)].kind.Symlink?
  {
    if Has(t, d, c) {
      ChildInRange(t, d, c);
      var kind := t.nodes[Child(t, d, c)].kind;
      if kind.Symlink? {
        assert LinkAt(t, d, c, kind.target);
      }
    }
  }

  /** The target of the link that `c` names, if it names one, resolves as the relations say. */
  ghost predicate TargetAgrees(t: Tree, d: nat, c: Name, depth: nat)
    requires Sound(t) && IsDir(t, d) && depth <= 8
  {
    forall target :: LinkAt(t, d, c, target) && depth < 8 ==>
      Agrees(t, ResolveDepth(t, d, target, true, depth + 1), Origin(target, d), Components(target), true, 7 - depth)
  }

  /** One component, as resolution takes it. */
  lemma WalkOne(t: Tree, d: nat, c: Name, follow: bool, depth: nat)
    requires Sound(t) && IsDir(t, d) && depth <= 8
    ensures IsDir(t, t.nodes[d].parent) && (Has(t, d, c) ==> Child(t, d, c) < |t.nodes|)
    ensures Walk(t, d, [c], follow, depth) ==
            if c == DOTDOT then Here(t, t.nodes[d].parent)
            else if !Has(t, d, c) then At(Resolved(d, c, None))
            else if follow && t.nodes[Child(t, d, c)].kind.Symlink? then ResolveDepth(t, d, t.nodes[Child(t, d, c)].kind.target, true, depth + 1)
            else At(Resolved(d, c, Some(Child(t, d, c))))
  {
    hide SoundNodes, ResolveDepth;
    ParentIsDir(t, d);
    ParentIsDir(t, t.nodes[d].parent);
    if Has(t, d, c) {
      ChildInRange(t, d, c);
    }
  }

  lemma TooDeep(t: Tree, start: nat, path: seq<byte>)
    requires Sound(t) && IsDir(t, start)
    ensures ResolveDepth(t, start, path, true, 9) == Lost(ELOOP)
  {
  }

  lemma NamesLink(t: Tree, d: nat, c: Name, target: seq<byte>, spot: Resolved, links: nat)
    requires Sound(t) && LinkAt(t, d, c, target) && c != DOTDOT
    ensures Names(t, d, c, spot, true, links) <==> links > 0 && Chain(t, Origin(target, d), Components(target), spot, true, links - 1)
  {
    hide Chain, LinkAt, SoundNodes;
    LinkIs(t, d, c);
  }

  lemma FailsLink(t: Tree, d: nat, c: Name, target: seq<byte>, e: Errno, links: nat)
    requires Sound(t) && LinkAt(t, d, c, target) && c != DOTDOT
    ensures Fails(t, d, c, e, true, true, links) <==>
            if links == 0 then e == ELOOP else Broken(t, Origin(target, d), Components(target), e, true, links - 1)
  {
    hide Broken, LinkAt, SoundNodes, Names;
    LinkIs(t, d, c);
  }

  lemma FailsNoLink(t: Tree, d: nat, c: Name, e: Errno, follow: bool, links: nat)
    requires Sound(t) && (c == DOTDOT || !follow || !exists target :: LinkAt(t, d, c, target))
    ensures !Fails(t, d, c, e, true, follow, links)
  {
    hide Broken, LinkAt, SoundNodes, Names;
  }

  lemma NamesIff(t: Tree, d: nat, c: Name, spot: Resolved, follow: bool, depth: nat)
    requires Sound(t) && IsDir(t, d) && depth <= 8 && TargetAgrees(t, d, c, depth)
    ensures Walk(t, d, [c], follow, depth) == At(spot) <==> Names(t, d, c, spot, follow, 8 - depth)
  {
    hide Chain, Broken, LinkAt, Walk, ResolveDepth, SoundNodes;
    WalkOne(t, d, c, follow, depth);
    LinkIs(t, d, c);
    if follow && c != DOTDOT && Has(t, d, c) && t.nodes[Child(t, d, c)].kind.Symlink? {
      hide Names;
      var target := t.nodes[Child(t, d, c)].kind.target;
      NamesLink(t, d, c, target, spot, 8 - depth);
      TooDeep(t, d, target);
    }
  }

  lemma FailsIff(t: Tree, d: nat, c: Name, e: Errno, follow: bool, depth: nat)
    requires Sound(t) && IsDir(t, d) && depth <= 8 && TargetAgrees(t, d, c, depth)
    ensures Walk(t, d, [c], follow, depth) == Lost(e) <==> Fails(t, d, c, e, true, follow, 8 - depth)
  {
    hide Chain, Broken, LinkAt, Walk, ResolveDepth, SoundNodes, Names, Fails;
    WalkOne(t, d, c, follow, depth);
    LinkIs(t, d, c);
    if follow && c != DOTDOT && Has(t, d, c) && t.nodes[Child(t, d, c)].kind.Symlink? {
      var target := t.nodes[Child(t, d, c)].kind.target;
      FailsLink(t, d, c, target, e, 8 - depth);
      TooDeep(t, d, target);
    } else {
      FailsNoLink(t, d, c, e, follow, 8 - depth);
    }
  }

  /** One component, before the last: it leads on to a directory, */
  lemma LeadsIff(t: Tree, d: nat, c: Name, next: nat, depth: nat)
    requires Sound(t) && IsDir(t, d) && depth <= 8 && TargetAgrees(t, d, c, depth)
    ensures var front := Walk(t, d, [c], true, depth);
            Leads(t, d, c, next, 8 - depth) <==> front.At? && front.spot.node == Some(next) && IsDir(t, next)
  {
    hide Names, Walk, TargetAgrees, Sound, IsDir;
    var links, front := 8 - depth, Walk(t, d, [c], true, depth);
    if spot :| Names(t, d, c, spot, true, links) && spot.node == Some(next) {
      NamesIff(t, d, c, spot, true, depth);
    }
    if front.At? {
      NamesIff(t, d, c, front.spot, true, depth);
    }
  }

  /** or it fails. */
  lemma FailsOnIff(t: Tree, d: nat, c: Name, e: Errno, follow: bool, depth: nat)
    requires Sound(t) && IsDir(t, d) && depth <= 8 && TargetAgrees(t, d, c, depth)
    ensures var front := Walk(t, d, [c], true, depth);
            Fails(t, d, c, e, false, follow, 8 - depth) <==> front == Lost(e) || (front.At? && NotDir(t, front.spot, e))
  {
    hide Names, Walk, TargetAgrees, Sound, IsDir, Fails, NotDir;
    var links, front := 8 - depth, Walk(t, d, [c], true, depth);
    FailsSplits(t, d, c, e, follow, links);
    FailsIff(t, d, c, e, true, depth);
    if spot :| Names(t, d, c, spot, true, links) && NotDir(t, spot, e) {
      NamesIff(t, d, c, spot, true, depth);
    }
    if front.At? {
      NamesIff(t, d, c, front.spot, true, depth);
    }
  }

  lemma FailsSplits(t: Tree, d: nat, c: Name, e: Errno, follow: bool, links: nat)
    requires Sound(t)
    ensures Fails(t, d, c, e, false, follow, links) <==>
            Fails(t, d, c, e, true, true, links) || exists spot :: Names(t, d, c, spot, true, links) && NotDir(t, spot, e)
  {
    hide Names, NotDir, LinkAt, Broken;
  }

  lemma WalkAgrees(t: Tree, d: nat, comps: seq<Name>, follow: bool, depth: nat)
    requires Sound(t) && IsDir(t, d) && depth <= 8 && comps != []
    ensures Agrees(t, Walk(t, d, comps, follow, depth), d, comps, follow, 8 - depth)
    decreases 9 - depth, |comps|, 0
  {
    hide Chain, Broken, LinkAt, Names, Walk, TargetAgrees, Sound, IsDir, Fails, Leads, ResolveDepth;
    TargetsAgree(t, d, comps[0], depth);
    var links := 8 - depth;
    if |comps| == 1 {
      assert comps == [comps[0]];
      forall spot
        ensures Walk(t, d, comps, follow, depth) == At(spot) <==> Chain(t, d, comps, spot, follow, links)
      {
        NamesIff(t, d, comps[0], spot, follow, depth);
        ChainOne(t, d, comps[0], spot, follow, links);
      }
      forall e
        ensures Walk(t, d, comps, follow, depth) == Lost(e) <==> Broken(t, d, comps, e, follow, links)
      {
        FailsIff(t, d, comps[0], e, follow, depth);
        BrokenOne(t, d, comps[0], e, follow, links);
      }
    } else {
      WalkOnAgrees(t, d, comps, follow, depth);
    }
  }

  lemma WalkOnAgrees(t: Tree, d: nat, comps: seq<Name>, follow: bool, depth: nat)
    requires Sound(t) && IsDir(t, d) && depth <= 8 && |comps| > 1 && TargetAgrees(t, d, comps[0], depth)
    ensures Agrees(t, Walk(t, d, comps, follow, depth), d, comps, follow, 8 - depth)
    decreases 9 - depth, |comps|, -1
  {
    hide Chain, Broken, LinkAt, Names, Walk, TargetAgrees, Sound, Fails, Leads, ResolveDepth;
    var links, c := 8 - depth, comps[0];
    var front := Walk(t, d, [c], true, depth);
    assert [c] + comps[1..] == comps;
    WalkSplits(t, d, [c], comps[1..], follow, depth);
    forall next: nat
      ensures Leads(t, d, c, next, links) <==> front.At? && front.spot.node == Some(next) && IsDir(t, next)
    {
      LeadsIff(t, d, c, next, depth);
    }
    if front.At? && front.spot.node.Some? && IsDir(t, front.spot.node.value) {
      var next := front.spot.node.value;
      assert Leads(t, d, c, next, links);
      WalkAgrees(t, next, comps[1..], follow, depth);
    }
    forall spot
      ensures Walk(t, d, comps, follow, depth) == At(spot) <==> Chain(t, d, comps, spot, follow, links)
    {
      ChainMore(t, d, comps, spot, follow, links);
    }
    forall e
      ensures Walk(t, d, comps, follow, depth) == Lost(e) <==> Broken(t, d, comps, e, follow, links)
    {
      BrokenMore(t, d, comps, e, follow, links);
      FailsOnIff(t, d, c, e, follow, depth);
    }
  }

  lemma TargetsAgree(t: Tree, d: nat, c: Name, depth: nat)
    requires Sound(t) && IsDir(t, d) && depth <= 8
    ensures TargetAgrees(t, d, c, depth)
    decreases 9 - depth, 0, 0
  {
    hide Chain, Broken, LinkAt, Names, Walk, Sound, Fails, Leads, ResolveDepth, Agrees;
    forall target | LinkAt(t, d, c, target) && depth < 8
      ensures Agrees(t, ResolveDepth(t, d, target, true, depth + 1), Origin(target, d), Components(target), true, 7 - depth)
    {
      ResolveAgrees(t, d, target, true, depth + 1);
    }
  }

  lemma ResolveAgrees(t: Tree, start: nat, path: seq<byte>, follow: bool, depth: nat)
    requires Sound(t) && IsDir(t, start) && depth <= 8
    ensures Agrees(t, ResolveDepth(t, start, path, follow, depth), Origin(path, start), Components(path), follow, 8 - depth)
    decreases 9 - depth, |Components(path)|, 1
  {
    hide Names, Walk, Fails, Leads, SoundNodes, Components;
    if Components(path) == [] {
      ParentIsDir(t, Origin(path, start));
    } else {
      WalkAgrees(t, Origin(path, start), Components(path), follow, depth);
    }
  }

  /** A path resolves to `spot` if and only if its components lead there, one after the other, from
      the root when it begins with a slash and from `start` otherwise, through at most eight nested
      links; and it fails with `e` if and only if it is empty or a component on the way fails so. */
  lemma ResolvesIff(t: Tree, start: nat, path: seq<byte>, follow: bool)
    requires Sound(t) && IsDir(t, start) && path != []
    ensures forall spot :: Resolve(t, start, path, follow) == At(spot) <==>
              Chain(t, if path[0] == SLASH then ROOT else start, Components(path), spot, follow, 8)
    ensures forall e :: Resolve(t, start, path, follow) == Lost(e) <==>
              Broken(t, if path[0] == SLASH then ROOT else start, Components(path), e, follow, 8)
  {
    hide Chain, Broken, ResolveDepth, SoundNodes, Components;
    ResolveAgrees(t, start, path, follow, 0);
  }

  /** A path that begins with a slash resolves the same from everywhere. */
  lemma AbsoluteFromAnywhere(t: Tree, start: nat, other: nat, path: seq<byte>, follow: bool)
    requires Sound(t) && IsDir(t, start) && IsDir(t, other) && path != [] && path[0] == SLASH
    ensures Resolve(t, start, path, follow) == Resolve(t, other, path, follow)
  {
    hide Chain, Broken, ResolveDepth, SoundNodes, Components;
    ResolvesIff(t, start, path, follow);
    ResolvesIff(t, other, path, follow);
  }

  // ---------------------------------------------------------------- components

  lemma {:induction false} MeaningfulAppend(a: seq<Name>, b: seq<Name>)
    ensures Meaningful(a + b) == Meaningful(a) + Meaningful(b)
  {
    if a == [] {
      assert a + b == b;
    } else {
      assert (a + b)[1..] == a[1..] + b;
      MeaningfulAppend(a[1..], b);
    }
  }

  /** The components of a path in two parts are those of the first and then those of the second. */
  lemma ComponentsJoin(a: seq<byte>, b: seq<byte>)
    ensures Components(a + ([SLASH] + b)) == Components(a) + Components(b)
  {
    Text.SplitAppend(a, b, SLASH);
    MeaningfulAppend(Text.Split(a, SLASH), Text.Split(b, SLASH));
  }

  /** A part without a slash is one component, unless it is empty or ".". */
  lemma ComponentsOne(name: seq<byte>)
    requires Text.Free(name, SLASH)
    ensures Components(name) == if name == [] || name == DOT then [] else [name]
  {
    Text.SplitFree(name, SLASH);
    var pieces := [name];
    assert pieces[1..] == [] && Meaningful(pieces[1..]) == [];
  }

  /** A path in two parts resolves as the first part does, links followed, and then the second part
      from there; a first part that is missing or no directory ends it. */
  lemma ResolveJoin(t: Tree, start: nat, a: seq<byte>, b: seq<byte>, follow: bool)
    requires Sound(t) && IsDir(t, start) && Components(a) != [] && Components(b) != [] && b != [] && b[0] != SLASH
    ensures var front := Resolve(t, start, a, true);
            Resolve(t, start, a + ([SLASH] + b), follow) ==
            if front.Lost? then front
            else if front.spot.node.None? then Lost(ENOENT)
            else if !IsDir(t, front.spot.node.value) then Lost(ENOTDIR)
            else Resolve(t, front.spot.node.value, b, follow)
  {
    hide Walk, SoundNodes, Components;
    EmptyComponents();
    ComponentsJoin(a, b);
    WalkSplits(t, Origin(a, start), Components(a), Components(b), follow, 0);
  }

  lemma EmptyComponents()
    ensures Components([]) == []
  {
    ComponentsOne([]);
  }

  // ------------------------------------------------------ making directories

  /** The directory that existing directories and no links lead to. */
  ghost function Descend(t: Tree, d: nat, comps: seq<Name>): Option<nat>
    requires Sound(t) && IsDir(t, d)
    decreases |comps|
  {
    if comps == [] then Some(d)
    else if comps[0] == DOTDOT then
      ParentIsDir(t, d);
      Descend(t, t.nodes[d].parent, comps[1..])
    else if Has(t, d, comps[0]) && IsDir(t, Child(t, d, comps[0])) then Descend(t, Child(t, d, comps[0]), comps[1..])
    else None
  }

  /** Such a directory is where the path leads. */
  lemma {:induction false} DescendWalks(t: Tree, d: nat, comps: seq<Name>, follow: bool, depth: nat)
    requires Sound(t) && IsDir(t, d) && comps != [] && depth <= 8 && Descend(t, d, comps).Some?
    ensures var r := Walk(t, d, comps, follow, depth); r.At? && r.spot.node == Descend(t, d, comps)
    decreases |comps|
  {
    hide SoundNodes;
    ParentIsDir(t, d);
    ParentIsDir(t, t.nodes[d].parent);
    var next := if comps[0] == DOTDOT then t.nodes[d].parent else Child(t, d, comps[0]);
    if |comps| == 1 {
      assert comps[1..] == [];
    } else {
      DescendWalks(t, next, comps[1..], follow, depth);
    }
  }

  /** The node as it was, except that a directory may have gained names of nodes from `size` on. */
  predicate KeptNode(x: Node, y: Node, size: nat) {
    if x.kind.Dir? then
      && y == x.(kind := y.kind) && y.kind.Dir? && x.kind.entries.Keys <= y.kind.entries.Keys
      && forall c :: c in y.kind.entries ==>
           if c in x.kind.entries then y.kind.entries[c] == x.kind.entries[c] else size <= y.kind.entries[c]
    else y == x
  }

  /** Every name still means what it meant, and what is new is directories. */
  ghost predicate Extends(t: Tree, u: Tree) {
    && |t.nodes| <= |u.nodes| && u.unlinked == t.unlinked
    && (forall n :: 0 <= n < |t.nodes| ==> KeptNode(t.nodes[n], u.nodes[n], |t.nodes|))
    && (forall n :: |t.nodes| <= n < |u.nodes| ==> u.nodes[n].kind.Dir? && u.nodes[n].mode == 0x1ed && u.nodes[n].nlink == 2)
  }

  lemma ExtendsOn(t: Tree, u: Tree, v: Tree)
    requires Extends(t, u) && Extends(u, v)
    ensures Extends(t, v)
  {
    hide KeptNode;
    forall n | 0 <= n < |t.nodes|
      ensures KeptNode(t.nodes[n], v.nodes[n], |t.nodes|)
    {
      KeptOn(t.nodes[n], u.nodes[n], v.nodes[n], |t.nodes|, |u.nodes|);
    }
    forall n | |t.nodes| <= n < |v.nodes|
      ensures v.nodes[n].kind.Dir? && v.nodes[n].mode == 0x1ed && v.nodes[n].nlink == 2
    {
      if n < |u.nodes| {
        KeptDir(u.nodes[n], v.nodes[n], |u.nodes|);
      }
    }
  }

  lemma KeptOn(x: Node, y: Node, z: Node, size: nat, later: nat)
    requires KeptNode(x, y, size) && KeptNode(y, z, later) && size <= later
    ensures KeptNode(x, z, size)
  {
  }

  lemma KeptDir(x: Node, y: Node, size: nat)
    requires KeptNode(x, y, size) && x.kind.Dir?
    ensures y.kind.Dir? && y.mode == x.mode && y.nlink == x.nlink && y.parent == x.parent
  {
  }

  lemma NewDirExtends(t: Tree, parent: nat, name: Name)
    requires IsDir(t, parent) && !Has(t, parent, name)
    ensures var u := NewDir(t, parent, name);
            && Extends(t, u) && |u.nodes| == |t.nodes| + 1 && Has(u, parent, name) && Child(u, parent, name) == |t.nodes|
            && u.nodes[|t.nodes|].parent == parent && (parent != |t.nodes| ==> u.nodes[|t.nodes|].kind == Dir(map[]))
  {
  }

  lemma HasKept(t: Tree, u: Tree, d: nat, c: Name)
    requires Extends(t, u) && IsDir(t, d)
    ensures IsDir(u, d) && u.nodes[d].parent == t.nodes[d].parent
    ensures Has(t, d, c) ==> Has(u, d, c) && Child(u, d, c) == Child(t, d, c)
  {
    assert KeptNode(t.nodes[d], u.nodes[d], |t.nodes|);
  }

  lemma KindKept(t: Tree, u: Tree, n: nat)
    requires Extends(t, u) && n < |t.nodes|
    ensures IsDir(u, n) <==> IsDir(t, n)
  {
    assert KeptNode(t.nodes[n], u.nodes[n], |t.nodes|);
  }

  lemma ExtendsSelf(t: Tree)
    ensures Extends(t, t)
  {
  }

  /** `mkdir -p` succeeds if and only if afterwards existing directories lead along the whole path,
      and answers the one they lead to; it fails with ENOTDIR only. It takes nothing away, renames
      nothing and adds empty directories only, and adds none when all were there. */
  lemma {:induction false} MadeChainIs(t: Tree, current: nat, comps: seq<Name>)
    requires Sound(t) && Queue(t) && IsDir(t, current)
    ensures var o := MadeChain(t, current, comps);
            && Extends(t, o.tree) && IsDir(o.tree, current)
            && (Descend(o.tree, current, comps) == if o.answer.Done? then Some(o.answer.node) else None)
            && (o.answer.Fail? ==> o.answer == Fail(ENOTDIR))
            && (Descend(t, current, comps).Some? ==> o.tree == t)
    decreases |comps|
  {
    hide SoundNodes, Queue, Extends, NewDir, Descend;
    ExtendsSelf(t);
    if comps == [] {
      DescendStep(t, current, comps);
    } else if comps[0] == DOTDOT {
      ParentIsDir(t, current);
      MadeChainIs(t, t.nodes[current].parent, comps[1..]);
      var u := MadeChain(t, current, comps).tree;
      HasKept(t, u, current, comps[0]);
      DescendStep(t, current, comps);
      DescendStep(u, current, comps);
    } else if Has(t, current, comps[0]) {
      ChildInRange(t, current, comps[0]);
      var next := Child(t, current, comps[0]);
      DescendStep(t, current, comps);
      if IsDir(t, next) {
        MadeChainIs(t, next, comps[1..]);
        var u := MadeChain(t, current, comps).tree;
        HasKept(t, u, current, comps[0]);
        KindKept(t, u, next);
        DescendStep(u, current, comps);
      }
    } else {
      MadeNew(t, current, comps);
    }
  }

  lemma DescendStep(t: Tree, d: nat, comps: seq<Name>)
    requires Sound(t) && IsDir(t, d)
    ensures comps == [] ==> Descend(t, d, comps) == Some(d)
    ensures IsDir(t, t.nodes[d].parent)
    ensures comps != [] && comps[0] == DOTDOT ==> Descend(t, d, comps) == Descend(t, t.nodes[d].parent, comps[1..])
    ensures comps != [] && comps[0] != DOTDOT ==>
              Descend(t, d, comps) ==
              if Has(t, d, comps[0]) && IsDir(t, Child(t, d, comps[0])) then Descend(t, Child(t, d, comps[0]), comps[1..]) else None
  {
    hide SoundNodes;
    ParentIsDir(t, d);
  }

  lemma MadeNew(t: Tree, current: nat, comps: seq<Name>)
    requires Sound(t) && Queue(t) && IsDir(t, current) && comps != [] && comps[0] != DOTDOT && !Has(t, current, comps[0])
    ensures var o := MadeChain(t, current, comps);
            && Extends(t, o.tree) && IsDir(o.tree, current)
            && (Descend(o.tree, current, comps) == if o.answer.Done? then Some(o.answer.node) else None)
            && (o.answer.Fail? ==> o.answer == Fail(ENOTDIR))
            && Descend(t, current, comps).None?
    decreases |comps|, 0
  {
    hide SoundNodes, Queue, Extends, NewDir, Descend;
    NewDirSound(t, current, comps[0]);
    NewDirExtends(t, current, comps[0]);
    var u := NewDir(t, current, comps[0]);
    MadeChainIs(u, |t.nodes|, comps[1..]);
    var v := MadeChain(u, |t.nodes|, comps[1..]).tree;
    ExtendsOn(t, u, v);
    HasKept(u, v, current, comps[0]);
    KindKept(u, v, |t.nodes|);
    DescendStep(t, current, comps);
    DescendStep(v, current, comps);
  }

  /** After `mkdir -p` the path resolves, from the root, to the directory it answered. */
  lemma MadeResolves(t: Tree, path: seq<byte>, follow: bool)
    requires Sound(t) && Queue(t) && path != [] && MadeChain(t, ROOT, Components(path)).answer.Done?
    ensures var o := MadeChain(t, ROOT, Components(path)); var r := Resolve(o.tree, ROOT, path, follow);
            r.At? && r.spot.node == Some(o.answer.node) && IsDir(o.tree, o.answer.node)
  {
    hide SoundNodes, Queue, Extends, MadeChain, Descend, Walk, Components;
    var o := MadeChain(t, ROOT, Components(path));
    MadeChainIs(t, ROOT, Components(path));
    if Components(path) == [] {
      DescendStep(o.tree, ROOT, Components(path));
    } else {
      DescendWalks(o.tree, ROOT, Components(path), follow, 0);
      DescendIsDir(o.tree, ROOT, Components(path));
    }
  }

  lemma {:induction false} DescendIsDir(t: Tree, d: nat, comps: seq<Name>)
    requires Sound(t) && IsDir(t, d) && Descend(t, d, comps).Some?
    ensures IsDir(t, Descend(t, d, comps).value)
    decreases |comps|
  {
    hide SoundNodes;
    DescendStep(t, d, comps);
    if comps != [] {
      DescendIsDir(t, if comps[0] == DOTDOT then t.nodes[d].parent else Child(t, d, comps[0]), comps[1..]);
    }
  }

  // --------------------------------------------------------- host-side files

  lemma {:induction false} LastSlashIs(dir: seq<byte>, name: seq<byte>)
    requires Text.Free(name, SLASH)
    ensures LastSlash(dir + ([SLASH] + name)) == |dir|
    decreases |name|
  {
    var path := dir + ([SLASH] + name);
    if name != [] {
      LastSlashIs(dir, name[..|name| - 1]);
      assert path[..|path| - 1] == dir + ([SLASH] + name[..|name| - 1]);
      assert path[|path| - 1] == name[|name| - 1];
    }
  }

  /** A name that a directory entry can have. */
  predicate Proper(name: Name) {
    Text.Free(name, SLASH) && name != [] && name != DOT && name != DOTDOT
  }

  /** The place of a name in the directory that existing directories lead to. */
  lemma NamedUnder(t: Tree, dir: seq<byte>, name: Name)
    requires Sound(t) && Proper(name) && Descend(t, ROOT, Components(dir)).Some?
    ensures var p, r := Descend(t, ROOT, Components(dir)).value, Resolve(t, ROOT, dir + ([SLASH] + name), false);
            IsDir(t, p) && r == At(Resolved(p, name, if Has(t, p, name) then Some(Child(t, p, name)) else None))
  {
    hide SoundNodes, Components, Descend, ResolveDepth;
    var p := Descend(t, ROOT, Components(dir)).value;
    DescendIsDir(t, ROOT, Components(dir));
    ComponentsJoin(dir, name);
    ComponentsOne(name);
    OneName(t, p, name);
    FromRoot(t, dir + ([SLASH] + name));
    if Components(dir) == [] {
      DescendStep(t, ROOT, Components(dir));
      assert Components(dir) + [name] == [name];
    } else {
      DescendWalks(t, ROOT, Components(dir), true, 0);
      WalkSplits(t, ROOT, Components(dir), [name], false, 0);
    }
  }

  lemma OneName(t: Tree, d: nat, name: Name)
    requires Sound(t) && IsDir(t, d) && name != DOTDOT
    ensures Walk(t, d, [name], false, 0) == At(Resolved(d, name, if Has(t, d, name) then Some(Child(t, d, name)) else None))
  {
    hide SoundNodes, ResolveDepth;
  }

  lemma FromRoot(t: Tree, path: seq<byte>)
    requires Sound(t) && path != [] && Components(path) != []
    ensures Resolve(t, ROOT, path, false) == Walk(t, ROOT, Components(path), false, 0)
  {
    hide SoundNodes, Components, Walk;
  }

  /** `u` is `t` with one more node under one name; the node that had the name loses a link. */
  ghost predicate Placed(t: Tree, u: Tree, p: nat, name: Name, kind: Kind, mode: nat) {
    && IsDir(t, p) && |u.nodes| == |t.nodes| + 1 && t.unlinked <= u.unlinked
    && u.nodes[|t.nodes|] == Node(kind, mode, if kind.Dir? then 2 else 1, 0, p)
    && Has(u, p, name) && Child(u, p, name) == |t.nodes|
    && (forall n :: 0 <= n < |t.nodes| ==> u.nodes[n].(kind := t.nodes[n].kind, nlink := t.nodes[n].nlink) == t.nodes[n])
    && (forall n :: 0 <= n < |t.nodes| && n != p ==> u.nodes[n].kind == t.nodes[n].kind)
    && u.nodes[p].kind.entries - {name} == t.nodes[p].kind.entries - {name}
    && (forall n :: 0 <= n < |t.nodes| ==>
          u.nodes[n].nlink == if Has(t, p, name) && Child(t, p, name) == n && t.nodes[n].nlink > 0 then t.nodes[n].nlink - 1 else t.nodes[n].nlink)
  }

  lemma PlacedAtIs(t: Tree, spot: Resolved, kind: Kind, mode: nat)
    requires Sound(t) && IsDir(t, spot.parent)
    ensures var o := PlacedAt(t, spot, kind, mode);
            o.answer == Done(|t.nodes|) && Placed(t, o.tree, spot.parent, spot.name, kind, mode)
  {
    hide SoundNodes;
    ChildrenInRange(t, spot.parent, spot.name);
  }

  /** What placing a file or directory at a path does, for every parent path and every name. A
      directory in the way of anything else is left alone; the missing parents are made; then the
      name in the parent means the new node, and every other name means what it meant. */
  lemma AddedIs(t: Tree, dir: seq<byte>, name: Name, kind: Kind, mode: nat)
    requires Sound(t) && Queue(t) && Proper(name)
    ensures var path, m := dir + ([SLASH] + name), MadeChain(t, ROOT, Components(dir));
            var o, there := Added(t, path, kind, mode), Resolve(t, ROOT, path, false);
            if !kind.Dir? && there.At? && there.spot.node.Some? && IsDir(t, there.spot.node.value) then o == Outcome(t, Fail(EISDIR))
            else if m.answer.Fail? then o == m
            else o.answer == Done(|m.tree.nodes|) && Placed(m.tree, o.tree, m.answer.node, name, kind, mode)
  {
    hide SoundNodes, Queue, Components, Descend, Resolve, MadeChain, Extends, PlacedAt, Placed;
    var path, m := dir + ([SLASH] + name), MadeChain(t, ROOT, Components(dir));
    LastSlashIs(dir, name);
    assert path[..|dir|] == dir;
    MadeChainIs(t, ROOT, Components(dir));
    if m.answer.Done? {
      NamedUnder(m.tree, dir, name);
      PlacedAtIs(m.tree, Resolve(m.tree, ROOT, path, false).spot, kind, mode);
    }
  }
}

/** The tool that writes a manifest from a directory tree, and when its output is accepted. */
module ManifestBuilder {
  import opened Base
  import opened Chunks
  import opened Text
  import opened Manifest

  type Name = seq<byte>

  /** A tree on the packaging host. */
  datatype Source =
    | Folder(mode: nat, children: seq<Child>)
    | SoftLink(mode: nat, target: seq<byte>)
    | Regular(mode: nat, data: seq<byte>)
    | Special

  datatype Child = Child(name: Name, node: Source)

  predicate ValidName(name: Name) {
    name != [] && name != DOT && name != DOTDOT && Free(name, SLASH) && Free(name, 0)
  }

  /** What any host filesystem guarantees: proper names, no two alike in a directory,
      permission bits in range, link targets that are not empty. */
  predicate ValidSource(s: Source) {
    match s
    case Folder(mode, children) =>
      && mode < MODE_LIMIT
      && (forall i :: 0 <= i < |children| ==> ValidName(children[i].name) && ValidSource(children[i].node))
      && (forall i, j :: 0 <= i < j < |children| ==> children[i].name != children[j].name)
    case SoftLink(mode, target) => mode < MODE_LIMIT && target != [] && Free(target, 0)
    case Regular(mode, data) => mode < MODE_LIMIT && |data| < U64_LIMIT
    case Special => true
  }

  predicate HasRegular(s: Source) {
    s.Regular? || (s.Folder? && exists i :: 0 <= i < |s.children| && HasRegular(s.children[i].node))
  }

  /** SHA-256 of a chunk, and the trace identifier of a file, which is zero when not wanted. */
  datatype Tools = Tools(hash: seq<byte> -> Hash, fnv: seq<byte> -> nat, epoch: int, chunkSize: nat)

  ghost predicate ValidTools(t: Tools) {
    && (forall p {:trigger t.hash(p)} :: |t.hash(p)| == 32) && (forall p {:trigger t.fnv(p)} :: t.fnv(p) < U64_LIMIT)
    && 0 - U63_LIMIT <= t.epoch < U63_LIMIT && t.chunkSize > 0 && t.chunkSize % 4096 == 0
  }

  // ------------------------------------------------------------------ paths

  function StripLeft(s: seq<byte>): seq<byte> {
    if s != [] && s[0] == SLASH then StripLeft(s[1..]) else s
  }

  function StripRight(s: seq<byte>): seq<byte> {
    if s != [] && s[|s| - 1] == SLASH then StripRight(s[..|s| - 1]) else s
  }

  /** The guest path of the packaged root. */
  function RootPath(prefix: seq<byte>): seq<byte> {
    [SLASH] + StripRight(StripLeft(prefix))
  }

  function Below(dir: seq<byte>, name: Name): seq<byte> {
    if dir == ROOT then [SLASH] + name else dir + ([SLASH] + name)
  }

  // ---------------------------------------------------------------- records

  /** The hashes of consecutive reads of one chunk each. */
  function ChunkHashes(t: Tools, data: seq<byte>): seq<Hash>
    requires t.chunkSize > 0
  {
    if data == [] then []
    else if |data| <= t.chunkSize then [t.hash(data)]
    else [t.hash(data[..t.chunkSize])] + ChunkHashes(t, data[t.chunkSize..])
  }

  function Records(t: Tools, s: Source, path: seq<byte>): seq<Entry>
    requires t.chunkSize > 0
    decreases s, if s.Folder? then |s.children| + 1 else 0
  {
    match s
    case Folder(mode, children) => [Entry(path, mode, t.epoch, Dir)] + ChildRecords(t, s, path, |children|)
    case SoftLink(mode, target) => [Entry(path, mode, t.epoch, Symlink(target))]
    case Regular(mode, data) =>
      [Entry(path, mode, t.epoch, File(ChunkedFile(|data|, t.chunkSize, ChunkHashes(t, data)), t.fnv(data)))]
    case Special => []
  }

  function ChildRecords(t: Tools, s: Source, path: seq<byte>, n: nat): seq<Entry>
    requires t.chunkSize > 0 && s.Folder? && n <= |s.children|
    decreases s, n
  {
    if n == 0 then []
    else ChildRecords(t, s, path, n - 1) + Records(t, s.children[n - 1].node, Below(path, s.children[n - 1].name))
  }

  function Insert(sorted: seq<Entry>, e: Entry): seq<Entry> {
    if sorted == [] || Less(e.path, sorted[0].path) then [e] + sorted else [sorted[0]] + Insert(sorted[1..], e)
  }

  /** Records in path order. */
  function Sort(records: seq<Entry>): seq<Entry> {
    if records == [] then [] else Insert(Sort(records[..|records| - 1]), records[|records| - 1])
  }

  /** The text the tool writes. */
  function Build(t: Tools, s: Source, prefix: seq<byte>): seq<byte>
    requires t.chunkSize > 0 && s.Folder?
  {
    SortSize(Records(t, s, RootPath(prefix)));
    HEADER + [NEWLINE] + Join(PrintLines(Sort(Records(t, s, RootPath(prefix)))), NEWLINE) + [NEWLINE]
  }

  lemma {:induction false} InsertSize(sorted: seq<Entry>, e: Entry)
    ensures |Insert(sorted, e)| == |sorted| + 1
  {
    if sorted != [] && !Less(e.path, sorted[0].path) {
      InsertSize(sorted[1..], e);
    }
  }

  lemma {:induction false} SortSize(records: seq<Entry>)
    ensures |Sort(records)| == |records|
  {
    if records != [] {
      SortSize(records[..|records| - 1]);
      InsertSize(Sort(records[..|records| - 1]), records[|records| - 1]);
    }
  }

  lemma BuildPrints(t: Tools, s: Source, prefix: seq<byte>)
    requires t.chunkSize > 0 && s.Folder?
    ensures Build(t, s, prefix) == Print(Sort(Records(t, s, RootPath(prefix))))
  {
    hide Records, Sort;
    var records := Records(t, s, RootPath(prefix));
    assert |records| >= 1 by { FolderRecorded(t, s, RootPath(prefix)); }
    SortSize(records);
    var lines := PrintLines(Sort(records));
    assert ([HEADER] + lines)[1..] == lines;
    assert HEADER + [NEWLINE] + Join(lines, NEWLINE) == HEADER + ([NEWLINE] + Join(lines, NEWLINE));
  }

  lemma FolderRecorded(t: Tools, s: Source, path: seq<byte>)
    requires t.chunkSize > 0 && s.Folder?
    ensures |Records(t, s, path)| >= 1 && Records(t, s, path)[0] == Entry(path, s.mode, t.epoch, Dir)
  {
  }

  // ---------------------------------------------------------------- sorting

  lemma {:induction false} InsertHas(sorted: seq<Entry>, e: Entry, x: Entry)
    ensures x in Insert(sorted, e) <==> x == e || x in sorted
  {
    if sorted != [] && !Less(e.path, sorted[0].path) {
      InsertHas(sorted[1..], e, x);
      assert sorted == [sorted[0]] + sorted[1..];
    }
  }

  lemma {:induction false} SortHas(records: seq<Entry>, x: Entry)
    ensures x in Sort(records) <==> x in records
  {
    if records != [] {
      var n := |records| - 1;
      SortHas(records[..n], x);
      InsertHas(Sort(records[..n]), records[n], x);
      assert records == records[..n] + [records[n]];
    }
  }

  predicate Distinct(records: seq<Entry>) {
    forall i, j :: 0 <= i < j < |records| ==> records[i].path != records[j].path
  }

  /** Inserting a new path keeps a list in order, and the head is the old head or the new one. */
  lemma {:induction false} InsertInOrder(sorted: seq<Entry>, e: Entry)
    requires InOrder(sorted) && forall x :: x in sorted ==> x.path != e.path
    ensures InOrder(Insert(sorted, e))
    ensures Insert(sorted, e) != [] && (Insert(sorted, e)[0] == e || (sorted != [] && Insert(sorted, e)[0] == sorted[0]))
  {
    hide Less;
    if sorted != [] && !Less(e.path, sorted[0].path) {
      LessTotal(e.path, sorted[0].path);
      var rest, tail := sorted[1..], Insert(sorted[1..], e);
      assert forall i :: 0 <= i < |rest| ==> rest[i] == sorted[i + 1];
      InsertInOrder(rest, e);
      assert Less(sorted[0].path, tail[0].path);
    }
  }

  lemma {:induction false} SortInOrder(records: seq<Entry>)
    requires Distinct(records)
    ensures InOrder(Sort(records))
  {
    hide Insert, Less;
    if records != [] {
      var n := |records| - 1;
      SortInOrder(records[..n]);
      forall x | x in Sort(records[..n]) ensures x.path != records[n].path {
        SortHas(records[..n], x);
      }
      InsertInOrder(Sort(records[..n]), records[n]);
    }
  }

  // ------------------------------------------------------ paths of a subtree

  predicate Under(dir: seq<byte>, p: seq<byte>) {
    p == dir || (|p| > |dir| && p[..|dir|] == dir && (dir == ROOT || p[|dir|] == SLASH))
  }

  lemma UnderBelow(dir: seq<byte>, name: Name, p: seq<byte>)
    requires dir != [] && ValidName(name) && Under(Below(dir, name), p)
    ensures Under(dir, p) && |p| > |dir|
  {
    var b := Below(dir, name);
    assert b[..|dir|] == dir;
    assert p[..|b|][..|dir|] == p[..|dir|];
    assert p[|dir|] == b[|dir|];
  }

  lemma SameChildOrdered(dir: seq<byte>, m: Name, n: Name, p: seq<byte>)
    requires ValidName(m) && ValidName(n) && |m| <= |n|
    requires Under(Below(dir, m), p) && Under(Below(dir, n), p)
    ensures m == n
  {
    var a, b := Below(dir, m), Below(dir, n);
    var k := |a| - |m|;
    assert m == a[k..] == p[..|a|][k..] == p[k..k + |m|];
    assert n == b[k..] == p[..|b|][k..] == p[k..k + |n|];
    assert m == n[..|m|];
  }

  /** Subtrees of differently named children share no path. */
  lemma SameChild(dir: seq<byte>, m: Name, n: Name, p: seq<byte>)
    requires ValidName(m) && ValidName(n)
    requires Under(Below(dir, m), p) && Under(Below(dir, n), p)
    ensures m == n
  {
    if |m| <= |n| {
      SameChildOrdered(dir, m, n, p);
    } else {
      SameChildOrdered(dir, n, m, p);
    }
  }

  lemma {:induction false} RecordsUnder(t: Tools, s: Source, path: seq<byte>, e: Entry)
    requires t.chunkSize > 0 && ValidSource(s) && path != []
    requires e in Records(t, s, path)
    ensures Under(path, e.path)
    decreases s, if s.Folder? then |s.children| + 1 else 0
  {
    hide ChunkHashes;
    if s.Folder? && e.path != path {
      ChildUnder(t, s, path, |s.children|, e);
    }
  }

  lemma {:induction false} ChildUnder(t: Tools, s: Source, path: seq<byte>, n: nat, e: Entry)
    requires t.chunkSize > 0 && ValidSource(s) && s.Folder? && path != [] && n <= |s.children|
    requires e in ChildRecords(t, s, path, n)
    ensures exists i :: 0 <= i < n && Under(Below(path, s.children[i].name), e.path)
    ensures Under(path, e.path) && |e.path| > |path|
    decreases s, n
  {
    hide Records, Under, Below, ValidName;
    var c := s.children[n - 1];
    if e in ChildRecords(t, s, path, n - 1) {
      ChildUnder(t, s, path, n - 1, e);
    } else {
      assert Below(path, c.name) != [] by { BelowLonger(path, c.name); }
      RecordsUnder(t, c.node, Below(path, c.name), e);
      UnderBelow(path, c.name, e.path);
    }
  }

  lemma BelowLonger(dir: seq<byte>, name: Name)
    ensures Below(dir, name) != []
  {
  }

  lemma DistinctConcat(a: seq<Entry>, b: seq<Entry>)
    requires Distinct(a) && Distinct(b)
    requires forall x, y :: x in a && y in b ==> x.path != y.path
    ensures Distinct(a + b)
  {
    var c := a + b;
    forall i, j | 0 <= i < j < |c| ensures c[i].path != c[j].path {
      if i < |a| && j >= |a| {
        assert c[i] in a && c[j] in b;
      }
    }
  }

  lemma {:induction false} RecordsDistinct(t: Tools, s: Source, path: seq<byte>)
    requires t.chunkSize > 0 && ValidSource(s) && path != []
    ensures Distinct(Records(t, s, path))
    decreases s, if s.Folder? then |s.children| + 1 else 0
  {
    hide ChunkHashes, Under, Distinct, ValidName;
    if s.Folder? {
      var first := [Entry(path, s.mode, t.epoch, Dir)];
      var rest := ChildRecords(t, s, path, |s.children|);
      ChildrenDistinct(t, s, path, |s.children|);
      forall x, y | x in first && y in rest ensures x.path != y.path {
        ChildUnder(t, s, path, |s.children|, y);
      }
      Singleton(first[0]);
      DistinctConcat(first, rest);
    } else if !s.Special? {
      Singleton(Records(t, s, path)[0]);
    } else {
      NoneDistinct();
    }
  }

  lemma Singleton(e: Entry)
    ensures Distinct([e])
  {
  }

  lemma NoneDistinct()
    ensures Distinct([])
  {
  }

  lemma {:induction false} ChildrenDistinct(t: Tools, s: Source, path: seq<byte>, n: nat)
    requires t.chunkSize > 0 && ValidSource(s) && s.Folder? && path != [] && n <= |s.children|
    ensures Distinct(ChildRecords(t, s, path, n))
    decreases s, n
  {
    hide Records, Under, Distinct, ValidName, Below;
    if n == 0 {
      NoneDistinct();
    } else {
      var c := s.children[n - 1];
      var here := Below(path, c.name);
      BelowLonger(path, c.name);
      ChildrenDistinct(t, s, path, n - 1);
      RecordsDistinct(t, c.node, here);
      forall x, y | x in ChildRecords(t, s, path, n - 1) && y in Records(t, c.node, here) ensures x.path != y.path {
        ChildUnder(t, s, path, n - 1, x);
        var i :| 0 <= i < n - 1 && Under(Below(path, s.children[i].name), x.path);
        RecordsUnder(t, c.node, here, y);
        if x.path == y.path {
          SameChild(path, s.children[i].name, c.name, x.path);
        }
      }
      DistinctConcat(ChildRecords(t, s, path, n - 1), Records(t, c.node, here));
    }
  }

  // ---------------------------------------------------- records are entries

  lemma {:induction false} ChunkHashesLayout(t: Tools, data: seq<byte>)
    requires ValidTools(t)
    ensures |ChunkHashes(t, data)| == Count(|data|, t.chunkSize)
    ensures forall i :: 0 <= i < |ChunkHashes(t, data)| ==> |ChunkHashes(t, data)[i]| == 32
  {
    if |data| > t.chunkSize {
      ChunkHashesLayout(t, data[t.chunkSize..]);
    }
  }

  /** A file's record is valid exactly when the chunk size fits its 32-bit field. */
  lemma RegularValid(t: Tools, data: seq<byte>)
    requires ValidTools(t) && |data| < U64_LIMIT
    ensures ValidKind(File(ChunkedFile(|data|, t.chunkSize, ChunkHashes(t, data)), t.fnv(data))) <==> t.chunkSize < U32_LIMIT
  {
    hide ChunkHashes;
    ChunkHashesLayout(t, data);
  }

  lemma BelowCanonical(dir: seq<byte>, name: Name)
    requires CanonicalPath(dir) && ValidName(name)
    ensures CanonicalPath(Below(dir, name))
  {
    hide Split;
    var p := Below(dir, name);
    SplitFree(name, SLASH);
    if dir == ROOT {
      SplitAppend([], name, SLASH);
      assert [] + ([SLASH] + name) == p;
      assert Split([], SLASH) == [[]] by { SplitEmpty(SLASH); }
    } else {
      SplitAppend(dir, name, SLASH);
    }
    forall i | 0 <= i < |p| - 1 ensures !(p[i] == SLASH && p[i + 1] == SLASH) {
      if dir != ROOT && i + 1 < |dir| {
        assert p[i] == dir[i] && p[i + 1] == dir[i + 1];
      }
    }
  }

  predicate Encodable(t: Tools, s: Source) {
    t.chunkSize < U32_LIMIT || !HasRegular(s)
  }

  lemma {:induction false} RecordsValid(t: Tools, s: Source, path: seq<byte>, e: Entry)
    requires ValidTools(t) && ValidSource(s) && CanonicalPath(path) && Encodable(t, s)
    requires e in Records(t, s, path)
    ensures ValidEntry(e)
    decreases s, if s.Folder? then |s.children| + 1 else 0
  {
    hide ChunkHashes, CanonicalPath, ValidName, ValidFile;
    if s.Folder? && e in ChildRecords(t, s, path, |s.children|) {
      ChildrenValid(t, s, path, |s.children|, e);
    } else if s.Regular? {
      RegularValid(t, s.data);
    }
  }

  lemma {:induction false} RecordsTyped(t: Tools, s: Source, path: seq<byte>, e: Entry)
    requires ValidTools(t) && ValidSource(s) && e in Records(t, s, path)
    ensures Typed(e)
    decreases s, if s.Folder? then |s.children| + 1 else 0
  {
    hide ChunkHashes, ValidName;
    if s.Folder? && e in ChildRecords(t, s, path, |s.children|) {
      ChildrenTyped(t, s, path, |s.children|, e);
    } else if s.Regular? {
      ChunkHashesLayout(t, s.data);
    }
  }

  lemma {:induction false} ChildrenTyped(t: Tools, s: Source, path: seq<byte>, n: nat, e: Entry)
    requires ValidTools(t) && ValidSource(s) && s.Folder? && n <= |s.children| && e in ChildRecords(t, s, path, n)
    ensures Typed(e)
    decreases s, n
  {
    hide Records, ValidName, Typed, Below;
    if e in ChildRecords(t, s, path, n - 1) {
      ChildrenTyped(t, s, path, n - 1, e);
    } else {
      RecordsTyped(t, s.children[n - 1].node, Below(path, s.children[n - 1].name), e);
    }
  }

  lemma SortedTyped(t: Tools, s: Source, path: seq<byte>)
    requires ValidTools(t) && ValidSource(s)
    ensures AllTyped(Sort(Records(t, s, path)))
  {
    hide Records, Sort, Typed, ValidSource;
    var sorted := Sort(Records(t, s, path));
    forall i | 0 <= i < |sorted| ensures Typed(sorted[i]) {
      SortHas(Records(t, s, path), sorted[i]);
      RecordsTyped(t, s, path, sorted[i]);
    }
  }

  lemma {:induction false} ChildrenValid(t: Tools, s: Source, path: seq<byte>, n: nat, e: Entry)
    requires ValidTools(t) && ValidSource(s) && s.Folder? && CanonicalPath(path) && Encodable(t, s) && n <= |s.children|
    requires e in ChildRecords(t, s, path, n)
    ensures ValidEntry(e)
    decreases s, n
  {
    hide Records, CanonicalPath, ValidName, ValidEntry, Below;
    var c := s.children[n - 1];
    if e in ChildRecords(t, s, path, n - 1) {
      ChildrenValid(t, s, path, n - 1, e);
    } else {
      BelowCanonical(path, c.name);
      RecordsValid(t, c.node, Below(path, c.name), e);
    }
  }

  /** A regular file leaves a record with the tool's chunk size. */
  lemma {:induction false} RegularRecorded(t: Tools, s: Source, path: seq<byte>) returns (e: Entry)
    requires t.chunkSize > 0 && HasRegular(s)
    ensures e in Records(t, s, path) && e.kind.File? && e.kind.file.chunkSize == t.chunkSize
    decreases s
  {
    if s.Regular? {
      e := Records(t, s, path)[0];
    } else {
      var i :| 0 <= i < |s.children| && HasRegular(s.children[i].node);
      e := RegularRecorded(t, s.children[i].node, Below(path, s.children[i].name));
      ChildIncluded(t, s, path, i, |s.children|, e);
    }
  }

  lemma {:induction false} ChildIncluded(t: Tools, s: Source, path: seq<byte>, i: nat, n: nat, e: Entry)
    requires t.chunkSize > 0 && s.Folder? && i < n <= |s.children|
    requires e in Records(t, s.children[i].node, Below(path, s.children[i].name))
    ensures e in ChildRecords(t, s, path, n)
  {
    hide Records, Below;
    if i < n - 1 {
      ChildIncluded(t, s, path, i, n - 1, e);
    }
  }

  // -------------------------------------------------- parents are recorded

  lemma {:induction false} LastSlashBelow(dir: seq<byte>, name: Name)
    requires Free(name, SLASH)
    ensures LastSlash(dir + ([SLASH] + name)) == |dir|
    decreases |name|
  {
    var p := dir + ([SLASH] + name);
    if name != [] {
      var front := name[..|name| - 1];
      assert p[..|p| - 1] == dir + ([SLASH] + front);
      LastSlashBelow(dir, front);
    }
  }

  lemma ParentBelow(dir: seq<byte>, name: Name)
    requires dir != [] && ValidName(name)
    ensures Parent(Below(dir, name)) == dir
  {
    if dir == ROOT {
      LastSlashBelow([], name);
      assert [] + ([SLASH] + name) == Below(dir, name);
    } else {
      LastSlashBelow(dir, name);
      assert Below(dir, name)[..|dir|] == dir;
    }
  }

  predicate DirIn(records: seq<Entry>, path: seq<byte>) {
    exists d :: d in records && d.kind.Dir? && d.path == path
  }

  lemma {:induction false} ParentRecorded(t: Tools, s: Source, path: seq<byte>, e: Entry)
    requires t.chunkSize > 0 && ValidSource(s) && path != [] && e in Records(t, s, path)
    ensures e.path == path || DirIn(Records(t, s, path), Parent(e.path))
    decreases s, if s.Folder? then |s.children| + 1 else 0
  {
    hide ChunkHashes, Parent, ValidName;
    if s.Folder? && e in ChildRecords(t, s, path, |s.children|) {
      ChildHoused(t, s, path, |s.children|, e);
    }
  }

  lemma {:induction false} ChildHoused(t: Tools, s: Source, path: seq<byte>, n: nat, e: Entry)
    requires t.chunkSize > 0 && ValidSource(s) && s.Folder? && path != [] && n <= |s.children|
    requires e in ChildRecords(t, s, path, n)
    ensures DirIn(Records(t, s, path), Parent(e.path))
    decreases s, n
  {
    hide Records, Parent, ValidName, Below;
    var c := s.children[n - 1];
    if e in ChildRecords(t, s, path, n - 1) {
      ChildHoused(t, s, path, n - 1, e);
    } else {
      var here := Below(path, c.name);
      BelowLonger(path, c.name);
      FolderRecorded(t, s, path);
      ParentRecorded(t, c.node, here, e);
      ParentBelow(path, c.name);
      if e.path != here {
        var d :| d in Records(t, c.node, here) && d.kind.Dir? && d.path == Parent(e.path);
        ChildIncluded(t, s, path, n - 1, |s.children|, d);
        assert d in Records(t, s, path) by { ChildrenAreRecords(t, s, path, d); }
      } else {
        assert Records(t, s, path)[0].kind.Dir? && Records(t, s, path)[0].path == Parent(e.path);
      }
    }
  }

  lemma ChildrenAreRecords(t: Tools, s: Source, path: seq<byte>, e: Entry)
    requires t.chunkSize > 0 && s.Folder? && e in ChildRecords(t, s, path, |s.children|)
    ensures e in Records(t, s, path)
  {
  }

  // ------------------------------------------------------------ the result

  /** The prefix has at most one part. */
  predicate Shallow(root: seq<byte>) {
    CanonicalPath(root) && (root == ROOT || Parent(root) == ROOT)
  }

  lemma SortedHoused(t: Tools, s: Source, root: seq<byte>, e: Entry)
    requires t.chunkSize > 0 && ValidSource(s) && s.Folder? && root != [] && e in Records(t, s, root)
    ensures e.path != root ==> Housed(Sort(Records(t, s, root)), e)
    ensures e.path == root ==> (Housed(Sort(Records(t, s, root)), e) <==> root == ROOT || Parent(root) == ROOT)
  {
    hide Records, Sort, LastSlash;
    var records := Records(t, s, root);
    var sorted := Sort(records);
    if e.path != root {
      ParentRecorded(t, s, root, e);
      var d :| d in records && d.kind.Dir? && d.path == Parent(e.path);
      SortHas(records, d);
    } else if Names(sorted, Parent(root)) {
      var j :| 0 <= j < |sorted| && sorted[j].kind.Dir? && sorted[j].path == Parent(root);
      SortHas(records, sorted[j]);
      RecordsUnder(t, s, root, sorted[j]);
      ParentShorter(root);
    }
  }

  lemma ParentShorter(path: seq<byte>)
    requires path != []
    ensures Parent(path) == ROOT || |Parent(path)| < |path|
  {
  }

  /** The tool's output is accepted if and only if the guest prefix has at most one part and,
      where there are files, the chunk size fits 32 bits. What is accepted then names exactly the
      records of the tree. */
  lemma BuilderAccepted(t: Tools, s: Source, prefix: seq<byte>)
    requires ValidTools(t) && ValidSource(s) && s.Folder?
    ensures Parse(Build(t, s, prefix)) ==
            if Shallow(RootPath(prefix)) && Encodable(t, s) then Some(Sort(Records(t, s, RootPath(prefix)))) else None
  {
    hide Parse, Build, Records, Sort, Shallow, Encodable, Print, ValidSource, AllTyped, WellFormed;
    var sorted := Sort(Records(t, s, RootPath(prefix)));
    SortedAccepted(t, s, prefix);
    var parsed := Parse(Build(t, s, prefix));
    if parsed.Some? {
      BuildPrints(t, s, prefix);
      ParsePrints(Build(t, s, prefix), parsed.value);
      assert AllTyped(parsed.value) by { WellFormedTyped(parsed.value); }
      SortedTyped(t, s, RootPath(prefix));
      PrintUnique(parsed.value, sorted);
    }
  }

  lemma WellFormedTyped(entries: seq<Entry>)
    requires WellFormed(entries)
    ensures AllTyped(entries)
  {
    AllValidTyped(entries);
  }

  /** A prefix of two parts is always refused: nothing records the directory above it. */
  lemma DeepPrefixRefused(t: Tools, s: Source)
    requires ValidTools(t) && ValidSource(s) && s.Folder?
    ensures Parse(Build(t, s, [SLASH, 97, SLASH, 98])) == None
  {
    hide Parse, Build, ValidSource, CanonicalPath, LastSlash;
    var prefix: seq<byte> := [SLASH, 97, SLASH, 98];
    assert prefix[1..] == [97, SLASH, 98];
    assert StripLeft(prefix) == StripLeft(prefix[1..]) == [97, SLASH, 98];
    assert StripRight([97, SLASH, 98]) == [97, SLASH, 98];
    assert RootPath(prefix) == prefix;
    assert prefix == [SLASH, 97] + ([SLASH] + [98]);
    LastSlashBelow([SLASH, 97], [98]);
    assert Parent(prefix) == [SLASH, 97];
    BuilderAccepted(t, s, prefix);
  }

  lemma SortedAccepted(t: Tools, s: Source, prefix: seq<byte>)
    requires ValidTools(t) && ValidSource(s) && s.Folder?
    ensures Parse(Build(t, s, prefix)) == Some(Sort(Records(t, s, RootPath(prefix)))) <==>
            Shallow(RootPath(prefix)) && Encodable(t, s)
  {
    hide Parse, Build, Records, Sort, ValidEntry, CanonicalPath, Parent, Housed, InOrder, HasRegular, Print, ValidSource;
    var root := RootPath(prefix);
    var records := Records(t, s, root);
    var sorted := Sort(records);
    BuildPrints(t, s, prefix);
    ParsePrints(Build(t, s, prefix), sorted);
    RecordsDistinct(t, s, root);
    SortInOrder(records);
    FolderRecorded(t, s, root);
    SortSize(records);
    SortHas(records, records[0]);
    SortedHoused(t, s, root, records[0]);
    if Shallow(root) && Encodable(t, s) {
      forall i | 0 <= i < |sorted| ensures ValidEntry(sorted[i]) && Housed(sorted, sorted[i]) {
        SortHas(records, sorted[i]);
        RecordsValid(t, s, root, sorted[i]);
        SortedHoused(t, s, root, sorted[i]);
      }
    } else if WellFormed(sorted) {
      assert CanonicalPath(root) by { PathOf(records[0]); }
      if HasRegular(s) {
        var e := RegularRecorded(t, s, root);
        SortHas(records, e);
        LayoutOf(e);
      }
    }
  }

  lemma PathOf(e: Entry)
    requires ValidEntry(e)
    ensures CanonicalPath(e.path)
  {
  }

  lemma LayoutOf(e: Entry)
    requires ValidEntry(e) && e.kind.File?
    ensures e.kind.file.chunkSize < U32_LIMIT
  {
  }

  /** For the default prefix the output is always accepted when the chunk size fits. */
  lemma RootPrefixAccepted(t: Tools, s: Source)
    requires ValidTools(t) && ValidSource(s) && s.Folder? && t.chunkSize < U32_LIMIT
    ensures Parse(Build(t, s, ROOT)) == Some(Sort(Records(t, s, ROOT)))
  {
    hide Parse, Build, Records, Sort;
    assert StripLeft(ROOT) == [] by { assert ROOT[1..] == []; }
    assert RootPath(ROOT) == ROOT;
    RootCanonical();
    BuilderAccepted(t, s, ROOT);
  }

  lemma RootCanonical()
    ensures CanonicalPath(ROOT)
  {
    SplitAppend([], [], SLASH);
    assert [] + ([SLASH] + []) == ROOT;
    SplitEmpty(SLASH);
    assert Split(ROOT, SLASH) == [[], []];
  }

  // ---------------------------------------------------------- the tool's walk

  lemma {:induction false} HeadIsLeast(a: seq<Entry>, i: nat)
    requires InOrder(a) && 0 < i < |a|
    ensures Less(a[0].path, a[i].path)
  {
    hide Less;
    if i > 1 {
      HeadIsLeast(a, i - 1);
      LessTransitive(a[0].path, a[i - 1].path, a[i].path);
    }
  }

  /** The order of the walk does not matter: one set of records has one list in path order. */
  lemma {:induction false} InOrderUnique(a: seq<Entry>, b: seq<Entry>)
    requires InOrder(a) && InOrder(b) && forall e :: e in a <==> e in b
    ensures a == b
  {
    hide Less;
    assert b != [] ==> b[0] in a;
    if a != [] {
      assert a[0] in b && b != [];
      SameHead(a, b);
      forall e ensures e in a[1..] <==> e in b[1..] {
        InTail(a, e);
        InTail(b, e);
      }
      assert forall i :: 0 <= i < |a[1..]| ==> a[1..][i] == a[i + 1];
      assert forall i :: 0 <= i < |b[1..]| ==> b[1..][i] == b[i + 1];
      InOrderUnique(a[1..], b[1..]);
      assert a == [a[0]] + a[1..] && b == [b[0]] + b[1..];
    }
  }

  lemma SameHead(a: seq<Entry>, b: seq<Entry>)
    requires InOrder(a) && InOrder(b) && a != [] && b != [] && a[0] in b && b[0] in a
    ensures a[0] == b[0]
  {
    hide Less;
    var i :| 0 <= i < |b| && b[i] == a[0];
    var j :| 0 <= j < |a| && a[j] == b[0];
    LessTotal(a[0].path, b[0].path);
    if i > 0 {
      HeadIsLeast(b, i);
    }
    if j > 0 {
      HeadIsLeast(a, j);
    }
  }

  lemma InTail(a: seq<Entry>, e: Entry)
    requires InOrder(a) && a != []
    ensures e in a[1..] <==> e in a && e != a[0]
  {
    hide Less;
    assert a == [a[0]] + a[1..];
    if a[0] in a[1..] {
      var i :| 0 <= i < |a[1..]| && a[1..][i] == a[0];
      LessTotal(a[0].path, a[0].path);
      HeadIsLeast(a, i + 1);
    }
  }

  method HashFile(t: Tools, data: seq<byte>) returns (hashes: seq<Hash>, size: nat)
    requires t.chunkSize > 0
    ensures hashes == ChunkHashes(t, data) && size == |data|
  {
    var stream := data;
    hashes, size := [], 0;
    while stream != []
      invariant hashes + ChunkHashes(t, stream) == ChunkHashes(t, data)
      invariant size + |stream| == |data|
      decreases |stream|
    {
      var piece := stream[..Min(t.chunkSize, |stream|)];
      assert |stream| <= t.chunkSize ==> piece == stream && stream[|piece|..] == [];
      stream := stream[|piece|..];
      size := size + |piece|;
      hashes := hashes + [t.hash(piece)];
    }
  }

  method Collect(t: Tools, s: Source, path: seq<byte>) returns (records: seq<Entry>)
    requires t.chunkSize > 0
    ensures records == Records(t, s, path)
    decreases s, 1
  {
    hide ChunkHashes, ChildRecords;
    match s
    case Folder(mode, _) =>
      records := CollectChildren(t, s, path);
      records := [Entry(path, mode, t.epoch, Dir)] + records;
    case SoftLink(mode, target) =>
      records := [Entry(path, mode, t.epoch, Symlink(target))];
    case Regular(mode, data) =>
      var hashes, size := HashFile(t, data);
      records := [Entry(path, mode, t.epoch, File(ChunkedFile(size, t.chunkSize, hashes), t.fnv(data)))];
    case Special =>
      records := [];
  }

  method CollectChildren(t: Tools, s: Source, path: seq<byte>) returns (records: seq<Entry>)
    requires t.chunkSize > 0 && s.Folder?
    ensures records == ChildRecords(t, s, path, |s.children|)
    decreases s, 0
  {
    hide Records, Below;
    records := [];
    for i := 0 to |s.children|
      invariant records == ChildRecords(t, s, path, i)
    {
      var more := Collect(t, s.children[i].node, Below(path, s.children[i].name));
      records := records + more;
    }
  }

  method BuildManifest(t: Tools, s: Source, prefix: seq<byte>) returns (text: seq<byte>)
    requires t.chunkSize > 0 && s.Folder?
    ensures text == Build(t, s, prefix)
  {
    hide Records, Insert, Join, PrintLines;
    var records := Collect(t, s, RootPath(prefix));
    assert |records| >= 1 by { FolderRecorded(t, s, RootPath(prefix)); }
    var sorted: seq<Entry> := [];
    for i := 0 to |records|
      invariant sorted == Sort(records[..i])
    {
      assert records[..i + 1][..i] == records[..i];
      sorted := Insert(sorted, records[i]);
    }
    assert records[..|records|] == records;
    SortSize(records);
    text := HEADER + [NEWLINE] + Join(PrintLines(sorted), NEWLINE) + [NEWLINE];
  }
}

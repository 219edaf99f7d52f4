/** The binary image of a filesystem tree: `Serialize` writes it, `Deserialize` restores it. */
module VfsCodec {
  import opened Base
  import opened Bytes
  import opened Chunks
  import Text

  const MAX_NODES: nat := 4_000_000
  const VERSION: nat := 3
  const MIN_NODE_BYTES: nat := 29

  /** "WTFS". */
  const MAGIC: seq<byte> := [87, 84, 70, 83]

  datatype Dev = Null | Zero | Tty | Random | Ptmx

  datatype Entry = Entry(name: seq<byte>, child: nat)

  /** A directory is its entries in name order, which is what an ordered map iterates over. */
  datatype Kind =
    | Dir(entries: seq<Entry>)
    | File(data: seq<byte>)
    | Chunked(file: ChunkedFile)
    | Symlink(target: seq<byte>)
    | CharDev(dev: Dev)

  datatype Node = Node(kind: Kind, mode: nat, nlink: nat, mtime: int, parent: nat)

  datatype Image = Image(root: Option<Hash>, nodes: seq<Node>)

  // ------------------------------------------------------------- name order

  predicate Sorted(s: seq<Entry>) {
    forall i, j :: 0 <= i < j < |s| ==> Text.Less(s[i].name, s[j].name)
  }

  /** Ordered-map insertion: a new name finds its place, a known one is given the new child. */
  function Insert(s: seq<Entry>, e: Entry): seq<Entry> {
    if s == [] then [e]
    else if e.name == s[0].name then [e] + s[1..]
    else if Text.Less(e.name, s[0].name) then [e] + s
    else [s[0]] + Insert(s[1..], e)
  }

  lemma {:induction false} InsertLast(s: seq<Entry>, e: Entry)
    requires forall i :: 0 <= i < |s| ==> Text.Less(s[i].name, e.name)
    ensures Insert(s, e) == s + [e]
  {
    if s != [] {
      Text.LessTotal(s[0].name, e.name);
      InsertLast(s[1..], e);
    }
  }

  lemma {:induction false} InsertFrom(s: seq<Entry>, e: Entry, x: Entry)
    ensures x in Insert(s, e) ==> x == e || x in s
  {
    if s != [] && e.name != s[0].name && !Text.Less(e.name, s[0].name) {
      InsertFrom(s[1..], e, x);
    }
  }

  lemma {:induction false} InsertSorted(s: seq<Entry>, e: Entry)
    requires Sorted(s)
    ensures Sorted(Insert(s, e)) && |Insert(s, e)| <= |s| + 1
  {
    if s != [] && e.name != s[0].name {
      Text.LessTotal(e.name, s[0].name);
      if Text.Less(e.name, s[0].name) {
        forall j | 1 <= j < |s| ensures Text.Less(e.name, s[j].name) {
          Text.LessTransitive(e.name, s[0].name, s[j].name);
        }
      } else {
        var rest := Insert(s[1..], e);
        InsertSorted(s[1..], e);
        forall j | 0 <= j < |rest| ensures Text.Less(s[0].name, rest[j].name) {
          InsertFrom(s[1..], e, rest[j]);
        }
      }
    }
  }

  // ---------------------------------------------------------------- writing

  function Signed(value: int): (r: nat)
    requires 0 - U63_LIMIT <= value < U63_LIMIT
    ensures r < U64_LIMIT
  {
    if value < 0 then value + U64_LIMIT else value
  }

  function Unsigned(word: nat): int {
    if word < U63_LIMIT then word else word - U64_LIMIT
  }

  function EncodeEntry(e: Entry): seq<byte> {
    LittleEndian(|e.name|, 2) + (e.name + LittleEndian(e.child, 8))
  }

  function EncodeEntries(s: seq<Entry>): seq<byte> {
    if s == [] then [] else EncodeEntry(s[0]) + EncodeEntries(s[1..])
  }

  function Join(hashes: seq<Hash>): seq<byte> {
    if hashes == [] then [] else hashes[0] + Join(hashes[1..])
  }

  function DevTag(dev: Dev): byte {
    match dev
    case Null => 0
    case Zero => 1
    case Tty => 2
    case Random => 3
    case Ptmx => 5
  }

  function EncodeKind(kind: Kind): (r: seq<byte>)
    ensures |r| >= 1
  {
    match kind
    case Dir(entries) => [1] + (LittleEndian(|entries|, 4) + EncodeEntries(entries))
    case File(data) => [2] + (LittleEndian(|data|, 8) + data)
    case Symlink(target) => [3] + (LittleEndian(|target|, 2) + target)
    case CharDev(dev) => [4] + [DevTag(dev)]
    case Chunked(file) =>
      [5] + (LittleEndian(file.size, 8)
      + (LittleEndian(file.chunkSize, 4) + (LittleEndian(|file.chunks|, 8) + Join(file.chunks))))
  }

  predicate Typed(n: Node) {
    && n.mode < U32_LIMIT && n.nlink < U64_LIMIT && 0 - U63_LIMIT <= n.mtime < U63_LIMIT
    && (n.kind.Chunked? ==> n.kind.file.size < U64_LIMIT && n.kind.file.chunkSize < U32_LIMIT
                            && forall i :: 0 <= i < |n.kind.file.chunks| ==> |n.kind.file.chunks[i]| == 32)
    && (n.kind.Dir? ==> Sorted(n.kind.entries))
  }

  function EncodeNode(n: Node): (r: seq<byte>)
    requires Typed(n)
    ensures |r| >= MIN_NODE_BYTES
  {
    LittleEndian(n.parent, 8)
    + (LittleEndian(n.mode, 4) + (LittleEndian(n.nlink, 8) + (LittleEndian(Signed(n.mtime), 8) + EncodeKind(n.kind))))
  }

  predicate AllTyped(nodes: seq<Node>) {
    forall i :: 0 <= i < |nodes| ==> Typed(nodes[i])
  }

  function EncodeNodes(nodes: seq<Node>): (r: seq<byte>)
    requires AllTyped(nodes)
    ensures |r| >= |nodes| * MIN_NODE_BYTES
  {
    if nodes == [] then [] else EncodeNode(nodes[0]) + EncodeNodes(nodes[1..])
  }

  function EncodeRoot(root: Option<Hash>): seq<byte> {
    if root.Some? then [1] + root.value else [0]
  }

  /** A tree as the program holds it: each field in its machine type. */
  predicate TypedImage(image: Image) {
    AllTyped(image.nodes) && (image.root.Some? ==> |image.root.value| == 32)
  }

  function Serialize(image: Image): seq<byte>
    requires TypedImage(image)
  {
    MAGIC + (LittleEndian(VERSION, 4)
    + (EncodeRoot(image.root) + (LittleEndian(|image.nodes|, 4) + EncodeNodes(image.nodes))))
  }

  // ---------------------------------------------------------------- reading

  datatype Parsed<T> = Parsed(value: T, rest: seq<byte>)

  function Take(b: seq<byte>, n: nat): Option<Parsed<seq<byte>>> {
    if |b| < n then None else Some(Parsed(b[..n], b[n..]))
  }

  function Word(b: seq<byte>, n: nat): Option<Parsed<nat>> {
    var bytes :- Take(b, n);
    Some(Parsed(FromLittleEndian(bytes.value), bytes.rest))
  }

  /** A 64-bit word used as a length or an index, which a 32-bit host may refuse. `host` is the
      first value that does not fit. */
  function Index64(b: seq<byte>, host: nat): Option<Parsed<nat>> {
    var word :- Word(b, 8);
    if word.value >= host then None else Some(word)
  }

  function ReadEntry(b: seq<byte>, count: nat, host: nat): Option<Parsed<Entry>> {
    var length :- Word(b, 2);
    var name :- Take(length.rest, length.value);
    var child :- Index64(name.rest, host);
    if child.value >= count then None else Some(Parsed(Entry(name.value, child.value), child.rest))
  }

  function ReadEntries(b: seq<byte>, n: nat, count: nat, host: nat, s: seq<Entry>): Option<Parsed<seq<Entry>>>
    decreases n
  {
    if n == 0 then Some(Parsed(s, b))
    else
      var e :- ReadEntry(b, count, host);
      ReadEntries(e.rest, n - 1, count, host, Insert(s, e.value))
  }

  function ReadDir(b: seq<byte>, count: nat, host: nat): Option<Parsed<Kind>> {
    var n :- Word(b, 4);
    var entries :- ReadEntries(n.rest, n.value, count, host, []);
    Some(Parsed(Dir(entries.value), entries.rest))
  }

  function ReadFile(b: seq<byte>, host: nat): Option<Parsed<Kind>> {
    var length :- Index64(b, host);
    var data :- Take(length.rest, length.value);
    Some(Parsed(File(data.value), data.rest))
  }

  function ReadSymlink(b: seq<byte>): Option<Parsed<Kind>> {
    var length :- Word(b, 2);
    var target :- Take(length.rest, length.value);
    Some(Parsed(Symlink(target.value), target.rest))
  }

  function ReadDev(b: seq<byte>): Option<Parsed<Kind>> {
    var tag :- Word(b, 1);
    if tag.value == 0 then Some(Parsed(CharDev(Null), tag.rest))
    else if tag.value == 1 then Some(Parsed(CharDev(Zero), tag.rest))
    else if tag.value == 2 then Some(Parsed(CharDev(Tty), tag.rest))
    else if tag.value == 3 then Some(Parsed(CharDev(Random), tag.rest))
    else if tag.value == 5 then Some(Parsed(CharDev(Ptmx), tag.rest))
    else None
  }

  /** Consecutive 32-byte hashes. */
  function Split(bytes: seq<byte>, n: nat): (r: seq<Hash>)
    requires |bytes| == n * 32
    ensures |r| == n && forall i :: 0 <= i < n ==> |r[i]| == 32
  {
    if n == 0 then [] else [bytes[..32]] + Split(bytes[32..], n - 1)
  }

  function ReadChunked(b: seq<byte>, host: nat): Option<Parsed<Kind>> {
    var size :- Word(b, 8);
    var chunkSize :- Word(size.rest, 4);
    var n :- Index64(chunkSize.rest, host);
    if n.value * 32 >= host then None
    else
      var hashes :- Take(n.rest, n.value * 32);
      var file := NewFile(size.value, chunkSize.value, Split(hashes.value, n.value));
      if file.Err? then None else Some(Parsed(Chunked(file.value), hashes.rest))
  }

  function ReadKind(b: seq<byte>, version: nat, count: nat, host: nat): Option<Parsed<Kind>> {
    var tag :- Word(b, 1);
    if tag.value == 1 then ReadDir(tag.rest, count, host)
    else if tag.value == 2 then ReadFile(tag.rest, host)
    else if tag.value == 3 then ReadSymlink(tag.rest)
    else if tag.value == 4 then ReadDev(tag.rest)
    else if tag.value == 5 && version >= 2 then ReadChunked(tag.rest, host)
    else None
  }

  function ReadNode(b: seq<byte>, version: nat, count: nat, host: nat): Option<Parsed<Node>> {
    var parent :- Index64(b, host);
    var mode :- Word(parent.rest, 4);
    var nlink :- Word(mode.rest, 8);
    var mtime :- Word(nlink.rest, 8);
    var kind :- ReadKind(mtime.rest, version, count, host);
    if parent.value >= count then None
    else Some(Parsed(Node(kind.value, mode.value, nlink.value, Unsigned(mtime.value), parent.value), kind.rest))
  }

  function ReadNodes(b: seq<byte>, n: nat, version: nat, count: nat, host: nat, s: seq<Node>): Option<Parsed<seq<Node>>>
    decreases n
  {
    if n == 0 then Some(Parsed(s, b))
    else
      var node :- ReadNode(b, version, count, host);
      ReadNodes(node.rest, n - 1, version, count, host, s + [node.value])
  }

  function ReadRoot(b: seq<byte>, version: nat): Option<Parsed<Option<Hash>>> {
    if version < 3 then Some(Parsed(None, b))
    else
      var tag :- Word(b, 1);
      if tag.value == 0 then Some(Parsed(None, tag.rest))
      else if tag.value == 1 then
        var root :- Take(tag.rest, 32);
        Some(Parsed(Some(root.value), root.rest))
      else None
  }

  function ReadBody(b: seq<byte>, host: nat): Option<Parsed<Image>> {
    var magic :- Take(b, 4);
    if magic.value != MAGIC then None
    else
      var version :- Word(magic.rest, 4);
      if !(1 <= version.value <= VERSION) then None
      else
        var root :- ReadRoot(version.rest, version.value);
        var count :- Word(root.rest, 4);
        if count.value == 0 || count.value > MAX_NODES || count.value * MIN_NODE_BYTES > |count.rest| then None
        else
          var nodes :- ReadNodes(count.rest, count.value, version.value, count.value, host, []);
          Some(Parsed(Image(root.value, nodes.value), nodes.rest))
  }

  predicate NeedsRoot(image: Image) {
    exists i :: 0 <= i < |image.nodes| && image.nodes[i].kind.Chunked?
  }

  /** The tree an image holds, or nothing for an image this host refuses. */
  function Deserialize(b: seq<byte>, host: nat): Option<Image> {
    var image :- ReadBody(b, host);
    if image.rest != [] || (image.value.root.None? && NeedsRoot(image.value)) then None
    else Some(image.value)
  }

  // ------------------------------------------------- what a reader accepts

  predicate FitsKind(kind: Kind, count: nat, host: nat) {
    match kind
    case Dir(entries) =>
      && |entries| < U32_LIMIT
      && forall i :: 0 <= i < |entries| ==> |entries[i].name| < U16_LIMIT && entries[i].child < count
    case File(data) => |data| < host
    case Symlink(target) => |target| < U16_LIMIT
    case CharDev(_) => true
    case Chunked(file) => Layout(file) && |file.chunks| * 32 < host
  }

  predicate FitsNode(n: Node, count: nat, host: nat) {
    n.parent < count && FitsKind(n.kind, count, host)
  }

  predicate FitNodes(nodes: seq<Node>, count: nat, host: nat) {
    forall i :: 0 <= i < |nodes| ==> FitsNode(nodes[i], count, host)
  }

  /** The tree stays within the widths of the wire format, and every index names a node. */
  predicate Fits(image: Image, host: nat) {
    && 1 <= |image.nodes| <= MAX_NODES
    && FitNodes(image.nodes, |image.nodes|, host)
    && (NeedsRoot(image) ==> image.root.Some?)
  }

  predicate Host(host: nat) {
    host == U32_LIMIT || host == U64_LIMIT
  }

  // ------------------------------------------------------------- round trip

  lemma TakeBack(x: seq<byte>, rest: seq<byte>)
    ensures Take(x + rest, |x|) == Some(Parsed(x, rest))
  {
  }

  lemma WordBack(value: nat, n: nat, rest: seq<byte>)
    requires value < Pow256(n)
    ensures Word(LittleEndian(value, n) + rest, n) == Some(Parsed(value, rest))
  {
    hide LittleEndian, FromLittleEndian;
    TakeBack(LittleEndian(value, n), rest);
    WordFits(value, n);
  }

  lemma TagBack(tag: byte, rest: seq<byte>)
    ensures Word([tag] + rest, 1) == Some(Parsed(tag as nat, rest))
  {
    TakeBack([tag], rest);
    assert FromLittleEndian([tag]) == tag as nat + 256 * FromLittleEndian([]);
  }

  lemma Associative(a: seq<byte>, b: seq<byte>, c: seq<byte>)
    ensures (a + b) + c == a + (b + c)
  {
  }

  lemma EntryBack(e: Entry, count: nat, host: nat, rest: seq<byte>)
    requires Host(host) && count <= MAX_NODES && |e.name| < U16_LIMIT && e.child < count
    ensures ReadEntry(EncodeEntry(e) + rest, count, host) == Some(Parsed(e, rest))
  {
    hide LittleEndian, Word, Take;
    Widths();
    var child := LittleEndian(e.child, 8);
    Associative(LittleEndian(|e.name|, 2), e.name + child, rest);
    Associative(e.name, child, rest);
    WordBack(|e.name|, 2, e.name + (child + rest));
    TakeBack(e.name, child + rest);
    WordBack(e.child, 8, rest);
  }

  lemma {:induction false} EntriesBack(all: seq<Entry>, k: nat, count: nat, host: nat, rest: seq<byte>)
    requires Host(host) && count <= MAX_NODES && k <= |all| && Sorted(all)
    requires forall i :: 0 <= i < |all| ==> |all[i].name| < U16_LIMIT && all[i].child < count
    ensures ReadEntries(EncodeEntries(all[k..]) + rest, |all| - k, count, host, all[..k]) == Some(Parsed(all, rest))
    decreases |all| - k
  {
    hide EncodeEntry, ReadEntry, Insert;
    if k == |all| {
      assert all[..k] == all && EncodeEntries(all[k..]) + rest == rest;
    } else {
      assert all[k..][0] == all[k] && all[k..][1..] == all[k + 1..];
      var tail := EncodeEntries(all[k + 1..]);
      Associative(EncodeEntry(all[k]), tail, rest);
      EntryBack(all[k], count, host, tail + rest);
      InsertLast(all[..k], all[k]);
      assert all[..k] + [all[k]] == all[..k + 1];
      EntriesBack(all, k + 1, count, host, rest);
    }
  }

  lemma {:induction false} SplitJoin(hashes: seq<Hash>)
    requires forall i :: 0 <= i < |hashes| ==> |hashes[i]| == 32
    ensures |Join(hashes)| == |hashes| * 32 && Split(Join(hashes), |hashes|) == hashes
  {
    if hashes != [] {
      SplitJoin(hashes[1..]);
      var joined := Join(hashes);
      assert joined[..32] == hashes[0] && joined[32..] == Join(hashes[1..]);
    }
  }

  lemma DirBack(entries: seq<Entry>, version: nat, count: nat, host: nat, rest: seq<byte>)
    requires Host(host) && count <= MAX_NODES && Sorted(entries) && FitsKind(Dir(entries), count, host)
    ensures ReadKind(EncodeKind(Dir(entries)) + rest, version, count, host) == Some(Parsed(Dir(entries), rest))
  {
    hide LittleEndian, Word, EncodeEntries, ReadEntries;
    Widths();
    var n, body := LittleEndian(|entries|, 4), EncodeEntries(entries);
    Associative([1], n + body, rest);
    Associative(n, body, rest);
    TagBack(1, n + (body + rest));
    WordBack(|entries|, 4, body + rest);
    assert entries[0..] == entries && entries[..0] == [];
    EntriesBack(entries, 0, count, host, rest);
  }

  lemma FileBack(data: seq<byte>, version: nat, count: nat, host: nat, rest: seq<byte>)
    requires Host(host) && |data| < host
    ensures ReadKind(EncodeKind(File(data)) + rest, version, count, host) == Some(Parsed(File(data), rest))
  {
    hide LittleEndian, Word, Take;
    Widths();
    var n := LittleEndian(|data|, 8);
    Associative([2], n + data, rest);
    Associative(n, data, rest);
    TagBack(2, n + (data + rest));
    WordBack(|data|, 8, data + rest);
    TakeBack(data, rest);
  }

  lemma SymlinkBack(target: seq<byte>, version: nat, count: nat, host: nat, rest: seq<byte>)
    requires |target| < U16_LIMIT
    ensures ReadKind(EncodeKind(Symlink(target)) + rest, version, count, host) == Some(Parsed(Symlink(target), rest))
  {
    hide LittleEndian, Word, Take;
    Widths();
    var n := LittleEndian(|target|, 2);
    Associative([3], n + target, rest);
    Associative(n, target, rest);
    TagBack(3, n + (target + rest));
    WordBack(|target|, 2, target + rest);
    TakeBack(target, rest);
  }

  lemma DevBack(dev: Dev, version: nat, count: nat, host: nat, rest: seq<byte>)
    ensures ReadKind(EncodeKind(CharDev(dev)) + rest, version, count, host) == Some(Parsed(CharDev(dev), rest))
  {
    hide Word;
    Associative([4], [DevTag(dev)], rest);
    TagBack(4, [DevTag(dev)] + rest);
    TagBack(DevTag(dev), rest);
  }

  lemma ChunkedBack(file: ChunkedFile, version: nat, count: nat, host: nat, rest: seq<byte>)
    requires Host(host) && version >= 2 && FitsKind(Chunked(file), count, host)
    requires file.size < U64_LIMIT && file.chunkSize < U32_LIMIT
    requires forall i :: 0 <= i < |file.chunks| ==> |file.chunks[i]| == 32
    ensures ReadKind(EncodeKind(Chunked(file)) + rest, version, count, host) == Some(Parsed(Chunked(file), rest))
  {
    hide LittleEndian, Word, Take, Join, Split, NewFile, Layout;
    Widths();
    SplitJoin(file.chunks);
    var hashes := Join(file.chunks);
    var n := LittleEndian(|file.chunks|, 8);
    var tail := n + hashes;
    var chunkSize := LittleEndian(file.chunkSize, 4);
    var size := LittleEndian(file.size, 8);
    Associative([5], size + (chunkSize + tail), rest);
    Associative(size, chunkSize + tail, rest);
    Associative(chunkSize, tail, rest);
    Associative(n, hashes, rest);
    TagBack(5, size + (chunkSize + (tail + rest)));
    WordBack(file.size, 8, chunkSize + (tail + rest));
    WordBack(file.chunkSize, 4, tail + rest);
    WordBack(|file.chunks|, 8, hashes + rest);
    TakeBack(hashes, rest);
  }

  lemma KindBack(kind: Kind, version: nat, count: nat, host: nat, rest: seq<byte>)
    requires Host(host) && version >= 2 && count <= MAX_NODES && FitsKind(kind, count, host)
    requires Typed(Node(kind, 0, 0, 0, 0))
    ensures ReadKind(EncodeKind(kind) + rest, version, count, host) == Some(Parsed(kind, rest))
  {
    hide ReadKind, EncodeKind;
    match kind
    case Dir(entries) => DirBack(entries, version, count, host, rest);
    case File(data) => FileBack(data, version, count, host, rest);
    case Symlink(target) => SymlinkBack(target, version, count, host, rest);
    case CharDev(dev) => DevBack(dev, version, count, host, rest);
    case Chunked(file) => ChunkedBack(file, version, count, host, rest);
  }

  lemma NodeBack(n: Node, version: nat, count: nat, host: nat, rest: seq<byte>)
    requires Host(host) && version >= 2 && count <= MAX_NODES && Typed(n) && FitsNode(n, count, host)
    ensures ReadNode(EncodeNode(n) + rest, version, count, host) == Some(Parsed(n, rest))
  {
    hide LittleEndian, Word, ReadKind, EncodeKind, FitsKind;
    Widths();
    var kind := EncodeKind(n.kind);
    var mtime := LittleEndian(Signed(n.mtime), 8);
    var nlink := LittleEndian(n.nlink, 8);
    var mode := LittleEndian(n.mode, 4);
    var parent := LittleEndian(n.parent, 8);
    Associative(parent, mode + (nlink + (mtime + kind)), rest);
    Associative(mode, nlink + (mtime + kind), rest);
    Associative(nlink, mtime + kind, rest);
    Associative(mtime, kind, rest);
    WordBack(n.parent, 8, mode + (nlink + (mtime + (kind + rest))));
    WordBack(n.mode, 4, nlink + (mtime + (kind + rest)));
    WordBack(n.nlink, 8, mtime + (kind + rest));
    WordBack(Signed(n.mtime), 8, kind + rest);
    KindBack(n.kind, version, count, host, rest);
  }

  lemma {:induction false} NodesBack(all: seq<Node>, k: nat, version: nat, count: nat, host: nat)
    requires Host(host) && version >= 2 && count <= MAX_NODES && k <= |all|
    requires AllTyped(all) && FitNodes(all, count, host)
    ensures ReadNodes(EncodeNodes(all[k..]), |all| - k, version, count, host, all[..k]) == Some(Parsed(all, []))
    decreases |all| - k
  {
    hide EncodeNode, ReadNode, Typed, FitsNode;
    if k == |all| {
      assert all[..k] == all;
    } else {
      assert all[k..][0] == all[k] && all[k..][1..] == all[k + 1..];
      NodeBack(all[k], version, count, host, EncodeNodes(all[k + 1..]));
      assert all[..k] + [all[k]] == all[..k + 1];
      NodesBack(all, k + 1, version, count, host);
    }
  }

  lemma RootBack(root: Option<Hash>, rest: seq<byte>)
    requires root.Some? ==> |root.value| == 32
    ensures ReadRoot(EncodeRoot(root) + rest, VERSION) == Some(Parsed(root, rest))
  {
    hide Word, Take;
    if root.Some? {
      Associative([1], root.value, rest);
      TagBack(1, root.value + rest);
      TakeBack(root.value, rest);
    } else {
      TagBack(0, rest);
    }
  }

  lemma FittingRoundTrip(image: Image, host: nat)
    requires Host(host) && TypedImage(image) && Fits(image, host)
    ensures Deserialize(Serialize(image), host) == Some(image)
  {
    hide LittleEndian, Word, Take, ReadRoot, EncodeRoot, ReadNodes, FitNodes, AllTyped;
    Widths();
    var nodes := EncodeNodes(image.nodes);
    var count := LittleEndian(|image.nodes|, 4);
    var root := EncodeRoot(image.root);
    TakeBack(MAGIC, LittleEndian(VERSION, 4) + (root + (count + nodes)));
    WordBack(VERSION, 4, root + (count + nodes));
    RootBack(image.root, count + nodes);
    WordBack(|image.nodes|, 4, nodes);
    assert image.nodes[0..] == image.nodes && image.nodes[..0] == [];
    NodesBack(image.nodes, 0, VERSION, |image.nodes|, host);
  }

  // -------------------------------------- everything accepted fits the format

  lemma WordBound(b: seq<byte>, n: nat)
    ensures Word(b, n).Some? ==> Word(b, n).value.value < Pow256(n)
  {
    if n <= |b| {
      FromBounded(b[..n]);
    }
  }

  lemma EntryFits(b: seq<byte>, count: nat, host: nat)
    ensures var r := ReadEntry(b, count, host);
            r.Some? ==> |r.value.value.name| < U16_LIMIT && r.value.value.child < count
  {
    hide FromLittleEndian;
    WordBound(b, 2);
    Widths();
  }

  predicate EntriesFit(s: seq<Entry>, count: nat) {
    Sorted(s) && forall e :: e in s ==> |e.name| < U16_LIMIT && e.child < count
  }

  lemma {:induction false} EntriesAllFit(b: seq<byte>, n: nat, count: nat, host: nat, s: seq<Entry>)
    requires EntriesFit(s, count)
    ensures var r := ReadEntries(b, n, count, host, s);
            r.Some? ==> EntriesFit(r.value.value, count) && |r.value.value| <= |s| + n
    decreases n
  {
    hide ReadEntry, Insert, Sorted;
    if n > 0 && ReadEntry(b, count, host).Some? {
      var e := ReadEntry(b, count, host).value;
      EntryFits(b, count, host);
      InsertSorted(s, e.value);
      forall x | x in Insert(s, e.value) ensures |x.name| < U16_LIMIT && x.child < count {
        InsertFrom(s, e.value, x);
      }
      EntriesAllFit(e.rest, n - 1, count, host, Insert(s, e.value));
    }
  }

  predicate KindFits(kind: Kind, count: nat, host: nat) {
    Typed(Node(kind, 0, 0, 0, 0)) && FitsKind(kind, count, host)
  }

  lemma DirFits(b: seq<byte>, count: nat, host: nat)
    ensures var r := ReadDir(b, count, host); r.Some? ==> KindFits(r.value.value, count, host)
  {
    hide Word, ReadEntries, Sorted, Text.Less;
    if Word(b, 4).Some? {
      var n := Word(b, 4).value;
      WordBound(b, 4);
      Widths();
      assert Sorted([]) by { SortedEmpty(); }
      EntriesAllFit(n.rest, n.value, count, host, []);
    }
  }

  lemma SortedEmpty()
    ensures Sorted([])
  {
  }

  lemma ChunkedFits(b: seq<byte>, count: nat, host: nat)
    ensures var r := ReadChunked(b, host); r.Some? ==> KindFits(r.value.value, count, host)
  {
    hide Word, Split, NewFile, Layout;
    Widths();
    WordBound(b, 8);
    if Word(b, 8).Some? {
      WordBound(Word(b, 8).value.rest, 4);
    }
  }

  lemma KindAlwaysFits(b: seq<byte>, version: nat, count: nat, host: nat)
    ensures var r := ReadKind(b, version, count, host); r.Some? ==> KindFits(r.value.value, count, host)
  {
    hide Word, ReadDir, ReadChunked;
    if Word(b, 1).Some? {
      var rest := Word(b, 1).value.rest;
      DirFits(rest, count, host);
      ChunkedFits(rest, count, host);
      WordBound(rest, 2);
      Widths();
    }
  }

  lemma NodeAlwaysFits(b: seq<byte>, version: nat, count: nat, host: nat)
    ensures var r := ReadNode(b, version, count, host);
            r.Some? ==> Typed(r.value.value) && FitsNode(r.value.value, count, host)
  {
    hide Word, ReadKind, FitsKind;
    Widths();
    if Word(b, 8).Some? {
      var b1 := Word(b, 8).value.rest;
      WordBound(b1, 4);
      if Word(b1, 4).Some? {
        var b2 := Word(b1, 4).value.rest;
        WordBound(b2, 8);
        if Word(b2, 8).Some? {
          var b3 := Word(b2, 8).value.rest;
          WordBound(b3, 8);
          if Word(b3, 8).Some? {
            KindAlwaysFits(Word(b3, 8).value.rest, version, count, host);
          }
        }
      }
    }
  }

  lemma {:induction false} NodesAllFit(b: seq<byte>, n: nat, version: nat, count: nat, host: nat, s: seq<Node>)
    requires AllTyped(s) && FitNodes(s, count, host)
    ensures var r := ReadNodes(b, n, version, count, host, s);
            r.Some? ==> AllTyped(r.value.value) && FitNodes(r.value.value, count, host) && |r.value.value| == |s| + n
    decreases n
  {
    hide ReadNode, Typed, FitsNode;
    if n > 0 && ReadNode(b, version, count, host).Some? {
      var node := ReadNode(b, version, count, host).value;
      NodeAlwaysFits(b, version, count, host);
      NodesAllFit(node.rest, n - 1, version, count, host, s + [node.value]);
    }
  }

  /** Whatever bytes it is given, the reader yields only trees that fit the format: no index
      out of range, names in order, layouts that add up, and a manifest root wherever a
      chunked file needs one. */
  lemma DecodedFits(b: seq<byte>, host: nat)
    ensures var r := Deserialize(b, host); r.Some? ==> TypedImage(r.value) && Fits(r.value, host)
  {
    hide Word, ReadNodes, AllTyped, FitNodes;
    if ReadBody(b, host).Some? {
      var rest := Take(b, 4).value.rest;
      var version := Word(rest, 4).value;
      var root := ReadRoot(version.rest, version.value).value;
      var count := Word(root.rest, 4).value;
      assert AllTyped([]) && FitNodes([], count.value, host) by { NoNodes(count.value, host); }
      NodesAllFit(count.rest, count.value, version.value, count.value, host, []);
    }
  }

  lemma NoNodes(count: nat, host: nat)
    ensures AllTyped([]) && FitNodes([], count, host)
  {
  }

  /** A tree is restored exactly if and only if it fits the format. */
  lemma RoundTrip(image: Image, host: nat)
    requires Host(host) && TypedImage(image)
    ensures Deserialize(Serialize(image), host) == Some(image) <==> Fits(image, host)
  {
    hide Serialize, Deserialize, Fits;
    DecodedFits(Serialize(image), host);
    if Fits(image, host) {
      FittingRoundTrip(image, host);
    }
  }

  // ------------------------------------------------------ images end exactly
  //
  // A reader that succeeds looks only at what it consumes, so it succeeds in the same way
  // when more bytes follow.

  predicate Extends<T(==)>(short: Option<Parsed<T>>, long: Option<Parsed<T>>, x: seq<byte>) {
    short.Some? ==> long == Some(Parsed(short.value.value, short.value.rest + x))
  }

  lemma TakeExtends(b: seq<byte>, n: nat, x: seq<byte>)
    ensures Extends(Take(b, n), Take(b + x, n), x)
  {
    if n <= |b| {
      assert (b + x)[..n] == b[..n] && (b + x)[n..] == b[n..] + x;
    }
  }

  lemma WordExtends(b: seq<byte>, n: nat, x: seq<byte>)
    ensures Extends(Word(b, n), Word(b + x, n), x)
  {
    hide Take, FromLittleEndian;
    TakeExtends(b, n, x);
  }

  lemma EntryExtends(b: seq<byte>, count: nat, host: nat, x: seq<byte>)
    ensures Extends(ReadEntry(b, count, host), ReadEntry(b + x, count, host), x)
  {
    hide Word, Take;
    WordExtends(b, 2, x);
    if Word(b, 2).Some? {
      var length := Word(b, 2).value;
      TakeExtends(length.rest, length.value, x);
      if Take(length.rest, length.value).Some? {
        WordExtends(Take(length.rest, length.value).value.rest, 8, x);
      }
    }
  }

  lemma {:induction false} EntriesExtend(b: seq<byte>, n: nat, count: nat, host: nat, s: seq<Entry>, x: seq<byte>)
    ensures Extends(ReadEntries(b, n, count, host, s), ReadEntries(b + x, n, count, host, s), x)
    decreases n
  {
    hide ReadEntry, Insert;
    if n > 0 {
      EntryExtends(b, count, host, x);
      if ReadEntry(b, count, host).Some? {
        var e := ReadEntry(b, count, host).value;
        EntriesExtend(e.rest, n - 1, count, host, Insert(s, e.value), x);
      }
    }
  }

  lemma DirExtends(b: seq<byte>, count: nat, host: nat, x: seq<byte>)
    ensures Extends(ReadDir(b, count, host), ReadDir(b + x, count, host), x)
  {
    hide Word, ReadEntries;
    WordExtends(b, 4, x);
    if Word(b, 4).Some? {
      EntriesExtend(Word(b, 4).value.rest, Word(b, 4).value.value, count, host, [], x);
    }
  }

  lemma FileExtends(b: seq<byte>, host: nat, x: seq<byte>)
    ensures Extends(ReadFile(b, host), ReadFile(b + x, host), x)
  {
    hide Word, Take;
    WordExtends(b, 8, x);
    if Word(b, 8).Some? {
      TakeExtends(Word(b, 8).value.rest, Word(b, 8).value.value, x);
    }
  }

  lemma SymlinkExtends(b: seq<byte>, x: seq<byte>)
    ensures Extends(ReadSymlink(b), ReadSymlink(b + x), x)
  {
    hide Word, Take;
    WordExtends(b, 2, x);
    if Word(b, 2).Some? {
      TakeExtends(Word(b, 2).value.rest, Word(b, 2).value.value, x);
    }
  }

  lemma ChunkedExtends(b: seq<byte>, host: nat, x: seq<byte>)
    ensures Extends(ReadChunked(b, host), ReadChunked(b + x, host), x)
  {
    hide Word, Take, Split, NewFile;
    WordExtends(b, 8, x);
    if Word(b, 8).Some? {
      var b1 := Word(b, 8).value.rest;
      WordExtends(b1, 4, x);
      if Word(b1, 4).Some? {
        var b2 := Word(b1, 4).value.rest;
        WordExtends(b2, 8, x);
        if Word(b2, 8).Some? {
          TakeExtends(Word(b2, 8).value.rest, Word(b2, 8).value.value * 32, x);
        }
      }
    }
  }

  lemma KindExtends(b: seq<byte>, version: nat, count: nat, host: nat, x: seq<byte>)
    ensures Extends(ReadKind(b, version, count, host), ReadKind(b + x, version, count, host), x)
  {
    hide Word, ReadDir, ReadFile, ReadSymlink, ReadChunked;
    WordExtends(b, 1, x);
    if Word(b, 1).Some? {
      var rest := Word(b, 1).value.rest;
      DirExtends(rest, count, host, x);
      FileExtends(rest, host, x);
      SymlinkExtends(rest, x);
      WordExtends(rest, 1, x);
      ChunkedExtends(rest, host, x);
    }
  }

  lemma NodeExtends(b: seq<byte>, version: nat, count: nat, host: nat, x: seq<byte>)
    ensures Extends(ReadNode(b, version, count, host), ReadNode(b + x, version, count, host), x)
  {
    hide Word, ReadKind;
    WordExtends(b, 8, x);
    if Word(b, 8).Some? {
      var b1 := Word(b, 8).value.rest;
      WordExtends(b1, 4, x);
      if Word(b1, 4).Some? {
        var b2 := Word(b1, 4).value.rest;
        WordExtends(b2, 8, x);
        if Word(b2, 8).Some? {
          var b3 := Word(b2, 8).value.rest;
          WordExtends(b3, 8, x);
          if Word(b3, 8).Some? {
            KindExtends(Word(b3, 8).value.rest, version, count, host, x);
          }
        }
      }
    }
  }

  lemma {:induction false} NodesExtend(b: seq<byte>, n: nat, version: nat, count: nat, host: nat, s: seq<Node>, x: seq<byte>)
    ensures Extends(ReadNodes(b, n, version, count, host, s), ReadNodes(b + x, n, version, count, host, s), x)
    decreases n
  {
    hide ReadNode;
    if n > 0 {
      NodeExtends(b, version, count, host, x);
      if ReadNode(b, version, count, host).Some? {
        var node := ReadNode(b, version, count, host).value;
        NodesExtend(node.rest, n - 1, version, count, host, s + [node.value], x);
      }
    }
  }

  lemma RootExtends(b: seq<byte>, version: nat, x: seq<byte>)
    ensures Extends(ReadRoot(b, version), ReadRoot(b + x, version), x)
  {
    hide Word, Take;
    WordExtends(b, 1, x);
    if Word(b, 1).Some? {
      TakeExtends(Word(b, 1).value.rest, 32, x);
    }
  }

  lemma BodyExtends(b: seq<byte>, host: nat, x: seq<byte>)
    ensures Extends(ReadBody(b, host), ReadBody(b + x, host), x)
  {
    hide Word, Take, ReadRoot, ReadNodes;
    if ReadBody(b, host).Some? {
      TakeExtends(b, 4, x);
      var rest := Take(b, 4).value.rest;
      WordExtends(rest, 4, x);
      var version := Word(rest, 4).value;
      RootExtends(version.rest, version.value, x);
      var root := ReadRoot(version.rest, version.value).value;
      WordExtends(root.rest, 4, x);
      var count := Word(root.rest, 4).value;
      NodesExtend(count.rest, count.value, version.value, count.value, host, [], x);
    }
  }

  /** No accepted image is a strict prefix of another, so both a truncated image and one with
      trailing bytes are refused. */
  lemma PrefixFree(b: seq<byte>, x: seq<byte>, host: nat)
    requires x != []
    ensures !(Deserialize(b, host).Some? && Deserialize(b + x, host).Some?)
  {
    hide ReadBody, NeedsRoot;
    BodyExtends(b, host, x);
  }

  lemma CutOrPadded(image: Image, host: nat, n: nat, x: seq<byte>)
    requires Host(host) && TypedImage(image) && Fits(image, host) && n < |Serialize(image)| && x != []
    ensures Deserialize(Serialize(image)[..n], host) == None
    ensures Deserialize(Serialize(image) + x, host) == None
  {
    hide Serialize, Deserialize, Fits;
    var b := Serialize(image);
    RoundTrip(image, host);
    assert b[..n] + b[n..] == b;
    PrefixFree(b[..n], b[n..], host);
    PrefixFree(b, x, host);
  }
}

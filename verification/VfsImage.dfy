/** The loops that write and restore a filesystem image, against the encoding in `VfsCodec`. */
module VfsImage {
  import opened Base
  import opened Bytes
  import opened Chunks
  import opened VfsCodec

  method SerializeEntries(entries: seq<Entry>) returns (out: seq<byte>)
    ensures out == EncodeEntries(entries)
  {
    hide EncodeEntry;
    out := [];
    for i := 0 to |entries|
      invariant out + EncodeEntries(entries[i..]) == EncodeEntries(entries)
    {
      assert entries[i..][0] == entries[i] && entries[i..][1..] == entries[i + 1..];
      Associative(out, EncodeEntry(entries[i]), EncodeEntries(entries[i + 1..]));
      out := out + EncodeEntry(entries[i]);
    }
  }

  method SerializeHashes(hashes: seq<Hash>) returns (out: seq<byte>)
    ensures out == Join(hashes)
  {
    out := [];
    for i := 0 to |hashes|
      invariant out + Join(hashes[i..]) == Join(hashes)
    {
      assert hashes[i..][0] == hashes[i] && hashes[i..][1..] == hashes[i + 1..];
      Associative(out, hashes[i], Join(hashes[i + 1..]));
      out := out + hashes[i];
    }
  }

  method SerializeKind(kind: Kind) returns (out: seq<byte>)
    ensures out == EncodeKind(kind)
  {
    hide LittleEndian, EncodeEntries, Join;
    match kind
    case Dir(entries) =>
      var body := SerializeEntries(entries);
      out := [1] + (LittleEndian(|entries|, 4) + body);
    case File(data) =>
      out := [2] + (LittleEndian(|data|, 8) + data);
    case Symlink(target) =>
      out := [3] + (LittleEndian(|target|, 2) + target);
    case CharDev(dev) =>
      out := [4] + [DevTag(dev)];
    case Chunked(file) =>
      var body := SerializeHashes(file.chunks);
      out := LittleEndian(file.chunkSize, 4) + (LittleEndian(|file.chunks|, 8) + body);
      out := [5] + (LittleEndian(file.size, 8) + out);
  }

  method SerializeTree(image: Image) returns (out: seq<byte>)
    requires TypedImage(image)
    ensures out == Serialize(image)
  {
    hide LittleEndian, EncodeKind, EncodeRoot, Typed;
    var nodes := image.nodes;
    var body := [];
    for i := 0 to |nodes|
      invariant body + EncodeNodes(nodes[i..]) == EncodeNodes(nodes)
    {
      assert nodes[i..][0] == nodes[i] && nodes[i..][1..] == nodes[i + 1..];
      var n := nodes[i];
      assert Signable(n) by { TypedSignable(n); }
      var kind := SerializeKind(n.kind);
      var record := LittleEndian(n.parent, 8)
        + (LittleEndian(n.mode, 4) + (LittleEndian(n.nlink, 8) + (LittleEndian(Signed(n.mtime), 8) + kind)));
      Associative(body, record, EncodeNodes(nodes[i + 1..]));
      body := body + record;
    }
    out := MAGIC + (LittleEndian(VERSION, 4) + (EncodeRoot(image.root) + (LittleEndian(|nodes|, 4) + body)));
  }

  predicate Signable(n: Node) {
    0 - U63_LIMIT <= n.mtime < U63_LIMIT
  }

  lemma TypedSignable(n: Node)
    requires Typed(n)
    ensures Signable(n)
  {
  }

  /** What a cursor call returned and left, against what the parse of the same bytes gives. */
  predicate Follows<T(==)>(spec: Option<Parsed<T>>, got: Option<T>, rest: seq<byte>) {
    if spec.None? then got.None? else got == Some(spec.value.value) && rest == spec.value.rest
  }

  /** A cursor over the bytes not read yet. */
  class Reader {
    var rest: seq<byte>

    constructor (bytes: seq<byte>)
      ensures rest == bytes
    {
      rest := bytes;
    }

    method Next(n: nat) returns (r: Option<seq<byte>>)
      modifies this
      ensures Follows(Take(old(rest), n), r, rest)
    {
      if |rest| < n {
        return None;
      }
      r := Some(rest[..n]);
      rest := rest[n..];
    }

    method NextWord(n: nat) returns (r: Option<nat>)
      modifies this
      ensures Follows(Word(old(rest), n), r, rest)
    {
      var bytes :- Next(n);
      return Some(FromLittleEndian(bytes));
    }

    method NextIndex(host: nat) returns (r: Option<nat>)
      modifies this
      ensures Follows(Index64(old(rest), host), r, rest)
    {
      hide Word;
      var word :- NextWord(8);
      return if word >= host then None else Some(word);
    }

    method NextEntry(count: nat, host: nat) returns (r: Option<Entry>)
      modifies this
      ensures Follows(ReadEntry(old(rest), count, host), r, rest)
    {
      hide Word, Take, Index64;
      var length :- NextWord(2);
      var name :- Next(length);
      var child :- NextIndex(host);
      return if child >= count then None else Some(Entry(name, child));
    }

    method NextDir(count: nat, host: nat) returns (r: Option<Kind>)
      modifies this
      ensures Follows(ReadDir(old(rest), count, host), r, rest)
    {
      hide Word, ReadEntry, Insert;
      var n :- NextWord(4);
      var entries := [];
      ghost var spec := ReadEntries(rest, n, count, host, []);
      for i := 0 to n
        invariant ReadEntries(rest, n - i, count, host, entries) == spec
      {
        var e :- NextEntry(count, host);
        entries := Insert(entries, e);
      }
      return Some(Dir(entries));
    }

    method NextChunked(host: nat) returns (r: Option<Kind>)
      modifies this
      ensures Follows(ReadChunked(old(rest), host), r, rest)
    {
      hide Word, Index64, Split, NewFile;
      var size :- NextWord(8);
      var chunkSize :- NextWord(4);
      var n :- NextIndex(host);
      if n * 32 >= host {
        return None;
      }
      var hashes :- Next(n * 32);
      var file := NewFile(size, chunkSize, Split(hashes, n));
      return if file.Err? then None else Some(Chunked(file.value));
    }

    method NextKind(version: nat, count: nat, host: nat) returns (r: Option<Kind>)
      modifies this
      ensures Follows(ReadKind(old(rest), version, count, host), r, rest)
    {
      hide Word, Take, Index64, ReadDir, ReadChunked;
      var tag :- NextWord(1);
      if tag == 1 {
        r := NextDir(count, host);
      } else if tag == 2 {
        var length :- NextIndex(host);
        var data :- Next(length);
        r := Some(File(data));
      } else if tag == 3 {
        var length :- NextWord(2);
        var target :- Next(length);
        r := Some(Symlink(target));
      } else if tag == 4 {
        var dev :- NextWord(1);
        r := if dev == 0 then Some(CharDev(Null)) else if dev == 1 then Some(CharDev(Zero))
             else if dev == 2 then Some(CharDev(Tty)) else if dev == 3 then Some(CharDev(Random))
             else if dev == 5 then Some(CharDev(Ptmx)) else None;
      } else if tag == 5 && version >= 2 {
        r := NextChunked(host);
      } else {
        r := None;
      }
    }

    method NextNode(version: nat, count: nat, host: nat) returns (r: Option<Node>)
      modifies this
      ensures Follows(ReadNode(old(rest), version, count, host), r, rest)
    {
      hide Word, Index64, ReadKind;
      var parent :- NextIndex(host);
      var mode :- NextWord(4);
      var nlink :- NextWord(8);
      var mtime :- NextWord(8);
      var kind :- NextKind(version, count, host);
      return if parent >= count then None else Some(Node(kind, mode, nlink, Unsigned(mtime), parent));
    }

    method NextNodes(n: nat, version: nat, host: nat) returns (r: Option<seq<Node>>)
      modifies this
      ensures Follows(ReadNodes(old(rest), n, version, n, host, []), r, rest)
    {
      hide ReadNode;
      var nodes := [];
      for i := 0 to n
        invariant ReadNodes(rest, n - i, version, n, host, nodes) == ReadNodes(old(rest), n, version, n, host, [])
      {
        var node :- NextNode(version, n, host);
        nodes := nodes + [node];
      }
      return Some(nodes);
    }

    method NextRoot(version: nat) returns (r: Option<Option<Hash>>)
      modifies this
      ensures Follows(ReadRoot(old(rest), version), r, rest)
    {
      hide Word, Take;
      if version < 3 {
        return Some(None);
      }
      var tag :- NextWord(1);
      if tag == 0 {
        return Some(None);
      }
      if tag != 1 {
        return None;
      }
      var root :- Next(32);
      return Some(Some(root));
    }
  }

  /** Restores a tree from its image. */
  method Restore(bytes: seq<byte>, host: nat) returns (r: Option<Image>)
    ensures r == Deserialize(bytes, host)
  {
    hide Word, Take, ReadRoot, ReadNodes;
    var reader := new Reader(bytes);
    var magic :- reader.Next(4);
    if magic != MAGIC {
      return None;
    }
    var version :- reader.NextWord(4);
    if !(1 <= version <= VERSION) {
      return None;
    }
    var root :- reader.NextRoot(version);
    var count :- reader.NextWord(4);
    if count == 0 || count > MAX_NODES || count * MIN_NODE_BYTES > |reader.rest| {
      return None;
    }
    var nodes :- reader.NextNodes(count, version, host);
    if reader.rest != [] || (root.None? && exists i :: 0 <= i < |nodes| && nodes[i].kind.Chunked?) {
      return None;
    }
    return Some(Image(root, nodes));
  }
}

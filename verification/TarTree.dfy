/** The recursive walk of `tarDirectory` as the source runs it, and the tree an extraction restores. */
module TarTree {
  import opened Bytes
  import opened Common
  import opened OctalFields
  import opened Ustar
  import opened TarHeaders
  import opened TarArchive

  // ----- the walk

  /** The path of the first entry whose header cannot be written. */
  function FirstLong(es: seq<Entry>): Option<seq<byte>> {
    if es == [] then None else if |es[0].path| > 100 then Some(es[0].path) else FirstLong(es[1..])
  }

  lemma {:induction false} FirstLongIs(es: seq<Entry>)
    ensures FirstLong(es).None? <==> forall e <- es :: |e.path| <= 100
    ensures FirstLong(es).Some? ==>
              exists k :: (0 <= k < |es| && es[k].path == FirstLong(es).value && |es[k].path| > 100
                           && forall j :: 0 <= j < k ==> |es[j].path| <= 100)
  {
    if es != [] && |es[0].path| <= 100 {
      FirstLongIs(es[1..]);
      assert forall e <- es :: e == es[0] || e in es[1..];
      if FirstLong(es).Some? {
        var k :| 0 <= k < |es[1..]| && es[1..][k].path == FirstLong(es[1..]).value
              && |es[1..][k].path| > 100 && forall j :: 0 <= j < k ==> |es[1..][j].path| <= 100;
        assert es[k + 1].path == FirstLong(es).value;
        forall j | 0 <= j < k + 1 ensures |es[j].path| <= 100 {
          if j > 0 { assert es[j] == es[1..][j - 1]; }
        }
      }
    }
  }

  lemma {:induction false} FirstLongAppend(a: seq<Entry>, b: seq<Entry>)
    ensures FirstLong(a + b) == if FirstLong(a).Some? then FirstLong(a) else FirstLong(b)
    decreases |a|
  {
    if a == [] {
      assert a + b == b;
    } else {
      FirstLongAppend(a[1..], b);
      assert (a + b)[1..] == a[1..] + b;
    }
  }

  function Packed(es: seq<Entry>): seq<byte> {
    Flatten(BlockList(es))
  }

  lemma PackedOne(es: seq<Entry>, e: Entry)
    ensures Packed(es + [e]) == Packed(es) + Block(e)
  {
    assert BlockList(es + [e]) == BlockList(es) + [Block(e)];
    FlattenAppend(BlockList(es), [Block(e)]);
    FlattenOne(Block(e));
  }

  class TarBuilder {
    var blocks: seq<seq<byte>>
    /** The entries whose header, data and padding have been pushed. */
    ghost var entries: seq<Entry>

    ghost predicate Valid()
      reads this
    {
      Flatten(blocks) == Packed(entries)
    }

    constructor ()
      ensures Valid() && entries == []
    {
      blocks, entries := [], [];
    }

    method Push(path: seq<byte>, node: Node) returns (failed: bool)
      requires Valid()
      modifies this
      ensures Valid()
      ensures failed <==> |Path(path, node)| > 100
      ensures entries == if failed then old(entries) else old(entries) + [EntryOf(path, node)]
    {
      var name := Path(path, node);
      var data := if node.Dir? then [] else node.data;
      var header := TarHeader(name, Permissions(node.mode), |data|, node.mtimeMs, node.Dir?);
      if header.None? {
        return true;
      }
      var bytes, pad := header.value[..], Zeros(Padding(|data|));
      PackedOne(entries, EntryOf(path, node));
      FlattenAppend(blocks, [bytes, data, pad]);
      FlattenThree(bytes, data, pad);
      blocks := blocks + [bytes];
      blocks := blocks + [data, pad];
      entries := entries + [EntryOf(path, node)];
      assert blocks == old(blocks) + [bytes, data, pad];
      return false;
    }

    /** One turn of the loop in `add`: push the entry, then everything below it. */
    method AddNode(path: seq<byte>, node: Node) returns (error: Option<seq<byte>>)
      requires Valid()
      modifies this
      ensures Valid()
      ensures error == FirstLong(Visit(path, node))
      ensures error.None? ==> entries == old(entries) + Visit(path, node)
      decreases node, 0
    {
      FirstLongAppend([EntryOf(path, node)], Under(path, node));
      var failed := Push(path, node);
      if failed {
        return Some(Path(path, node));
      }
      Regroup(old(entries), [EntryOf(path, node)], Under(path, node));
      if node.File? {
        return None;
      }
      error := Add(Path(path, node), node.children);
    }

    /** The inner `add`: it throws at the first long path, and without one it appends every entry below `path`. */
    method Add(path: seq<byte>, nodes: seq<Node>) returns (error: Option<seq<byte>>)
      requires Valid()
      modifies this
      ensures Valid()
      ensures error == FirstLong(Preorder(path, nodes))
      ensures error.None? ==> entries == old(entries) + Preorder(path, nodes)
      decreases nodes, 1
    {
      error := None;
      Regroup(entries, [], []);
      for i := 0 to |nodes|
        invariant Valid() && error.None?
        invariant FirstLong(Preorder(path, nodes[..i])).None?
        invariant entries == old(entries) + Preorder(path, nodes[..i])
      {
        WalkStep(path, nodes, i);
        Regroup(old(entries), Preorder(path, nodes[..i]), Visit(path, nodes[i]));
        error := AddNode(path, nodes[i]);
        if error.Some? {
          return;
        }
      }
      assert nodes[..|nodes|] == nodes;
    }
  }

  function Visit(path: seq<byte>, node: Node): seq<Entry> {
    [EntryOf(path, node)] + Under(path, node)
  }

  function Under(path: seq<byte>, node: Node): seq<Entry> {
    if node.Dir? then Preorder(Path(path, node), node.children) else []
  }

  lemma PreorderSplit(path: seq<byte>, nodes: seq<Node>, i: nat)
    requires i < |nodes|
    ensures Preorder(path, nodes[..i + 1]) ==
            Preorder(path, nodes[..i]) + Visit(path, nodes[i])
    ensures Preorder(path, nodes) == Preorder(path, nodes[..i + 1]) + Preorder(path, nodes[i + 1..])
  {
    assert nodes[..i + 1] == nodes[..i] + [nodes[i]] && [nodes[i]][1..] == [];
    PreorderAppend(path, nodes[..i], [nodes[i]]);
    assert nodes == nodes[..i + 1] + nodes[i + 1..];
    PreorderAppend(path, nodes[..i + 1], nodes[i + 1..]);
  }

  lemma WalkStep(path: seq<byte>, nodes: seq<Node>, i: nat)
    requires i < |nodes| && FirstLong(Preorder(path, nodes[..i])).None?
    ensures var here := FirstLong(Visit(path, nodes[i]));
            && FirstLong(Preorder(path, nodes[..i + 1])) == here
            && (here.Some? ==> FirstLong(Preorder(path, nodes)) == here)
    ensures Preorder(path, nodes[..i + 1]) == Preorder(path, nodes[..i]) + Visit(path, nodes[i])
  {
    PreorderSplit(path, nodes, i);
    FirstLongAppend(Preorder(path, nodes[..i]), Visit(path, nodes[i]));
    FirstLongAppend(Preorder(path, nodes[..i + 1]), Preorder(path, nodes[i + 1..]));
  }

  datatype Outcome = Archived(bytes: seq<byte>) | TooLong(path: seq<byte>)

  method TarDirectory(root: seq<Node>) returns (r: Outcome)
    ensures var es := Preorder([], root);
            r == if FirstLong(es).Some? then TooLong(FirstLong(es).value) else Archived(Archive(es))
  {
    var builder := new TarBuilder();
    var error := builder.Add([], root);
    Regroup(Preorder([], root), [], []);
    if error.Some? {
      return TooLong(error.value);
    }
    var end := Zeros(2 * BLOCK);
    FlattenAppend(builder.blocks, [end]);
    FlattenOne(end);
    r := Archived(Flatten(builder.blocks + [end]));
  }

  // ----- restoring the tree

  predicate IsUnder(dir: seq<byte>, path: seq<byte>) {
    |path| > |dir| && path[..|dir|] == dir && path[|dir|] == SLASH
  }

  function UnderCount(dir: seq<byte>, es: seq<Entry>): (n: nat)
    ensures n <= |es|
  {
    if es == [] || !IsUnder(dir, es[0].path) then 0 else 1 + UnderCount(dir, es[1..])
  }

  /** Extraction: an entry's name is what follows the directory's path; a directory owns the entries below it. */
  function Rebuild(path: seq<byte>, es: seq<Entry>): seq<Node>
    decreases |es|
  {
    if es == [] || |es[0].path| <= |path| then []
    else
      var e := es[0];
      var name, ms := e.path[|path| + 1..], e.mtime as real * 1000.0;
      if e.directory then
        var n := UnderCount(e.path, es[1..]);
        [Dir(name, e.mode, ms, Rebuild(e.path, es[1..1 + n]))] + Rebuild(path, es[1 + n..])
      else
        [File(name, e.mode, ms, e.data)] + Rebuild(path, es[1..])
  }

  /** What an archive keeps of a tree: permission bits and whole seconds. */
  function Kept(nodes: seq<Node>): seq<Node> {
    if nodes == [] then []
    else
      var n := nodes[0];
      var mode, ms := Permissions(n.mode), Seconds(n.mtimeMs) as real * 1000.0;
      [if n.Dir? then Dir(n.name, mode, ms, Kept(n.children)) else File(n.name, mode, ms, n.data)] + Kept(nodes[1..])
  }

  /** Directory entries are single path components. */
  predicate Components(nodes: seq<Node>) {
    forall n <- nodes :: SLASH !in n.name && (n.Dir? ==> Components(n.children))
  }

  lemma {:induction false} PreorderUnder(path: seq<byte>, nodes: seq<Node>)
    ensures forall e <- Preorder(path, nodes) :: IsUnder(path, e.path)
    decreases nodes
  {
    if nodes != [] {
      var p := Path(path, nodes[0]);
      PreorderUnder(path, nodes[1..]);
      if nodes[0].Dir? {
        PreorderUnder(p, nodes[0].children);
        forall q: seq<byte> | IsUnder(p, q) ensures IsUnder(path, q) {
          assert q[..|path|] == q[..|p|][..|path|] == path;
          assert q[|path|] == q[..|p|][|path|];
        }
      }
    }
  }

  lemma {:induction false} UnderCountIs(dir: seq<byte>, a: seq<Entry>, b: seq<Entry>)
    requires forall e <- a :: IsUnder(dir, e.path)
    requires b == [] || !IsUnder(dir, b[0].path)
    ensures UnderCount(dir, a + b) == |a|
    decreases |a|
  {
    if a == [] {
      assert a + b == b;
    } else {
      assert (a + b)[1..] == a[1..] + b;
      UnderCountIs(dir, a[1..], b);
    }
  }

  lemma SiblingNotUnder(path: seq<byte>, a: Node, b: Node)
    requires SLASH !in b.name
    ensures !IsUnder(Path(path, a), Path(path, b))
  {
    var p, q := Path(path, a), Path(path, b);
    assert |q| > |p| ==> q[|p|] == b.name[|a.name|];
  }

  lemma Unpack(e: Entry, under: seq<Entry>, after: seq<Entry>)
    ensures var es := [e] + under + after;
            && es[0] == e && es[1..] == under + after
            && es[1..1 + |under|] == under && es[1 + |under|..] == after
  {
  }

  lemma RebuildFile(path: seq<byte>, es: seq<Entry>, after: seq<Entry>)
    requires es != [] && !es[0].directory && |path| < |es[0].path| && es[1..] == after
    ensures var e := es[0];
            Rebuild(path, es) ==
            [File(e.path[|path| + 1..], e.mode, e.mtime as real * 1000.0, e.data)] + Rebuild(path, after)
  {
  }

  lemma RebuildDir(path: seq<byte>, es: seq<Entry>, under: seq<Entry>, after: seq<Entry>)
    requires es != [] && es[0].directory && |path| < |es[0].path| && UnderCount(es[0].path, es[1..]) == |under|
    requires es[1..1 + |under|] == under && es[1 + |under|..] == after
    ensures var e := es[0];
            Rebuild(path, es) ==
            [Dir(e.path[|path| + 1..], e.mode, e.mtime as real * 1000.0, Rebuild(e.path, under))]
            + Rebuild(path, after)
  {
  }

  lemma RebuildNode(path: seq<byte>, n: Node, under: seq<Entry>, after: seq<Entry>, es: seq<Entry>)
    requires es == [EntryOf(path, n)] + under + after
    requires if n.Dir? then UnderCount(Path(path, n), under + after) == |under| else under == []
    ensures var mode, ms := Permissions(n.mode), Seconds(n.mtimeMs) as real * 1000.0;
            Rebuild(path, es) ==
            [if n.Dir? then Dir(n.name, mode, ms, Rebuild(Path(path, n), under)) else File(n.name, mode, ms, n.data)]
            + Rebuild(path, after)
  {
    assert Path(path, n)[|path| + 1..] == n.name;
    Unpack(EntryOf(path, n), under, after);
    if n.Dir? {
      RebuildDir(path, es, under, after);
    } else {
      RebuildFile(path, es, after);
    }
  }

  lemma UnderCounted(path: seq<byte>, n: Node, rest: seq<Node>)
    requires n.Dir? && (rest != [] ==> SLASH !in rest[0].name)
    ensures var under := Preorder(Path(path, n), n.children);
            UnderCount(Path(path, n), under + Preorder(path, rest)) == |under|
  {
    PreorderUnder(Path(path, n), n.children);
    if rest != [] {
      SiblingNotUnder(path, n, rest[0]);
    }
    UnderCountIs(Path(path, n), Preorder(Path(path, n), n.children), Preorder(path, rest));
  }

  lemma RebuildMore(path: seq<byte>, nodes: seq<Node>, under: seq<Entry>, after: seq<Entry>, es: seq<Entry>)
    requires nodes != [] && es == [EntryOf(path, nodes[0])] + under + after
    requires Rebuild(path, after) == Kept(nodes[1..])
    requires var p := Path(path, nodes[0]);
             if nodes[0].Dir?
             then UnderCount(p, under + after) == |under| && Rebuild(p, under) == Kept(nodes[0].children)
             else under == []
    ensures Rebuild(path, es) == Kept(nodes)
  {
    RebuildNode(path, nodes[0], under, after, es);
  }

  /** The pre-order list determines the tree. */
  lemma {:induction false} RebuildPreorder(path: seq<byte>, nodes: seq<Node>)
    requires Components(nodes)
    ensures Rebuild(path, Preorder(path, nodes)) == Kept(nodes)
    decreases nodes
  {
    if nodes != [] {
      var n, rest := nodes[0], nodes[1..];
      RebuildPreorder(path, rest);
      if n.Dir? {
        var under := Preorder(Path(path, n), n.children);
        RebuildPreorder(Path(path, n), n.children);
        UnderCounted(path, n, rest);
        RebuildMore(path, nodes, under, Preorder(path, rest), Preorder(path, nodes));
      } else {
        RebuildMore(path, nodes, [], Preorder(path, rest), Preorder(path, nodes));
      }
    }
  }

  lemma {:induction false} PreorderWritten(path: seq<byte>, nodes: seq<Node>)
    ensures forall e <- Preorder(path, nodes) :: |e.path| <= 100 ==> Written(e)
    decreases nodes
  {
    if nodes != [] {
      PreorderWritten(path, nodes[1..]);
      if nodes[0].Dir? {
        PreorderWritten(Path(path, nodes[0]), nodes[0].children);
      }
    }
  }

  /** Reading an archive of a tree gives its entries exactly when each is representable, and then the tree. */
  lemma TreeRoundTrip(root: seq<Node>)
    requires FirstLong(Preorder([], root)).None?
    ensures var es, a := Preorder([], root), Archive(Preorder([], root));
            && (ReadsBack(a, es) <==> forall e <- es :: Representable(e))
            && (ReadsBack(a, es) && Components(root) ==> Rebuild([], Read(a).value.0) == Kept(root))
  {
    FirstLongIs(Preorder([], root));
    PreorderWritten([], root);
    ArchiveRoundTrip(Preorder([], root));
    if Components(root) {
      RebuildPreorder([], root);
    }
  }
}

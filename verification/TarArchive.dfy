/** The source's `tarDirectory`: a pre-order walk of a directory tree into one archive, and back. */
module TarArchive {
  import opened Bytes
  import opened Common
  import opened OctalFields
  import opened Ustar
  import opened TarHeaders

  /** A directory as `readdir` and `stat` show it. */
  datatype Node =
    | File(name: seq<byte>, mode: nat, mtimeMs: real, data: seq<byte>)
    | Dir(name: seq<byte>, mode: nat, mtimeMs: real, children: seq<Node>)

  function Path(path: seq<byte>, node: Node): seq<byte> {
    path + [SLASH] + node.name
  }

  /** info.mode & 0o777 */
  function Permissions(mode: nat): (r: nat)
    ensures r < 512
  {
    mode % 512
  }

  function EntryOf(path: seq<byte>, node: Node): Entry {
    Entry(Path(path, node), Permissions(node.mode), Seconds(node.mtimeMs), node.Dir?,
          if node.Dir? then [] else node.data)
  }

  /** The entries the walk visits, in order. */
  function Preorder(path: seq<byte>, nodes: seq<Node>): seq<Entry>
    decreases nodes
  {
    if nodes == [] then []
    else
      [EntryOf(path, nodes[0])]
      + (if nodes[0].Dir? then Preorder(Path(path, nodes[0]), nodes[0].children) else [])
      + Preorder(path, nodes[1..])
  }

  lemma {:induction false} PreorderAppend(path: seq<byte>, a: seq<Node>, b: seq<Node>)
    ensures Preorder(path, a + b) == Preorder(path, a) + Preorder(path, b)
  {
    if a == [] {
      assert a + b == b;
    } else {
      PreorderAppend(path, a[1..], b);
      Behead(a, b);
      var under := if a[0].Dir? then Preorder(Path(path, a[0]), a[0].children) else [];
      Regroup([EntryOf(path, a[0])] + under, Preorder(path, a[1..]), Preorder(path, b));
    }
  }

  function Block(e: Entry): seq<byte> {
    Header(e.path, e.mode, |e.data|, e.mtime, e.directory) + e.data + Zeros(Padding(|e.data|))
  }

  function BlockList(es: seq<Entry>): (r: seq<seq<byte>>)
    ensures |r| == |es|
  {
    seq(|es|, i requires 0 <= i < |es| => Block(es[i]))
  }

  function Archive(es: seq<Entry>): seq<byte> {
    Flatten(BlockList(es)) + Zeros(2 * BLOCK)
  }

  // ----- reading back

  /** An entry as the walk produces it, short enough for the header. */
  predicate Written(e: Entry) {
    |e.path| <= 100 && e.mode < 512 && (e.directory ==> e.data == [])
  }

  /** What the two overflowing numbers of a header can carry. */
  predicate Fits(e: Entry) {
    |e.data| < Pow8(11) && 0 <= e.mtime < Pow8(11)
  }

  predicate Representable(e: Entry) {
    Fits(e) && 0 !in e.path
  }

  /** A block that holds entry `e`: a nonzero header, the data, and zeros up to the next boundary. */
  predicate Faithful(b: seq<byte>, e: Entry) {
    && |b| == BLOCK + |e.data| + Padding(|e.data|)
    && b[..BLOCK] != Zeros(BLOCK)
    && ParseHeader(b[..BLOCK]) ==
       (if Fits(e) then Some(Meta(CString(e.path), e.mode, |e.data|, e.mtime, e.directory)) else None)
    && b[BLOCK..BLOCK + |e.data|] == e.data
    && b[BLOCK + |e.data|..] == Zeros(Padding(|e.data|))
  }

  predicate AllFaithful(bs: seq<seq<byte>>, es: seq<Entry>) {
    |bs| == |es| && forall i :: 0 <= i < |bs| ==> Written(es[i]) && Faithful(bs[i], es[i])
  }

  lemma BlockFaithful(e: Entry)
    requires Written(e)
    ensures Faithful(Block(e), e)
  {
    assert Pow8(7) == 2097152;
    var header := Header(e.path, e.mode, |e.data|, e.mtime, e.directory);
    HeaderRoundTrip(e.path, e.mode, |e.data|, e.mtime, e.directory);
    BlockParts(header, e.data, Zeros(Padding(|e.data|)));
  }

  lemma BlockParts(header: seq<byte>, data: seq<byte>, padding: seq<byte>)
    requires |header| == BLOCK
    ensures var b := header + data + padding;
            b[..BLOCK] == header && b[BLOCK..BLOCK + |data|] == data && b[BLOCK + |data|..] == padding
  {
  }

  lemma BlockListFaithful(es: seq<Entry>)
    requires forall e <- es :: Written(e)
    ensures AllFaithful(BlockList(es), es)
  {
    forall i | 0 <= i < |es| ensures Faithful(BlockList(es)[i], es[i]) {
      assert es[i] in es;
      BlockFaithful(es[i]);
    }
  }

  predicate ReadsBack(bytes: seq<byte>, es: seq<Entry>) {
    Read(bytes) == Some((es, []))
  }

  /** What the reader sees of a block in front of an archive. */
  lemma FrontBlock(b: seq<byte>, e: Entry, tail: seq<byte>)
    requires Faithful(b, e)
    ensures var bytes := b + tail;
            && |bytes| >= BLOCK && bytes[..BLOCK] == b[..BLOCK] && bytes[|b|..] == tail
            && bytes[BLOCK..BLOCK + |e.data|] == e.data
  {
    var bytes := b + tail;
    assert b[BLOCK..BLOCK + |e.data|] == bytes[BLOCK..BLOCK + |e.data|];
  }

  /** Reading the block: its entry, with the name up to a NUL, in front of what the rest reads as. */
  lemma ReadBlock(b: seq<byte>, e: Entry, tail: seq<byte>)
    requires Written(e) && Faithful(b, e)
    ensures Read(b + tail) ==
            if !Fits(e) || Read(tail).None? then None
            else Some(([e.(path := CString(e.path))] + Read(tail).value.0, Read(tail).value.1))
  {
    FrontBlock(b, e, tail);
  }

  lemma ReadStep(b: seq<byte>, e: Entry, tail: seq<byte>, rest: seq<Entry>)
    requires Written(e) && Faithful(b, e)
    ensures ReadsBack(b + tail, [e] + rest) <==> Representable(e) && ReadsBack(tail, rest)
  {
    ReadBlock(b, e, tail);
    CStringPadded(e.path, 0);
    if Fits(e) && Read(tail).Some? {
      SameHead(e.(path := CString(e.path)), Read(tail).value.0, e, rest);
    }
  }

  lemma SameHead(a: Entry, more: seq<Entry>, b: Entry, rest: seq<Entry>)
    ensures [a] + more == [b] + rest <==> a == b && more == rest
  {
    assert ([a] + more)[0] == a && ([a] + more)[1..] == more;
    assert ([b] + rest)[0] == b && ([b] + rest)[1..] == rest;
  }

  lemma EndMarker()
    ensures ReadsBack(Zeros(2 * BLOCK), [])
  {
    var bytes := Zeros(2 * BLOCK);
    assert bytes[..BLOCK] == Zeros(BLOCK) && bytes[BLOCK..2 * BLOCK] == Zeros(BLOCK);
    assert bytes[2 * BLOCK..] == [];
  }

  lemma {:induction false} ReadBlocks(bs: seq<seq<byte>>, es: seq<Entry>)
    requires AllFaithful(bs, es)
    ensures ReadsBack(Flatten(bs) + Zeros(2 * BLOCK), es) <==> forall e <- es :: Representable(e)
    decreases |bs|
  {
    if es == [] {
      EndMarker();
      assert Flatten(bs) + Zeros(2 * BLOCK) == Zeros(2 * BLOCK);
    } else {
      var tail := Flatten(bs[1..]) + Zeros(2 * BLOCK);
      assert Flatten(bs) + Zeros(2 * BLOCK) == bs[0] + tail;
      ReadStep(bs[0], es[0], tail, es[1..]);
      ReadBlocks(bs[1..], es[1..]);
      assert es == [es[0]] + es[1..];
    }
  }

  /** The reader returns the written entries exactly when each is representable, and stops at the end marker. */
  lemma ArchiveRoundTrip(es: seq<Entry>)
    requires forall e <- es :: Written(e)
    ensures ReadsBack(Archive(es), es) <==> forall e <- es :: Representable(e)
  {
    BlockListFaithful(es);
    ReadBlocks(BlockList(es), es);
  }

  // ----- layout

  lemma {:induction false} Aligned(bs: seq<seq<byte>>)
    requires forall i :: 0 <= i < |bs| ==> |bs[i]| % BLOCK == 0
    ensures |Flatten(bs)| % BLOCK == 0
    decreases |bs|
  {
    if bs != [] {
      Aligned(bs[1..]);
    }
  }

  /** Block `k` of an archive starts on a block boundary and holds entry `k`, zero padded up to the next one. */
  predicate LaidOutAt(bs: seq<seq<byte>>, es: seq<Entry>, k: nat)
    requires k < |bs| == |es|
  {
    var at, a := |Flatten(bs[..k])|, Flatten(bs) + Zeros(2 * BLOCK);
    at % BLOCK == 0 && at + |bs[k]| + 2 * BLOCK <= |a| && Faithful(a[at..at + |bs[k]|], es[k])
  }

  lemma LayoutOfBlocks(bs: seq<seq<byte>>, es: seq<Entry>, k: nat)
    requires AllFaithful(bs, es) && k < |es|
    ensures LaidOutAt(bs, es, k)
  {
    Aligned(bs[..k]);
    FlattenAt(bs, k, Zeros(2 * BLOCK));
  }

  /** Every header starts on a block boundary, and its data is padded with zeros up to the next one. */
  lemma Layout(es: seq<Entry>, k: nat)
    requires k < |es| && forall e <- es :: Written(e)
    ensures LaidOutAt(BlockList(es), es, k)
  {
    BlockListFaithful(es);
    LayoutOfBlocks(BlockList(es), es, k);
  }
}

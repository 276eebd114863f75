/** The source's `tarHeader`: one 512-octet header, field by field into a zeroed buffer. */
module TarHeaders {
  import opened Bytes
  import opened Common
  import opened OctalFields
  import opened Ustar

  /** A place in a header. */
  type Offset = n: nat | n <= BLOCK

  type Write = (Offset, seq<byte>)

  /** The writes before the checksum is known, in the order the source makes them. */
  function Writes(name: seq<byte>, mode: nat, size: nat, mtime: int, directory: bool): seq<Write> {
    [(0, name), (100, Octal(mode, 7)), (108, Octal(0, 7)), (116, Octal(0, 7)), (124, Octal(size, 11)),
     (136, Octal(mtime, 11)), (156, [if directory then DIRECTORY else FILE]), (257, MAGIC), (148, Repeat(SPACE, 8))]
  }

  function PutAll(buf: seq<byte>, ws: seq<Write>): (r: seq<byte>)
    requires |buf| == BLOCK
    ensures |r| == BLOCK
    decreases |ws|
  {
    if ws == [] then buf else PutAll(Put(buf, ws[0].1, ws[0].0), ws[1..])
  }

  function ChecksumText(sum: nat): seq<byte> {
    PadStart(Digits(sum), 6) + [0, SPACE]
  }

  function Unsummed(name: seq<byte>, mode: nat, size: nat, mtime: int, directory: bool): (r: seq<byte>)
    ensures |r| == BLOCK
  {
    PutAll(Zeros(BLOCK), Writes(name, mode, size, mtime, directory))
  }

  function Summed(u: seq<byte>): (r: seq<byte>)
    requires |u| == BLOCK
    ensures |r| == BLOCK
  {
    Put(u, ChecksumText(Sum(u)), 148)
  }

  function Header(name: seq<byte>, mode: nat, size: nat, mtime: int, directory: bool): (r: seq<byte>)
    ensures |r| == BLOCK
  {
    Summed(Unsummed(name, mode, size, mtime, directory))
  }

  // ----- a field keeps its last write

  predicate Untouched(ws: seq<Write>, lo: nat, hi: nat) {
    forall i :: 0 <= i < |ws| ==> hi <= ws[i].0 || ws[i].0 + |ws[i].1| <= lo
  }

  lemma {:induction false} PutAllFrame(buf: seq<byte>, ws: seq<Write>, lo: nat, hi: nat)
    requires |buf| == BLOCK && lo <= hi <= BLOCK && Untouched(ws, lo, hi)
    ensures PutAll(buf, ws)[lo..hi] == buf[lo..hi]
    decreases |ws|
  {
    if ws != [] {
      PutSlices(buf, ws[0].1, ws[0].0, lo, hi);
      PutAllFrame(Put(buf, ws[0].1, ws[0].0), ws[1..], lo, hi);
    }
  }

  lemma {:induction false} PutAllField(buf: seq<byte>, ws: seq<Write>, k: nat, hi: nat)
    requires |buf| == BLOCK && k < |ws|
    requires ws[k].0 <= hi <= ws[k].0 + |ws[k].1| && hi <= BLOCK
    requires Untouched(ws[k + 1..], ws[k].0, hi)
    ensures PutAll(buf, ws)[ws[k].0..hi] == ws[k].1[..hi - ws[k].0]
    decreases |ws|
  {
    var next := Put(buf, ws[0].1, ws[0].0);
    if k == 0 {
      PutSlices(buf, ws[0].1, ws[0].0, ws[0].0, hi);
      PutAllFrame(next, ws[1..], ws[0].0, hi);
    } else {
      assert ws[1..][k - 1 + 1..] == ws[k + 1..];
      PutAllField(next, ws[1..], k - 1, hi);
    }
  }

  /** The numbers that can overflow their field are the size and the time. */
  lemma OctalLengths(mode: nat, size: nat, mtime: int)
    requires mode < Pow8(7)
    ensures |Octal(mode, 7)| == |Octal(0, 7)| == 8
    ensures size < Pow8(11) ==> |Octal(size, 11)| == 12
    ensures 0 <= mtime < Pow8(11) ==> |Octal(mtime, 11)| == 12
  {
    FieldRoundTrip(mode, 7);
    assert 0 < Pow8(7);
    FieldRoundTrip(0, 7);
    FieldRoundTrip(size, 11);
    FieldRoundTrip(mtime, 11);
  }

  /** What the buffer holds before the checksum is written, whatever the sizes are. */
  predicate LaidOut(u: seq<byte>, name: seq<byte>, mode: nat, size: nat, mtime: int, directory: bool) {
    && |u| == BLOCK && |name| <= 100
    && u[0..100] == name + Zeros(100 - |name|)
    && u[100..108] == Octal(mode, 7)[..8] && u[108..116] == u[116..124] == Octal(0, 7)[..8]
    && u[124..136] == Octal(size, 11)[..12] && u[136..148] == Octal(mtime, 11)[..12]
    && u[148..156] == Repeat(SPACE, 8)
    && u[156] == (if directory then DIRECTORY else FILE) && u[257..265] == MAGIC
    && (size < Pow8(11) && 0 <= mtime < Pow8(11) ==> u[345..500] == Zeros(155))
  }

  lemma UnsummedField(name: seq<byte>, mode: nat, size: nat, mtime: int, directory: bool, k: nat, hi: nat)
    requires |name| <= 100 && mode < Pow8(7) && k <= 8
    requires hi == [|name|, 108, 116, 124, 136, 148, 157, 265, 156][k]
    ensures var w := Writes(name, mode, size, mtime, directory)[k];
            && |w.1| >= hi - w.0 >= 0 && hi <= BLOCK
            && Unsummed(name, mode, size, mtime, directory)[w.0..hi] == w.1[..hi - w.0]
  {
    UnsummedLater(name, mode, size, mtime, directory, k, hi);
    PutAllField(Zeros(BLOCK), Writes(name, mode, size, mtime, directory), k, hi);
  }

  /** Such a field lies in its write, and no later write touches it. */
  lemma UnsummedLater(name: seq<byte>, mode: nat, size: nat, mtime: int, directory: bool, k: nat, hi: nat)
    requires |name| <= 100 && mode < Pow8(7) && k <= 8
    requires hi == [|name|, 108, 116, 124, 136, 148, 157, 265, 156][k]
    ensures var ws := Writes(name, mode, size, mtime, directory);
            ws[k].0 <= hi <= ws[k].0 + |ws[k].1| && hi <= BLOCK && Untouched(ws[k + 1..], ws[k].0, hi)
  {
    OctalLengths(mode, size, mtime);
    var ws := Writes(name, mode, size, mtime, directory);
    assert ws[k].0 <= hi <= (if k < 6 then 148 else if k == 8 then 156 else 265);
    forall j | k < j < 8
      ensures hi <= ws[j].0
    {
    }
  }

  lemma UnsummedName(name: seq<byte>, mode: nat, size: nat, mtime: int, directory: bool, u: seq<byte>)
    requires |name| <= 100 && mode < Pow8(7) && u == Unsummed(name, mode, size, mtime, directory)
    ensures u[0..100] == name + Zeros(100 - |name|)
  {
    UnsummedField(name, mode, size, mtime, directory, 0, |name|);
    var ws := Writes(name, mode, size, mtime, directory);
    PutAllFrame(Zeros(BLOCK), ws, |name|, 100);
    assert u[0..100] == u[0..|name|] + u[|name|..100];
  }

  /** The prefix field stays empty, if the numbers before it stay in their fields. */
  lemma UnsummedPrefix(name: seq<byte>, mode: nat, size: nat, mtime: int, directory: bool, u: seq<byte>)
    requires |name| <= 100 && mode < Pow8(7) && u == Unsummed(name, mode, size, mtime, directory)
    requires size < Pow8(11) && 0 <= mtime < Pow8(11)
    ensures u[345..500] == Zeros(155)
  {
    OctalLengths(mode, size, mtime);
    PutAllFrame(Zeros(BLOCK), Writes(name, mode, size, mtime, directory), 345, 500);
  }

  lemma UnsummedNumbers(name: seq<byte>, mode: nat, size: nat, mtime: int, directory: bool, u: seq<byte>)
    requires |name| <= 100 && mode < Pow8(7) && u == Unsummed(name, mode, size, mtime, directory)
    ensures u[100..108] == Octal(mode, 7)[..8] && u[108..116] == u[116..124] == Octal(0, 7)[..8]
    ensures u[124..136] == Octal(size, 11)[..12] && u[136..148] == Octal(mtime, 11)[..12]
  {
    OctalLengths(mode, size, mtime);
    UnsummedField(name, mode, size, mtime, directory, 1, 108);
    UnsummedField(name, mode, size, mtime, directory, 2, 116);
    UnsummedField(name, mode, size, mtime, directory, 3, 124);
    UnsummedField(name, mode, size, mtime, directory, 4, 136);
    UnsummedField(name, mode, size, mtime, directory, 5, 148);
  }

  lemma UnsummedMarks(name: seq<byte>, mode: nat, size: nat, mtime: int, directory: bool, u: seq<byte>)
    requires |name| <= 100 && mode < Pow8(7) && u == Unsummed(name, mode, size, mtime, directory)
    ensures u[148..156] == Repeat(SPACE, 8) && u[257..265] == MAGIC
    ensures u[156] == if directory then DIRECTORY else FILE
  {
    UnsummedField(name, mode, size, mtime, directory, 6, 157);
    assert u[156] == u[156..157][0];
    UnsummedField(name, mode, size, mtime, directory, 7, 265);
    UnsummedField(name, mode, size, mtime, directory, 8, 156);
  }

  /** No field write disturbs another: every field keeps what was written for it. */
  lemma UnsummedLaidOut(name: seq<byte>, mode: nat, size: nat, mtime: int, directory: bool)
    requires |name| <= 100 && mode < Pow8(7)
    ensures LaidOut(Unsummed(name, mode, size, mtime, directory), name, mode, size, mtime, directory)
  {
    var u := Unsummed(name, mode, size, mtime, directory);
    UnsummedName(name, mode, size, mtime, directory, u);
    if size < Pow8(11) && 0 <= mtime < Pow8(11) {
      UnsummedPrefix(name, mode, size, mtime, directory, u);
    }
    UnsummedNumbers(name, mode, size, mtime, directory, u);
    UnsummedMarks(name, mode, size, mtime, directory, u);
  }

  // ----- the checksum

  lemma {:induction false} ChecksumFits(sum: nat)
    requires sum <= 255 * BLOCK
    ensures sum <= 130560 < Pow8(6)
    ensures |ChecksumText(sum)| == 8 && Number(ChecksumText(sum)) == Some(sum)
  {
    assert Pow8(6) == 262144;
    DigitsFit(sum, 6);
    ValueOfDigits(sum);
    ValueIgnoresPadding(6 - |Digits(sum)|, Digits(sum));
    NumberOf(PadStart(Digits(sum), 6), [0, SPACE]);
  }

  /** The stored checksum is the octet sum with its own field read as spaces, and it writes only its own field. */
  lemma SummedChecksum(u: seq<byte>)
    requires |u| == BLOCK && u[148..156] == Repeat(SPACE, 8)
    ensures var h := Summed(u);
            && Number(h[148..156]) == Some(ChecksumOf(h)) && ChecksumOf(h) <= 130560
            && h[..148] == u[..148] && h[156..] == u[156..]
  {
    var text := ChecksumText(Sum(u));
    var h := Summed(u);
    ChecksumFits(Sum(u));
    assert text[..8] == text;
    PutSlices(u, text, 148, 148, 156);
    PutSlices(u, text, 148, 0, 148);
    PutSlices(u, text, 148, 156, BLOCK);
    assert Put(h, Repeat(SPACE, 8), 148) == u by {
      assert u == u[..148] + u[148..156] + u[156..];
    }
  }

  // ----- what a reader sees

  lemma {:induction false} CStringPadded(s: seq<byte>, zeros: nat)
    ensures CString(s + Zeros(zeros)) == CString(s)
    ensures 0 !in s <==> CString(s) == s
  {
    if s == [] {
      assert s + Zeros(zeros) == Zeros(zeros);
    } else {
      CStringPadded(s[1..], zeros);
      assert (s + Zeros(zeros))[1..] == s[1..] + Zeros(zeros);
      assert 0 in s <==> s[0] == 0 || 0 in s[1..];
    }
  }

  lemma SubSlice(h: seq<byte>, u: seq<byte>, lo: nat, hi: nat)
    requires |h| == |u| == BLOCK && h[..148] == u[..148] && h[156..] == u[156..]
    requires lo <= hi <= 148 || 156 <= lo <= hi <= BLOCK
    ensures h[lo..hi] == u[lo..hi]
  {
    forall i | lo <= i < hi ensures h[i] == u[i] {
      if i < 148 {
        assert h[i] == h[..148][i] == u[..148][i];
      } else {
        assert h[i] == h[156..][i - 156] == u[156..][i - 156];
      }
    }
  }

  lemma SummedKeeps(u: seq<byte>, lo: nat, hi: nat)
    requires |u| == BLOCK && u[148..156] == Repeat(SPACE, 8) && (lo <= hi <= 148 || 156 <= lo <= hi <= BLOCK)
    ensures Summed(u)[lo..hi] == u[lo..hi]
  {
    SummedChecksum(u);
    SubSlice(Summed(u), u, lo, hi);
  }

  lemma SummedText(u: seq<byte>, name: seq<byte>, mode: nat, size: nat, mtime: int, directory: bool)
    requires LaidOut(u, name, mode, size, mtime, directory)
    ensures var h := Summed(u);
            && CString(h[0..100]) == CString(name)
            && (size < Pow8(11) && 0 <= mtime < Pow8(11) ==> CString(h[345..500]) == [])
  {
    SummedKeeps(u, 0, 100);
    PaddedName(u[0..100], name, 100 - |name|);
    if size < Pow8(11) && 0 <= mtime < Pow8(11) {
      SummedPrefix(u);
    }
  }

  lemma PaddedName(padded: seq<byte>, name: seq<byte>, zeros: nat)
    requires padded == name + Zeros(zeros)
    ensures CString(padded) == CString(name)
  {
    CStringPadded(name, zeros);
  }

  lemma SummedPrefix(u: seq<byte>)
    requires |u| == BLOCK && u[148..156] == Repeat(SPACE, 8) && u[345..500] == Zeros(155)
    ensures CString(Summed(u)[345..500]) == []
  {
    SummedKeeps(u, 345, 500);
  }

  lemma SummedMarks(u: seq<byte>, name: seq<byte>, mode: nat, size: nat, mtime: int, directory: bool)
    requires LaidOut(u, name, mode, size, mtime, directory)
    ensures var h := Summed(u); h[257..265] == MAGIC && h[156] == if directory then DIRECTORY else FILE
  {
    var h := Summed(u);
    SummedChecksum(u);
    SubSlice(h, u, 257, 265);
    SubSlice(h, u, 156, 157);
    assert h[156] == h[156..157][0] == u[156..157][0];
  }

  lemma SummedNumbers(u: seq<byte>, name: seq<byte>, mode: nat, size: nat, mtime: int, directory: bool)
    requires LaidOut(u, name, mode, size, mtime, directory) && mode < Pow8(7)
    ensures var h := Summed(u);
            && Number(h[100..108]) == Some(mode)
            && Number(h[108..116]) == Some(0) && Number(h[116..124]) == Some(0)
            && Number(h[124..136]) == (if size < Pow8(11) then Some(size) else None)
            && Number(h[136..148]) == (if 0 <= mtime < Pow8(11) then Some(mtime) else None)
  {
    var h := Summed(u);
    SummedChecksum(u);
    FieldRoundTrip(mode, 7);
    FieldRoundTrip(0, 7);
    FieldRoundTrip(size, 11);
    FieldRoundTrip(mtime, 11);
    SubSlice(h, u, 100, 108);
    SubSlice(h, u, 108, 116);
    SubSlice(h, u, 116, 124);
    SubSlice(h, u, 124, 136);
    SubSlice(h, u, 136, 148);
  }

  lemma SummedParse(u: seq<byte>, name: seq<byte>, mode: nat, size: nat, mtime: int, directory: bool)
    requires LaidOut(u, name, mode, size, mtime, directory) && mode < Pow8(7)
    ensures ParseHeader(Summed(u)) ==
            if size < Pow8(11) && 0 <= mtime < Pow8(11)
            then Some(Meta(CString(name), mode, size, mtime, directory)) else None
    ensures Summed(u) != Zeros(BLOCK)
  {
    SummedChecksum(u);
    SummedText(u, name, mode, size, mtime, directory);
    SummedMarks(u, name, mode, size, mtime, directory);
    SummedNumbers(u, name, mode, size, mtime, directory);
    assert Summed(u)[257] == Summed(u)[257..265][0] == 117;
  }

  /** A standard reader gets the fields back exactly when both numbers fit eleven octal digits; else it rejects. */
  lemma HeaderRoundTrip(name: seq<byte>, mode: nat, size: nat, mtime: int, directory: bool)
    requires |name| <= 100 && mode < Pow8(7)
    ensures ParseHeader(Header(name, mode, size, mtime, directory)) ==
            if size < Pow8(11) && 0 <= mtime < Pow8(11)
            then Some(Meta(CString(name), mode, size, mtime, directory)) else None
    ensures Header(name, mode, size, mtime, directory) != Zeros(BLOCK)
  {
    UnsummedLaidOut(name, mode, size, mtime, directory);
    SummedParse(Unsummed(name, mode, size, mtime, directory), name, mode, size, mtime, directory);
  }

  // ----- the source's own steps

  /** Math.floor(mtimeMs / 1000) */
  function Seconds(mtimeMs: real): int {
    (mtimeMs / 1000.0).Floor
  }

  method SumBytes(a: array<byte>) returns (total: nat)
    ensures total == Sum(a[..])
  {
    total := 0;
    for i := 0 to a.Length
      invariant total == Sum(a[..i])
    {
      total := total + a[i];
      assert a[..i + 1][..i] == a[..i];
    }
    assert a[..a.Length] == a[..];
  }

  /** The writes up to the checksum. */
  method WriteFields(h: array<byte>, name: seq<byte>, mode: nat, size: nat, mtime: int, directory: bool)
    requires h[..] == Zeros(BLOCK)
    modifies h
    ensures h[..] == Unsummed(name, mode, size, mtime, directory)
  {
    WriteAt(h, name, 0);
    WriteAt(h, Octal(mode, 7), 100);
    WriteAt(h, Octal(0, 7), 108);
    WriteAt(h, Octal(0, 7), 116);
    WriteAt(h, Octal(size, 11), 124);
    WriteAt(h, Octal(mtime, 11), 136);
    WriteAt(h, [if directory then DIRECTORY else FILE], 156);
    WriteAt(h, MAGIC, 257);
    WriteAt(h, Repeat(SPACE, 8), 148);
    WrittenInOrder(name, mode, size, mtime, directory);
  }

  method TarHeader(name: seq<byte>, mode: nat, size: nat, mtimeMs: real, directory: bool)
    returns (header: Option<array<byte>>)
    ensures header.None? <==> |name| > 100
    ensures header.Some? ==>
              fresh(header.value) && header.value[..] == Header(name, mode, size, Seconds(mtimeMs), directory)
  {
    if |name| > 100 {
      return None;
    }
    var h := new byte[BLOCK](_ => 0);
    assert h[..] == Zeros(BLOCK);
    WriteFields(h, name, mode, size, Seconds(mtimeMs), directory);
    var sum := SumBytes(h);
    WriteAt(h, ChecksumText(sum), 148);
    return Some(h);
  }

  lemma WrittenInOrder(name: seq<byte>, mode: nat, size: nat, mtime: int, directory: bool)
    ensures Unsummed(name, mode, size, mtime, directory) ==
            Put(Put(Put(Put(Put(Put(Put(Put(Put(Zeros(BLOCK), name, 0), Octal(mode, 7), 100), Octal(0, 7), 108),
              Octal(0, 7), 116), Octal(size, 11), 124), Octal(mtime, 11), 136),
              [if directory then DIRECTORY else FILE], 156), MAGIC, 257), Repeat(SPACE, 8), 148)
  {
    PutAllNine(Zeros(BLOCK), Writes(name, mode, size, mtime, directory));
  }

  lemma PutAllNine(buf: seq<byte>, ws: seq<Write>)
    requires |buf| == BLOCK && |ws| == 9
    ensures PutAll(buf, ws) ==
            Put(Put(Put(Put(Put(Put(Put(Put(Put(buf, ws[0].1, ws[0].0), ws[1].1, ws[1].0), ws[2].1, ws[2].0),
              ws[3].1, ws[3].0), ws[4].1, ws[4].0), ws[5].1, ws[5].0), ws[6].1, ws[6].0), ws[7].1, ws[7].0),
              ws[8].1, ws[8].0)
  {
    var buf3 := Put(Put(Put(buf, ws[0].1, ws[0].0), ws[1].1, ws[1].0), ws[2].1, ws[2].0);
    assert PutAll(buf, ws) == PutAll(buf3, ws[3..]) by { PutAllThree(buf, ws); }
    var buf6 := Put(Put(Put(buf3, ws[3].1, ws[3].0), ws[4].1, ws[4].0), ws[5].1, ws[5].0);
    assert PutAll(buf3, ws[3..]) == PutAll(buf6, ws[6..]) by {
      PutAllThree(buf3, ws[3..]);
      assert ws[3..][3..] == ws[6..];
    }
    PutAllThree(buf6, ws[6..]);
    assert ws[6..][3..] == [];
  }

  lemma PutAllThree(buf: seq<byte>, ws: seq<Write>)
    requires |buf| == BLOCK && |ws| >= 3
    ensures PutAll(buf, ws) ==
            PutAll(Put(Put(Put(buf, ws[0].1, ws[0].0), ws[1].1, ws[1].0), ws[2].1, ws[2].0), ws[3..])
  {
    var one := Put(buf, ws[0].1, ws[0].0);
    var two := Put(one, ws[1].1, ws[1].0);
    assert ws[1..][1..] == ws[2..] && ws[2..][1..] == ws[3..];
    assert PutAll(one, ws[1..]) == PutAll(two, ws[2..]);
  }
}

/**
  What the desktop client takes from a server's octets, phase by phase and read by read, against the encoders of
  RFC 6143; and what a server reads of the client's own messages.
 */
module DesktopMessages {
  import opened Common
  import opened Bytes
  import opened Rfb

  datatype Session = Session(width: u16, height: u16, bitsPerPixel: byte)

  // ----- what the handshake and a capture take from the stream

  function ParseInit(e: seq<byte>): Option<(Session, seq<byte>)> {
    if |e| < 24 || |e[24..]| < Get32(e, 20) then None
    else Some((Session(Get16(e, 0), Get16(e, 2), e[4]), e[24..][Get32(e, 20)..]))
  }

  function ParseResult(d: seq<byte>): Option<(Session, seq<byte>)> {
    if |d| < 4 || Get32(d, 0) != 0 then None else ParseInit(d[4..])
  }

  function ParseTypes(c: seq<byte>, count: nat): Option<(Session, seq<byte>)> {
    if |c| < count || 1 !in c[..count] then None else ParseResult(c[count..])
  }

  function ParseSecurity(b: seq<byte>): Option<(Session, seq<byte>)> {
    if b == [] then None else ParseTypes(b[1..], b[0])
  }

  function ParseHello(a: seq<byte>): Option<(Session, seq<byte>)> {
    if |a| < 12 || a[..12] != GREETING then None else ParseSecurity(a[12..])
  }

  // The lengths of the reads that take it.

  function InitLengths(e: seq<byte>): seq<nat> {
    [24] + if |e| < 24 then [] else [Get32(e, 20)]
  }

  function ResultLengths(d: seq<byte>): seq<nat> {
    [4] + if |d| < 4 then [] else InitLengths(d[4..])
  }

  function TypesLengths(c: seq<byte>, count: nat): seq<nat> {
    [count] + if |c| < count then [] else ResultLengths(c[count..])
  }

  function SecurityLengths(b: seq<byte>): seq<nat> {
    [1] + if b == [] then [] else TypesLengths(b[1..], b[0])
  }

  function HelloLengths(a: seq<byte>): seq<nat> {
    [12] + if |a| < 12 then [] else SecurityLengths(a[12..])
  }

  function LittleEndian(p: seq<byte>, at: nat): u32
    requires at + 4 <= |p|
  {
    Get32([p[at + 3], p[at + 2], p[at + 1], p[at]], 0)
  }

  function Colors(p: seq<byte>): set<u32> {
    if |p| < 4 then {} else {LittleEndian(p, 0)} + Colors(p[4..])
  }

  /**
    The pixels of one rectangle. Pixels are read as 32-bit values, so in a rectangle whose pixels have one or
    two octets the reader runs past the end and throws.
   */
  function ParseRect(a: seq<byte>, bytesPerPixel: nat): Option<(seq<byte>, seq<byte>)> {
    if |a| < 12 || Get32(a, 8) != 0 then None
    else
      var size := RectLength(Get16(a, 4), Get16(a, 6), bytesPerPixel);
      if |a[12..]| < size || (bytesPerPixel != 4 && size > 0) then None
      else Some((a[12..][..size], a[12..][size..]))
  }

  /** The pixels of `n` rectangles, one after the other, and what follows them. */
  function ParseRects(a: seq<byte>, n: nat, bytesPerPixel: nat): Option<(seq<byte>, seq<byte>)> {
    if n == 0 then Some(([], a))
    else match ParseRect(a, bytesPerPixel)
      case None => None
      case Some((pixels, after)) =>
        match ParseRects(after, n - 1, bytesPerPixel)
        case None => None
        case Some((more, rest)) => Some((pixels + more, rest))
  }

  function ParseUpdate(a: seq<byte>, bytesPerPixel: nat): Option<(seq<byte>, seq<byte>)> {
    if |a| < 4 || a[0] != 0 then None else ParseRects(a[4..], Get16(a, 2), bytesPerPixel)
  }

  function RectLengths(a: seq<byte>, bytesPerPixel: nat): seq<nat> {
    var rect := ParseRect(a, bytesPerPixel);
    [12] + if rect.None? then [] else [|rect.value.0|]
  }

  function RectsLengths(a: seq<byte>, n: nat, bytesPerPixel: nat): seq<nat> {
    if n == 0 then []
    else
      var rect := ParseRect(a, bytesPerPixel);
      RectLengths(a, bytesPerPixel) + if rect.None? then [] else RectsLengths(rect.value.1, n - 1, bytesPerPixel)
  }

  function UpdateLengths(a: seq<byte>, bytesPerPixel: nat): seq<nat> {
    [4] + if |a| < 4 then [] else RectsLengths(a[4..], Get16(a, 2), bytesPerPixel)
  }

  /** Pixel formats RFC 6143 allows (section 7.4). */
  predicate Legal(s: Session) {
    s.bitsPerPixel in {8, 16, 32}
  }

  function BytesPerPixel(s: Session): nat {
    s.bitsPerPixel / 8
  }

  /** A whole number of pixels. */
  predicate PixelMultiple(length: nat, bytesPerPixel: nat) {
    (bytesPerPixel == 2 ==> length % 2 == 0) && (bytesPerPixel == 4 ==> length % 4 == 0)
  }

  function KeyBytes(value: u32, down: bool): seq<byte> {
    [4, if down then 1 else 0, 0, 0] + U32(value)
  }

  function PointerBytes(mask: byte, x: u16, y: u16): seq<byte> {
    [5, mask] + U16(x) + U16(y)
  }

  const RETURN: u32 := 0xff0d

  function Press(value: u32): seq<seq<byte>> {
    [KeyBytes(value, true), KeyBytes(value, false)]
  }

  /** What typing a text sends. */
  function TypeMessages(text: string): seq<seq<byte>> {
    if text == "" then Press(RETURN) else Press(text[0] as int) + TypeMessages(text[1..])
  }

  function UpdateRequestBytes(s: Session): seq<byte> {
    [3, 0, 0, 0, 0, 0] + U16(s.width) + U16(s.height)
  }

  /** Parsing `n` rectangles of `a` is parsing the `left` that remain of `b`, behind the pixels already taken. */
  predicate Ahead(a: seq<byte>, n: nat, bytesPerPixel: nat, taken: seq<byte>, b: seq<byte>, left: nat) {
    ParseRects(a, n, bytesPerPixel) ==
    match ParseRects(b, left, bytesPerPixel)
    case None => None
    case Some((pixels, rest)) => Some((taken + pixels, rest))
  }

  lemma AheadStart(a: seq<byte>, n: nat, bytesPerPixel: nat)
    ensures Ahead(a, n, bytesPerPixel, [], a, n)
  {
    var all := ParseRects(a, n, bytesPerPixel);
    if all.Some? {
      assert [] + all.value.0 == all.value.0;
    }
  }

  lemma AheadEnd(a: seq<byte>, n: nat, bytesPerPixel: nat, taken: seq<byte>, b: seq<byte>)
    requires Ahead(a, n, bytesPerPixel, taken, b, 0)
    ensures ParseRects(a, n, bytesPerPixel) == Some((taken, b))
  {
    assert taken + [] == taken;
  }

  lemma AheadStep(a: seq<byte>, n: nat, bytesPerPixel: nat, taken: seq<byte>, b: seq<byte>, left: nat)
    requires left > 0 && bytesPerPixel in {1, 2, 4} && Ahead(a, n, bytesPerPixel, taken, b, left)
    ensures var rect := ParseRect(b, bytesPerPixel);
            if rect.None? then ParseRects(a, n, bytesPerPixel).None?
            else Ahead(a, n, bytesPerPixel, taken + rect.value.0, rect.value.1, left - 1) && Whole(rect.value.0)
  {
    var rect := ParseRect(b, bytesPerPixel);
    if rect.Some? {
      WholePixels(Get16(b, 4), Get16(b, 6), bytesPerPixel);
      var later := ParseRects(rect.value.1, left - 1, bytesPerPixel);
      if later.Some? {
        Regroup(taken, rect.value.0, later.value.0);
      }
    }
  }

  lemma WholePixels(width: u16, height: u16, bytesPerPixel: nat)
    requires bytesPerPixel in {1, 2, 4}
    ensures PixelMultiple(RectLength(width, height, bytesPerPixel), bytesPerPixel)
  {
    var area := width * height;
    assert RectLength(width, height, bytesPerPixel) == area * bytesPerPixel;
  }

  predicate Whole(pixels: seq<byte>) {
    |pixels| % 4 == 0
  }

  lemma {:induction false} ColorsAppend(a: seq<byte>, b: seq<byte>)
    requires Whole(a)
    ensures Colors(a + b) == Colors(a) + Colors(b)
    ensures Whole(b) ==> Whole(a + b)
    decreases |a|
  {
    if a == [] {
      assert a + b == b;
    } else {
      ColorsAppend(a[4..], b);
      assert (a + b)[4..] == a[4..] + b;
      assert LittleEndian(a + b, 0) == LittleEndian(a, 0);
    }
  }

  const ONE: seq<byte> := [1]
  const RAW_ENCODING: seq<byte> := [2, 0, 0, 1, 0, 0, 0, 0]

  // ----- a well-formed stream gives exactly one message to each phase

  /** The handshake of any well-formed server is taken whole, and accepted when it offers no authentication. */
  lemma HelloRoundTrip(h: Hello, rest: seq<byte>)
    requires WellFormed(h)
    ensures ParseHello(EncodeHello(h) + rest) ==
            if 1 in h.types then Some((Session(h.width, h.height, h.format[0]), rest)) else None
  {
    var e := InitHead(h) + (h.name + rest);
    var d := U32(0) + e;
    var c := h.types + d;
    var b: seq<byte> := [|h.types|] + c;
    HelloParts(h, rest);
    assert (GREETING + b)[..12] == GREETING && (GREETING + b)[12..] == b;
    assert b[1..] == c;
    assert c[..|h.types|] == h.types && c[|h.types|..] == d;
    assert d[0..4] == U32(0) && d[4..] == e;
    Get32Of(0, d, 0);
    InitParses(h, rest);
  }

  /** The reads of a well-formed handshake. */
  function HelloReads(h: Hello): seq<nat> {
    [12] + ([1] + ([|h.types|] + ([4] + ([24] + [|h.name|]))))
  }

  /** The server's choices fix the reads. */
  lemma HelloTakesReads(h: Hello, rest: seq<byte>)
    requires WellFormed(h)
    ensures HelloLengths(EncodeHello(h) + rest) == HelloReads(h)
  {
    var e := InitHead(h) + (h.name + rest);
    var d := U32(0) + e;
    var c := h.types + d;
    var b: seq<byte> := [|h.types|] + c;
    HelloParts(h, rest);
    assert (GREETING + b)[12..] == b && b[1..] == c && c[|h.types|..] == d && d[4..] == e;
    assert e[20..24] == U32(|h.name|);
    Get32Of(|h.name|, e, 20);
  }

  function InitHead(h: Hello): (r: seq<byte>)
    requires WellFormed(h)
    ensures |r| == 24
  {
    U16(h.width) + U16(h.height) + h.format + U32(|h.name|)
  }

  lemma InitParses(h: Hello, rest: seq<byte>)
    requires WellFormed(h)
    ensures ParseInit(InitHead(h) + (h.name + rest)) == Some((Session(h.width, h.height, h.format[0]), rest))
  {
    var e := InitHead(h) + (h.name + rest);
    assert e[24..] == h.name + rest;
    assert (h.name + rest)[|h.name|..] == rest;
    assert e[0..2] == U16(h.width) && e[2..4] == U16(h.height) && e[20..24] == U32(|h.name|);
    Get16Of(h.width, e, 0);
    Get16Of(h.height, e, 2);
    Get32Of(|h.name|, e, 20);
  }

  lemma InitConsumed(e: seq<byte>, types: seq<byte>) returns (h: Hello)
    requires ParseInit(e).Some? && |types| < 256
    ensures WellFormed(h) && h.types == types
    ensures e == InitHead(h) + (h.name + ParseInit(e).value.1)
    ensures ParseInit(e).value.0 == Session(h.width, h.height, h.format[0])
  {
    var n, f := Get32(e, 20), e[24..];
    h := Hello(types, Get16(e, 0), Get16(e, 2), e[4..20], f[..n]);
    Get16Of(h.width, e, 0);
    Get16Of(h.height, e, 2);
    Get32Of(n, e, 20);
    assert e[..24] == InitHead(h) by {
      assert e[..24] == e[0..2] + e[2..4] + e[4..20] + e[20..24];
    }
    assert f == h.name + f[n..] && e == e[..24] + f;
  }

  /** Whatever the handshake accepts is one complete handshake and what follows it. */
  lemma HelloConsumesOne(a: seq<byte>)
    requires ParseHello(a).Some?
    ensures exists h: Hello :: (
              && WellFormed(h) && 1 in h.types && a == EncodeHello(h) + ParseHello(a).value.1
              && ParseHello(a).value.0 == Session(h.width, h.height, h.format[0]))
  {
    var c := a[12..][1..];
    var count: nat := a[12..][0];
    var h := InitConsumed(c[count..][4..], c[..count]);
    HelloOctets(a);
    HelloParts(h, ParseHello(a).value.1);
  }

  lemma HelloOctets(a: seq<byte>)
    requires ParseHello(a).Some?
    ensures var c := a[12..][1..];
            var count: nat := a[12..][0];
            a == GREETING + ([count] + (c[..count] + (U32(0) + c[count..][4..])))
  {
    var b := a[12..];
    var c := b[1..];
    var count: nat := b[0];
    ResultOctets(c[count..]);
    Halves(c, count);
    assert b == [count] + c;
    Halves(a, 12);
  }

  lemma Halves(a: seq<byte>, n: nat)
    requires n <= |a|
    ensures a == a[..n] + a[n..]
  {
  }

  lemma ResultOctets(d: seq<byte>)
    requires |d| >= 4 && Get32(d, 0) == 0
    ensures d == U32(0) + d[4..]
  {
    Get32Of(0, d, 0);
    assert d[0..4] == d[..4];
    Halves(d, 4);
  }

  lemma HelloParts(h: Hello, rest: seq<byte>)
    requires WellFormed(h)
    ensures EncodeHello(h) + rest ==
            GREETING + ([|h.types|] + (h.types + (U32(0) + (InitHead(h) + (h.name + rest)))))
  {
  }

  function AllPixels(rs: seq<Rect>): seq<byte> {
    if rs == [] then [] else rs[0].pixels + AllPixels(rs[1..])
  }

  predicate NoPixels(rs: seq<Rect>) {
    forall i :: 0 <= i < |rs| ==> rs[i].pixels == []
  }

  lemma RectParses(r: Rect, bytesPerPixel: nat, rest: seq<byte>)
    requires |r.pixels| == RectLength(r.width, r.height, bytesPerPixel)
    ensures ParseRect(EncodeRect(r) + rest, bytesPerPixel) ==
            if bytesPerPixel == 4 || r.pixels == [] then Some((r.pixels, rest)) else None
  {
    var head := U16(r.x) + U16(r.y) + U16(r.width) + U16(r.height) + U32(0);
    var a := EncodeRect(r) + rest;
    assert a == head + (r.pixels + rest);
    assert a[4..6] == U16(r.width) && a[6..8] == U16(r.height) && a[8..12] == U32(0);
    Get16Of(r.width, a, 4);
    Get16Of(r.height, a, 6);
    Get32Of(0, a, 8);
    assert a[12..] == r.pixels + rest;
    assert (r.pixels + rest)[..|r.pixels|] == r.pixels && (r.pixels + rest)[|r.pixels|..] == rest;
  }

  lemma {:induction false} RectsParse(rs: seq<Rect>, bytesPerPixel: nat, rest: seq<byte>)
    requires Sized(rs, bytesPerPixel)
    ensures ParseRects(EncodeRects(rs) + rest, |rs|, bytesPerPixel) ==
            if bytesPerPixel == 4 || NoPixels(rs) then Some((AllPixels(rs), rest)) else None
    decreases |rs|
  {
    if rs == [] {
      assert [] + rest == rest;
    } else {
      SizedTail(rs, bytesPerPixel);
      RectsParse(rs[1..], bytesPerPixel, rest);
      RectsParseMore(rs[0], rs[1..], bytesPerPixel, rest);
      assert [rs[0]] + rs[1..] == rs;
    }
  }

  lemma RectsParseMore(r: Rect, rs: seq<Rect>, bytesPerPixel: nat, rest: seq<byte>)
    requires |r.pixels| == RectLength(r.width, r.height, bytesPerPixel)
    requires ParseRects(EncodeRects(rs) + rest, |rs|, bytesPerPixel) ==
             if bytesPerPixel == 4 || NoPixels(rs) then Some((AllPixels(rs), rest)) else None
    ensures ParseRects(EncodeRects([r] + rs) + rest, |rs| + 1, bytesPerPixel) ==
            if bytesPerPixel == 4 || NoPixels([r] + rs) then Some((AllPixels([r] + rs), rest)) else None
  {
    RectParses(r, bytesPerPixel, EncodeRects(rs) + rest);
    EncodeMore(r, rs);
    Regroup(EncodeRect(r), EncodeRects(rs), rest);
    NoPixelsHead([r] + rs);
    assert ([r] + rs)[1..] == rs;
  }

  /** The reads of a well-formed update: its header, and header and pixels of every rectangle. */
  function RectsReads(rs: seq<Rect>): seq<nat> {
    if rs == [] then [] else [12] + [|rs[0].pixels|] + RectsReads(rs[1..])
  }

  function UpdateReads(rs: seq<Rect>): seq<nat> {
    [4] + RectsReads(rs)
  }

  lemma {:induction false} RectsTakeReads(rs: seq<Rect>, bytesPerPixel: nat, rest: seq<byte>)
    requires Sized(rs, bytesPerPixel) && (bytesPerPixel == 4 || NoPixels(rs))
    ensures RectsLengths(EncodeRects(rs) + rest, |rs|, bytesPerPixel) == RectsReads(rs)
    decreases |rs|
  {
    if rs != [] {
      var r, more := rs[0], rs[1..];
      assert rs == [r] + more;
      NoPixelsHead(rs);
      SizedTail(rs, bytesPerPixel);
      RectsTakeReads(more, bytesPerPixel, rest);
      RectsTakeMore(r, more, bytesPerPixel, rest);
    }
  }

  lemma SizedTail(rs: seq<Rect>, bytesPerPixel: nat)
    requires rs != [] && Sized(rs, bytesPerPixel)
    ensures Sized(rs[1..], bytesPerPixel) && |rs[0].pixels| == RectLength(rs[0].width, rs[0].height, bytesPerPixel)
  {
  }

  lemma RectsTakeMore(r: Rect, rs: seq<Rect>, bytesPerPixel: nat, rest: seq<byte>)
    requires |r.pixels| == RectLength(r.width, r.height, bytesPerPixel) && (bytesPerPixel == 4 || r.pixels == [])
    requires RectsLengths(EncodeRects(rs) + rest, |rs|, bytesPerPixel) == RectsReads(rs)
    ensures RectsLengths(EncodeRects([r] + rs) + rest, |rs| + 1, bytesPerPixel) == RectsReads([r] + rs)
  {
    var tail := EncodeRects(rs) + rest;
    RectTakesReads(r, bytesPerPixel, tail, |rs|);
    EncodeMore(r, rs);
    Regroup(EncodeRect(r), EncodeRects(rs), rest);
  }

  lemma EncodeMore(r: Rect, rs: seq<Rect>)
    ensures EncodeRects([r] + rs) == EncodeRect(r) + EncodeRects(rs)
    ensures RectsReads([r] + rs) == [12] + [|r.pixels|] + RectsReads(rs)
  {
    assert ([r] + rs)[1..] == rs;
  }

  lemma RectTakesReads(r: Rect, bytesPerPixel: nat, tail: seq<byte>, left: nat)
    requires |r.pixels| == RectLength(r.width, r.height, bytesPerPixel) && (bytesPerPixel == 4 || r.pixels == [])
    ensures RectsLengths(EncodeRect(r) + tail, left + 1, bytesPerPixel) ==
            [12] + [|r.pixels|] + RectsLengths(tail, left, bytesPerPixel)
  {
    RectParses(r, bytesPerPixel, tail);
  }

  lemma UpdateTakesReads(padding: byte, rs: seq<Rect>, bytesPerPixel: nat, rest: seq<byte>)
    requires |rs| < 0x1_0000 && Sized(rs, bytesPerPixel) && (bytesPerPixel == 4 || NoPixels(rs))
    ensures UpdateLengths(EncodeUpdate(padding, rs) + rest, bytesPerPixel) == UpdateReads(rs)
  {
    FrameHeader(padding, |rs|, EncodeRects(rs) + rest);
    Regroup([0, padding] + U16(|rs|), EncodeRects(rs), rest);
    RectsTakeReads(rs, bytesPerPixel, rest);
  }

  lemma NoPixelsHead(rs: seq<Rect>)
    requires rs != []
    ensures NoPixels(rs) <==> rs[0].pixels == [] && NoPixels(rs[1..])
  {
    assert forall i :: 0 <= i < |rs| - 1 ==> rs[1..][i] == rs[i + 1];
    assert forall i :: 0 < i < |rs| ==> rs[i] == rs[1..][i - 1];
  }

  lemma FrameHeader(padding: byte, n: u16, tail: seq<byte>)
    ensures var a := [0, padding] + U16(n) + tail; |a| >= 4 && a[0] == 0 && Get16(a, 2) == n && a[4..] == tail
  {
    var a := [0, padding] + U16(n) + tail;
    assert a[2..4] == U16(n);
    Get16Of(n, a, 2);
  }

  lemma FrameHeaderOf(a: seq<byte>)
    requires |a| >= 4 && a[0] == 0
    ensures a == [0, a[1]] + U16(Get16(a, 2)) + a[4..]
  {
    Get16Of(Get16(a, 2), a, 2);
    assert a == [a[0], a[1]] + a[2..4] + a[4..];
  }

  /**
    Reading a well-formed update takes exactly that update when pixels have four octets. With one or two octets
    the reader throws at the first rectangle that has pixels.
   */
  lemma UpdateRoundTrip(padding: byte, rs: seq<Rect>, bytesPerPixel: nat, rest: seq<byte>)
    requires |rs| < 0x1_0000 && Sized(rs, bytesPerPixel)
    ensures ParseUpdate(EncodeUpdate(padding, rs) + rest, bytesPerPixel) ==
            if bytesPerPixel == 4 || NoPixels(rs) then Some((AllPixels(rs), rest)) else None
  {
    FrameHeader(padding, |rs|, EncodeRects(rs) + rest);
    Regroup([0, padding] + U16(|rs|), EncodeRects(rs), rest);
    RectsParse(rs, bytesPerPixel, rest);
  }

  lemma {:induction false} NoPixelsNoColors(rs: seq<Rect>)
    requires NoPixels(rs)
    ensures AllPixels(rs) == []
    decreases |rs|
  {
    if rs != [] {
      assert rs[0].pixels == [];
      NoPixelsNoColors(rs[1..]);
    }
  }

  /** Whatever a capture accepts is one complete update and what follows it. */
  lemma {:induction false} RectsConsumed(a: seq<byte>, n: nat, bytesPerPixel: nat) returns (rs: seq<Rect>)
    requires ParseRects(a, n, bytesPerPixel).Some?
    ensures |rs| == n && Sized(rs, bytesPerPixel)
    ensures a == EncodeRects(rs) + ParseRects(a, n, bytesPerPixel).value.1
    ensures ParseRects(a, n, bytesPerPixel).value.0 == AllPixels(rs)
    decreases n
  {
    if n == 0 {
      rs := [];
      assert a == [] + a;
    } else {
      var r := RectConsumed(a, bytesPerPixel);
      var after := ParseRect(a, bytesPerPixel).value.1;
      var more := RectsConsumed(after, n - 1, bytesPerPixel);
      rs := [r] + more;
      EncodeMore(r, more);
      assert rs[1..] == more && rs[0] == r;
      Regroup(EncodeRect(r), EncodeRects(more), ParseRects(a, n, bytesPerPixel).value.1);
    }
  }

  /** The fixed fields of a header are those of the stream it was read from. */
  lemma Header(head: seq<byte>, a: seq<byte>)
    requires head <= a
    ensures forall i :: 0 <= i < |head| ==> head[i] == a[i]
    ensures forall i :: 0 <= i && i + 2 <= |head| ==> Get16(head, i) == Get16(a, i)
    ensures forall i :: 0 <= i && i + 4 <= |head| ==> Get32(head, i) == Get32(a, i)
  {
  }

  /** The initial message says how long the name is. */
  lemma InitHeader(init: seq<byte>, e: seq<byte>)
    requires |init| == 24 && init <= e
    ensures var size := Get32(init, 20);
            && InitLengths(e) == [24] + [size]
            && ParseInit(e) == if |e[24..]| < size then None
                               else Some((Session(Get16(init, 0), Get16(init, 2), init[4]), e[24..][size..]))
  {
    Header(init, e);
  }

  lemma RectHeadOf(a: seq<byte>)
    requires |a| >= 12 && Get32(a, 8) == 0
    ensures a[..12] == U16(Get16(a, 0)) + U16(Get16(a, 2)) + U16(Get16(a, 4)) + U16(Get16(a, 6)) + U32(0)
  {
    Get16Of(Get16(a, 0), a, 0);
    Get16Of(Get16(a, 2), a, 2);
    Get16Of(Get16(a, 4), a, 4);
    Get16Of(Get16(a, 6), a, 6);
    Get32Of(0, a, 8);
    assert a[..12] == a[0..2] + a[2..4] + a[4..6] + a[6..8] + a[8..12];
  }

  lemma RectConsumed(a: seq<byte>, bytesPerPixel: nat) returns (r: Rect)
    requires ParseRect(a, bytesPerPixel).Some?
    ensures |r.pixels| == RectLength(r.width, r.height, bytesPerPixel)
    ensures r.pixels == ParseRect(a, bytesPerPixel).value.0
    ensures a == EncodeRect(r) + ParseRect(a, bytesPerPixel).value.1
  {
    var (pixels, rest) := ParseRect(a, bytesPerPixel).value;
    r := Rect(Get16(a, 0), Get16(a, 2), Get16(a, 4), Get16(a, 6), pixels);
    RectHeadOf(a);
    assert a[12..] == pixels + rest;
    assert a == a[..12] + a[12..];
    Regroup(a[..12], pixels, rest);
  }

  lemma UpdateConsumesOne(a: seq<byte>, bytesPerPixel: nat)
    requires ParseUpdate(a, bytesPerPixel).Some?
    ensures exists padding, rs :: (
              && |rs| < 0x1_0000 && Sized(rs, bytesPerPixel)
              && a == EncodeUpdate(padding, rs) + ParseUpdate(a, bytesPerPixel).value.1
              && ParseUpdate(a, bytesPerPixel).value.0 == AllPixels(rs))
  {
    var rs := RectsConsumed(a[4..], Get16(a, 2), bytesPerPixel);
    var rest := ParseUpdate(a, bytesPerPixel).value.1;
    FrameHeaderOf(a);
    Regroup([0, a[1]] + U16(|rs|), EncodeRects(rs), rest);
    assert a == EncodeUpdate(a[1], rs) + rest;
  }

  // ----- what the server reads of the client's messages

  lemma KeyDecodes(value: u32, down: bool, rest: seq<byte>)
    requires DecodeAll(rest).Some?
    ensures DecodeAll(KeyBytes(value, down) + rest) == Some([KeyEvent(down, value)] + DecodeAll(rest).value)
  {
    var b := KeyBytes(value, down) + rest;
    assert b[4..8] == U32(value);
    Get32Of(value, b, 4);
    assert b[8..] == rest;
  }

  function Typed(text: string): seq<ClientMessage> {
    if text == "" then [KeyEvent(true, RETURN), KeyEvent(false, RETURN)]
    else [KeyEvent(true, text[0] as int), KeyEvent(false, text[0] as int)] + Typed(text[1..])
  }

  /** The server reads every character pressed and released in order, and then Return. */
  lemma {:induction false} TypeDecodes(text: string)
    ensures DecodeAll(Flatten(TypeMessages(text))) == Some(Typed(text))
    decreases |text|
  {
    var value: u32 := if text == "" then RETURN else text[0] as int;
    var later := if text == "" then [] else TypeMessages(text[1..]);
    assert TypeMessages(text) == Press(value) + later;
    if text != "" {
      TypeDecodes(text[1..]);
    }
    PressDecodes(value, later);
    Regroup([KeyEvent(true, value), KeyEvent(false, value)], [], []);
    assert Typed(text) == [KeyEvent(true, value), KeyEvent(false, value)] + if text == "" then [] else Typed(text[1..]);
  }

  lemma PressDecodes(value: u32, later: seq<seq<byte>>)
    requires DecodeAll(Flatten(later)).Some?
    ensures DecodeAll(Flatten(Press(value) + later)) ==
            Some([KeyEvent(true, value), KeyEvent(false, value)] + DecodeAll(Flatten(later)).value)
  {
    var down, up, rest := KeyBytes(value, true), KeyBytes(value, false), Flatten(later);
    var messages := Press(value) + later;
    assert messages[0] == down && messages[1..] == [up] + later && ([up] + later)[1..] == later;
    assert Flatten(messages) == down + (up + rest);
    KeyDecodes(value, false, rest);
    KeyDecodes(value, true, up + rest);
    var all := DecodeAll(rest).value;
    var pressed, released := KeyEvent(true, value), KeyEvent(false, value);
    assert [pressed] + ([released] + all) == [pressed, released] + all;
  }

  /** A click reads as a move, a press and a release of the first button at one place. */
  lemma ClickDecodes(x: u16, y: u16)
    ensures DecodeAll(PointerBytes(0, x, y) + (PointerBytes(1, x, y) + PointerBytes(0, x, y))) ==
            Some([PointerEvent(0, x, y), PointerEvent(1, x, y), PointerEvent(0, x, y)])
  {
    PointerDecodes(0, x, y, []);
    PointerDecodes(1, x, y, PointerBytes(0, x, y));
    PointerDecodes(0, x, y, PointerBytes(1, x, y) + PointerBytes(0, x, y));
    assert PointerBytes(0, x, y) + [] == PointerBytes(0, x, y);
    assert [PointerEvent(0, x, y)] + ([PointerEvent(1, x, y)] + ([PointerEvent(0, x, y)] + []))
           == [PointerEvent(0, x, y), PointerEvent(1, x, y), PointerEvent(0, x, y)];
  }

  lemma PointerDecodes(mask: byte, x: u16, y: u16, rest: seq<byte>)
    requires DecodeAll(rest).Some?
    ensures DecodeAll(PointerBytes(mask, x, y) + rest) == Some([PointerEvent(mask, x, y)] + DecodeAll(rest).value)
  {
    var b := PointerBytes(mask, x, y) + rest;
    assert b[2..4] == U16(x) && b[4..6] == U16(y);
    Get16Of(x, b, 2);
    Get16Of(y, b, 4);
    assert b[6..] == rest;
  }

  /** The other two messages: all of the screen, not incrementally, and raw encoding only. */
  lemma RequestsDecode(s: Session)
    ensures DecodeAll(UpdateRequestBytes(s)) == Some([UpdateRequest(0, 0, 0, s.width, s.height)])
    ensures DecodeAll(RAW_ENCODING) == Some([SetEncodings([0])])
  {
    var b := UpdateRequestBytes(s);
    assert b[6..8] == U16(s.width) && b[8..10] == U16(s.height);
    Get16Of(s.width, b, 6);
    Get16Of(s.height, b, 8);
    assert b[10..] == [] && RAW_ENCODING[8..] == [];
    assert DecodeAll([]) == Some([]);
    assert DecodeClient(b) == Some((UpdateRequest(0, 0, 0, s.width, s.height), 10));
    assert Get16(RAW_ENCODING, 2) == 1 && Get32(RAW_ENCODING, 4) == 0;
    assert seq(1, i requires 0 <= i < 1 => Get32(RAW_ENCODING, 4 + 4 * i)) == [0];
    assert DecodeClient(RAW_ENCODING) == Some((SetEncodings([0]), 8));
    assert [SetEncodings([0])] + [] == [SetEncodings([0])];
    assert [UpdateRequest(0, 0, 0, s.width, s.height)] + [] == [UpdateRequest(0, 0, 0, s.width, s.height)];
  }
}

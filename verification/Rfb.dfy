/** The messages of RFC 6143 that the desktop client reads and writes, encoded and decoded independently. */
module Rfb {
  import opened Common
  import opened Bytes

  type u16 = i: int | 0 <= i < 0x1_0000
  type u32 = i: int | 0 <= i < 0x1_0000_0000

  function U16(n: u16): (r: seq<byte>)
    ensures |r| == 2
  {
    [n / 256, n % 256]
  }

  function U32(n: u32): (r: seq<byte>)
    ensures |r| == 4
  {
    U16(n / 0x1_0000) + U16(n % 0x1_0000)
  }

  /** readUInt16BE(at) */
  function Get16(b: seq<byte>, at: nat): u16
    requires at + 2 <= |b|
  {
    var high: int, low: int := b[at], b[at + 1];
    high * 256 + low
  }

  /** readUInt32BE(at) */
  function Get32(b: seq<byte>, at: nat): u32
    requires at + 4 <= |b|
  {
    var high: int, low: int := Get16(b, at), Get16(b, at + 2);
    high * 0x1_0000 + low
  }

  lemma Get16Of(n: u16, b: seq<byte>, at: nat)
    requires at + 2 <= |b|
    ensures b[at..at + 2] == U16(n) <==> Get16(b, at) == n
  {
    assert b[at..at + 2] == [b[at], b[at + 1]];
  }

  lemma Get32Of(n: u32, b: seq<byte>, at: nat)
    requires at + 4 <= |b|
    ensures b[at..at + 4] == U32(n) <==> Get32(b, at) == n
  {
    var hi, lo := n / 0x1_0000, n % 0x1_0000;
    Get16Of(hi, b, at);
    Get16Of(lo, b, at + 2);
    assert b[at..at + 4] == b[at..at + 2] + b[at + 2..at + 4];
    assert U32(n)[..2] == U16(hi) && U32(n)[2..] == U16(lo);
    assert b[at..at + 4][..2] == b[at..at + 2] && b[at..at + 4][2..] == b[at + 2..at + 4];
  }

  /** "RFB 003.008\n" */
  const GREETING: seq<byte> := [82, 70, 66, 32, 48, 48, 51, 46, 48, 48, 56, 10]

  // ----- server to client

  /** Section 7.1 of RFC 6143 with a successful security result, and ServerInit (7.3.2) with its pixel format. */
  datatype Hello = Hello(types: seq<byte>, width: u16, height: u16, format: seq<byte>, name: seq<byte>)

  predicate WellFormed(h: Hello) {
    |h.types| < 256 && |h.format| == 16 && |h.name| < 0x1_0000_0000
  }

  function EncodeHello(h: Hello): seq<byte>
    requires WellFormed(h)
  {
    GREETING + ([|h.types|] + (h.types + (U32(0)
    + ((U16(h.width) + U16(h.height) + h.format + U32(|h.name|)) + h.name))))
  }

  /** A rectangle of a FramebufferUpdate (7.6.1) in raw encoding. */
  datatype Rect = Rect(x: u16, y: u16, width: u16, height: u16, pixels: seq<byte>)

  function RectLength(width: u16, height: u16, bytesPerPixel: nat): nat {
    width * height * bytesPerPixel
  }

  lemma Times(a: nat, b: nat, c: nat, d: nat)
    requires a <= b && c <= d
    ensures a * c <= b * d
  {
    assert a * c <= b * c;
    assert b * c <= b * d;
  }

  /** Every length stays exact in a double. */
  lemma RectLengthExact(width: u16, height: u16, bitsPerPixel: byte)
    ensures width * height * bitsPerPixel < 0x20_0000_0000_0000
  {
    var area := width * height;
    Times(width, 65535, height, 65535);
    Times(area, 65535 * 65535, bitsPerPixel, 255);
  }

  function EncodeRect(r: Rect): seq<byte> {
    (U16(r.x) + U16(r.y) + U16(r.width) + U16(r.height) + U32(0)) + r.pixels
  }

  function EncodeRects(rs: seq<Rect>): seq<byte> {
    if rs == [] then [] else EncodeRect(rs[0]) + EncodeRects(rs[1..])
  }

  predicate Sized(rs: seq<Rect>, bytesPerPixel: nat) {
    forall i :: 0 <= i < |rs| ==> |rs[i].pixels| == RectLength(rs[i].width, rs[i].height, bytesPerPixel)
  }

  function EncodeUpdate(padding: byte, rs: seq<Rect>): seq<byte>
    requires |rs| < 0x1_0000
  {
    ([0, padding] + U16(|rs|)) + EncodeRects(rs)
  }

  // ----- client to server

  datatype ClientMessage =
    | SetEncodings(encodings: seq<u32>)
    | UpdateRequest(incremental: byte, x: u16, y: u16, width: u16, height: u16)
    | KeyEvent(down: bool, key: u32)
    | PointerEvent(mask: byte, x: u16, y: u16)

  /** The first message of a client stream and its length (sections 7.5.2 to 7.5.5 of RFC 6143). */
  function DecodeClient(b: seq<byte>): Option<(ClientMessage, nat)> {
    if b == [] then None
    else if b[0] == 2 && |b| >= 4 && |b| >= 4 + 4 * Get16(b, 2) then
      var n := Get16(b, 2);
      Some((SetEncodings(seq(n, i requires 0 <= i < n => Get32(b, 4 + 4 * i))), 4 + 4 * n))
    else if b[0] == 3 && |b| >= 10 then
      Some((UpdateRequest(b[1], Get16(b, 2), Get16(b, 4), Get16(b, 6), Get16(b, 8)), 10))
    else if b[0] == 4 && |b| >= 8 then Some((KeyEvent(b[1] != 0, Get32(b, 4)), 8))
    else if b[0] == 5 && |b| >= 6 then Some((PointerEvent(b[1], Get16(b, 2), Get16(b, 4)), 6))
    else None
  }

  function DecodeAll(b: seq<byte>): Option<seq<ClientMessage>>
    decreases |b|
  {
    if b == [] then Some([])
    else match DecodeClient(b)
      case None => None
      case Some((m, n)) =>
        if n > |b| then None
        else match DecodeAll(b[n..])
          case None => None
          case Some(rest) => Some([m] + rest)
  }
}

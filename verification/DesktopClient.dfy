/**
  `connectDesktop`: a reader of exact lengths over a socket, the handshake, frame capture, and input. A message is
  taken in before the next one arrives, and the reads it satisfies go on before that.
 */
module DesktopClient {
  import opened Common
  import opened Bytes
  import opened ChunkedStream
  import opened DesktopMessages
  import opened Rfb

  /** A phase returns what its octets say exactly if its reads get them, and then it has taken just these. */
  ghost predicate Follows<T(!new)>(r: Option<T>, parsed: Option<(T, seq<byte>)>, gets: Option<Stream>, here: Stream,
                                   left: seq<byte>)
  {
    && (r.Some? <==> parsed.Some? && gets.Some?)
    && (r.Some? ==> parsed.value == (r.value, left) && gets.value == here)
  }

  /** The messages added are the first of `all`, and all of them when done. */
  predicate Answered(before: seq<seq<byte>>, after: seq<seq<byte>>, all: seq<seq<byte>>, done: bool) {
    && before <= after && after[|before|..] <= all
    && (done ==> after == before + all)
  }

  lemma AnsweredMore(before: seq<seq<byte>>, message: seq<byte>, after: seq<seq<byte>>, all: seq<seq<byte>>, done: bool)
    requires Answered(before + [message], after, all, done)
    ensures Answered(before, after, [message] + all, done)
  {
    assert after[|before|..] == [message] + after[|before + [message]|..];
    Regroup(before, [message], all);
  }

  class Desktop {
    var bytes: seq<byte>
    var ended: bool
    var closing: bool
    var incoming: seq<Arrival>
    var sent: seq<seq<byte>>
    ghost var received: seq<byte>
    ghost var consumed: seq<byte>
    /** What the server sends before it ends or stalls, from the first octet not read yet. */
    ghost var stream: seq<byte>

    /** What can still be read: nothing new once the socket is closing or closed. */
    ghost function Here(): Stream
      reads this
    {
      Stream(bytes, if ended || closing then [] else incoming)
    }

    ghost predicate Valid()
      reads this
    {
      received == consumed + bytes && All(Here()) <= stream
    }

    constructor (incoming: seq<Arrival>)
      ensures Valid() && Here() == Stream([], incoming) && stream == Supply(incoming) && sent == []
    {
      this.incoming, bytes, ended, closing, sent := incoming, [], false, false, [];
      received, consumed, stream := [], [], Supply(incoming);
    }

    /** A message is appended; with more than 8 MiB unread the socket is closed. */
    method OnMessage(data: seq<byte>)
      modifies this`bytes, this`closing, this`received
      ensures bytes == old(bytes) + data && received == old(received) + data
      ensures closing <==> old(closing) || |bytes| > MAX_BUFFER
    {
      bytes, received := bytes + data, received + data;
      if |bytes| > MAX_BUFFER {
        closing := true;
      }
    }

    /** The next message comes, also while nothing is read; a socket that is closing drops it. */
    method Arrive()
      requires Valid() && !ended && incoming != [] && incoming[0].Chunk?
      modifies this`bytes, this`closing, this`received, this`incoming
      ensures Valid() && incoming == old(incoming)[1..]
      ensures Here() == if old(closing) then old(Here()) else Receive(old(Here()))
    {
      var data := incoming[0].data;
      Regroup(consumed, bytes, data);
      Regroup(bytes, data, Supply(incoming[1..]));
      incoming := incoming[1..];
      if !closing {
        OnMessage(data);
      }
    }

    /** The wait of a read: until enough is unread, the socket has ended, or nothing came for ten seconds. */
    method Await(length: nat) returns (ok: bool)
      requires Valid()
      modifies this`bytes, this`closing, this`received, this`incoming, this`ended
      ensures Valid() && Take(Here(), length) == Take(old(Here()), length)
      ensures ok <==> |bytes| >= length
      ensures ok <==> Take(Here(), length).Some?
    {
      while |bytes| < length
        invariant Valid() && Take(Here(), length) == Take(old(Here()), length)
        decreases |incoming|, !ended
      {
        if ended || incoming == [] {
          return false;
        }
        match incoming[0]
        case Stall =>
          return false;
        case Closed =>
          incoming, ended := incoming[1..], true;
        case Chunk(_) =>
          Arrive();
      }
      ok := true;
    }

    /** Successive reads return consecutive slices of the stream, as long as the socket brings them. */
    method Read(length: nat) returns (r: Option<seq<byte>>)
      requires Valid()
      modifies this
      ensures Valid() && sent == old(sent)
      ensures r.Some? <==> Take(old(Here()), length).Some?
      ensures r.Some? ==>
                && Take(old(Here()), length) == Some((r.value, Here()))
                && length <= |old(stream)| && r.value == old(stream)[..length] && stream == old(stream)[length..]
                && consumed == old(consumed) + r.value
    {
      var ok := Await(length);
      if !ok {
        return None;
      }
      var result := bytes[..length];
      TakeNow(Here(), length, stream);
      assert bytes == result + bytes[length..];
      Regroup(consumed, result, bytes[length..]);
      bytes, consumed, stream := bytes[length..], consumed + result, stream[length..];
      return Some(result);
    }

    method Send(message: seq<byte>)
      modifies this`sent
      ensures sent == old(sent) + [message]
    {
      sent := sent + [message];
    }

    /** The handshake takes exactly what `ParseHello` takes; up to where it throws its messages are sent in order. */
    method Connect() returns (r: Option<Session>)
      requires Valid()
      modifies this
      ensures Valid()
      ensures Follows(r, ParseHello(old(stream)), Reads(old(Here()), HelloLengths(old(stream))), Here(), stream)
      ensures Answered(old(sent), sent, [GREETING] + ([ONE] + ([ONE] + [RAW_ENCODING])), r.Some?)
    {
      ReadsCons(Here(), 12, if |stream| < 12 then [] else SecurityLengths(stream[12..]));
      var greeting := Read(12);
      if greeting.None? || greeting.value != GREETING {
        return None;
      }
      Send(GREETING);
      r := Secure();
      AnsweredMore(old(sent), GREETING, sent, [ONE] + ([ONE] + [RAW_ENCODING]), r.Some?);
    }

    method Secure() returns (r: Option<Session>)
      requires Valid()
      modifies this
      ensures Valid()
      ensures Follows(r, ParseSecurity(old(stream)), Reads(old(Here()), SecurityLengths(old(stream))), Here(), stream)
      ensures Answered(old(sent), sent, [ONE] + ([ONE] + [RAW_ENCODING]), r.Some?)
    {
      ReadsCons(Here(), 1, if stream == [] then [] else TypesLengths(stream[1..], stream[0]));
      var count := Read(1);
      if count.None? {
        return None;
      }
      assert count.value[0] == old(stream)[0];
      r := Choose(count.value[0]);
    }

    method Choose(count: byte) returns (r: Option<Session>)
      requires Valid()
      modifies this
      ensures Valid()
      ensures Follows(r, ParseTypes(old(stream), count), Reads(old(Here()), TypesLengths(old(stream), count)), Here(),
                      stream)
      ensures Answered(old(sent), sent, [ONE] + ([ONE] + [RAW_ENCODING]), r.Some?)
    {
      ReadsCons(Here(), count, if |stream| < count then [] else ResultLengths(stream[count..]));
      var types := Read(count);
      if types.None? || 1 !in types.value {
        return None;
      }
      Send(ONE);
      r := Accept();
      AnsweredMore(old(sent), ONE, sent, [ONE] + [RAW_ENCODING], r.Some?);
    }

    method Accept() returns (r: Option<Session>)
      requires Valid()
      modifies this
      ensures Valid()
      ensures Follows(r, ParseResult(old(stream)), Reads(old(Here()), ResultLengths(old(stream))), Here(), stream)
      ensures Answered(old(sent), sent, [ONE] + [RAW_ENCODING], r.Some?)
    {
      ReadsCons(Here(), 4, if |stream| < 4 then [] else InitLengths(stream[4..]));
      var result := Read(4);
      if result.None? {
        return None;
      }
      Header(result.value, old(stream));
      if Get32(result.value, 0) != 0 {
        return None;
      }
      Send(ONE);
      r := Initialize();
      AnsweredMore(old(sent), ONE, sent, [RAW_ENCODING], r.Some?);
    }

    method Initialize() returns (r: Option<Session>)
      requires Valid()
      modifies this
      ensures Valid()
      ensures Follows(r, ParseInit(old(stream)), Reads(old(Here()), InitLengths(old(stream))), Here(), stream)
      ensures Answered(old(sent), sent, [RAW_ENCODING], r.Some?)
    {
      ReadsCons(Here(), 24, if |stream| < 24 then [] else [Get32(stream, 20)]);
      var init := Read(24);
      if init.None? {
        return None;
      }
      InitHeader(init.value, old(stream));
      ReadsCons(Here(), Get32(init.value, 20), []);
      var name := Read(Get32(init.value, 20));
      if name.None? {
        return None;
      }
      Send(RAW_ENCODING);
      return Some(Session(Get16(init.value, 0), Get16(init.value, 2), init.value[4]));
    }

    // ----- input

    method Key(value: u32, down: bool)
      modifies this`sent
      ensures sent == old(sent) + [KeyBytes(value, down)]
    {
      Send(KeyBytes(value, down));
    }

    method Type(text: string)
      modifies this`sent
      ensures sent == old(sent) + TypeMessages(text)
    {
      for i := 0 to |text|
        invariant sent + TypeMessages(text[i..]) == old(sent) + TypeMessages(text)
      {
        assert text[i..][1..] == text[i + 1..];
        Regroup(sent, Press(text[i] as int), TypeMessages(text[i + 1..]));
        ghost var before := sent;
        Key(text[i] as int, true);
        Key(text[i] as int, false);
        assert sent == before + Press(text[i] as int);
      }
      ghost var before := sent;
      Key(RETURN, true);
      Key(RETURN, false);
      assert sent == before + Press(RETURN);
    }

    method Click(x: u16, y: u16)
      modifies this`sent
      ensures sent == old(sent) + [PointerBytes(0, x, y), PointerBytes(1, x, y), PointerBytes(0, x, y)]
    {
      var masks: seq<byte> := [0, 1, 0];
      for i := 0 to 3
        invariant sent == old(sent) + [PointerBytes(0, x, y), PointerBytes(1, x, y), PointerBytes(0, x, y)][..i]
      {
        Send(PointerBytes(masks[i], x, y));
      }
    }

    // ----- frames

    /** Pixels of four octets: the set of their values. */
    method ScanWords(pixels: seq<byte>, values: set<u32>) returns (all: set<u32>)
      requires Whole(pixels)
      ensures all == values + Colors(pixels)
    {
      all := values;
      var offset := 0;
      while offset < |pixels|
        invariant offset <= |pixels| && offset % 4 == 0
        invariant all + Colors(pixels[offset..]) == values + Colors(pixels)
      {
        assert pixels[offset..][4..] == pixels[offset + 4..];
        all := all + {LittleEndian(pixels, offset)};
        offset := offset + 4;
      }
    }

    /** Pixels of one or two octets are read as four, up to the throw at the end of the rectangle. */
    method ScanShort(pixels: seq<byte>, bytesPerPixel: nat) returns (ok: bool)
      requires bytesPerPixel in {1, 2} && PixelMultiple(|pixels|, bytesPerPixel)
      ensures ok <==> pixels == []
    {
      var offset := 0;
      while offset < |pixels|
        invariant offset > 0 ==> offset < |pixels|
        invariant offset % 2 == 0 || bytesPerPixel == 1
      {
        if offset + 4 > |pixels| {
          return false;
        }
        offset := offset + bytesPerPixel;
      }
      ok := true;
    }

    method ScanPixels(pixels: seq<byte>, bytesPerPixel: nat, values: set<u32>) returns (r: Option<set<u32>>)
      requires bytesPerPixel in {1, 2, 4}
      requires PixelMultiple(|pixels|, bytesPerPixel)
      ensures r == if bytesPerPixel == 4 || pixels == [] then Some(values + Colors(pixels)) else None
    {
      if bytesPerPixel == 4 {
        var all := ScanWords(pixels, values);
        return Some(all);
      }
      var ok := ScanShort(pixels, bytesPerPixel);
      assert pixels == [] ==> values + Colors(pixels) == values;
      r := if ok then Some(values) else None;
    }

    /** One turn of the rectangle loop. */
    method CaptureRect(bytesPerPixel: nat, values: set<u32>) returns (r: Option<(seq<byte>, set<u32>)>)
      requires Valid() && bytesPerPixel in {1, 2, 4}
      modifies this
      ensures Valid() && sent == old(sent)
      ensures var rect := ParseRect(old(stream), bytesPerPixel);
              var gets := Reads(old(Here()), RectLengths(old(stream), bytesPerPixel));
              && (r.Some? <==> rect.Some? && gets.Some?)
              && (r.Some? ==> r.value.0 == rect.value.0 && r.value.1 == values + Colors(rect.value.0)
                              && stream == rect.value.1 && Here() == gets.value)
    {
      ghost var rectangle := ParseRect(stream, bytesPerPixel);
      ReadsCons(Here(), 12, if rectangle.None? then [] else [|rectangle.value.0|]);
      var rect := Read(12);
      if rect.None? {
        return None;
      }
      Header(rect.value, old(stream));
      if Get32(rect.value, 8) != 0 {
        return None;
      }
      var width, height := Get16(rect.value, 4), Get16(rect.value, 6);
      WholePixels(width, height, bytesPerPixel);
      var size := RectLength(width, height, bytesPerPixel);
      RectSize(old(stream), bytesPerPixel, size);
      r := CapturePixels(size, bytesPerPixel, values);
    }

    method CapturePixels(size: nat, bytesPerPixel: nat, values: set<u32>) returns (r: Option<(seq<byte>, set<u32>)>)
      requires Valid() && bytesPerPixel in {1, 2, 4}
      requires PixelMultiple(size, bytesPerPixel)
      modifies this
      ensures Valid() && sent == old(sent)
      ensures var gets := Reads(old(Here()), [size]);
              && (r.Some? <==> gets.Some? && (bytesPerPixel == 4 || size == 0))
              && (r.Some? ==> && size <= |old(stream)| && r.value.0 == old(stream)[..size]
                              && stream == old(stream)[size..] && Here() == gets.value
                              && r.value.1 == values + Colors(old(stream)[..size]))
    {
      ReadsCons(Here(), size, []);
      var pixels := Read(size);
      if pixels.None? {
        return None;
      }
      var all := ScanPixels(pixels.value, bytesPerPixel, values);
      if all.None? {
        return None;
      }
      return Some((pixels.value, all.value));
    }

    /** The hash of a capture is that of the pixels returned here. */
    method Capture(s: Session) returns (r: Option<seq<byte>>)
      requires Valid() && Legal(s)
      modifies this
      ensures Valid() && sent == old(sent) + [UpdateRequestBytes(s)]
      ensures var update := ParseUpdate(old(stream), BytesPerPixel(s));
              var gets := Reads(old(Here()), UpdateLengths(old(stream), BytesPerPixel(s)));
              && (r.Some? <==> update.Some? && gets.Some? && |Colors(update.value.0)| >= 3)
              && (r.Some? ==> r.value == update.value.0)
              && (update.Some? && gets.Some? ==> stream == update.value.1 && Here() == gets.value)
    {
      Send(UpdateRequestBytes(s));
      ReadsCons(Here(), 4, if |stream| < 4 then [] else RectsLengths(stream[4..], Get16(stream, 2), BytesPerPixel(s)));
      var header := Read(4);
      if header.None? || header.value[0] != 0 {
        return None;
      }
      Header(header.value, old(stream));
      var frame := CaptureRects(Get16(header.value, 2), BytesPerPixel(s));
      if frame.None? || |frame.value.1| < 3 {
        return None;
      }
      return Some(frame.value.0);
    }

    method CaptureRects(count: nat, bytesPerPixel: nat) returns (r: Option<(seq<byte>, set<u32>)>)
      requires Valid() && bytesPerPixel in {1, 2, 4}
      modifies this
      ensures Valid() && sent == old(sent)
      ensures var rects := ParseRects(old(stream), count, bytesPerPixel);
              var gets := Reads(old(Here()), RectsLengths(old(stream), count, bytesPerPixel));
              && (r.Some? <==> rects.Some? && gets.Some?)
              && (r.Some? ==> r.value == (rects.value.0, Colors(rects.value.0)) && stream == rects.value.1
                              && Here() == gets.value)
    {
      ghost var a, start := stream, Here();
      AlongStart(start, a, count, bytesPerPixel);
      var hashed: seq<byte>, values: set<u32> := [], {};
      for index := 0 to count
        invariant Valid() && sent == old(sent)
        invariant Along(start, a, count, bytesPerPixel, hashed, Here(), stream, count - index)
        invariant values == Colors(hashed) && Whole(hashed)
      {
        var next := CaptureNext(start, a, count, count - index, bytesPerPixel, hashed, values);
        if next.None? {
          return None;
        }
        hashed, values := next.value.0, next.value.1;
      }
      AlongEnd(start, a, count, bytesPerPixel, hashed, Here(), stream);
      return Some((hashed, values));
    }

    /** The next rectangle is hashed behind those before it. */
    method CaptureNext(ghost start: Stream, ghost a: seq<byte>, ghost count: nat, ghost left: nat, bytesPerPixel: nat,
                       hashed: seq<byte>, values: set<u32>) returns (r: Option<(seq<byte>, set<u32>)>)
      requires Valid() && bytesPerPixel in {1, 2, 4} && left > 0
      requires Along(start, a, count, bytesPerPixel, hashed, Here(), stream, left)
      requires values == Colors(hashed) && Whole(hashed)
      modifies this
      ensures Valid() && sent == old(sent)
      ensures r.None? ==>
                ParseRects(a, count, bytesPerPixel).None? || Reads(start, RectsLengths(a, count, bytesPerPixel)).None?
      ensures r.Some? ==>
                && Along(start, a, count, bytesPerPixel, r.value.0, Here(), stream, left - 1)
                && r.value.1 == Colors(r.value.0) && Whole(r.value.0)
    {
      AlongStep(start, a, count, bytesPerPixel, hashed, Here(), stream, left);
      var rect := CaptureRect(bytesPerPixel, values);
      if rect.None? {
        return None;
      }
      var (pixels, all) := rect.value;
      ColorsAppend(hashed, pixels);
      return Some((hashed + pixels, all));
    }
  }

  lemma RectSize(a: seq<byte>, bytesPerPixel: nat, size: nat)
    requires |a| >= 12 && Get32(a, 8) == 0 && size == RectLength(Get16(a, 4), Get16(a, 6), bytesPerPixel)
    ensures ParseRect(a, bytesPerPixel) ==
            if |a[12..]| < size || (bytesPerPixel != 4 && size > 0) then None
            else Some((a[12..][..size], a[12..][size..]))
  {
  }

  /** The reads of the rectangles left are those of the next one, and then of the others. */
  lemma NextReads(here: Stream, a: seq<byte>, left: nat, bytesPerPixel: nat)
    requires left > 0
    ensures var rect := ParseRect(a, bytesPerPixel);
            var first := Reads(here, RectLengths(a, bytesPerPixel));
            Reads(here, RectsLengths(a, left, bytesPerPixel)) ==
            if first.None? || rect.None? then first
            else Reads(first.value, RectsLengths(rect.value.1, left - 1, bytesPerPixel))
  {
    var rect := ParseRect(a, bytesPerPixel);
    ReadsAppend(here, RectLengths(a, bytesPerPixel),
                if rect.None? then [] else RectsLengths(rect.value.1, left - 1, bytesPerPixel));
  }

  /** Parsing and reading all rectangles comes to parsing and reading those left, behind the pixels already taken. */
  ghost predicate Along(start: Stream, a: seq<byte>, n: nat, bytesPerPixel: nat, taken: seq<byte>, here: Stream,
                        b: seq<byte>, left: nat)
  {
    && Ahead(a, n, bytesPerPixel, taken, b, left)
    && Reads(start, RectsLengths(a, n, bytesPerPixel)) == Reads(here, RectsLengths(b, left, bytesPerPixel))
  }

  lemma AlongStart(start: Stream, a: seq<byte>, n: nat, bytesPerPixel: nat)
    ensures Along(start, a, n, bytesPerPixel, [], start, a, n)
  {
    AheadStart(a, n, bytesPerPixel);
  }

  lemma AlongStep(start: Stream, a: seq<byte>, n: nat, bytesPerPixel: nat, taken: seq<byte>, here: Stream,
                  b: seq<byte>, left: nat)
    requires left > 0 && bytesPerPixel in {1, 2, 4} && Along(start, a, n, bytesPerPixel, taken, here, b, left)
    ensures var rect := ParseRect(b, bytesPerPixel);
            var first := Reads(here, RectLengths(b, bytesPerPixel));
            if rect.None? || first.None?
            then ParseRects(a, n, bytesPerPixel).None? || Reads(start, RectsLengths(a, n, bytesPerPixel)).None?
            else && Whole(rect.value.0)
                 && Along(start, a, n, bytesPerPixel, taken + rect.value.0, first.value, rect.value.1, left - 1)
  {
    AheadStep(a, n, bytesPerPixel, taken, b, left);
    NextReads(here, b, left, bytesPerPixel);
  }

  lemma AlongEnd(start: Stream, a: seq<byte>, n: nat, bytesPerPixel: nat, taken: seq<byte>, here: Stream, b: seq<byte>)
    requires Along(start, a, n, bytesPerPixel, taken, here, b, 0)
    ensures ParseRects(a, n, bytesPerPixel) == Some((taken, b))
    ensures Reads(start, RectsLengths(a, n, bytesPerPixel)) == Some(here)
  {
    AheadEnd(a, n, bytesPerPixel, taken, b);
  }

  // ----- the exact conditions

  /** The handshake with a well-formed server succeeds. */
  ghost predicate Connects(s: Stream, sent: seq<byte>) {
    ParseHello(sent).Some? && Reads(s, HelloLengths(sent)).Some?
  }

  /** It does exactly when no authentication is offered and every octet of the handshake arrives. */
  lemma ConnectSucceeds(s: Stream, h: Hello, rest: seq<byte>)
    requires WellFormed(h)
    ensures Connects(s, EncodeHello(h) + rest) <==> 1 in h.types && AllArrive(s, HelloReads(h))
  {
    HelloRoundTrip(h, rest);
    HelloTakesReads(h, rest);
    ReadsSucceed(s, HelloReads(h));
  }

  /** The client connects however the handshake is cut into messages exactly if that has at most 8 MiB and one octet. */
  lemma EveryChunkingConnects(h: Hello, rest: seq<byte>)
    requires WellFormed(h) && 1 in h.types
    ensures var sent := EncodeHello(h) + rest;
            (forall incoming :: Supply(incoming) == sent ==> Connects(Stream([], incoming), sent)) <==>
            |EncodeHello(h)| <= MAX_BUFFER + 1
  {
    var sent := EncodeHello(h) + rest;
    HelloTotal(h);
    EveryChunkingArrives(sent, HelloReads(h));
    forall incoming | Supply(incoming) == sent
      ensures Connects(Stream([], incoming), sent) <==> AllArrive(Stream([], incoming), HelloReads(h))
    {
      ConnectSucceeds(Stream([], incoming), h, rest);
    }
  }

  lemma HelloTotal(h: Hello)
    requires WellFormed(h)
    ensures Total(HelloReads(h)) == |EncodeHello(h)|
  {
    TotalCons(24, [|h.name|]);
    TotalCons(4, [24] + [|h.name|]);
    TotalCons(|h.types|, [4] + ([24] + [|h.name|]));
    TotalCons(1, [|h.types|] + ([4] + ([24] + [|h.name|])));
    TotalCons(12, [1] + ([|h.types|] + ([4] + ([24] + [|h.name|]))));
  }

  /** A capture returns a hash. */
  ghost predicate Captures(s: Stream, sent: seq<byte>, session: Session) {
    var update := ParseUpdate(sent, BytesPerPixel(session));
    update.Some? && Reads(s, UpdateLengths(sent, BytesPerPixel(session))).Some? && |Colors(update.value.0)| >= 3
  }

  /**
    A capture of a well-formed update succeeds exactly with 32-bit pixels of at least three colors, if no needed octet
    comes after the unread length has passed 8 MiB.
   */
  lemma CaptureSucceeds(s: Stream, padding: byte, rs: seq<Rect>, session: Session, rest: seq<byte>)
    requires Legal(session) && |rs| < 0x1_0000 && Sized(rs, BytesPerPixel(session))
    ensures Captures(s, EncodeUpdate(padding, rs) + rest, session) <==>
            session.bitsPerPixel == 32 && |Colors(AllPixels(rs))| >= 3 && AllArrive(s, UpdateReads(rs))
  {
    var bytesPerPixel, sent := BytesPerPixel(session), EncodeUpdate(padding, rs) + rest;
    UpdateColors(padding, rs, bytesPerPixel, rest);
    if bytesPerPixel == 4 {
      assert UpdateLengths(sent, 4) == UpdateReads(rs) by { UpdateTakesReads(padding, rs, 4, rest); }
      ReadsSucceed(s, UpdateReads(rs));
    }
  }

  lemma UpdateColors(padding: byte, rs: seq<Rect>, bytesPerPixel: nat, rest: seq<byte>)
    requires |rs| < 0x1_0000 && Sized(rs, bytesPerPixel)
    ensures var update := ParseUpdate(EncodeUpdate(padding, rs) + rest, bytesPerPixel);
            update.Some? && |Colors(update.value.0)| >= 3 <==> bytesPerPixel == 4 && |Colors(AllPixels(rs))| >= 3
  {
    UpdateRoundTrip(padding, rs, bytesPerPixel, rest);
    if NoPixels(rs) {
      NoPixelsNoColors(rs);
    }
  }

  lemma {:induction false} RectsTotal(rs: seq<Rect>)
    ensures Total(RectsReads(rs)) == |EncodeRects(rs)|
    decreases |rs|
  {
    if rs != [] {
      RectsTotal(rs[1..]);
      var lengths := RectsReads(rs);
      assert lengths[1..] == [|rs[0].pixels|] + RectsReads(rs[1..]) && lengths[1..][1..] == RectsReads(rs[1..]);
    }
  }

  lemma UpdateTotal(padding: byte, rs: seq<Rect>)
    requires |rs| < 0x1_0000
    ensures Total(UpdateReads(rs)) == |EncodeUpdate(padding, rs)|
  {
    RectsTotal(rs);
    assert UpdateReads(rs)[1..] == RectsReads(rs);
  }

  /** A capture succeeds however its update is cut into messages exactly if that has at most 8 MiB and one octet. */
  lemma EveryChunkingCaptured(padding: byte, rs: seq<Rect>, session: Session, rest: seq<byte>)
    requires session.bitsPerPixel == 32 && |rs| < 0x1_0000 && Sized(rs, 4) && |Colors(AllPixels(rs))| >= 3
    ensures var sent := EncodeUpdate(padding, rs) + rest;
            (forall incoming :: Supply(incoming) == sent ==> Captures(Stream([], incoming), sent, session)) <==>
            |EncodeUpdate(padding, rs)| <= MAX_BUFFER + 1
  {
    var sent := EncodeUpdate(padding, rs) + rest;
    UpdateTotal(padding, rs);
    EveryChunkingArrives(sent, UpdateReads(rs));
    forall incoming | Supply(incoming) == sent
      ensures Captures(Stream([], incoming), sent, session) <==> AllArrive(Stream([], incoming), UpdateReads(rs))
    {
      CaptureSucceeds(Stream([], incoming), padding, rs, session, rest);
    }
  }

  /** In particular, for an update with a rectangle of more than 8 MiB there is a cut that makes the capture throw. */
  lemma LargeRectangleFails(padding: byte, rs: seq<Rect>, session: Session, rest: seq<byte>, i: nat)
    requires Legal(session) && |rs| < 0x1_0000 && Sized(rs, BytesPerPixel(session))
    requires i < |rs| && |rs[i].pixels| > MAX_BUFFER
    ensures var sent := EncodeUpdate(padding, rs) + rest;
            |sent| > MAX_BUFFER && Supply(CutLate(sent)) == sent && !Captures(Stream([], CutLate(sent)), sent, session)
  {
    var sent := EncodeUpdate(padding, rs) + rest;
    UpdateTotal(padding, rs);
    RectsHold(rs, i);
    LateCutFails(sent, UpdateReads(rs));
    CaptureSucceeds(Stream([], CutLate(sent)), padding, rs, session, rest);
  }

  lemma {:induction false} RectsHold(rs: seq<Rect>, i: nat)
    requires i < |rs|
    ensures |EncodeRects(rs)| >= 12 + |rs[i].pixels|
    decreases i
  {
    if i > 0 {
      RectsHold(rs[1..], i - 1);
    }
  }
}

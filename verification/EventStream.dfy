/**
  The buffering of `observeLiveUpdates`: chunks of decoded text are appended, the whole buffer has its
  CR LF pairs replaced, and blocks are drained at blank lines. Chunks may be empty: a chunk that ends
  inside a character decodes to nothing.
 */
module EventStream {
  import opened Common
  import opened Text

  const CRLF: string := "\r\n"
  const BLANK: string := "\n\n"
  const CRCRLF: string := "\r\r\n"

  /** `s.replaceAll("\r\n", "\n")` */
  function Normalize(s: string): (r: string)
    ensures |r| <= |s|
  {
    if s == "" then ""
    else if CRLF <= s then "\n" + Normalize(s[2..])
    else [s[0]] + Normalize(s[1..])
  }

  /** One turn of the outer loop: the blocks this chunk completes, and the buffer left. */
  function Receive(buffer: string, chunk: string): Cuts {
    Cut(Normalize(buffer + chunk), BLANK)
  }

  /** All blocks a sequence of chunks completes. */
  function Drain(buffer: string, chunks: seq<string>): Cuts
    decreases |chunks|
  {
    if chunks == [] then Cuts([], buffer)
    else
      var here := Receive(buffer, chunks[0]);
      var later := Drain(here.rest, chunks[1..]);
      Cuts(here.pieces + later.pieces, later.rest)
  }

  // ----- what normalising does to a concatenation

  /** A pair is not split by this cut. */
  predicate CleanCut(a: string, b: string) {
    !(a != "" && b != "" && a[|a| - 1] == '\r' && b[0] == '\n')
  }

  lemma {:induction false} NormalizeAppend(a: string, b: string)
    requires CleanCut(a, b)
    ensures Normalize(a + b) == Normalize(a) + Normalize(b)
    decreases |a|
  {
    if a == "" {
      assert a + b == b;
    } else if CRLF <= a {
      assert a[0] == '\r' && a[1] == '\n';
      assert (a + b)[2..] == a[2..] + b;
      NormalizeAppend(a[2..], b);
      Regroup("\n", Normalize(a[2..]), Normalize(b));
    } else {
      Behead(a, b);
      assert !(CRLF <= a + b) by {
        if |a| >= 2 { assert (a + b)[1] == a[1]; }
      }
      NormalizeAppend(a[1..], b);
      Regroup([a[0]], Normalize(a[1..]), Normalize(b));
    }
  }

  /** The text holds CR CR LF somewhere. */
  predicate Doubled(s: string) {
    IndexOf(s, CRCRLF) >= 0
  }

  lemma DoubledTail(s: string)
    requires s != "" && !Doubled(s)
    ensures !Doubled(s[1..]) && !(CRCRLF <= s)
  {
  }

  lemma PairAfterReturn(s: string)
    requires |s| >= 2 && s[0] == '\r'
    ensures CRLF <= s[1..] <==> CRCRLF <= s
  {
    if CRLF <= s[1..] {
      assert s[1..][0] == '\r' && s[1..][1] == '\n';
    }
  }

  /** Normalising a buffer that was normalised before changes nothing, unless CR CR LF made a new pair. */
  lemma {:induction false} NormalizeAgain(p: string, c: string)
    requires !Doubled(p)
    ensures Normalize(Normalize(p) + c) == Normalize(p + c)
    decreases |p|
  {
    if p == "" {
      assert "" + c == c;
    } else if CRLF <= p {
      DoubledTail(p);
      DoubledTail(p[1..]);
      assert p[1..][1..] == p[2..];
      NormalizeAgain(p[2..], c);
      NormalizeAgainPair(p, c);
    } else if |p| == 1 {
      assert Normalize(p) == p by { assert p[1..] == ""; assert p == [p[0]] + ""; }
    } else {
      DoubledTail(p);
      NormalizeAgain(p[1..], c);
      NormalizeAgainPlain(p, c);
    }
  }

  /** The step of NormalizeAgain over a pair. */
  lemma NormalizeAgainPair(p: string, c: string)
    requires CRLF <= p && Normalize(Normalize(p[2..]) + c) == Normalize(p[2..] + c)
    ensures Normalize(Normalize(p) + c) == Normalize(p + c)
  {
    assert (p + c)[2..] == p[2..] + c && (p + c)[0] == p[0] && (p + c)[1] == p[1];
    PrependPlain('\n', Normalize(p[2..]), c);
  }

  /** The step of NormalizeAgain over a character that starts no pair. */
  lemma NormalizeAgainPlain(p: string, c: string)
    requires |p| >= 2 && !(CRLF <= p) && !(CRCRLF <= p)
    requires Normalize(Normalize(p[1..]) + c) == Normalize(p[1..] + c)
    ensures Normalize(Normalize(p) + c) == Normalize(p + c)
  {
    Behead(p, c);
    assert p[0] == '\r' ==> p[1] != '\n';
    PairAfterReturnAt(p);
    assert !(CRLF <= p + c) by { assert (p + c)[..2] == p[..2]; }
    PrependPlain(p[0], Normalize(p[1..]), c);
  }

  lemma PairAfterReturnAt(p: string)
    requires |p| >= 2 && !(CRLF <= p) && !(CRCRLF <= p)
    ensures p[0] == '\r' ==> Normalize(p[1..]) != "" && Normalize(p[1..])[0] != '\n'
  {
    if p[0] == '\r' {
      assert p[1] != '\n';
      PairAfterReturn(p);
    }
  }

  /** A first character that does not start a pair stays in front. */
  lemma PrependPlain(x: char, n: string, c: string)
    requires x != '\r' || (n != "" && n[0] != '\n')
    ensures Normalize([x] + n + c) == [x] + Normalize(n + c)
  {
    var s := [x] + n + c;
    assert s[1..] == n + c && s[0] == x;
    assert n != "" ==> s[1] == n[0];
  }

  // ----- chunks do not matter

  lemma {:induction false} TerminatedEnd(pieces: seq<string>)
    ensures var j := Terminated(pieces, BLANK);
            j == "" || (|j| >= 2 && j[|j| - 2] == '\n' && j[|j| - 1] == '\n')
    decreases |pieces|
  {
    if pieces != [] {
      TerminatedEnd(pieces[1..]);
      var j, later := Terminated(pieces, BLANK), Terminated(pieces[1..], BLANK);
      assert j == pieces[0] + BLANK + later;
      if later != "" {
        assert j[|j| - 2] == later[|later| - 2] && j[|j| - 1] == later[|later| - 1];
      }
    }
  }

  /** The drained part of a normalised text takes no part in normalising what follows. */
  lemma DrainedIsFinal(j: string, rest: string, more: string)
    requires Normalize(j + rest) == j + rest && (j == "" || j[|j| - 1] == '\n')
    ensures Normalize(j + rest + more) == j + Normalize(rest + more)
  {
    NormalizeAppend(j, rest);
    NormalizeAppend(j, rest + more);
    Regroup(j, rest, more);
    assert Normalize(j) == (j + rest)[..|j|];
  }

  /** After any text without CR CR LF, the next chunk acts as if the text had been normalised and cut as a whole. */
  lemma ReceiveOn(n: string, chunk: string)
    requires Normalize(n) == n
    ensures var c := Cut(n, BLANK);
            var r := Receive(c.rest, chunk);
            Cut(Normalize(n + chunk), BLANK) == Cuts(c.pieces + r.pieces, r.rest)
  {
    var c := Cut(n, BLANK);
    var drained := Terminated(c.pieces, BLANK);
    CutJoins(n, BLANK);
    TerminatedEnd(c.pieces);
    DrainedIsFinal(drained, c.rest, chunk);
    CutAfter(n, Normalize(c.rest + chunk), BLANK);
  }

  lemma ReceiveIs(p: string, chunk: string)
    requires !Doubled(p)
    ensures var c := Cut(Normalize(p), BLANK);
            var r := Receive(c.rest, chunk);
            Cut(Normalize(p + chunk), BLANK) == Cuts(c.pieces + r.pieces, r.rest)
  {
    NormalizeAgain(p, chunk);
    NormalizeAgain(p, "");
    assert p + "" == p && Normalize(p) + "" == Normalize(p);
    ReceiveOn(Normalize(p), chunk);
  }

  lemma DoubledPrefix(a: string, b: string)
    requires !Doubled(a + b)
    ensures !Doubled(a)
  {
    if Doubled(a) {
      IndexOfPrefix(a, b, CRCRLF);
    }
  }

  lemma {:induction false} DrainFrom(p: string, chunks: seq<string>)
    requires !Doubled(p + Concat(chunks))
    ensures var c := Cut(Normalize(p), BLANK);
            var d := Drain(c.rest, chunks);
            Cut(Normalize(p + Concat(chunks)), BLANK) == Cuts(c.pieces + d.pieces, d.rest)
    decreases |chunks|
  {
    var c := Cut(Normalize(p), BLANK);
    if chunks == [] {
      assert p + "" == p;
      Regroup(c.pieces, [], []);
    } else {
      Regroup(p, chunks[0], Concat(chunks[1..]));
      DoubledPrefix(p, Concat(chunks));
      ReceiveIs(p, chunks[0]);
      DrainFrom(p + chunks[0], chunks[1..]);
      var here := Receive(c.rest, chunks[0]);
      Regroup(c.pieces, here.pieces, Drain(here.rest, chunks[1..]).pieces);
    }
  }

  /** Any chunking of a text without CR CR LF drains what normalising and cutting the text once gives. */
  lemma ChunkInvariant(chunks: seq<string>)
    requires !Doubled(Concat(chunks))
    ensures Drain("", chunks) == Cut(Normalize(Concat(chunks)), BLANK)
  {
    assert "" + Concat(chunks) == Concat(chunks);
    DrainFrom("", chunks);
    Regroup([], Drain("", chunks).pieces, []);
  }

  // ----- and with CR CR LF they do

  function Size(c: Cuts): nat {
    |Terminated(c.pieces, BLANK)| + |c.rest|
  }

  lemma {:induction false} TerminatedAppend(a: seq<string>, b: seq<string>)
    ensures Terminated(a + b, BLANK) == Terminated(a, BLANK) + Terminated(b, BLANK)
    decreases |a|
  {
    if a == [] {
      assert a + b == b;
    } else {
      Behead(a, b);
      TerminatedAppend(a[1..], b);
      Regroup(a[0] + BLANK, Terminated(a[1..], BLANK), Terminated(b, BLANK));
    }
  }

  lemma NormalizeDoubled(q: string)
    ensures Normalize(q + CRCRLF) == Normalize(q) + CRLF
  {
    NormalizeAppend(q, CRCRLF);
    assert CRCRLF[1..] == CRLF && CRLF[2..] == "";
    assert Normalize(CRLF) == "\n" + "";
    assert Normalize(CRCRLF) == "\r" + Normalize(CRLF);
  }

  /** A pair at the end of a text is not part of anything drained. */
  lemma RestHoldsPair(j: string, rest: string)
    requires |j + rest| >= 2 && (j + rest)[|j + rest| - 2] == '\r' && (j + rest)[|j + rest| - 1] == '\n'
    requires j == "" || (|j| >= 2 && j[|j| - 2] == '\n' && j[|j| - 1] == '\n')
    ensures |rest| >= 2 && rest == rest[..|rest| - 2] + CRLF
  {
    var n := j + rest;
    assert forall i :: 0 <= i < |j| ==> n[i] == j[i];
    assert |rest| >= 2;
    assert rest[|rest| - 2] == n[|n| - 2] && rest[|rest| - 1] == n[|n| - 1];
  }

  /** Such a pair is normalised again together with the next chunk, and the text gets shorter. */
  lemma PairShrinks(t: string, more: string)
    ensures |Normalize(t + CRLF + more)| < |t + CRLF| + |Normalize(more)|
  {
    NormalizeAppend(t + CRLF, more);
    NormalizeAppend(t, CRLF);
    assert CRLF[2..] == "";
  }

  lemma PendingPair(n: string)
    requires |n| >= 2 && n[|n| - 2] == '\r' && n[|n| - 1] == '\n'
    ensures var rest := Cut(n, BLANK).rest; |rest| >= 2 && rest == rest[..|rest| - 2] + CRLF
  {
    CutJoins(n, BLANK);
    UndrainedPair(Cut(n, BLANK).pieces, Cut(n, BLANK).rest);
  }

  lemma UndrainedPair(pieces: seq<string>, rest: string)
    requires var n := Terminated(pieces, BLANK) + rest; |n| >= 2 && n[|n| - 2] == '\r' && n[|n| - 1] == '\n'
    ensures |rest| >= 2 && rest == rest[..|rest| - 2] + CRLF
  {
    TerminatedEnd(pieces);
    RestHoldsPair(Terminated(pieces, BLANK), rest);
  }

  lemma PendingPairShrinks(n: string, more: string)
    requires |n| >= 2 && n[|n| - 2] == '\r' && n[|n| - 1] == '\n'
    ensures var rest := Cut(n, BLANK).rest; |Normalize(rest + more)| < |rest| + |Normalize(more)|
  {
    var rest := Cut(n, BLANK).rest;
    PendingPair(n);
    PairShrinks(rest[..|rest| - 2], more);
  }

  lemma CutAtDoubled(text: string)
    requires Doubled(text)
    ensures var k := IndexOf(text, CRCRLF) + 3;
            Size(Drain("", [text[..k], text[k..]])) < Size(Drain("", [text]))
  {
    var k := IndexOf(text, CRCRLF) + 3;
    var p, more := text[..k], text[k..];
    AtIndexOf(text, CRCRLF);
    assert p == text[..k - 3] + CRCRLF && text == p + more;
    NormalizeDoubled(text[..k - 3]);
    var n := Normalize(p);
    DrainOne(text);
    DrainTwo(p, more);
    var c := Cut(n, BLANK);
    PendingPairShrinks(n, more);
    NormalizeAppend(p, more);
    CutJoins(Normalize(text), BLANK);
    CutJoins(n, BLANK);
    var d := Receive(c.rest, more);
    CutJoins(Normalize(c.rest + more), BLANK);
    TerminatedAppend(c.pieces, d.pieces);
  }

  lemma DrainOne(a: string)
    ensures Drain("", [a]) == Cut(Normalize(a), BLANK)
  {
    assert [a][1..] == [] && "" + a == a;
    var c := Cut(Normalize(a), BLANK);
    assert Drain(c.rest, []) == Cuts([], c.rest);
    Regroup(c.pieces, [], []);
  }

  lemma DrainTwo(a: string, b: string)
    ensures var c := Cut(Normalize(a), BLANK);
            var d := Receive(c.rest, b);
            Drain("", [a, b]) == Cuts(c.pieces + d.pieces, d.rest)
  {
    assert [a, b][1..] == [b] && [b][1..] == [] && "" + a == a;
    var c := Cut(Normalize(a), BLANK);
    var d := Receive(c.rest, b);
    assert Drain(d.rest, []) == Cuts([], d.rest);
    Regroup(d.pieces, [], []);
    assert Drain(c.rest, [b]) == Cuts(d.pieces, d.rest);
  }

  /** How a text is cut into chunks is invisible exactly when the text holds no CR CR LF. */
  lemma ChunksInvisibleIff(text: string)
    ensures (forall chunks :: Concat(chunks) == text ==> Drain("", chunks) == Drain("", [text])) <==> !Doubled(text)
  {
    assert [text][1..] == [] && text + "" == text;
    assert Concat([text]) == text;
    if !Doubled(text) {
      forall chunks | Concat(chunks) == text ensures Drain("", chunks) == Drain("", [text]) {
        ChunkInvariant(chunks);
        ChunkInvariant([text]);
      }
    } else {
      var k := IndexOf(text, CRCRLF) + 3;
      CutAtDoubled(text);
      var chunks := [text[..k], text[k..]];
      assert Concat(chunks) == text by {
        assert chunks[1..] == [text[k..]] && chunks[1..][1..] == [];
        assert text[..k] + (text[k..] + "") == text;
      }
    }
  }
}

/**
  A reader of exact lengths over a socket that delivers chunks and closes itself when too much is unread: what a
  sequence of reads gets, and when every octet it needs arrives.
 */
module ChunkedStream {
  import opened Bytes
  import opened Common

  /** What the socket brings: a message, its end, or ten seconds of nothing. */
  datatype Arrival = Chunk(data: seq<byte>) | Closed | Stall

  const MAX_BUFFER: nat := 8 * 1024 * 1024

  /** The octets the server sends before it ends or stalls. */
  function Supply(incoming: seq<Arrival>): seq<byte> {
    if incoming == [] || !incoming[0].Chunk? then [] else incoming[0].data + Supply(incoming[1..])
  }

  /** What is unread, and what still comes; a socket that is closing brings nothing. */
  datatype Stream = Stream(bytes: seq<byte>, incoming: seq<Arrival>)

  function All(s: Stream): seq<byte> {
    s.bytes + Supply(s.incoming)
  }

  predicate Waiting(s: Stream) {
    s.incoming != [] && s.incoming[0].Chunk?
  }

  /** One message is taken in; with more than 8 MiB unread the socket is closed and drops the rest. */
  function Receive(s: Stream): Stream
    requires Waiting(s)
  {
    var bytes := s.bytes + s.incoming[0].data;
    Stream(bytes, if |bytes| > MAX_BUFFER then [] else s.incoming[1..])
  }

  /** Wait until enough is unread, or nothing more comes. */
  function Fill(s: Stream, n: nat): Stream
    decreases |s.incoming|
  {
    if |s.bytes| >= n || !Waiting(s) then s else Fill(Receive(s), n)
  }

  function Take(s: Stream, n: nat): Option<(seq<byte>, Stream)> {
    var f := Fill(s, n);
    if |f.bytes| < n then None else Some((f.bytes[..n], Stream(f.bytes[n..], f.incoming)))
  }

  /** Reads of these lengths, one after the other. */
  function Reads(s: Stream, lengths: seq<nat>): Option<Stream>
    decreases |lengths|
  {
    if lengths == [] then Some(s)
    else
      var first := Take(s, lengths[0]);
      if first.None? then None else Reads(first.value.1, lengths[1..])
  }

  lemma ReadsCons(s: Stream, n: nat, more: seq<nat>)
    ensures Reads(s, [n] + more) == if Take(s, n).None? then None else Reads(Take(s, n).value.1, more)
  {
    assert ([n] + more)[1..] == more;
  }

  lemma {:induction false} ReadsAppend(s: Stream, a: seq<nat>, b: seq<nat>)
    ensures Reads(s, a + b) == if Reads(s, a).None? then None else Reads(Reads(s, a).value, b)
    decreases |a|
  {
    if a == [] {
      assert a + b == b;
    } else {
      Behead(a, b);
      if Take(s, a[0]).Some? {
        ReadsAppend(Take(s, a[0]).value.1, a[1..], b);
      }
    }
  }

  lemma {:induction false} FillKeeps(s: Stream, n: nat)
    ensures All(Fill(s, n)) <= All(s)
    decreases |s.incoming|
  {
    if |s.bytes| < n && Waiting(s) {
      var data := s.incoming[0].data;
      Regroup(s.bytes, data, Supply(s.incoming[1..]));
      FillKeeps(Receive(s), n);
    }
  }

  /** A read takes the next octets; what can still be read is a part of what follows them, all of it unless closed. */
  lemma TakeIsNext(s: Stream, n: nat)
    requires Take(s, n).Some?
    ensures n <= |All(s)| && Take(s, n).value.0 == All(s)[..n] && All(Take(s, n).value.1) <= All(s)[n..]
  {
    var f := Fill(s, n);
    FillKeeps(s, n);
    assert All(f) == f.bytes[..n] + All(Stream(f.bytes[n..], f.incoming));
  }

  /** A read that needs to wait no longer. */
  lemma TakeNow(s: Stream, n: nat, stream: seq<byte>)
    requires n <= |s.bytes| && All(s) <= stream
    ensures var after := Stream(s.bytes[n..], s.incoming);
            && Take(s, n) == Some((s.bytes[..n], after))
            && n <= |stream| && stream[..n] == s.bytes[..n] && All(after) <= stream[n..]
  {
    TakeIsNext(s, n);
    assert stream[..|All(s)|] == All(s);
  }

  // ----- when all reads succeed

  function Total(lengths: seq<nat>): nat {
    if lengths == [] then 0 else lengths[0] + Total(lengths[1..])
  }

  lemma TotalCons(n: nat, lengths: seq<nat>)
    ensures Total([n] + lengths) == n + Total(lengths)
  {
    assert ([n] + lengths)[1..] == lengths;
  }

  /** Where the read starts that needs the octet at `at`. */
  function ReadStart(lengths: seq<nat>, at: nat): (r: nat)
    ensures r <= at
  {
    if lengths == [] || at < lengths[0] then 0 else lengths[0] + ReadStart(lengths[1..], at - lengths[0])
  }

  /** How many octets are in after the first `k` messages. */
  function Received(unread: nat, incoming: seq<Arrival>, k: nat): (r: nat)
    ensures r >= unread
    decreases k
  {
    if k == 0 || incoming == [] || !incoming[0].Chunk? then unread
    else Received(unread + |incoming[0].data|, incoming[1..], k - 1)
  }

  function Messages(incoming: seq<Arrival>): nat {
    if incoming == [] || !incoming[0].Chunk? then 0 else 1 + Messages(incoming[1..])
  }

  /** After message `k` octets are still needed, and more than 8 MiB are in since the start of the read in progress. */
  predicate Overflows(unread: nat, incoming: seq<Arrival>, lengths: seq<nat>, k: nat) {
    var before, after := Received(unread, incoming, k), Received(unread, incoming, k + 1);
    after < Total(lengths) && after - ReadStart(lengths, before) > MAX_BUFFER
  }

  /** Enough is sent, and no needed octet comes after the unread length has passed 8 MiB. */
  predicate AllArrive(s: Stream, lengths: seq<nat>) {
    && Total(lengths) <= |All(s)|
    && forall k :: 0 <= k < Messages(s.incoming) ==> !Overflows(|s.bytes|, s.incoming, lengths, k)
  }

  /** The same, message by message. */
  predicate Arrives(unread: nat, incoming: seq<Arrival>, lengths: seq<nat>)
    decreases |incoming|
  {
    || unread >= Total(lengths)
    || (incoming != [] && incoming[0].Chunk? &&
        var after := unread + |incoming[0].data|;
        after >= Total(lengths)
        || (after - ReadStart(lengths, unread) <= MAX_BUFFER && Arrives(after, incoming[1..], lengths)))
  }

  /** A read that needs nothing more is over. */
  lemma {:induction false} ArrivesNext(unread: nat, incoming: seq<Arrival>, lengths: seq<nat>)
    requires lengths != [] && unread >= lengths[0]
    ensures Arrives(unread, incoming, lengths) <==> Arrives(unread - lengths[0], incoming, lengths[1..])
    decreases |incoming|
  {
    if incoming != [] && incoming[0].Chunk? {
      ArrivesNext(unread + |incoming[0].data|, incoming[1..], lengths);
    }
  }

  lemma {:induction false} ReadsArrive(s: Stream, lengths: seq<nat>)
    ensures Reads(s, lengths).Some? <==> Arrives(|s.bytes|, s.incoming, lengths)
    decreases |lengths| + |s.incoming|
  {
    if lengths != [] {
      if |s.bytes| >= lengths[0] {
        ArrivesNext(|s.bytes|, s.incoming, lengths);
        ReadsArrive(Take(s, lengths[0]).value.1, lengths[1..]);
      } else if Waiting(s) {
        assert Take(s, lengths[0]) == Take(Receive(s), lengths[0]);
        ReadsArrive(Receive(s), lengths);
      }
    }
  }

  lemma {:induction false} ArrivesIsAllArrive(unread: seq<byte>, incoming: seq<Arrival>, lengths: seq<nat>)
    ensures Arrives(|unread|, incoming, lengths) <==> AllArrive(Stream(unread, incoming), lengths)
    decreases |incoming|
  {
    if incoming != [] && incoming[0].Chunk? {
      var data, rest := incoming[0].data, incoming[1..];
      ArrivesIsAllArrive(unread + data, rest, lengths);
      Regroup(unread, data, Supply(rest));
      OverflowsFirst(|unread|, incoming, lengths);
      OverflowsLater(|unread|, incoming, lengths);
    }
  }

  lemma OverflowsShift(unread: nat, incoming: seq<Arrival>, lengths: seq<nat>, k: nat)
    requires incoming != [] && incoming[0].Chunk?
    ensures Overflows(unread, incoming, lengths, k + 1) <==>
            Overflows(unread + |incoming[0].data|, incoming[1..], lengths, k)
  {
    var after := unread + |incoming[0].data|;
    assert Received(unread, incoming, k + 1) == Received(after, incoming[1..], k);
    assert Received(unread, incoming, k + 2) == Received(after, incoming[1..], k + 1);
  }

  lemma OverflowsFirst(unread: nat, incoming: seq<Arrival>, lengths: seq<nat>)
    requires incoming != [] && incoming[0].Chunk?
    ensures var after := unread + |incoming[0].data|;
            Overflows(unread, incoming, lengths, 0) <==>
            after < Total(lengths) && after - ReadStart(lengths, unread) > MAX_BUFFER
  {
    var after := unread + |incoming[0].data|;
    assert Received(unread, incoming, 1) == Received(after, incoming[1..], 0) == after;
  }

  lemma OverflowsLater(unread: nat, incoming: seq<Arrival>, lengths: seq<nat>)
    requires incoming != [] && incoming[0].Chunk?
    ensures var after := unread + |incoming[0].data|;
            (forall k :: 0 <= k < Messages(incoming) ==> !Overflows(unread, incoming, lengths, k)) <==>
            !Overflows(unread, incoming, lengths, 0)
            && forall k :: 0 <= k < Messages(incoming[1..]) ==> !Overflows(after, incoming[1..], lengths, k)
  {
    var after := unread + |incoming[0].data|;
    forall k: nat
      ensures Overflows(unread, incoming, lengths, k + 1) <==> Overflows(after, incoming[1..], lengths, k)
    {
      OverflowsShift(unread, incoming, lengths, k);
    }
    if k :| 0 <= k < Messages(incoming) && Overflows(unread, incoming, lengths, k) && k > 0 {
      assert Overflows(after, incoming[1..], lengths, k - 1);
    }
    if k :| 0 <= k < Messages(incoming[1..]) && Overflows(after, incoming[1..], lengths, k) {
      assert Overflows(unread, incoming, lengths, k + 1);
    }
  }

  /** Reads of given lengths all succeed exactly when every octet they need arrives. */
  lemma ReadsSucceed(s: Stream, lengths: seq<nat>)
    ensures Reads(s, lengths).Some? <==> AllArrive(s, lengths)
  {
    ReadsArrive(s, lengths);
    ArrivesIsAllArrive(s.bytes, s.incoming, lengths);
    assert s == Stream(s.bytes, s.incoming);
  }

  // ----- over all chunkings

  lemma {:induction false} FirstRead(lengths: seq<nat>)
    ensures ReadStart(lengths, 0) == 0
    decreases |lengths|
  {
    if lengths != [] && lengths[0] == 0 {
      FirstRead(lengths[1..]);
    }
  }

  /** The text cut behind its first 8 MiB and one octet. */
  function CutLate(text: seq<byte>): seq<Arrival>
    requires |text| > MAX_BUFFER
  {
    [Chunk(text[..MAX_BUFFER + 1]), Chunk(text[MAX_BUFFER + 1..])]
  }

  lemma LateCutFails(text: seq<byte>, lengths: seq<nat>)
    requires MAX_BUFFER + 1 < Total(lengths) <= |text|
    ensures Supply(CutLate(text)) == text && !AllArrive(Stream([], CutLate(text)), lengths)
  {
    var incoming := CutLate(text);
    assert incoming[1..] == [Chunk(text[MAX_BUFFER + 1..])] && incoming[1..][1..] == [];
    var late := text[MAX_BUFFER + 1..];
    assert Supply(incoming[1..]) == late by { assert late + [] == late; }
    assert text == text[..MAX_BUFFER + 1] + text[MAX_BUFFER + 1..];
    FirstRead(lengths);
    assert Received(0, incoming, 1) == MAX_BUFFER + 1;
    assert Overflows(0, incoming, lengths, 0);
    assert Messages(incoming) > 0;
  }

  /** Every chunking brings everything exactly when no more than 8 MiB and one octet are needed. */
  lemma EveryChunkingArrives(text: seq<byte>, lengths: seq<nat>)
    requires Total(lengths) <= |text|
    ensures (forall incoming :: Supply(incoming) == text ==> AllArrive(Stream([], incoming), lengths)) <==>
            Total(lengths) <= MAX_BUFFER + 1
  {
    if Total(lengths) <= MAX_BUFFER + 1 {
      forall incoming | Supply(incoming) == text
        ensures AllArrive(Stream([], incoming), lengths)
      {
        assert All(Stream([], incoming)) == text;
      }
    } else {
      LateCutFails(text, lengths);
    }
  }
}

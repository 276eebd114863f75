/** The blocks of an event stream as events, and the turn that `observeLiveUpdates` follows through them. */
module LiveUpdates {
  import opened Common
  import opened Text
  import opened Framers
  import opened EventStream

  /** The members the reader looks at, each present only with the type it asks for. */
  datatype Payload = Payload(id: Option<real>, role: Option<string>, message: Option<string>, status: Option<string>)

  datatype Event = Event(event: string, data: Payload)

  /** `JSON.parse` of an object; None stands for an exception or any other value. */
  type Parse = string -> Option<Payload>

  // ----- sseEvent

  /** White space and line terminators of ECMA-262. */
  predicate IsSpace(c: char) {
    c in {'\t', '\n', '\U{000B}', '\U{000C}', '\r', ' ', '\U{00A0}', '\U{1680}', '\U{2028}', '\U{2029}', '\U{202F}',
          '\U{205F}', '\U{3000}', '\U{FEFF}'} || '\U{2000}' <= c <= '\U{200A}'
  }

  function TrimStart(s: string): string {
    if s != "" && IsSpace(s[0]) then TrimStart(s[1..]) else s
  }

  function TrimEnd(s: string): string {
    if s != "" && IsSpace(s[|s| - 1]) then TrimEnd(s[..|s| - 1]) else s
  }

  function Trim(s: string): string {
    TrimEnd(TrimStart(s))
  }

  const EVENT: string := "event:"
  const DATA: string := "data:"

  function EventName(lines: seq<string>): string {
    if lines == [] then "message"
    else
      var last := lines[|lines| - 1];
      if EVENT <= last then Trim(last[|EVENT|..]) else EventName(lines[..|lines| - 1])
  }

  function DataLines(lines: seq<string>): seq<string> {
    if lines == [] then []
    else
      var last := lines[|lines| - 1];
      DataLines(lines[..|lines| - 1]) + if DATA <= last then [TrimStart(last[|DATA|..])] else []
  }

  /** `parts.join(sep)` */
  function Join(parts: seq<string>, sep: string): string {
    if parts == [] then "" else if |parts| == 1 then parts[0] else parts[0] + sep + Join(parts[1..], sep)
  }

  function EventOf(block: string, parse: Parse): Option<Event> {
    var lines := Split(block, '\n');
    match parse(Join(DataLines(lines), NEWLINE))
    case None => None
    case Some(data) => Some(Event(EventName(lines), data))
  }

  method SseEvent(block: string, parse: Parse) returns (r: Option<Event>)
    ensures r == EventOf(block, parse)
  {
    var event, data := "message", [];
    var lines := Split(block, '\n');
    for i := 0 to |lines|
      invariant event == EventName(lines[..i]) && data == DataLines(lines[..i])
    {
      assert lines[..i + 1][..i] == lines[..i];
      if EVENT <= lines[i] {
        event := Trim(lines[i][6..]);
      }
      if DATA <= lines[i] {
        data := data + [TrimStart(lines[i][5..])];
      }
    }
    assert lines[..|lines|] == lines;
    var parsed := parse(Join(data, NEWLINE));
    if parsed.None? {
      return None;
    }
    return Some(Event(event, parsed.value));
  }

  /** The name is that of the last event line, and "message" without one. */
  lemma {:induction false} EventNameIs(lines: seq<string>, k: nat)
    requires k <= |lines| && forall j :: k <= j < |lines| ==> !(EVENT <= lines[j])
    ensures k == 0 ==> EventName(lines) == "message"
    ensures k > 0 && EVENT <= lines[k - 1] ==> EventName(lines) == Trim(lines[k - 1][6..])
    decreases |lines|
  {
    if |lines| > k {
      EventNameIs(lines[..|lines| - 1], k);
    }
  }

  // ----- the turn

  /** An agent message newer than the baseline. */
  predicate Eligible(e: Option<Event>, baseline: real) {
    && e.Some? && e.value.event == "message_update"
    && e.value.data.id.Some? && e.value.data.id.value > baseline
    && e.value.data.role == Some("agent") && e.value.data.message.Some?
  }

  predicate Status(e: Option<Event>, status: string) {
    e.Some? && e.value.event == "status_change" && e.value.data.status == Some(status)
  }

  predicate Starts(e: Option<Event>, baseline: real) {
    Eligible(e, baseline) || Status(e, "running")
  }

  datatype Turn = Turn(started: bool, updates: seq<string>, stable: bool)

  const IDLE := Turn(false, [], false)

  function Extend(updates: seq<string>, message: string): seq<string> {
    if updates != [] && updates[|updates| - 1] == message then updates else updates + [message]
  }

  function Step(t: Turn, e: Option<Event>, baseline: real): Turn {
    if t.stable then t
    else
      var updates := if Eligible(e, baseline) then Extend(t.updates, e.value.data.message.value) else t.updates;
      var started := t.started || updates != t.updates || Status(e, "running");
      Turn(started, updates, started && Status(e, "stable"))
  }

  function Fold(events: seq<Option<Event>>, baseline: real): Turn {
    if events == [] then IDLE
    else Step(Fold(events[..|events| - 1], baseline), events[|events| - 1], baseline)
  }

  function EventsOf(blocks: seq<string>, parse: Parse): (r: seq<Option<Event>>)
    ensures |r| == |blocks|
  {
    seq(|blocks|, i requires 0 <= i < |blocks| => EventOf(blocks[i], parse))
  }

  // ----- what the fold means

  function Messages(events: seq<Option<Event>>, baseline: real): seq<string> {
    if events == [] then []
    else
      var e := events[|events| - 1];
      Messages(events[..|events| - 1], baseline)
      + if Eligible(e, baseline) then [e.value.data.message.value] else []
  }

  /** A list without repeated neighbours. */
  function Squash(ms: seq<string>): seq<string> {
    if ms == [] then [] else Extend(Squash(ms[..|ms| - 1]), ms[|ms| - 1])
  }

  ghost predicate Started(events: seq<Option<Event>>, baseline: real) {
    exists j :: 0 <= j < |events| && Starts(events[j], baseline)
  }

  /** Event `k` ends the turn: it reports "stable" and an earlier one started the turn. */
  ghost predicate Ends(events: seq<Option<Event>>, baseline: real, k: nat) {
    k < |events| && Status(events[k], "stable") && Started(events[..k], baseline)
  }

  lemma {:induction false} SquashNeighbours(ms: seq<string>)
    ensures var r := Squash(ms);
            && (r == [] <==> ms == [])
            && (ms != [] ==> r[|r| - 1] == ms[|ms| - 1])
            && (forall i :: 0 < i < |r| ==> r[i - 1] != r[i])
            && (forall m :: m in r <==> m in ms)
  {
    if ms != [] {
      var front, last := ms[..|ms| - 1], ms[|ms| - 1];
      SquashNeighbours(front);
      assert ms == front + [last];
      assert forall m :: m in ms <==> m in front || m == last;
      var r := Squash(front);
      assert forall m :: m in Squash(ms) <==> m in r || m == last;
    }
  }

  lemma {:induction false} FoldBeforeEnd(events: seq<Option<Event>>, baseline: real)
    requires forall k: nat :: !Ends(events, baseline, k)
    ensures Fold(events, baseline) == Turn(Started(events, baseline), Squash(Messages(events, baseline)), false)
    ensures Messages(events, baseline) != [] ==> Started(events, baseline)
    decreases |events|
  {
    if events != [] {
      var n := |events| - 1;
      var front, last := events[..n], events[n];
      forall k: nat ensures !Ends(front, baseline, k) {
        assert k < n ==> front[..k] == events[..k];
        assert !Ends(events, baseline, k);
      }
      FoldBeforeEnd(front, baseline);
      assert !Ends(events, baseline, n);
      assert Started(events, baseline) <==> Started(front, baseline) || Starts(last, baseline) by {
        assert events[n] == last;
        if Started(front, baseline) {
          var j :| 0 <= j < |front| && Starts(front[j], baseline);
          assert events[j] == front[j];
        }
        if Started(events, baseline) {
          var j :| 0 <= j < |events| && Starts(events[j], baseline);
          assert j < n ==> front[j] == events[j];
        }
      }
      assert events[..n] == front;
      StepBeforeEnd(Started(front, baseline), Messages(front, baseline), last, baseline);
    }
  }

  lemma StepBeforeEnd(started: bool, ms: seq<string>, e: Option<Event>, baseline: real)
    requires ms != [] ==> started
    requires !(started && Status(e, "stable"))
    ensures Step(Turn(started, Squash(ms), false), e, baseline) ==
            Turn(started || Starts(e, baseline),
                 Squash(ms + if Eligible(e, baseline) then [e.value.data.message.value] else []), false)
  {
    SquashNeighbours(ms);
    if Eligible(e, baseline) {
      var m := e.value.data.message.value;
      assert (ms + [m])[..|ms|] == ms;
    } else {
      assert ms + [] == ms;
    }
  }

  lemma {:induction false} FoldAppend(a: seq<Option<Event>>, b: seq<Option<Event>>, baseline: real)
    requires Fold(a, baseline).stable
    ensures Fold(a + b, baseline) == Fold(a, baseline)
    decreases |b|
  {
    if b == [] {
      assert a + b == a;
    } else {
      var n := |b| - 1;
      FoldAppend(a, b[..n], baseline);
      assert (a + b)[..|a + b| - 1] == a + b[..n];
    }
  }

  /**
    The turn ends at the first "stable" reported after it started. Its updates are the eligible messages
    before that, without repeated neighbours; without such an event they are all eligible messages.
   */
  lemma FoldMeaning(events: seq<Option<Event>>, baseline: real, k: nat)
    requires k <= |events| && forall j: nat :: j < k ==> !Ends(events, baseline, j)
    requires k < |events| ==> Ends(events, baseline, k)
    ensures var t := Fold(events, baseline);
            && (t.stable <==> k < |events|)
            && t.updates == Squash(Messages(events[..k], baseline))
            && (t.started <==> Started(events[..k], baseline))
  {
    var before := events[..k];
    forall j: nat ensures !Ends(before, baseline, j) {
      if j < k {
        assert before[..j] == events[..j];
        assert !Ends(events, baseline, j);
      }
    }
    FoldBeforeEnd(before, baseline);
    if k < |events| {
      var here := events[..k + 1];
      assert here[..k] == before && here[k] == events[k];
      assert events == here + events[k + 1..];
      FoldAppend(here, events[k + 1..], baseline);
    } else {
      assert before == events;
    }
  }

  /** Some event carries this message and may be kept. */
  ghost predicate Sent(events: seq<Option<Event>>, baseline: real, text: string) {
    exists e :: e in events && Eligible(e, baseline) && e.value.data.message.value == text
  }

  lemma SentBefore(front: seq<Option<Event>>, last: Option<Event>, baseline: real, text: string)
    requires Sent(front, baseline, text)
    ensures Sent(front + [last], baseline, text)
  {
    var e :| e in front && Eligible(e, baseline) && e.value.data.message.value == text;
    assert e in front + [last];
  }

  /** Every update is from some event, and no two neighbours are equal. */
  ghost predicate UpdatesGood(updates: seq<string>, events: seq<Option<Event>>, baseline: real) {
    && (forall i :: 0 < i < |updates| ==> updates[i - 1] != updates[i])
    && (forall i :: 0 <= i < |updates| ==> Sent(events, baseline, updates[i]))
  }

  lemma OneMoreEvent(t: Turn, front: seq<Option<Event>>, e: Option<Event>, baseline: real)
    requires UpdatesGood(t.updates, front, baseline)
    ensures UpdatesGood(Step(t, e, baseline).updates, front + [e], baseline)
  {
    var u := Step(t, e, baseline).updates;
    forall i | 0 <= i < |u|
      ensures Sent(front + [e], baseline, u[i])
    {
      if i < |t.updates| {
        SentBefore(front, e, baseline, u[i]);
      } else {
        assert e in front + [e];
      }
    }
  }

  /** Every update kept is an agent message with an id above the baseline, and no two neighbours are equal. */
  lemma {:induction false} UpdatesKept(events: seq<Option<Event>>, baseline: real)
    ensures UpdatesGood(Fold(events, baseline).updates, events, baseline)
    decreases |events|
  {
    if events != [] {
      var front, last := events[..|events| - 1], events[|events| - 1];
      UpdatesKept(front, baseline);
      OneMoreEvent(Fold(front, baseline), front, last, baseline);
      assert events == front + [last];
    }
  }

  // ----- observeLiveUpdates

  datatype Outcome = Stable(updates: seq<string>) | StreamEnded

  function OutcomeOf(blocks: seq<string>, baseline: real, parse: Parse): Outcome {
    var t := Fold(EventsOf(blocks, parse), baseline);
    if t.stable then Stable(t.updates) else StreamEnded
  }

  lemma {:induction false} DrainAppend(buffer: string, a: seq<string>, b: seq<string>)
    ensures var c := Drain(buffer, a);
            var d := Drain(c.rest, b);
            Drain(buffer, a + b) == Cuts(c.pieces + d.pieces, d.rest)
    decreases |a|
  {
    var d := Drain(Drain(buffer, a).rest, b);
    if a == [] {
      assert a + b == b;
      Regroup([], d.pieces, []);
    } else {
      Behead(a, b);
      var here := Receive(buffer, a[0]);
      DrainAppend(here.rest, a[1..], b);
      Regroup(here.pieces, Drain(here.rest, a[1..]).pieces, d.pieces);
    }
  }

  lemma DrainOneMore(buffer: string, chunk: string)
    ensures Drain(buffer, [chunk]) == Receive(buffer, chunk)
  {
    var r := Receive(buffer, chunk);
    assert [chunk][1..] == [] && Drain(r.rest, []) == Cuts([], r.rest);
    Regroup(r.pieces, [], []);
  }

  lemma DrainNext(chunks: seq<string>, i: nat)
    requires i < |chunks|
    ensures var c := Drain("", chunks[..i]);
            var r := Receive(c.rest, chunks[i]);
            Drain("", chunks[..i + 1]) == Cuts(c.pieces + r.pieces, r.rest)
  {
    assert chunks[..i + 1] == chunks[..i] + [chunks[i]];
    DrainAppend("", chunks[..i], [chunks[i]]);
    DrainOneMore(Drain("", chunks[..i]).rest, chunks[i]);
  }

  lemma DrainPrefix(chunks: seq<string>, i: nat)
    requires i <= |chunks|
    ensures Drain("", chunks[..i]).pieces <= Drain("", chunks).pieces
  {
    DrainGrows("", chunks[..i], chunks[i..]);
    assert chunks == chunks[..i] + chunks[i..];
  }

  lemma DrainGrows(buffer: string, a: seq<string>, b: seq<string>)
    ensures Drain(buffer, a).pieces <= Drain(buffer, a + b).pieces
  {
    DrainAppend(buffer, a, b);
  }

  lemma EventsOfAppend(a: seq<string>, b: seq<string>, parse: Parse)
    ensures EventsOf(a + b, parse) == EventsOf(a, parse) + EventsOf(b, parse)
  {
  }

  lemma FoldNext(blocks: seq<string>, block: string, baseline: real, parse: Parse)
    ensures Fold(EventsOf(blocks + [block], parse), baseline) ==
            Step(Fold(EventsOf(blocks, parse), baseline), EventOf(block, parse), baseline)
  {
    EventsOfAppend(blocks, [block], parse);
    var es := EventsOf(blocks + [block], parse);
    assert es[..|es| - 1] == EventsOf(blocks, parse);
  }

  /** Nothing after the block that ended the turn matters. */
  lemma EarlyReturn(seen: seq<string>, blocks: seq<string>, baseline: real, parse: Parse)
    requires seen <= blocks && Fold(EventsOf(seen, parse), baseline).stable
    ensures OutcomeOf(blocks, baseline, parse) == Stable(Fold(EventsOf(seen, parse), baseline).updates)
  {
    var later := blocks[|seen|..];
    assert blocks == seen + later;
    EventsOfAppend(seen, later, parse);
    FoldAppend(EventsOf(seen, parse), EventsOf(later, parse), baseline);
  }

  /** The blocks taken, and those still in the buffer, are the blocks of the chunks so far. */
  ghost predicate Drained(all: Cuts, seen: seq<string>, buffer: string) {
    all == Cuts(seen + Cut(buffer, BLANK).pieces, Cut(buffer, BLANK).rest)
  }

  lemma TakeBlock(all: Cuts, seen: seq<string>, buffer: string)
    requires Drained(all, seen, buffer) && IndexOf(buffer, BLANK) >= 0
    ensures var k := IndexOf(buffer, BLANK); Drained(all, seen + [buffer[..k]], buffer[k + 2..])
  {
    var k := IndexOf(buffer, BLANK);
    Regroup(seen, [buffer[..k]], Cut(buffer[k + 2..], BLANK).pieces);
  }

  lemma DrainedSoFar(all: Cuts, seen: seq<string>, buffer: string)
    requires Drained(all, seen, buffer)
    ensures seen <= all.pieces && (IndexOf(buffer, BLANK) < 0 ==> all == Cuts(seen, buffer))
  {
  }

  /** What one event changes. */
  method OnEvent(event: Option<Event>, baseline: real, started: bool, before: seq<string>)
    returns (turnStarted: bool, updates: seq<string>)
    ensures Turn(turnStarted, updates, turnStarted && Status(event, "stable")) ==
            Step(Turn(started, before, false), event, baseline)
  {
    turnStarted, updates := started, before;
    if Eligible(event, baseline)
       && !(updates != [] && updates[|updates| - 1] == event.value.data.message.value) {
      turnStarted := true;
      updates := updates + [event.value.data.message.value];
    }
    if Status(event, "running") {
      turnStarted := true;
    }
  }

  method ObserveLiveUpdates(chunks: seq<string>, baseline: real, parse: Parse) returns (outcome: Outcome)
    ensures outcome == OutcomeOf(Drain("", chunks).pieces, baseline, parse)
  {
    var updates: seq<string>, buffer, turnStarted := [], "", false;
    ghost var seen: seq<string> := [];
    for i := 0 to |chunks|
      invariant Drain("", chunks[..i]) == Cuts(seen, buffer)
      invariant Fold(EventsOf(seen, parse), baseline) == Turn(turnStarted, updates, false)
    {
      DrainNext(chunks, i);
      DrainPrefix(chunks, i + 1);
      ghost var all := Drain("", chunks[..i + 1]);
      buffer := Normalize(buffer + chunks[i]);
      var boundary := IndexOf(buffer, BLANK);
      while boundary >= 0
        invariant boundary == IndexOf(buffer, BLANK)
        invariant Drained(all, seen, buffer)
        invariant Fold(EventsOf(seen, parse), baseline) == Turn(turnStarted, updates, false)
        decreases |buffer|
      {
        var block := buffer[..boundary];
        TakeBlock(all, seen, buffer);
        FoldNext(seen, block, baseline, parse);
        seen := seen + [block];
        var event := SseEvent(block, parse);
        buffer := buffer[boundary + 2..];
        boundary := IndexOf(buffer, BLANK);
        turnStarted, updates := OnEvent(event, baseline, turnStarted, updates);
        if turnStarted && Status(event, "stable") {
          DrainedSoFar(all, seen, buffer);
          EarlyReturn(seen, Drain("", chunks).pieces, baseline, parse);
          return Stable(updates);
        }
      }
      DrainedSoFar(all, seen, buffer);
    }
    assert chunks[..|chunks|] == chunks;
    return StreamEnded;
  }

  /** Any two chunkings of a text without CR CR LF give the outcome of normalising and cutting the text once. */
  lemma OutcomeChunkInvariant(chunks: seq<string>, baseline: real, parse: Parse)
    requires !Doubled(Concat(chunks))
    ensures OutcomeOf(Drain("", chunks).pieces, baseline, parse) ==
            OutcomeOf(Cut(Normalize(Concat(chunks)), BLANK).pieces, baseline, parse)
  {
    ChunkInvariant(chunks);
  }

  // ----- a stream on which the cut is visible

  /** A prefix without newlines only shifts the first blank line. */
  lemma {:induction false} NoBlank(a: string, b: string)
    requires '\n' !in a
    ensures IndexOf(a + b, BLANK) == if IndexOf(b, BLANK) < 0 then -1 else |a| + IndexOf(b, BLANK)
    decreases |a|
  {
    if a == "" {
      assert a + b == b;
    } else {
      Behead(a, b);
      NoBlank(a[1..], b);
      assert !(BLANK <= a + b) by { assert a[0] in a; }
    }
  }

  lemma {:induction false} NormalizeWithoutReturn(s: string)
    requires '\r' !in s
    ensures Normalize(s) == s
    decreases |s|
  {
    if s != "" {
      NormalizeWithoutReturn(s[1..]);
      assert !(CRLF <= s) by { assert s[0] in s; }
    }
  }

  /** A block as a server writes it: no CR, and its only blank line is the one that ends it. */
  predicate IsBlock(s: string) {
    '\r' !in s && s != "" && s[|s| - 1] != '\n' && IndexOf(s + BLANK, BLANK) == |s|
  }

  /** What follows a block and one line end is a blank line only if it starts with a newline. */
  lemma {:induction false} NoBlankAfter(s: string, more: string)
    requires s != "" && s[|s| - 1] != '\n' && IndexOf(s + BLANK, BLANK) == |s|
    requires more != "" && more[0] != '\n' && IndexOf(more, BLANK) < 0
    ensures IndexOf(s + NEWLINE + more, BLANK) < 0
    decreases |s|
  {
    var all := s + NEWLINE + more;
    assert !(BLANK <= all) by {
      assert !(BLANK <= s + BLANK);
      if |s| >= 2 { assert all[0] == s[0] == (s + BLANK)[0] && all[1] == s[1] == (s + BLANK)[1]; }
    }
    if |s| > 1 {
      Behead(s, BLANK);
      NoBlankAfter(s[1..], more);
      assert all[1..] == s[1..] + NEWLINE + more;
    } else {
      var tail := NEWLINE + more;
      assert all[1..] == tail && tail[1..] == more && tail[1] == more[0];
      assert !(BLANK <= tail);
    }
  }

  /** Text without a line end. */
  predicate InLine(x: string) {
    '\r' !in x && '\n' !in x
  }

  lemma NoBlankInLine(x: string)
    requires '\n' !in x
    ensures IndexOf(x, BLANK) < 0
  {
    NoBlank(x, "");
    assert x + "" == x;
  }

  /** Normalised once, the text after `r` has no blank line ... */
  lemma OpenOnce(r: string, s: string, x: string)
    requires IsBlock(r) && IsBlock(s) && InLine(x)
    ensures Cut(Normalize(r + BLANK + (s + NEWLINE) + CRCRLF + x), BLANK) == Cuts([r], s + NEWLINE + (CRLF + x))
  {
    var open := r + BLANK + (s + NEWLINE);
    NormalizeDoubled(open);
    NormalizeWithoutReturn(open);
    NormalizeWithoutReturn(x);
    NormalizeAppend(open + CRCRLF, x);
    Regroup(r + BLANK, s + NEWLINE, CRLF);
    Regroup(r + BLANK, s + NEWLINE + CRLF, x);
    Regroup(s + NEWLINE, CRLF, x);
    CutCons(r, s + NEWLINE + (CRLF + x), BLANK);
    PairNotBlank(x);
    NoBlankAfter(s, CRLF + x);
  }

  lemma PairNotBlank(x: string)
    requires InLine(x)
    ensures IndexOf(CRLF + x, BLANK) < 0
  {
    var all, tail := CRLF + x, NEWLINE + x;
    NoBlankInLine(x);
    assert IndexOf(tail, BLANK) < 0 by {
      assert tail[1..] == x;
      if x != "" { assert tail[1] == x[0] && x[0] in x; }
    }
    assert all[0] == '\r' && all[1..] == tail && !(BLANK <= all);
  }

  /** ... and normalised again, with what comes next, it has one. */
  lemma OpenAgain(s: string, x: string)
    requires IsBlock(s) && InLine(x)
    ensures Receive(s + NEWLINE + (CRLF + ""), x) == Cuts([s], x)
  {
    assert CRLF + "" == CRLF;
    NormalizeAppend(s + NEWLINE + CRLF, x);
    NormalizeAppend(s + NEWLINE, CRLF);
    NormalizeWithoutReturn(s + NEWLINE);
    NormalizeWithoutReturn(x);
    assert CRLF[2..] == "" && Normalize(CRLF) == NEWLINE + "" == NEWLINE;
    assert s + NEWLINE + NEWLINE == s + BLANK;
    CutCons(s, x, BLANK);
    NoBlankInLine(x);
    assert Cut(x, BLANK) == Cuts([], x) && [s] + [] == [s];
  }

  /**
    With CR CR LF the outcome can depend on the chunking: whatever the two blocks and what follows in the same line,
    as long as the first block starts the turn and the second reports it stable, a cut behind CR CR LF ends the turn.
   */
  lemma OutcomeDependsOnChunks(r: string, s: string, x: string, baseline: real, parse: Parse)
    requires IsBlock(r) && IsBlock(s) && InLine(x)
    requires Starts(EventOf(r, parse), baseline) && Status(EventOf(s, parse), "stable")
    ensures var text := r + BLANK + (s + NEWLINE) + CRCRLF;
            && Concat([text + x]) == Concat([text, x]) == text + x && Doubled(text + x)
            && OutcomeOf(Drain("", [text + x]).pieces, baseline, parse) == StreamEnded
            && OutcomeOf(Drain("", [text, x]).pieces, baseline, parse)
               == Stable(Messages([EventOf(r, parse)], baseline))
  {
    var text := r + BLANK + (s + NEWLINE) + CRCRLF;
    TwoCuts(text, x);
    OpenOnce(r, s, x);
    OpenOnce(r, s, "");
    assert text + "" == text;
    OpenAgain(s, x);
    DrainOne(text + x);
    DrainTwo(text, x);
    TurnOfTwo(r, s, baseline, parse);
  }

  lemma TwoCuts(text: string, x: string)
    requires |text| >= 3 && text[|text| - 3..] == CRCRLF
    ensures Concat([text + x]) == Concat([text, x]) == text + x && Doubled(text + x)
  {
    var all := text + x;
    assert [all][1..] == [] && [text, x][1..] == [x] && [x][1..] == [] && all + "" == all && x + "" == x;
    IndexOfFirst(all, CRCRLF);
    assert all[|text| - 3..][..3] == CRCRLF;
    assert At(all, CRCRLF, |text| - 3);
  }

  lemma TurnOfTwo(r: string, s: string, baseline: real, parse: Parse)
    requires Starts(EventOf(r, parse), baseline) && Status(EventOf(s, parse), "stable")
    ensures OutcomeOf([r], baseline, parse) == StreamEnded
    ensures OutcomeOf([r] + [s], baseline, parse) == Stable(Messages([EventOf(r, parse)], baseline))
  {
    var e := EventOf(r, parse);
    FoldNext([], r, baseline, parse);
    assert [] + [r] == [r];
    FoldNext([r], s, baseline, parse);
    assert "stable"[0] == 's' && "running"[0] == 'r';
    assert "message_update"[0] == 'm' && "status_change"[0] == 's';
    assert [e][..0] == [] && Messages([], baseline) == [];
    assert Messages([e], baseline) == [] + if Eligible(e, baseline) then [e.value.data.message.value] else [];
  }

  // ----- such blocks exist

  /** A server that sends its statuses as single letters. */
  function LetterStatus(s: string): Option<Payload> {
    if s == "R" then Some(Payload(None, None, None, Some("running")))
    else if s == "S" then Some(Payload(None, None, None, Some("stable")))
    else None
  }

  lemma TwoLines(a: string, b: string, parse: Parse)
    requires '\n' !in a && '\n' !in b && b != ""
    requires EVENT <= a && !(DATA <= a) && DATA <= b && !(EVENT <= b)
    ensures var s := a + NEWLINE + b;
            && IndexOf(s + BLANK, BLANK) == |s|
            && EventOf(s, parse) == match parse(TrimStart(b[|DATA|..]))
                                    case None => None
                                    case Some(data) => Some(Event(Trim(a[|EVENT|..]), data))
  {
    var s := a + NEWLINE + b;
    NoBlank(b, BLANK);
    var tail := NEWLINE + (b + BLANK);
    assert tail[1..] == b + BLANK && tail[1] == b[0] && b[0] in b;
    NoBlank(a, tail);
    assert a + tail == s + BLANK;
    SplitTwo(a, b);
    FieldsOfTwo(a, b);
  }

  lemma FieldsOfTwo(a: string, b: string)
    requires EVENT <= a && !(DATA <= a) && DATA <= b && !(EVENT <= b)
    ensures EventName([a, b]) == Trim(a[|EVENT|..]) && Join(DataLines([a, b]), NEWLINE) == TrimStart(b[|DATA|..])
  {
    var value := TrimStart(b[|DATA|..]);
    assert [a, b][..1] == [a] && [a][..0] == [];
    assert EventName([a]) == Trim(a[|EVENT|..]);
    assert DataLines([a]) == [] + [];
    assert DataLines([a, b]) == DataLines([a]) + [value];
    assert [] + [] + [value] == [value];
  }

  lemma SplitTwo(a: string, b: string)
    requires '\n' !in a && '\n' !in b
    ensures Split(a + NEWLINE + b, '\n') == [a, b]
  {
    CutUnique([a], b, '\n');
    TerminatedCons(a, [], b, NEWLINE);
    assert "" + b == b && [a] + [] == [a];
    SplitIsCut(a + NEWLINE + b, '\n');
  }

  const NAME: string := "event:status_change"

  function Report(letter: char): string {
    NAME + NEWLINE + (DATA + [letter])
  }

  lemma NameTrimmed()
    ensures EVENT <= NAME && Trim(NAME[|EVENT|..]) == "status_change"
  {
    assert NAME[|EVENT|..] == "status_change";
    assert TrimStart("status_change") == "status_change";
    assert TrimEnd("status_change") == "status_change";
  }

  lemma NoLineEnds(letter: char)
    requires letter in "RS"
    ensures '\n' !in NAME && '\n' !in DATA + [letter] && '\r' !in NAME && '\r' !in DATA + [letter]
  {
  }

  lemma ReportIsBlock(letter: char)
    requires letter in "RS"
    ensures IsBlock(Report(letter))
    ensures EventOf(Report(letter), LetterStatus) == Some(Event("status_change", LetterStatus([letter]).value))
  {
    var data := DATA + [letter];
    NameTrimmed();
    assert data[|DATA|..] == [letter] == TrimStart([letter]);
    assert NAME[0] == EVENT[0] == 'e' && data[0] == DATA[0] == 'd';
    NoLineEnds(letter);
    TwoLines(NAME, data, LetterStatus);
  }
}

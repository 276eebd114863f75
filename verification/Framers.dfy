/**
  The newline framers of the child drivers and of the native controller. Chunks are decoded text;
  the drivers decode each chunk on its own, so this is their behaviour on ASCII streams.
 */
module Framers {
  import opened Common
  import opened Text

  const NEWLINE: string := "\n"

  /** The index-and-slice loop: take lines off the front of `pending` while it holds a newline. */
  method TakeLines(buffer: string) returns (lines: seq<string>, pending: string)
    ensures Cuts(lines, pending) == Cut(buffer, NEWLINE)
  {
    lines, pending := [], buffer;
    while true
      invariant var c := Cut(pending, NEWLINE); Cut(buffer, NEWLINE) == Cuts(lines + c.pieces, c.rest)
      decreases |pending|
    {
      var end := IndexOf(pending, NEWLINE);
      if end < 0 {
        break;
      }
      Regroup(lines, [pending[..end]], Cut(pending[end + 1..], NEWLINE).pieces);
      lines := lines + [pending[..end]];
      pending := pending[end + 1..];
    }
  }

  /** The debuggers' `lines`: every chunk is appended to `pending`, then complete lines are received. */
  method ReadLines(chunks: seq<string>) returns (received: seq<string>, pending: string)
    ensures Cuts(received, pending) == Cut(Concat(chunks), NEWLINE)
  {
    received, pending := [], "";
    for i := 0 to |chunks|
      invariant Cuts(received, pending) == Cut(Concat(chunks[..i]), NEWLINE)
    {
      NextChunk(chunks, i);
      var lines;
      lines, pending := TakeLines(pending + chunks[i]);
      received := received + lines;
    }
    assert chunks[..|chunks|] == chunks;
  }

  lemma NextChunk(chunks: seq<string>, i: nat)
    requires i < |chunks|
    ensures Concat(chunks[..i + 1]) == Concat(chunks[..i]) + chunks[i]
    ensures var c := Cut(Concat(chunks[..i]), NEWLINE);
            var d := Cut(c.rest + chunks[i], NEWLINE);
            Cut(Concat(chunks[..i + 1]), NEWLINE) == Cuts(c.pieces + d.pieces, d.rest)
  {
    assert chunks[..i + 1] == chunks[..i] + [chunks[i]];
    ConcatLast(chunks[..i], chunks[i]);
    CutAppend(Concat(chunks[..i]), chunks[i], NEWLINE);
  }

  // ----- split and pop

  /** `s.split(sep)` for a one-character separator: never empty. */
  function Split(s: string, sep: char): (r: seq<string>)
    ensures |r| > 0
  {
    if s == "" then [""]
    else
      var more := Split(s[1..], sep);
      if s[0] == sep then [""] + more else [[s[0]] + more[0]] + more[1..]
  }

  /** Splitting yields the cut pieces and then the rest. */
  lemma {:induction false} SplitIsCut(s: string, sep: char)
    ensures Split(s, sep) == Cut(s, [sep]).pieces + [Cut(s, [sep]).rest]
  {
    if s != "" {
      SplitIsCut(s[1..], sep);
      CutHead(s, sep);
    }
  }

  lemma CutHead(s: string, sep: char)
    requires s != ""
    ensures var c, d := Cut(s, [sep]), Cut(s[1..], [sep]);
            c == if s[0] == sep then Cuts([""] + d.pieces, d.rest)
                 else if d.pieces == [] then Cuts([], [s[0]] + d.rest)
                 else Cuts([[s[0]] + d.pieces[0]] + d.pieces[1..], d.rest)
  {
    var i := IndexOf(s[1..], [sep]);
    if s[0] == sep {
      assert IndexOf(s, [sep]) == 0 && s[..0] == "";
    } else if i < 0 {
      assert IndexOf(s, [sep]) == -1 && s == [s[0]] + s[1..];
    } else {
      assert IndexOf(s, [sep]) == i + 1;
      assert s[1 + i + 1..] == s[1..][i + 1..];
      assert s[..1 + i] == [s[0]] + s[1..][..i];
    }
  }

  /** The native controller's `startupOutput`, without its time stamps. */
  method StartupOutput(chunks: seq<string>) returns (lines: seq<string>)
    ensures var c := Cut(Concat(chunks), NEWLINE); lines == c.pieces + if c.rest != "" then [c.rest] else []
  {
    lines := [];
    var pending := "";
    for i := 0 to |chunks|
      invariant Cuts(lines, pending) == Cut(Concat(chunks[..i]), NEWLINE)
    {
      NextChunk(chunks, i);
      SplitIsCut(pending + chunks[i], '\n');
      var complete := Split(pending + chunks[i], '\n');
      pending := complete[|complete| - 1];
      lines := lines + complete[..|complete| - 1];
    }
    assert chunks[..|chunks|] == chunks;
    if pending != "" {
      lines := lines + [pending];
    }
  }

  /** Whatever the chunking, the two framers agree on every terminated line, and none holds a newline. */
  lemma LinesHaveNoNewline(text: string)
    ensures var c := Cut(text, NEWLINE);
            && '\n' !in c.rest && (forall line <- c.pieces :: '\n' !in line)
            && Terminated(c.pieces, NEWLINE) + c.rest == text
  {
    CutJoins(text, NEWLINE);
    SplitIsCut(text, '\n');
    SplitPieces(text, '\n');
    var c := Cut(text, NEWLINE);
    assert c.rest == Split(text, '\n')[|c.pieces|];
    forall i | 0 <= i < |c.pieces| ensures '\n' !in c.pieces[i] {
      assert c.pieces[i] == Split(text, '\n')[i];
    }
  }

  lemma {:induction false} SplitPieces(s: string, sep: char)
    ensures forall i :: 0 <= i < |Split(s, sep)| ==> sep !in Split(s, sep)[i]
  {
    if s != "" {
      SplitPieces(s[1..], sep);
      var more := Split(s[1..], sep);
      forall i | 0 <= i < |Split(s, sep)| ensures sep !in Split(s, sep)[i] {
        assert sep !in more[0];
      }
    }
  }

  // ----- one reply per command

  datatype Reply = Reply(id: int, error: Option<string>)

  /**
    The manager child's command loop. `parse` stands for `JSON.parse` with its exception, `reconcile(k)`
    for the error, if any, of the k-th reconciliation. The loop ends with the stream or at the first
    line that does not parse; up to there each line gets exactly one reply, with its own id, in order.
   */
  method CommandLoop(chunks: seq<string>, parse: string -> Option<int>, reconcile: nat -> Option<string>)
    returns (replies: seq<Reply>, threw: bool)
    ensures var lines := Cut(Concat(chunks), NEWLINE).pieces;
            && |replies| <= |lines|
            && (forall k :: 0 <= k < |replies| ==>
                  parse(lines[k]) == Some(replies[k].id) && replies[k].error == reconcile(k))
            && (threw <==> |replies| < |lines|)
            && (threw ==> parse(lines[|replies|]) == None)
  {
    replies, threw := [], false;
    var pending := "";
    ghost var done: seq<string> := [];
    for i := 0 to |chunks|
      invariant Cuts(done, pending) == Cut(Concat(chunks[..i]), NEWLINE)
      invariant Answered(replies, done, parse, reconcile)
    {
      NextChunk(chunks, i);
      ghost var whole := Cut(Concat(chunks[..i + 1]), NEWLINE);
      pending := pending + chunks[i];
      while true
        invariant Framed(whole, done, pending)
        invariant Answered(replies, done, parse, reconcile)
        decreases |pending|
      {
        var end := IndexOf(pending, NEWLINE);
        if end < 0 {
          break;
        }
        FrameOne(whole, done, pending);
        var line := pending[..end];
        var command := parse(line);
        if command.None? {
          LaterChunks(chunks, i);
          AnsweredSoFar(Cut(Concat(chunks), NEWLINE).pieces, done, replies, parse, reconcile);
          return replies, true;
        }
        pending := pending[end + 1..];
        AnswerOne(replies, done, line, command.value, parse, reconcile);
        replies := replies + [Reply(command.value, reconcile(|replies|))];
        done := done + [line];
      }
    }
    assert chunks[..|chunks|] == chunks;
    AnsweredSoFar(done, done, replies, parse, reconcile);
  }

  /** The lines taken, and those still in the buffer, are the lines of the text so far. */
  ghost predicate Framed(whole: Cuts, done: seq<string>, pending: string) {
    whole == Cuts(done + Cut(pending, NEWLINE).pieces, Cut(pending, NEWLINE).rest)
  }

  lemma FrameOne(whole: Cuts, done: seq<string>, pending: string)
    requires Framed(whole, done, pending) && IndexOf(pending, NEWLINE) >= 0
    ensures var end := IndexOf(pending, NEWLINE);
            && Framed(whole, done + [pending[..end]], pending[end + 1..])
            && |done| < |whole.pieces| && whole.pieces[|done|] == pending[..end] && done == whole.pieces[..|done|]
  {
    var end := IndexOf(pending, NEWLINE);
    Regroup(done, [pending[..end]], Cut(pending[end + 1..], NEWLINE).pieces);
  }

  ghost predicate Answered(replies: seq<Reply>, lines: seq<string>, parse: string -> Option<int>,
                           reconcile: nat -> Option<string>) {
    && |replies| == |lines|
    && forall k :: 0 <= k < |replies| ==>
         parse(lines[k]) == Some(replies[k].id) && replies[k].error == reconcile(k)
  }

  lemma AnswerOne(replies: seq<Reply>, lines: seq<string>, line: string, id: int, parse: string -> Option<int>,
                  reconcile: nat -> Option<string>)
    requires Answered(replies, lines, parse, reconcile) && parse(line) == Some(id)
    ensures Answered(replies + [Reply(id, reconcile(|replies|))], lines + [line], parse, reconcile)
  {
  }

  lemma AnsweredSoFar(lines: seq<string>, done: seq<string>, replies: seq<Reply>, parse: string -> Option<int>,
                      reconcile: nat -> Option<string>)
    requires Answered(replies, done, parse, reconcile) && done <= lines
    ensures |replies| <= |lines|
    ensures forall k :: 0 <= k < |replies| ==>
              parse(lines[k]) == Some(replies[k].id) && replies[k].error == reconcile(k)
  {
    assert forall k :: 0 <= k < |replies| ==> lines[k] == done[k];
  }

  /** Lines framed so far stay the first lines of the whole stream. */
  lemma LaterChunks(chunks: seq<string>, i: nat)
    requires i < |chunks|
    ensures Cut(Concat(chunks[..i + 1]), NEWLINE).pieces <= Cut(Concat(chunks), NEWLINE).pieces
  {
    assert chunks == chunks[..i + 1] + chunks[i + 1..];
    ConcatAppend(chunks[..i + 1], chunks[i + 1..]);
    CutAppend(Concat(chunks[..i + 1]), Concat(chunks[i + 1..]), NEWLINE);
  }
}

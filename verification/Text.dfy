/** Searching and cutting strings at a separator, leftmost first. */
module Text {
  import opened Common

  /** `sep` occurs in `s` at `k`. */
  predicate At(s: string, sep: string, k: nat) {
    k <= |s| && sep <= s[k..]
  }

  /** `s.indexOf(sep)` */
  function IndexOf(s: string, sep: string): (r: int)
    requires |sep| > 0
    ensures -1 <= r
    ensures r >= 0 ==> r + |sep| <= |s|
  {
    if sep <= s then 0
    else if s == "" then -1
    else
      var r := IndexOf(s[1..], sep);
      if r < 0 then -1 else r + 1
  }

  /** The index found is the first occurrence, and -1 means there is none. */
  lemma {:induction false} IndexOfFirst(s: string, sep: string)
    requires |sep| > 0
    ensures IndexOf(s, sep) >= 0 ==> At(s, sep, IndexOf(s, sep))
    ensures forall k: nat :: At(s, sep, k) ==> 0 <= IndexOf(s, sep) <= k
  {
    if !(sep <= s) && s != "" {
      IndexOfFirst(s[1..], sep);
      forall k: nat | At(s, sep, k) ensures 0 <= IndexOf(s, sep) <= k {
        assert k > 0 && s[k..] == s[1..][k - 1..] by { assert s[0..] == s; }
        assert At(s[1..], sep, k - 1);
      }
      if IndexOf(s, sep) > 0 {
        assert s[IndexOf(s, sep)..] == s[1..][IndexOf(s, sep) - 1..];
      }
    } else {
      assert s[0..] == s;
    }
  }

  /** What lies before each separator, and what is left after the last one. */
  datatype Cuts = Cuts(pieces: seq<string>, rest: string)

  function Cut(s: string, sep: string): (r: Cuts)
    requires |sep| > 0
    decreases |s|
  {
    var i := IndexOf(s, sep);
    if i < 0 then Cuts([], s)
    else
      var more := Cut(s[i + |sep|..], sep);
      Cuts([s[..i]] + more.pieces, more.rest)
  }

  function Concat(chunks: seq<string>): string {
    if chunks == [] then "" else chunks[0] + Concat(chunks[1..])
  }

  /** Each piece with its separator. */
  function Terminated(pieces: seq<string>, sep: string): string {
    if pieces == [] then "" else pieces[0] + sep + Terminated(pieces[1..], sep)
  }

  /** Appending text does not move the first separator. */
  lemma {:induction false} IndexOfPrefix(a: string, b: string, sep: string)
    requires |sep| > 0 && IndexOf(a, sep) >= 0
    ensures IndexOf(a + b, sep) == IndexOf(a, sep)
  {
    if sep <= a {
      assert sep <= a + b;
    } else {
      IndexOfPrefix(a[1..], b, sep);
      assert (a + b)[1..] == a[1..] + b;
      assert |sep| <= |a| && (a + b)[..|sep|] == a[..|sep|];
    }
  }

  lemma Split3(s: string, sep: string, i: nat)
    requires At(s, sep, i)
    ensures i + |sep| <= |s| && s == s[..i] + sep + s[i + |sep|..] && s[..i] + sep == s[..i + |sep|]
  {
    assert s[i..][..|sep|] == s[i..i + |sep|] == sep;
  }

  lemma AtPrefix(s: string, n: nat, sep: string, j: nat)
    requires n <= |s| && At(s[..n], sep, j)
    ensures At(s, sep, j)
  {
    assert s[..n][j..] + s[n..] == s[j..];
  }

  lemma AtIndexOf(s: string, sep: string)
    requires |sep| > 0 && IndexOf(s, sep) >= 0
    ensures var i := IndexOf(s, sep);
            s == s[..i] + sep + s[i + |sep|..] && IndexOf(s[..i] + sep, sep) == i
  {
    var i := IndexOf(s, sep);
    IndexOfFirst(s, sep);
    Split3(s, sep, i);
    var first := s[..i + |sep|];
    assert At(first, sep, i) by { assert first[i..] == sep; }
    IndexOfFirst(first, sep);
    AtPrefix(s, i + |sep|, sep, IndexOf(first, sep));
  }

  /** Nothing is lost: the pieces with their separators, then the rest, are the text; no separator is left. */
  lemma {:induction false} CutJoins(s: string, sep: string)
    requires |sep| > 0
    ensures Terminated(Cut(s, sep).pieces, sep) + Cut(s, sep).rest == s
    ensures IndexOf(Cut(s, sep).rest, sep) < 0
    decreases |s|
  {
    var i := IndexOf(s, sep);
    if i >= 0 {
      var after := s[i + |sep|..];
      CutJoins(after, sep);
      AtIndexOf(s, sep);
      TerminatedCons(s[..i], Cut(after, sep).pieces, Cut(after, sep).rest, sep);
    }
  }

  lemma TerminatedCons(p: string, more: seq<string>, v: string, sep: string)
    ensures Terminated([p] + more, sep) + v == p + sep + (Terminated(more, sep) + v)
  {
    assert ([p] + more)[1..] == more;
  }

  /** The cut of a text starting with the already cut part of another. */
  lemma {:induction false} CutAfter(s: string, v: string, sep: string)
    requires |sep| > 0
    ensures var c, d := Cut(s, sep), Cut(v, sep);
            Cut(Terminated(c.pieces, sep) + v, sep) == Cuts(c.pieces + d.pieces, d.rest)
    decreases |s|
  {
    var i := IndexOf(s, sep);
    var d := Cut(v, sep);
    if i < 0 {
      assert "" + v == v && [] + d.pieces == d.pieces;
    } else {
      var head, after := s[..i], s[i + |sep|..];
      var c := Cut(after, sep);
      CutAfter(after, v, sep);
      AtIndexOf(s, sep);
      CutAfterStep(head, c.pieces, v, sep, d);
    }
  }

  lemma CutCons(head: string, tail: string, sep: string)
    requires |sep| > 0 && IndexOf(head + sep, sep) == |head|
    ensures Cut(head + sep + tail, sep) == Cuts([head] + Cut(tail, sep).pieces, Cut(tail, sep).rest)
  {
    IndexOfPrefix(head + sep, tail, sep);
    var whole := head + sep + tail;
    assert whole[|head| + |sep|..] == tail && whole[..|head|] == head;
  }

  lemma CutAfterStep(head: string, pieces: seq<string>, v: string, sep: string, d: Cuts)
    requires |sep| > 0 && IndexOf(head + sep, sep) == |head|
    requires Cut(Terminated(pieces, sep) + v, sep) == Cuts(pieces + d.pieces, d.rest)
    ensures Cut(Terminated([head] + pieces, sep) + v, sep) == Cuts([head] + pieces + d.pieces, d.rest)
  {
    var tail := Terminated(pieces, sep) + v;
    assert Cut(head + sep + tail, sep) == Cuts([head] + pieces + d.pieces, d.rest) by {
      CutCons(head, tail, sep);
      Regroup([head], pieces, d.pieces);
    }
    TerminatedCons(head, pieces, v, sep);
  }

  /** Cutting can go on from the rest: text appended later changes no piece already cut. */
  lemma CutAppend(a: string, b: string, sep: string)
    requires |sep| > 0
    ensures var c, d := Cut(a, sep), Cut(Cut(a, sep).rest + b, sep);
            Cut(a + b, sep) == Cuts(c.pieces + d.pieces, d.rest)
  {
    var c := Cut(a, sep);
    CutJoins(a, sep);
    CutAfter(a, c.rest + b, sep);
    Regroup(Terminated(c.pieces, sep), c.rest, b);
  }

  lemma {:induction false} IndexOfAbsent(s: string, c: char)
    requires c !in s
    ensures IndexOf(s, [c]) < 0
    ensures IndexOf(s + [c], [c]) == |s|
  {
    assert !([c] <= s) by { assert s == "" || s[0] in s; }
    if s != "" {
      IndexOfAbsent(s[1..], c);
      assert (s + [c])[1..] == s[1..] + [c];
    }
  }

  /** For a one-character separator the cut is the only way to write the text as terminated pieces and a rest. */
  lemma {:induction false} CutUnique(pieces: seq<string>, rest: string, sep: char)
    requires sep !in rest && forall p <- pieces :: sep !in p
    ensures Cut(Terminated(pieces, [sep]) + rest, [sep]) == Cuts(pieces, rest)
    decreases |pieces|
  {
    if pieces == [] {
      assert "" + rest == rest;
      IndexOfAbsent(rest, sep);
    } else {
      var p, more := pieces[0], pieces[1..];
      assert pieces == [p] + more;
      CutUnique(more, rest, sep);
      TerminatedCons(p, more, rest, [sep]);
      IndexOfAbsent(p, sep);
      CutCons(p, Terminated(more, [sep]) + rest, [sep]);
    }
  }

  lemma {:induction false} ConcatLast(chunks: seq<string>, last: string)
    ensures Concat(chunks + [last]) == Concat(chunks) + last
    decreases |chunks|
  {
    if chunks == [] {
      assert chunks + [last] == [last] && [last][1..] == [];
      assert last + "" == last && "" + last == last;
    } else {
      ConcatLast(chunks[1..], last);
      assert (chunks + [last])[1..] == chunks[1..] + [last];
      assert chunks[0] + (Concat(chunks[1..]) + last) == chunks[0] + Concat(chunks[1..]) + last;
    }
  }

  lemma {:induction false} ConcatAppend(a: seq<string>, b: seq<string>)
    ensures Concat(a + b) == Concat(a) + Concat(b)
    decreases |a|
  {
    if a == [] {
      assert a + b == b;
    } else {
      ConcatAppend(a[1..], b);
      assert (a + b)[1..] == a[1..] + b;
      Regroup(a[0], Concat(a[1..]), Concat(b));
    }
  }
}

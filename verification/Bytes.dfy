// Byte buffers, as the writers and readers of this project see them.
module Bytes {
  import opened Common

  type byte = i: int | 0 <= i < 256

  function Repeat(b: byte, n: nat): (r: seq<byte>)
    ensures |r| == n
    ensures forall i :: 0 <= i < n ==> r[i] == b
  {
    seq(n, _ => b)
  }

  function Zeros(n: nat): (r: seq<byte>)
    ensures |r| == n
    ensures forall i :: 0 <= i < n ==> r[i] == 0
  {
    Repeat(0, n)
  }

  /** `Buffer.write`: overwrite from `off` on, dropping what does not fit. */
  function Put(buf: seq<byte>, s: seq<byte>, off: nat): (r: seq<byte>)
    requires off <= |buf|
    ensures |r| == |buf|
  {
    var k := if |s| <= |buf| - off then |s| else |buf| - off;
    buf[..off] + s[..k] + buf[off + k..]
  }

  /** What was written is found again, and nothing else moved. */
  lemma PutSlices(buf: seq<byte>, s: seq<byte>, off: nat, lo: nat, hi: nat)
    requires off <= |buf| && lo <= hi <= |buf|
    ensures hi <= off || off + |s| <= lo ==> Put(buf, s, off)[lo..hi] == buf[lo..hi]
    ensures lo == off && hi <= off + |s| ==> Put(buf, s, off)[lo..hi] == s[..hi - lo]
  {
    var r := Put(buf, s, off);
    if hi <= off || off + |s| <= lo {
      assert forall i :: lo <= i < hi ==> r[i] == buf[i];
    }
    if lo == off && hi <= off + |s| {
      assert forall i :: lo <= i < hi ==> r[i] == s[i - off];
    }
  }

  /** `Buffer.write` in place. */
  method WriteAt(a: array<byte>, s: seq<byte>, off: nat)
    requires off <= a.Length
    modifies a
    ensures a[..] == Put(old(a[..]), s, off)
  {
    var i := 0;
    while i < |s| && off + i < a.Length
      invariant 0 <= i <= |s| && off + i <= a.Length
      invariant forall j :: 0 <= j < i ==> a[off + j] == s[j]
      invariant forall j :: 0 <= j < a.Length && !(off <= j < off + i) ==> a[j] == old(a[j])
    {
      a[off + i] := s[i];
      i := i + 1;
    }
  }

  function Sum(s: seq<byte>): (r: nat)
    ensures r <= 255 * |s|
  {
    if s == [] then 0 else Sum(s[..|s| - 1]) + s[|s| - 1]
  }

  function Flatten(parts: seq<seq<byte>>): seq<byte> {
    if parts == [] then [] else parts[0] + Flatten(parts[1..])
  }

  lemma {:induction false} FlattenAppend(a: seq<seq<byte>>, b: seq<seq<byte>>)
    ensures Flatten(a + b) == Flatten(a) + Flatten(b)
  {
    if a == [] {
      assert a + b == b;
    } else {
      FlattenAppend(a[1..], b);
      Behead(a, b);
      Regroup(a[0], Flatten(a[1..]), Flatten(b));
    }
  }

  lemma FlattenOne(a: seq<byte>)
    ensures Flatten([a]) == a
  {
    assert [a][1..] == [];
    assert Flatten([a]) == a + Flatten([]);
  }

  lemma FlattenThree(a: seq<byte>, b: seq<byte>, c: seq<byte>)
    ensures Flatten([a, b, c]) == a + b + c
  {
    FlattenAppend([a], [b, c]);
    FlattenAppend([b], [c]);
    FlattenOne(a);
    FlattenOne(b);
    FlattenOne(c);
    assert [a, b, c] == [a] + [b, c] && [b, c] == [b] + [c];
  }

  lemma FlattenAt(parts: seq<seq<byte>>, k: nat, tail: seq<byte>)
    requires k < |parts|
    ensures var at, all := |Flatten(parts[..k])|, Flatten(parts) + tail;
            at + |parts[k]| + |tail| <= |all| && all[at..at + |parts[k]|] == parts[k]
  {
    FlattenAppend(parts[..k], parts[k..]);
    assert parts == parts[..k] + parts[k..];
    assert Flatten(parts) + tail == Flatten(parts[..k]) + (parts[k] + (Flatten(parts[k + 1..]) + tail));
  }
}

/** The image set that gates publication, and the order of checks and registry writes when it is published. */
module ImagePolicy {
  import opened Common

  datatype Record = Record(role: string, arch: string, commit: string, channel: string, result: string)

  const ROLES: seq<string> := ["server", "workspace", "desktop", "browser", "egress", "manager"]
  const ARCHITECTURES: seq<string> := ["amd64", "arm64"]

  predicate NoDuplicates<T(==)>(s: seq<T>) {
    forall i, j :: 0 <= i < j < |s| ==> s[i] != s[j]
  }

  lemma {:induction false} CountOnce<T>(s: seq<T>, x: T)
    requires NoDuplicates(s)
    ensures multiset(s)[x] == if x in s then 1 else 0
    decreases |s|
  {
    if s != [] {
      assert s == [s[0]] + s[1..];
      CountOnce(s[1..], x);
    }
  }

  lemma TwiceCounts<T>(s: seq<T>, i: nat, j: nat)
    requires i < j < |s| && s[i] == s[j]
    ensures multiset(s)[s[i]] >= 2
  {
    assert s == s[..j] + s[j..];
    assert s[..j][i] == s[i] && s[j..][0] == s[j];
    assert multiset(s) == multiset(s[..j]) + multiset(s[j..]);
    assert s[i] in multiset(s[..j]) && s[i] in multiset(s[j..]);
  }

  /** A list without duplicates is a permutation of another exactly when it has the same members and no duplicates. */
  lemma PermutationOfDistinct<T>(s: seq<T>, all: seq<T>)
    requires NoDuplicates(all)
    ensures multiset(s) == multiset(all) <==> NoDuplicates(s) && forall x :: x in s <==> x in all
  {
    if NoDuplicates(s) && forall x :: x in s <==> x in all {
      forall x
        ensures multiset(s)[x] == multiset(all)[x]
      {
        CountOnce(s, x);
        CountOnce(all, x);
      }
    }
    if multiset(s) == multiset(all) {
      forall x
        ensures x in s <==> x in all
      {
        assert x in multiset(s) <==> x in multiset(all);
      }
      forall i, j | 0 <= i < j < |s|
        ensures s[i] != s[j]
      {
        CountOnce(all, s[i]);
        if s[i] == s[j] {
          TwiceCounts(s, i, j);
        }
      }
    }
  }

  /** One role with every architecture, then the next: the order of the nested loops. */
  function Row(role: string, architectures: seq<string>): (r: seq<(string, string)>)
    ensures |r| == |architectures| && forall i :: 0 <= i < |r| ==> r[i] == (role, architectures[i])
  {
    seq(|architectures|, i requires 0 <= i < |architectures| => (role, architectures[i]))
  }

  function Product(roles: seq<string>, architectures: seq<string>): seq<(string, string)> {
    if roles == [] then [] else Row(roles[0], architectures) + Product(roles[1..], architectures)
  }

  lemma {:induction false} ProductMembers(roles: seq<string>, architectures: seq<string>, role: string, arch: string)
    ensures (role, arch) in Product(roles, architectures) <==> role in roles && arch in architectures
    decreases |roles|
  {
    if roles != [] {
      ProductMembers(roles[1..], architectures, role, arch);
      var row := Row(roles[0], architectures);
      if role == roles[0] && arch in architectures {
        var i :| 0 <= i < |architectures| && architectures[i] == arch;
        assert row[i] == (role, arch);
      }
      assert roles == [roles[0]] + roles[1..];
    }
  }

  lemma {:induction false} ProductDistinct(roles: seq<string>, architectures: seq<string>)
    requires NoDuplicates(roles) && NoDuplicates(architectures)
    ensures NoDuplicates(Product(roles, architectures))
    decreases |roles|
  {
    if roles != [] {
      ProductDistinct(roles[1..], architectures);
      var row, rest := Row(roles[0], architectures), Product(roles[1..], architectures);
      forall i, j | 0 <= i < |row| && 0 <= j < |rest|
        ensures row[i] != rest[j]
      {
        ProductMembers(roles[1..], architectures, rest[j].0, rest[j].1);
      }
      var all := row + rest;
      forall i, j | 0 <= i < j < |all|
        ensures all[i] != all[j]
      {
      }
    }
  }

  function Key(pair: (string, string)): string {
    pair.0 + "/" + pair.1
  }

  predicate Plain(s: string) {
    '/' !in s
  }

  /** A joined key tells its two parts, as long as one side has no other slash. */
  lemma KeyTells(a: (string, string), b: (string, string))
    requires Plain(b.0) && Plain(b.1) && Key(a) == Key(b)
    ensures a == b
  {
    var key := Key(b);
    assert Key(a)[|a.0|] == '/';
    assert key[|b.0|] == '/';
    assert forall i :: 0 <= i < |key| && i != |b.0| ==> key[i] != '/' by {
      forall i | 0 <= i < |key| && i != |b.0|
        ensures key[i] != '/'
      {
        if i < |b.0| { assert key[i] == b.0[i]; } else { assert key[i] == b.1[i - |b.0| - 1]; }
      }
    }
    assert a.0 == Key(a)[..|a.0|] && a.1 == Key(a)[|a.0| + 1..];
    assert b.0 == key[..|b.0|] && b.1 == key[|b.0| + 1..];
  }

  lemma NamesAreSound()
    ensures NoDuplicates(ROLES) && NoDuplicates(ARCHITECTURES)
    ensures (forall role :: role in ROLES ==> Plain(role)) && forall arch :: arch in ARCHITECTURES ==> Plain(arch)
  {
    assert Plain("server") && Plain("workspace") && Plain("desktop");
    assert Plain("browser") && Plain("egress") && Plain("manager");
    assert Plain("amd64") && Plain("arm64");
    assert "server"[1] == 'e' && "desktop"[0] == 'd' && "browser"[0] == 'b';
    assert "egress"[0] == 'e' && "manager"[0] == 'm';
  }

  function Expected(): seq<(string, string)> {
    Product(ROLES, ARCHITECTURES)
  }

  /** What the key comparisons rely on. */
  predicate Sound(all: seq<(string, string)>) {
    NoDuplicates(all) && forall p :: p in all ==> Plain(p.0) && Plain(p.1)
  }

  lemma ExpectedIsSound()
    ensures Sound(Expected())
  {
    NamesAreSound();
    ProductDistinct(ROLES, ARCHITECTURES);
    forall p | p in Expected()
      ensures Plain(p.0) && Plain(p.1)
    {
      ProductMembers(ROLES, ARCHITECTURES, p.0, p.1);
    }
  }

  /** Forty lower-case hexadecimal digits. */
  predicate FullCommit(commit: string) {
    |commit| == 40 && forall c :: c in commit ==> 'a' <= c <= 'f' || '0' <= c <= '9'
  }

  function Pair(record: Record): (string, string) {
    (record.role, record.arch)
  }

  function Pairs(records: seq<Record>): (r: seq<(string, string)>)
    ensures |r| == |records| && forall i :: 0 <= i < |r| ==> r[i] == Pair(records[i])
  {
    seq(|records|, i requires 0 <= i < |records| => Pair(records[i]))
  }

  predicate Passing(record: Record, commit: string) {
    record.commit == commit && record.channel == "candidate" && record.result == "passed"
  }

  /** One passing candidate image of this commit for every role and architecture, in any order, and nothing else. */
  predicate Complete(records: seq<Record>, commit: string, all: seq<(string, string)>) {
    && FullCommit(commit)
    && (forall i :: 0 <= i < |records| ==> Passing(records[i], commit))
    && multiset(Pairs(records)) == multiset(all)
  }

  datatype Refusal =
    | NoCommit
    | OtherCommit
    | NotPassing
    | Unsupported(key: string)
    | Duplicate(key: string)
    | Missing(key: string)

  /** What each refusal says about the records. */
  ghost predicate Explains(refusal: Refusal, records: seq<Record>, commit: string, all: seq<(string, string)>) {
    match refusal
    case NoCommit => !FullCommit(commit)
    case OtherCommit => exists i :: 0 <= i < |records| && records[i].commit != commit
    case NotPassing => exists i :: 0 <= i < |records| && !Passing(records[i], commit) && records[i].commit == commit
    case Unsupported(key) => exists i :: 0 <= i < |records| && Key(Pair(records[i])) == key && Pair(records[i]) !in all
    case Duplicate(key) =>
      exists i :: 0 <= i < |records| && Key(Pair(records[i])) == key && Pair(records[i]) in Pairs(records)[..i]
    case Missing(key) => exists i :: 0 <= i < |all| && Key(all[i]) == key && all[i] !in Pairs(records)
  }

  /** What is already seen tells which pairs were there. */
  lemma SeenTells(pairs: seq<(string, string)>, p: (string, string))
    requires Plain(p.0) && Plain(p.1)
    ensures Key(p) in (set q | q in pairs :: Key(q)) <==> p in pairs
  {
    if q :| q in pairs && Key(q) == Key(p) {
      KeyTells(q, p);
    }
  }

  lemma SeenMore(pairs: seq<(string, string)>, p: (string, string))
    ensures (set q | q in pairs + [p] :: Key(q)) == (set q | q in pairs :: Key(q)) + {Key(p)}
  {
    assert forall q :: q in pairs + [p] <==> q in pairs || q == p;
  }

  /** The three tests on one record's key. */
  lemma KeyExpected(all: seq<(string, string)>, p: (string, string))
    requires Sound(all)
    ensures Key(p) in (set q | q in all :: Key(q)) <==> p in all
  {
    if q :| q in all && Key(q) == Key(p) {
      KeyTells(p, q);
    }
  }

  /** The records checked so far are distinct supported pairs, and `seen` holds their keys. */
  ghost predicate Checked(all: seq<(string, string)>, pairs: seq<(string, string)>, seen: set<string>) {
    && NoDuplicates(pairs) && (forall p :: p in pairs ==> p in all)
    && seen == set q | q in pairs :: Key(q)
  }

  lemma CheckOne(all: seq<(string, string)>, pairs: seq<(string, string)>, seen: set<string>, p: (string, string))
    requires Sound(all) && Checked(all, pairs, seen)
    ensures p in all ==> (Key(p) in seen <==> p in pairs)
    ensures p in all && p !in pairs ==> Checked(all, pairs + [p], seen + {Key(p)})
  {
    if p in all {
      SeenTells(pairs, p);
      SeenMore(pairs, p);
    }
  }

  lemma NotPermuted(all: seq<(string, string)>, pairs: seq<(string, string)>, i: nat)
    requires Sound(all) && i < |pairs| && (pairs[i] !in all || pairs[i] in pairs[..i])
    ensures multiset(pairs) != multiset(all)
  {
    PermutationOfDistinct(pairs, all);
  }

  method AssertImageSet(records: seq<Record>, commit: string) returns (refusal: Option<Refusal>)
    ensures refusal.None? <==> Complete(records, commit, Expected())
    ensures refusal.Some? ==> Explains(refusal.value, records, commit, Expected())
  {
    ExpectedIsSound();
    refusal := AssertSet(records, commit, Expected());
  }

  method AssertSet(records: seq<Record>, commit: string, all: seq<(string, string)>) returns (refusal: Option<Refusal>)
    requires Sound(all)
    ensures refusal.None? <==> Complete(records, commit, all)
    ensures refusal.Some? ==> Explains(refusal.value, records, commit, all)
  {
    if !FullCommit(commit) {
      return Some(NoCommit);
    }
    var expected := set p | p in all :: Key(p);
    var seen: set<string> := {};
    ghost var pairs := Pairs(records);
    for i := 0 to |records|
      invariant forall k :: 0 <= k < i ==> Passing(records[k], commit)
      invariant Checked(all, pairs[..i], seen)
    {
      if records[i].commit != commit {
        return Some(OtherCommit);
      }
      if records[i].channel != "candidate" || records[i].result != "passed" {
        return Some(NotPassing);
      }
      var key := Key(Pair(records[i]));
      KeyExpected(all, pairs[i]);
      CheckOne(all, pairs[..i], seen, pairs[i]);
      if key !in expected {
        NotPermuted(all, pairs, i);
        return Some(Unsupported(key));
      }
      if key in seen {
        NotPermuted(all, pairs, i);
        return Some(Duplicate(key));
      }
      assert pairs[..i + 1] == pairs[..i] + [pairs[i]];
      seen := seen + {key};
    }
    assert pairs[..|records|] == pairs;
    refusal := FindMissing(all, pairs, seen);
  }

  /** The last loop: an expected key that was not seen. */
  method FindMissing(all: seq<(string, string)>, ghost pairs: seq<(string, string)>, seen: set<string>)
    returns (refusal: Option<Refusal>)
    requires Sound(all) && Checked(all, pairs, seen)
    ensures refusal.None? <==> multiset(pairs) == multiset(all)
    ensures refusal.Some? ==>
              && refusal.value.Missing?
              && exists i :: 0 <= i < |all| && Key(all[i]) == refusal.value.key && all[i] !in pairs
  {
    PermutationOfDistinct(pairs, all);
    for i := 0 to |all|
      invariant forall k :: 0 <= k < i ==> all[k] in pairs
    {
      SeenTells(pairs, all[i]);
      if Key(all[i]) !in seen {
        return Some(Missing(Key(all[i])));
      }
    }
    refusal := None;
  }
}

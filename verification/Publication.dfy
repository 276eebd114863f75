/** Publication of the candidate images: the whole set is validated before the first registry write. */
module Publication {
  import opened Common
  import opened ImagePolicy

  /** What the program does to the outside, in order. A push and an index are registry writes. */
  datatype Effect =
    | Validated(record: Record)
    | Push(record: Record)
    | CreateIndex(role: string, references: seq<string>)

  datatype Published = Published(record: Record, image: string)

  datatype Index = Index(role: string, members: seq<Published>)

  /** The answers of the tools outside: evidence of a record, its load and push, its digest, and the index command. */
  datatype Tools = Tools(
    evidence: Record -> bool, loads: Record -> bool, digest: Record -> Option<string>, creates: string -> bool)

  function Validations(records: seq<Record>): (r: seq<Effect>)
    ensures |r| == |records| && forall i :: 0 <= i < |r| ==> r[i] == Validated(records[i])
  {
    seq(|records|, i requires 0 <= i < |records| => Validated(records[i]))
  }

  function Pushes(published: seq<Published>): (r: seq<Effect>)
    ensures |r| == |published| && forall i :: 0 <= i < |r| ==> r[i] == Push(published[i].record)
  {
    seq(|published|, i requires 0 <= i < |published| => Push(published[i].record))
  }

  function References(members: seq<Published>): (r: seq<string>)
    ensures |r| == |members|
  {
    seq(|members|, i requires 0 <= i < |members| => members[i].image)
  }

  function Indexing(indexes: seq<Index>): (r: seq<Effect>)
    ensures |r| == |indexes|
  {
    seq(|indexes|, i requires 0 <= i < |indexes| => CreateIndex(indexes[i].role, References(indexes[i].members)))
  }

  /** Any registry write comes after the validation of every record of a complete set. */
  predicate Guarded(log: seq<Effect>, records: seq<Record>, commit: string, tools: Tools) {
    forall i :: 0 <= i < |log| && !log[i].Validated? ==>
      && Complete(records, commit, Expected())
      && |records| <= i && log[..|records|] == Validations(records)
      && forall k :: 0 <= k < |records| ==> tools.evidence(records[k])
  }

  /** `filter`: the published images of one role. */
  function OfRole(published: seq<Published>, role: string): (r: seq<Published>)
    ensures forall m :: m in r ==> m in published && m.record.role == role
  {
    if published == [] then []
    else (if published[0].record.role == role then [published[0]] else []) + OfRole(published[1..], role)
  }

  function Architectures(members: seq<Published>): (r: seq<string>)
    ensures |r| == |members| && forall i :: 0 <= i < |r| ==> r[i] == members[i].record.arch
  {
    seq(|members|, i requires 0 <= i < |members| => members[i].record.arch)
  }

  function PairsOf(published: seq<Published>): (r: seq<(string, string)>)
    ensures |r| == |published| && forall i :: 0 <= i < |r| ==> r[i] == Pair(published[i].record)
  {
    seq(|published|, i requires 0 <= i < |published| => Pair(published[i].record))
  }

  lemma HeadCount<T>(x: T, s: seq<T>, y: T)
    ensures multiset([x] + s)[y] == multiset(s)[y] + if x == y then 1 else 0
  {
  }

  lemma OneMore(first: Published, rest: seq<Published>, members: seq<Published>, role: string, arch: string)
    requires multiset(Architectures(members))[arch] == multiset(PairsOf(rest))[(role, arch)]
    ensures multiset(Architectures((if first.record.role == role then [first] else []) + members))[arch]
         == multiset(PairsOf([first] + rest))[(role, arch)]
  {
    assert PairsOf([first] + rest) == [Pair(first.record)] + PairsOf(rest);
    HeadCount(Pair(first.record), PairsOf(rest), (role, arch));
    if first.record.role == role {
      ArchitectureMore(first, members, arch);
    } else {
      assert [] + members == members;
    }
  }

  lemma ArchitectureMore(first: Published, members: seq<Published>, arch: string)
    ensures multiset(Architectures([first] + members))[arch]
         == multiset(Architectures(members))[arch] + if first.record.arch == arch then 1 else 0
  {
    assert Architectures([first] + members) == [first.record.arch] + Architectures(members);
    HeadCount(first.record.arch, Architectures(members), arch);
  }

  lemma {:induction false} RoleCount(published: seq<Published>, role: string, arch: string)
    ensures multiset(Architectures(OfRole(published, role)))[arch] == multiset(PairsOf(published))[(role, arch)]
    decreases |published|
  {
    if published != [] {
      RoleCount(published[1..], role, arch);
      OneMore(published[0], published[1..], OfRole(published[1..], role), role, arch);
      assert published == [published[0]] + published[1..];
    }
  }

  /** From a complete set, every role gets exactly one image of each architecture. */
  lemma OneOfEach(published: seq<Published>, all: seq<(string, string)>, roles: seq<string>, archs: seq<string>,
                  role: string)
    requires NoDuplicates(roles) && NoDuplicates(archs) && all == Product(roles, archs) && role in roles
    requires multiset(PairsOf(published)) == multiset(all)
    ensures multiset(Architectures(OfRole(published, role))) == multiset(archs)
  {
    ProductDistinct(roles, archs);
    forall arch: string
      ensures multiset(Architectures(OfRole(published, role)))[arch] == multiset(archs)[arch]
    {
      RoleCount(published, role, arch);
      ProductMembers(roles, archs, role, arch);
      CountOnce(all, (role, arch));
      CountOnce(archs, arch);
    }
  }

  /** One index for each role, with exactly one image of each architecture. */
  predicate IndexesEvery(roles: seq<string>, archs: seq<string>, indexes: seq<Index>) {
    && |indexes| == |roles|
    && forall i :: 0 <= i < |roles| ==>
         indexes[i].role == roles[i] && multiset(Architectures(indexes[i].members)) == multiset(archs)
  }

  predicate IndexesOf(roles: seq<string>, published: seq<Published>, indexes: seq<Index>) {
    |indexes| == |roles| && forall i :: 0 <= i < |roles| ==> indexes[i] == Index(roles[i], OfRole(published, roles[i]))
  }

  lemma EveryRole(records: seq<Record>, commit: string, roles: seq<string>, archs: seq<string>,
                  published: seq<Published>, indexes: seq<Index>)
    requires NoDuplicates(roles) && NoDuplicates(archs) && Complete(records, commit, Product(roles, archs))
    requires |published| == |records| && forall i :: 0 <= i < |records| ==> published[i].record == records[i]
    requires IndexesOf(roles, published, indexes)
    ensures IndexesEvery(roles, archs, indexes)
  {
    assert PairsOf(published) == Pairs(records);
    forall i | 0 <= i < |roles|
      ensures multiset(Architectures(indexes[i].members)) == multiset(archs)
    {
      OneOfEach(published, Product(roles, archs), roles, archs, roles[i]);
    }
  }

  lemma ChecksAreGuarded(log: seq<Effect>, records: seq<Record>, commit: string, tools: Tools)
    requires forall i :: 0 <= i < |log| ==> log[i].Validated?
    ensures Guarded(log, records, commit, tools)
  {
  }

  lemma WritesAreGuarded(log: seq<Effect>, writes: seq<Effect>, records: seq<Record>, commit: string, tools: Tools)
    requires log == Validations(records) && Complete(records, commit, Expected())
    requires forall k :: 0 <= k < |records| ==> tools.evidence(records[k])
    ensures Guarded(log + writes, records, commit, tools)
  {
  }

  /** All evidence, before anything is written. */
  method Validate(records: seq<Record>, tools: Tools) returns (ok: bool, log: seq<Effect>)
    ensures forall i :: 0 <= i < |log| ==> log[i].Validated?
    ensures ok ==> log == Validations(records)
    ensures ok <==> forall k :: 0 <= k < |records| ==> tools.evidence(records[k])
  {
    log := [];
    for i := 0 to |records|
      invariant log == Validations(records[..i]) && forall k :: 0 <= k < i ==> tools.evidence(records[k])
    {
      if !tools.evidence(records[i]) {
        return false, log;
      }
      log := log + [Validated(records[i])];
    }
    assert records[..|records|] == records;
    ok := true;
  }

  /** Load, tag and push each record; a missing digest stops it. */
  method PushAll(records: seq<Record>, tools: Tools) returns (ok: bool, log: seq<Effect>, published: seq<Published>)
    ensures forall i :: 0 <= i < |log| ==> log[i].Push?
    ensures ok <==> forall i :: 0 <= i < |records| ==> tools.loads(records[i]) && tools.digest(records[i]).Some?
    ensures ok ==> log == Pushes(published) && |published| == |records|
    ensures ok ==> forall i :: 0 <= i < |records| ==>
                     published[i].record == records[i] && tools.digest(records[i]) == Some(published[i].image)
  {
    log, published := [], [];
    for i := 0 to |records|
      invariant |published| == i && log == Pushes(published)
      invariant forall k :: 0 <= k < i ==> tools.loads(records[k]) && tools.digest(records[k]).Some?
      invariant forall k :: 0 <= k < i ==>
                  published[k].record == records[k] && tools.digest(records[k]) == Some(published[k].image)
    {
      if !tools.loads(records[i]) {
        return false, log, published;
      }
      var digest := tools.digest(records[i]);
      if digest.None? {
        return false, log + [Push(records[i])], published;
      }
      var one := Published(records[i], digest.value);
      assert Pushes(published + [one]) == log + [Push(records[i])];
      log, published := log + [Push(records[i])], published + [one];
    }
    ok := true;
  }

  method IndexAll(roles: seq<string>, published: seq<Published>, tools: Tools)
    returns (ok: bool, log: seq<Effect>, indexes: seq<Index>)
    ensures forall i :: 0 <= i < |log| ==> log[i].CreateIndex?
    ensures ok <==> forall i :: 0 <= i < |roles| ==> tools.creates(roles[i])
    ensures ok ==> log == Indexing(indexes) && IndexesOf(roles, published, indexes)
  {
    log, indexes := [], [];
    for i := 0 to |roles|
      invariant log == Indexing(indexes) && IndexesOf(roles[..i], published, indexes)
      invariant forall k :: 0 <= k < i ==> tools.creates(roles[k])
    {
      var index := Index(roles[i], OfRole(published, roles[i]));
      if !tools.creates(roles[i]) {
        return false, log, indexes;
      }
      assert Indexing(indexes + [index]) == log + [CreateIndex(index.role, References(index.members))];
      log, indexes := log + [CreateIndex(index.role, References(index.members))], indexes + [index];
    }
    assert roles[..|roles|] == roles;
    ok := true;
  }

  /** Everything was validated, then everything pushed, then one index made for each role from its pushes. */
  predicate Done(records: seq<Record>, published: seq<Published>, indexes: seq<Index>, log: seq<Effect>) {
    && |published| == |records| && (forall i :: 0 <= i < |records| ==> published[i].record == records[i])
    && log == Validations(records) + Pushes(published) + Indexing(indexes)
    && IndexesOf(ROLES, published, indexes)
  }

  /** Every tool accepts this record. */
  predicate AllTools(record: Record, tools: Tools) {
    tools.evidence(record) && tools.loads(record) && tools.digest(record).Some?
  }

  method PublishCandidateImages(ownRegistry: bool, records: seq<Record>, commit: string, tools: Tools)
    returns (indexes: Option<seq<Index>>, log: seq<Effect>)
    ensures Guarded(log, records, commit, tools)
    ensures indexes.Some? <==>
              && ownRegistry && Complete(records, commit, Expected())
              && (forall i :: 0 <= i < |records| ==> AllTools(records[i], tools))
              && forall i :: 0 <= i < |ROLES| ==> tools.creates(ROLES[i])
    ensures indexes.Some? ==> IndexesEvery(ROLES, ARCHITECTURES, indexes.value)
    ensures indexes.Some? ==> exists published: seq<Published> :: Done(records, published, indexes.value, log)
  {
    if !ownRegistry {
      return None, [];
    }
    var refusal := AssertImageSet(records, commit);
    if refusal.Some? {
      return None, [];
    }
    var valid, checks := Validate(records, tools);
    if !valid {
      ChecksAreGuarded(checks, records, commit, tools);
      return None, checks;
    }
    var pushed, pushes, published := PushAll(records, tools);
    WritesAreGuarded(checks, pushes, records, commit, tools);
    log := checks + pushes;
    if !pushed {
      return None, log;
    }
    var indexed, writes, made := IndexAll(ROLES, published, tools);
    WritesAreGuarded(checks, pushes + writes, records, commit, tools);
    Regroup(checks, pushes, writes);
    log := log + writes;
    if !indexed {
      return None, log;
    }
    NamesAreSound();
    EveryRole(records, commit, ROLES, ARCHITECTURES, published, made);
    assert Done(records, published, made, log);
    indexes := Some(made);
  }
}

/**
  Alert delivery: the search for a matching webhook batch, and the per-family cursor and episode of the monitoring
  fixture. A wait matches, sets the cursor, and records its episode in three steps, so that batches, faults and any
  other waits, also of the same family, come in between.
*/
module Monitoring {
  import opened Common

  type Labels = map<string, string>

  datatype Alert = Alert(status: string, labels: Labels, response: string)

  datatype Batch = Batch(status: string, alerts: seq<Alert>)

  datatype Match = Match(index: nat, labels: Labels)

  /** The comparison of the search: as many keys, and each expected pair found. */
  predicate Agrees(expected: Labels, labels: Labels) {
    |expected| == |labels| && forall name :: name in expected ==> name in labels && labels[name] == expected[name]
  }

  lemma {:induction false} SubsetOfSameSize<T>(a: set<T>, b: set<T>)
    requires a <= b && |a| == |b|
    ensures a == b
    decreases |a|
  {
    if a != {} {
      var x :| x in a;
      SubsetOfSameSize(a - {x}, b - {x});
      assert b == (b - {x}) + {x};
    }
  }

  lemma AgreesIsEqual(expected: Labels, labels: Labels)
    ensures Agrees(expected, labels) <==> expected == labels
  {
    if Agrees(expected, labels) {
      assert |expected.Keys| == |labels.Keys|;
      SubsetOfSameSize(expected.Keys, labels.Keys);
    }
  }

  /** The alert the operator must have been sent: this status, enough of a response, and one of these label sets. */
  predicate Wanted(alert: Alert, status: string, expected: seq<Labels>) {
    && alert.status == status
    && "operator" in alert.labels && alert.labels["operator"] == "au-re"
    && |alert.response| > 10
    && alert.labels in expected
  }

  predicate Carries(batch: Batch, status: string, expected: seq<Labels>, labels: Labels) {
    exists k :: 0 <= k < |batch.alerts| && Wanted(batch.alerts[k], status, expected) && batch.alerts[k].labels == labels
  }

  predicate Relevant(batch: Batch, status: string, expected: seq<Labels>) {
    exists k :: 0 <= k < |batch.alerts| && Wanted(batch.alerts[k], status, expected)
  }

  method AmongExpected(expected: seq<Labels>, labels: Labels) returns (found: bool)
    ensures found <==> labels in expected
  {
    for i := 0 to |expected|
      invariant labels !in expected[..i]
    {
      AgreesIsEqual(expected[i], labels);
      if Agrees(expected[i], labels) {
        return true;
      }
    }
    found := false;
  }

  method FindAlert(alerts: seq<Alert>, status: string, expected: seq<Labels>) returns (k: nat)
    ensures k <= |alerts| && (k < |alerts| ==> Wanted(alerts[k], status, expected))
    ensures forall j :: 0 <= j < k ==> !Wanted(alerts[j], status, expected)
  {
    k := 0;
    while k < |alerts|
      invariant k <= |alerts| && forall j :: 0 <= j < k ==> !Wanted(alerts[j], status, expected)
    {
      var among := AmongExpected(expected, alerts[k].labels);
      if alerts[k].status == status && "operator" in alerts[k].labels && alerts[k].labels["operator"] == "au-re"
         && |alerts[k].response| > 10 && among {
        return;
      }
      k := k + 1;
    }
  }

  /** The earliest relevant batch at or after the cursor, or none when there is none. */
  method MatchingNotification(received: seq<Batch>, from: nat, status: string, expected: seq<Labels>)
    returns (found: Option<Match>)
    ensures found.Some? ==>
      && from <= found.value.index < |received|
      && Carries(received[found.value.index], status, expected, found.value.labels)
      && forall i :: from <= i < found.value.index ==> !Relevant(received[i], status, expected)
    ensures found.None? ==> forall i :: from <= i < |received| ==> !Relevant(received[i], status, expected)
  {
    for index := 0 to |received|
      invariant forall i :: from <= i < index ==> !Relevant(received[i], status, expected)
    {
      if index < from {
        continue;
      }
      var k := FindAlert(received[index].alerts, status, expected);
      if k < |received[index].alerts| {
        return Some(Match(index, received[index].alerts[k].labels));
      }
    }
    found := None;
  }

  /** `faultLabels`: the label sets that agree with the scope, where a name without a value must be absent. */
  function FaultLabels(current: seq<Labels>, scope: map<string, Option<string>>): seq<Labels> {
    if current == [] then []
    else (if InScope(current[0], scope) then [current[0]] else []) + FaultLabels(current[1..], scope)
  }

  predicate InScope(labels: Labels, scope: map<string, Option<string>>) {
    forall name :: name in scope ==> scope[name] == if name in labels then Some(labels[name]) else None
  }

  lemma {:induction false} FaultLabelsCount(current: seq<Labels>, scope: map<string, Option<string>>, labels: Labels)
    ensures multiset(FaultLabels(current, scope))[labels] ==
            if InScope(labels, scope) then multiset(current)[labels] else 0
    decreases |current|
  {
    if current != [] {
      FaultLabelsCount(current[1..], scope, labels);
      assert current == [current[0]] + current[1..];
    }
  }

  /** A wait in progress: it polls, has matched a batch, and has set the cursor past it. */
  datatype Stage = Polling | Matched(found: Match) | Counted(found: Match) | Recorded

  datatype Call = Call(family: string, status: string, expected: seq<Labels>, stage: Stage)

  /** Whenever a cursor is set: by a wait, after as many moves as there were `since` its match, or by a fault. */
  datatype Move =
    | Used(family: string, status: string, found: Match, since: nat)
    | Faulted(family: string, count: nat)

  datatype Event =
    | Delivered(batch: Batch)
    | StartsFault(family: string)
    | CallsFiring(family: string, expected: seq<Labels>)
    | CallsResolved(family: string)
    | Polls(k: nat)
    | Commits(k: nat)
    | Records(k: nat)

  /** Where a move sets the cursor. */
  function To(move: Move): nat {
    if move.Used? then move.found.index + 1 else move.count
  }

  function Cursors(moves: seq<Move>): map<string, nat> {
    if moves == [] then map[]
    else
      var last := moves[|moves| - 1];
      Cursors(moves[..|moves| - 1])[last.family := To(last)]
  }

  function CursorIn(cursors: map<string, nat>, family: string): nat {
    if family in cursors then cursors[family] else 0
  }

  /** The cursor of a family never moves back, and every wait uses a batch at or after it. */
  ghost predicate Forward(moves: seq<Move>) {
    forall i, j :: 0 <= i < j < |moves| && moves[i].family == moves[j].family ==>
      To(moves[i]) <= if moves[j].Used? then moves[j].found.index else To(moves[j])
  }

  /** Between its match and its own move, a wait saw the cursor of its family set past its batch. */
  ghost predicate Overtaken(moves: seq<Move>) {
    exists i, j :: 0 <= i < j < |moves| && Overtakes(moves[i], i, moves[j])
  }

  predicate Overtakes(other: Move, at: nat, move: Move) {
    move.Used? && other.family == move.family && move.since <= at && move.found.index < To(other)
  }

  /** Each use is of a batch that carries what was waited for, and no cursor is past the batches. */
  ghost predicate Genuine(moves: seq<Move>, received: seq<Batch>) {
    forall i :: 0 <= i < |moves| ==>
      To(moves[i]) <= |received| && (moves[i].Used? ==> Shows(moves[i].found, moves[i].status, received))
  }

  predicate Shows(found: Match, status: string, received: seq<Batch>) {
    found.index < |received| && Carries(received[found.index], status, [found.labels], found.labels)
  }

  /** One of the first `count` moves is a firing of this family with these labels. */
  ghost predicate Fired(moves: seq<Move>, count: nat, family: string, labels: Labels) {
    exists i :: 0 <= i < count && i < |moves| && IsFiring(moves[i], family, labels)
  }

  predicate IsFiring(move: Move, family: string, labels: Labels) {
    move.Used? && move.family == family && move.status == "firing" && move.found.labels == labels
  }

  /** Each end of an alert was waited for after its firing was delivered. */
  ghost predicate Paired(moves: seq<Move>) {
    forall j :: 0 <= j < |moves| && moves[j].Used? && moves[j].status != "firing" ==>
      Fired(moves, j, moves[j].family, moves[j].found.labels)
  }

  ghost predicate Remembered(episodes: map<string, Labels>, moves: seq<Move>) {
    forall family :: family in episodes ==> Fired(moves, |moves|, family, episodes[family])
  }

  ghost predicate SoundCall(call: Call, moves: seq<Move>, received: seq<Batch>) {
    && (call.status != "firing" ==>
          forall labels :: labels in call.expected ==> Fired(moves, |moves|, call.family, labels))
    && (call.stage.Matched? || call.stage.Counted? ==>
          call.stage.found.labels in call.expected && Shows(call.stage.found, call.status, received))
    && (call.stage.Counted? && call.status == "firing" ==>
          Fired(moves, |moves|, call.family, call.stage.found.labels))
  }

  ghost predicate Sound(calls: seq<Call>, moves: seq<Move>, received: seq<Batch>) {
    forall k :: 0 <= k < |calls| ==> SoundCall(calls[k], moves, received)
  }

  /** When it matched, no cursor of its family was past its batch. */
  ghost predicate Ahead(call: Call, since: nat, moves: seq<Move>) {
    call.stage.Matched? ==>
      since <= |moves|
      && forall i :: 0 <= i < since && moves[i].family == call.family ==> To(moves[i]) <= call.stage.found.index
  }

  ghost predicate AllAhead(calls: seq<Call>, since: seq<nat>, moves: seq<Move>) {
    |since| == |calls| && forall k :: 0 <= k < |calls| ==> Ahead(calls[k], since[k], moves)
  }

  /** As long as no wait has been overtaken. */
  ghost predicate Ordered(calls: seq<Call>, since: seq<nat>, moves: seq<Move>) {
    !Overtaken(moves) ==> Forward(moves) && AllAhead(calls, since, moves)
  }

  ghost predicate Good(received: seq<Batch>, cursors: map<string, nat>, episodes: map<string, Labels>,
                       calls: seq<Call>, since: seq<nat>, moves: seq<Move>)
  {
    && cursors == Cursors(moves) && Genuine(moves, received) && Paired(moves) && Remembered(episodes, moves)
    && |since| == |calls| && Sound(calls, moves, received) && Ordered(calls, since, moves)
  }

  /** Some batch at or after the cursor carries what a wait is for. */
  predicate Deliverable(received: seq<Batch>, from: nat, status: string, expected: seq<Labels>) {
    exists i :: from <= i < |received| && Relevant(received[i], status, expected)
  }

  predicate Earliest(received: seq<Batch>, from: nat, status: string, expected: seq<Labels>, found: Match) {
    && from <= found.index < |received| && found.labels in expected
    && Carries(received[found.index], status, expected, found.labels)
    && forall i :: from <= i < found.index ==> !Relevant(received[i], status, expected)
  }

  lemma OneEarliest(received: seq<Batch>, from: nat, status: string, expected: seq<Labels>, a: Match, b: Match)
    requires Earliest(received, from, status, expected, a) && Earliest(received, from, status, expected, b)
    ensures a.index == b.index
  {
    CarriesRelevant(received[a.index], status, expected, a.labels);
    CarriesRelevant(received[b.index], status, expected, b.labels);
  }

  lemma CarriesRelevant(batch: Batch, status: string, expected: seq<Labels>, labels: Labels)
    requires Carries(batch, status, expected, labels)
    ensures Relevant(batch, status, expected)
  {
  }

  // ----- the log of the cursors

  lemma CursorsMore(moves: seq<Move>, move: Move)
    ensures Cursors(moves + [move]) == Cursors(moves)[move.family := To(move)]
  {
    assert (moves + [move])[..|moves|] == moves;
  }

  lemma {:induction false} CursorIsLast(moves: seq<Move>, i: nat)
    requires Forward(moves) && i < |moves|
    ensures To(moves[i]) <= CursorIn(Cursors(moves), moves[i].family)
    decreases |moves|
  {
    if i < |moves| - 1 {
      CursorIsLast(moves[..|moves| - 1], i);
    }
  }

  lemma {:induction false} CursorIsMove(moves: seq<Move>, family: string)
    ensures family in Cursors(moves) ==>
              exists i :: 0 <= i < |moves| && moves[i].family == family && To(moves[i]) == Cursors(moves)[family]
    decreases |moves|
  {
    if moves != [] && moves[|moves| - 1].family != family {
      CursorIsMove(moves[..|moves| - 1], family);
      if family in Cursors(moves) {
        var i :| 0 <= i < |moves| - 1 && moves[i].family == family && To(moves[i]) == Cursors(moves)[family];
      }
    }
  }

  /** Going forward, the cursor of any family at any earlier time is at most that of now. */
  lemma NeverBack(moves: seq<Move>, k: nat, family: string)
    requires Forward(moves) && k <= |moves|
    ensures CursorIn(Cursors(moves[..k]), family) <= CursorIn(Cursors(moves), family)
  {
    if family in Cursors(moves[..k]) {
      CursorIsMove(moves[..k], family);
      var i :| 0 <= i < k && moves[i].family == family && To(moves[i]) == Cursors(moves[..k])[family];
      CursorIsLast(moves, i);
    }
  }

  /** Going forward, a family never uses a batch twice, nor one from before its last fault. */
  lemma UsedOnce(moves: seq<Move>, i: nat, j: nat)
    requires Forward(moves) && i < j < |moves| && moves[i].family == moves[j].family && moves[j].Used?
    ensures if moves[i].Used? then moves[i].found.index < moves[j].found.index
            else moves[i].count <= moves[j].found.index
  {
  }

  lemma OvertakenMore(moves: seq<Move>, move: Move)
    ensures Overtaken(moves + [move]) <==>
            Overtaken(moves) || exists i :: 0 <= i < |moves| && Overtakes(moves[i], i, move)
  {
    var more := moves + [move];
    if Overtaken(moves) {
      var i, j :| 0 <= i < j < |moves| && Overtakes(moves[i], i, moves[j]);
      assert Overtakes(more[i], i, more[j]);
    } else if i :| 0 <= i < |moves| && Overtakes(moves[i], i, move) {
      assert Overtakes(more[i], i, more[|moves|]);
    }
    if Overtaken(more) {
      var i, j :| 0 <= i < j < |more| && Overtakes(more[i], i, more[j]);
      assert j < |moves| ==> Overtakes(moves[i], i, moves[j]);
    }
  }

  lemma AheadStays(calls: seq<Call>, since: seq<nat>, moves: seq<Move>, move: Move)
    requires AllAhead(calls, since, moves)
    ensures AllAhead(calls, since, moves + [move])
  {
    forall k | 0 <= k < |calls|
      ensures Ahead(calls[k], since[k], moves + [move])
    {
      assert Ahead(calls[k], since[k], moves);
    }
  }

  /** A wait sets the cursor: in order if and only if nothing overtook it. */
  lemma OrderUsed(calls: seq<Call>, since: seq<nat>, moves: seq<Move>, k: nat)
    requires Ordered(calls, since, moves) && k < |calls| == |since| && calls[k].stage.Matched?
    ensures var found := calls[k].stage.found;
            Ordered(calls[k := calls[k].(stage := Counted(found))], since,
                    moves + [Used(calls[k].family, calls[k].status, found, since[k])])
  {
    var found := calls[k].stage.found;
    var move := Used(calls[k].family, calls[k].status, found, since[k]);
    OvertakenMore(moves, move);
    if !Overtaken(moves + [move]) {
      forall i | 0 <= i < |moves| && moves[i].family == move.family
        ensures To(moves[i]) <= found.index
      {
        assert Ahead(calls[k], since[k], moves) && !Overtakes(moves[i], i, move);
      }
      AheadStays(calls, since, moves, move);
    }
  }

  lemma OrderFaulted(calls: seq<Call>, since: seq<nat>, moves: seq<Move>, family: string, received: seq<Batch>)
    requires Ordered(calls, since, moves) && Genuine(moves, received)
    ensures Ordered(calls, since, moves + [Faulted(family, |received|)])
  {
    var move := Faulted(family, |received|);
    OvertakenMore(moves, move);
    if !Overtaken(moves) {
      AheadStays(calls, since, moves, move);
    }
  }

  /** A match is of a batch at or after the cursor. */
  lemma OrderMatched(calls: seq<Call>, since: seq<nat>, moves: seq<Move>, k: nat, found: Match)
    requires Ordered(calls, since, moves) && k < |calls| == |since|
    requires CursorIn(Cursors(moves), calls[k].family) <= found.index
    ensures Ordered(calls[k := calls[k].(stage := Matched(found))], since[k := |moves|], moves)
  {
    if !Overtaken(moves) {
      forall i | 0 <= i < |moves| && moves[i].family == calls[k].family
        ensures To(moves[i]) <= found.index
      {
        CursorIsLast(moves, i);
      }
      var after := calls[k := calls[k].(stage := Matched(found))];
      forall j | 0 <= j < |after|
        ensures Ahead(after[j], since[k := |moves|][j], moves)
      {
        assert Ahead(calls[j], since[j], moves);
      }
    }
  }

  // ----- firings, and what waits for their end

  /** Whatever was fired stays fired. */
  lemma FiredStays(moves: seq<Move>, count: nat, more: seq<Move>, after: nat, family: string, labels: Labels)
    requires Fired(moves, count, family, labels) && moves <= more && count <= after
    ensures Fired(more, after, family, labels)
  {
    var i :| 0 <= i < count && i < |moves| && IsFiring(moves[i], family, labels);
    assert IsFiring(more[i], family, labels);
  }

  lemma StaysRemembered(episodes: map<string, Labels>, moves: seq<Move>, more: seq<Move>)
    requires Remembered(episodes, moves) && moves <= more
    ensures Remembered(episodes, more)
  {
    forall family | family in episodes
      ensures Fired(more, |more|, family, episodes[family])
    {
      FiredStays(moves, |moves|, more, |more|, family, episodes[family]);
    }
  }

  lemma Forget(episodes: map<string, Labels>, moves: seq<Move>, family: string, left: map<string, Labels>)
    requires Remembered(episodes, moves) && left == episodes - {family}
    ensures Remembered(left, moves)
  {
  }

  lemma MovePairs(moves: seq<Move>, move: Move)
    requires Paired(moves)
    requires move.Used? && move.status != "firing" ==> Fired(moves, |moves|, move.family, move.found.labels)
    ensures Paired(moves + [move])
  {
    var more := moves + [move];
    forall j | 0 <= j < |more| && more[j].Used? && more[j].status != "firing"
      ensures Fired(more, j, more[j].family, more[j].found.labels)
    {
      FiredStays(moves, j, more, j, more[j].family, more[j].found.labels);
    }
  }

  lemma SoundStays(calls: seq<Call>, moves: seq<Move>, received: seq<Batch>, more: seq<Move>, all: seq<Batch>)
    requires Sound(calls, moves, received) && moves <= more && received <= all
    ensures Sound(calls, more, all)
  {
    forall k | 0 <= k < |calls|
      ensures SoundCall(calls[k], more, all)
    {
      CallStays(calls[k], moves, received, more, all);
    }
  }

  lemma CallStays(call: Call, moves: seq<Move>, received: seq<Batch>, more: seq<Move>, all: seq<Batch>)
    requires SoundCall(call, moves, received) && moves <= more && received <= all
    ensures SoundCall(call, more, all)
  {
    if call.status != "firing" {
      forall labels | labels in call.expected
        ensures Fired(more, |more|, call.family, labels)
      {
        FiredStays(moves, |moves|, more, |more|, call.family, labels);
      }
    } else if call.stage.Counted? {
      FiredStays(moves, |moves|, more, |more|, call.family, call.stage.found.labels);
    }
  }

  lemma SoundSet(calls: seq<Call>, k: nat, call: Call, moves: seq<Move>, received: seq<Batch>)
    requires Sound(calls, moves, received) && k < |calls| && SoundCall(call, moves, received)
    ensures Sound(calls[k := call], moves, received)
  {
  }

  /** A call begins. */
  lemma Begun(calls: seq<Call>, since: seq<nat>, call: Call, moves: seq<Move>, received: seq<Batch>)
    requires Sound(calls, moves, received) && Ordered(calls, since, moves) && |since| == |calls|
    requires call.stage.Polling? && SoundCall(call, moves, received)
    ensures Sound(calls + [call], moves, received) && Ordered(calls + [call], since + [0], moves)
  {
  }

  lemma CarriesJust(batch: Batch, status: string, expected: seq<Labels>, labels: Labels)
    requires Carries(batch, status, expected, labels)
    ensures labels in expected && Carries(batch, status, [labels], labels)
  {
    var k :| 0 <= k < |batch.alerts| && Wanted(batch.alerts[k], status, expected) && batch.alerts[k].labels == labels;
    assert Wanted(batch.alerts[k], status, [labels]);
  }

  /** The firing that a resolved delivery answers is an earlier batch, with the same labels. */
  lemma ResolvedAfterFiring(moves: seq<Move>, j: nat)
    requires Forward(moves) && Paired(moves) && j < |moves| && moves[j].Used? && moves[j].status == "resolved"
    ensures exists i :: 0 <= i < j && IsFiring(moves[i], moves[j].family, moves[j].found.labels)
                        && moves[i].found.index < moves[j].found.index
  {
    assert Fired(moves, j, moves[j].family, moves[j].found.labels);
    var i :| 0 <= i < j && IsFiring(moves[i], moves[j].family, moves[j].found.labels);
    UsedOnce(moves, i, j);
  }

  // ----- what every step keeps

  lemma FaultKeeps(received: seq<Batch>, cursors: map<string, nat>, episodes: map<string, Labels>, calls: seq<Call>,
                   since: seq<nat>, moves: seq<Move>, family: string, left: map<string, Labels>)
    requires Good(received, cursors, episodes, calls, since, moves) && left == episodes - {family}
    ensures Good(received, cursors[family := |received|], left, calls, since,
                 moves + [Faulted(family, |received|)])
  {
    var move := Faulted(family, |received|);
    CursorsMore(moves, move);
    OrderFaulted(calls, since, moves, family, received);
    MovePairs(moves, move);
    Forget(episodes, moves, family, left);
    StaysRemembered(left, moves, moves + [move]);
    SoundStays(calls, moves, received, moves + [move], received);
  }

  lemma UseKeeps(received: seq<Batch>, cursors: map<string, nat>, episodes: map<string, Labels>, calls: seq<Call>,
                 since: seq<nat>, moves: seq<Move>, k: nat)
    requires Good(received, cursors, episodes, calls, since, moves) && k < |calls| && calls[k].stage.Matched?
    ensures var call, found := calls[k], calls[k].stage.found;
            Good(received, cursors[call.family := found.index + 1], episodes,
                 calls[k := call.(stage := Counted(found))], since,
                 moves + [Used(call.family, call.status, found, since[k])])
  {
    var call, found := calls[k], calls[k].stage.found;
    var move := Used(call.family, call.status, found, since[k]);
    OrderUsed(calls, since, moves, k);
    CursorsMore(moves, move);
    MovePairs(moves, move);
    StaysRemembered(episodes, moves, moves + [move]);
    SoundStays(calls, moves, received, moves + [move], received);
    assert IsFiring((moves + [move])[|moves|], call.family, found.labels) <==> call.status == "firing";
    SoundSet(calls, k, call.(stage := Counted(found)), moves + [move], received);
  }

  class Fixture {
    var received: seq<Batch>
    var cursors: map<string, nat>
    var episodes: map<string, Labels>
    var calls: seq<Call>
    /** Every time a cursor was set. */
    ghost var moves: seq<Move>
    /** How many moves there had been when each wait matched. */
    ghost var since: seq<nat>

    ghost predicate Valid()
      reads this
    {
      Good(received, cursors, episodes, calls, since, moves)
    }

    /** No wait is between its match and its move. */
    ghost predicate Settled()
      reads this
    {
      forall k :: 0 <= k < |calls| ==> !calls[k].stage.Matched?
    }

    /** No wait but perhaps this one, which has just matched. */
    ghost predicate SettledBut(k: nat)
      reads this
    {
      |since| == |calls| && forall j :: 0 <= j < |calls| && calls[j].stage.Matched? ==> j == k && since[j] == |moves|
    }

    function Cursor(family: string): nat
      reads this
    {
      CursorIn(cursors, family)
    }

    twostate predicate Kept()
      reads this
    {
      old(received) <= received && old(moves) <= moves && |old(calls)| <= |calls|
    }

    constructor ()
      ensures Valid() && received == [] && cursors == map[] && episodes == map[] && calls == [] && moves == []
    {
      received, cursors, episodes, calls, moves, since := [], map[], map[], [], [], [];
    }

    /** The cursors go forward if and only if no wait was overtaken. */
    lemma ForwardIff()
      requires Valid()
      ensures Forward(moves) <==> !Overtaken(moves)
    {
    }

    method Deliver(batch: Batch)
      requires Valid()
      modifies this`received
      ensures Valid() && Kept() && received == old(received) + [batch]
    {
      SoundStays(calls, moves, received, moves, received + [batch]);
      received := received + [batch];
    }

    /** A new fault: nothing delivered before counts for it, and the last episode is forgotten. */
    method StartFault(family: string)
      requires Valid()
      modifies this`cursors, this`episodes, this`moves
      ensures Valid() && Kept() && cursors == old(cursors)[family := |received|] && episodes == old(episodes) - {family}
      ensures moves == old(moves) + [Faulted(family, |received|)]
    {
      var left := episodes - {family};
      FaultKeeps(received, cursors, episodes, calls, since, moves, family, left);
      cursors, episodes := cursors[family := |received|], left;
      moves := moves + [Faulted(family, |received|)];
    }

    /** `firing` has found alerts of the family, and begins to wait for their delivery. */
    method CallFiring(family: string, expected: seq<Labels>)
      requires Valid()
      modifies this`calls, this`since
      ensures Valid() && Kept() && calls == old(calls) + [Call(family, "firing", expected, Polling)]
      ensures since == old(since) + [0]
    {
      var call := Call(family, "firing", expected, Polling);
      Begun(calls, since, call, moves, received);
      calls, since := calls + [call], since + [0];
    }

    /** `resolved` throws for a family that has no delivered firing, and else waits for the labels of the episode. */
    method CallResolved(family: string) returns (ok: bool)
      requires Valid()
      modifies this`calls, this`since
      ensures Valid() && Kept() && (ok <==> family in episodes)
      ensures calls == if ok then old(calls) + [Call(family, "resolved", [episodes[family]], Polling)] else old(calls)
    {
      ok := family in episodes;
      if ok {
        var call := Call(family, "resolved", [episodes[family]], Polling);
        Begun(calls, since, call, moves, received);
        calls, since := calls + [call], since + [0];
      }
    }

    predicate CanMatch(call: Call)
      reads this
    {
      call.stage.Polling? && Deliverable(received, Cursor(call.family), call.status, call.expected)
    }

    /** One poll of `notification`. */
    method Poll(k: nat)
      requires Valid()
      modifies this`calls, this`since
      ensures Valid() && Kept()
      ensures if k < |old(calls)| && CanMatch(old(calls)[k])
              then var call := old(calls)[k];
                   && |calls| == |old(calls)| && calls == old(calls)[k := call.(stage := calls[k].stage)]
                   && calls[k].stage.Matched? && since == old(since)[k := |moves|]
                   && Earliest(received, Cursor(call.family), call.status, call.expected, calls[k].stage.found)
              else calls == old(calls) && since == old(since)
    {
      if k >= |calls| || !calls[k].stage.Polling? {
        return;
      }
      var call := calls[k];
      var found := MatchingNotification(received, Cursor(call.family), call.status, call.expected);
      if found.Some? {
        var m := found.value;
        CarriesJust(received[m.index], call.status, call.expected, m.labels);
        OrderMatched(calls, since, moves, k, m);
        SoundSet(calls, k, call.(stage := Matched(m)), moves, received);
        calls, since := calls[k := call.(stage := Matched(m))], since[k := |moves|];
      }
    }

    /** The wait goes on after its match, and sets the cursor. */
    method Commit(k: nat)
      requires Valid()
      modifies this`calls, this`cursors, this`moves
      ensures Valid() && Kept()
      ensures if k < |old(calls)| && old(calls)[k].stage.Matched?
              then var call, found := old(calls)[k], old(calls)[k].stage.found;
                   && calls == old(calls)[k := call.(stage := Counted(found))]
                   && cursors == old(cursors)[call.family := found.index + 1]
                   && moves == old(moves) + [Used(call.family, call.status, found, since[k])]
              else calls == old(calls) && cursors == old(cursors) && moves == old(moves)
      ensures old(SettledBut(k)) ==> Settled()
    {
      if k >= |calls| || !calls[k].stage.Matched? {
        return;
      }
      var call, found := calls[k], calls[k].stage.found;
      UseKeeps(received, cursors, episodes, calls, since, moves, k);
      moves := moves + [Used(call.family, call.status, found, since[k])];
      cursors := cursors[call.family := found.index + 1];
      calls := calls[k := call.(stage := Counted(found))];
    }

    /** `firing` records the labels it was delivered with. */
    method Record(k: nat)
      requires Valid()
      modifies this`calls, this`episodes
      ensures Valid() && Kept()
      ensures if k < |old(calls)| && old(calls)[k].stage.Counted? && old(calls)[k].status == "firing"
              then && calls == old(calls)[k := old(calls)[k].(stage := Recorded)]
                   && episodes == old(episodes)[old(calls)[k].family := old(calls)[k].stage.found.labels]
              else calls == old(calls) && episodes == old(episodes)
      ensures old(Settled()) ==> Settled()
    {
      if k >= |calls| || !calls[k].stage.Counted? || calls[k].status != "firing" {
        return;
      }
      SoundSet(calls, k, calls[k].(stage := Recorded), moves, received);
      episodes := episodes[calls[k].family := calls[k].stage.found.labels];
      calls := calls[k := calls[k].(stage := Recorded)];
    }

    method Handle(event: Event)
      requires Valid()
      modifies this
      ensures Valid() && Kept()
      ensures event.StartsFault? ==> moves == old(moves) + [Faulted(event.family, |received|)]
      ensures old(Settled()) && !event.StartsFault? ==> moves == old(moves)
      ensures old(Settled()) ==> if event.Polls? then SettledBut(event.k) else Settled()
    {
      match event
      case Delivered(batch) => Deliver(batch);
      case StartsFault(family) => StartFault(family);
      case CallsFiring(family, expected) => CallFiring(family, expected);
      case CallsResolved(family) => var _ := CallResolved(family);
      case Polls(k) => Poll(k);
      case Commits(k) => Commit(k);
      case Records(k) => Record(k);
    }

    /**
      Every run of deliveries, faults and waits, however they overlap: the cursors are those of the log, every use is of
      a batch that carries the alert, an end is only waited for after its firing, and the cursors go forward if and only
      if no wait was overtaken.
    */
    method Drive(events: seq<Event>)
      requires Valid()
      modifies this
      ensures Valid() && Kept() && cursors == Cursors(moves)
      ensures Paired(moves) && Genuine(moves, received) && (Forward(moves) <==> !Overtaken(moves))
    {
      for i := 0 to |events|
        invariant Valid() && Kept()
      {
        Handle(events[i]);
      }
      ForwardIff();
    }

    /** One event, where a wait that matches goes on at once. */
    method Alone(event: Event)
      requires Valid() && Settled()
      modifies this
      ensures Valid() && Kept() && Settled() && (Overtaken(moves) <==> old(Overtaken(moves)))
    {
      if event.StartsFault? {
        OvertakenMore(moves, Faulted(event.family, |received|));
      }
      Handle(event);
      if event.Polls? {
        CommitAtOnce(event.k);
      }
    }

    /** Without a step in between, a wait is not overtaken. */
    method CommitAtOnce(k: nat)
      requires Valid() && SettledBut(k)
      modifies this
      ensures Valid() && Kept() && Settled() && (Overtaken(moves) <==> old(Overtaken(moves)))
    {
      if k < |calls| && calls[k].stage.Matched? {
        OvertakenMore(moves, Used(calls[k].family, calls[k].status, calls[k].stage.found, since[k]));
      }
      Commit(k);
    }

    /** Every run in which nothing comes between a match and its move: the cursors go forward. */
    method DriveAlone(events: seq<Event>)
      requires Valid() && Settled() && !Overtaken(moves)
      modifies this
      ensures Valid() && Kept() && Settled() && Forward(moves)
    {
      for i := 0 to |events|
        invariant Valid() && Kept() && Settled() && !Overtaken(moves)
      {
        Alone(events[i]);
      }
      ForwardIff();
    }

    /** Two waits of one family for the same firing, in any session where it is deliverable: both use one batch. */
    method TwoWaits(family: string, expected: seq<Labels>)
      requires Valid() && Deliverable(received, Cursor(family), "firing", expected)
      modifies this
      ensures Valid() && Overtaken(moves) && !Forward(moves)
      ensures |moves| == |old(moves)| + 2
      ensures var a, b := moves[|old(moves)|], moves[|old(moves)| + 1];
              a.Used? && b.Used? && a.family == b.family == family && a.found.index == b.found.index
    {
      var n := |calls|;
      CallAndMatch(family, expected);
      CallAndMatch(family, expected);
      OneEarliest(received, Cursor(family), "firing", expected, calls[n].stage.found, calls[n + 1].stage.found);
      BothCommit(n);
    }

    /** Two waits have matched one batch, and nothing has happened since. */
    method BothCommit(n: nat)
      requires Valid() && n + 1 < |calls| && calls[n].stage.Matched? && calls[n + 1].stage.Matched?
      requires calls[n].family == calls[n + 1].family && since[n] == since[n + 1] == |moves|
      requires calls[n].stage.found.index == calls[n + 1].stage.found.index
      modifies this`calls, this`cursors, this`moves
      ensures Valid() && Overtaken(moves) && !Forward(moves) && |moves| == |old(moves)| + 2
      ensures var a, b := moves[|old(moves)|], moves[|old(moves)| + 1];
              a.Used? && b.Used? && a.family == b.family == old(calls)[n].family && a.found.index == b.found.index
    {
      ghost var m := |moves|;
      Commit(n);
      Commit(n + 1);
      assert Overtakes(moves[m], m, moves[m + 1]);
    }

    method CallAndMatch(family: string, expected: seq<Labels>)
      requires Valid() && Deliverable(received, Cursor(family), "firing", expected)
      modifies this`calls, this`since
      ensures Valid() && |calls| == |old(calls)| + 1 && old(calls) <= calls && since == old(since) + [|moves|]
      ensures var call := calls[|old(calls)|];
              call.family == family && call.stage.Matched? && call.expected == expected && call.status == "firing"
              && Earliest(received, Cursor(family), "firing", expected, call.stage.found)
    {
      var n := |calls|;
      CallFiring(family, expected);
      Poll(n);
    }
  }
}

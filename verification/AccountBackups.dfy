/**
  `backupAccounts`: admit every ready account, then poll each capture against one shared deadline.
  Time is in milliseconds. The server and the clock are parameters: what each request answers, and how long
  each action takes. A sleep lasts at least what was asked for.
 */
module AccountBackups {
  import opened Common

  type Id = string

  datatype Account = Account(id: Id, state: string)

  datatype Poll = Reported(state: string) | Broken

  /** Requests are answered by account index; None stands for an exception. */
  datatype Server = Server(
    admit: nat -> Option<Id>,
    poll: (nat, nat) -> Poll,
    inventory: nat -> Option<seq<Id>>,
    delay: nat -> nat)

  datatype Request = Admit(account: nat) | PollOf(account: nat, turn: nat) | List(account: nat)

  datatype Capture = Capture(account: nat, id: Id)

  datatype Outcome = Returned(completed: seq<Id>, unavailable: seq<Id>) | AggregateError(failures: nat)

  predicate Ready(a: Account) {
    a.state == "ready"
  }

  /** The clock: the time, and how many actions it has timed. */
  datatype Clock = Clock(now: int, actions: nat)

  function After(c: Clock, server: Server): (r: Clock)
    ensures r.now >= c.now
  {
    Clock(c.now + server.delay(c.actions), c.actions + 1)
  }

  function Max(a: int, b: int): int {
    if a < b then b else a
  }

  function Min(a: int, b: int): int {
    if a < b then a else b
  }

  /** `polls` turns were taken: all but the last found the capture pending, and the last one ended the polling. */
  predicate Polled(server: Server, account: nat, polls: nat) {
    polls > 0 && forall k :: 0 <= k < polls - 1 ==> Pending(server.poll(account, k))
  }

  predicate Pending(p: Poll) {
    p.Reported? && p.state != "succeeded"
  }

  /** The capture succeeded at its last poll and its receipt is listed. */
  predicate Succeeds(server: Server, account: nat, id: Id, polls: nat) {
    && Polled(server, account, polls)
    && server.poll(account, polls - 1) == Reported("succeeded")
    && server.inventory(account).Some? && id in server.inventory(account).value
  }

  /** A turn that goes on asks for the time, sleeps for a second at most, and starts the next one. */
  function NextTurn(answered: Clock, server: Server, deadline: int): Clock {
    var asked := After(answered, server);
    After(asked.(now := asked.now + Max(0, Min(1000, deadline - asked.now))), server)
  }

  function TurnStart(server: Server, deadline: int, start: Clock, turn: nat): Clock
    decreases turn, 0
  {
    if turn == 0 then start else NextTurn(Answered(server, deadline, start, turn - 1), server, deadline)
  }

  /** When the answer to a poll is in, as long as all before it found the capture pending. */
  function Answered(server: Server, deadline: int, start: Clock, turn: nat): Clock
    decreases turn, 1
  {
    After(TurnStart(server, deadline, start, turn), server)
  }

  /** The answers to the first polls come before the deadline. */
  predicate InTime(server: Server, deadline: int, start: Clock, polls: nat) {
    forall k :: 0 <= k < polls ==> Answered(server, deadline, start, k).now < deadline
  }

  /** The polling goes on as long as the capture is pending and the answer came before the deadline. */
  predicate Stops(server: Server, account: nat, deadline: int, start: Clock, polls: nat) {
    && Polled(server, account, polls)
    && InTime(server, deadline, start, polls - 1)
    && (Pending(server.poll(account, polls - 1)) ==> Answered(server, deadline, start, polls - 1).now >= deadline)
  }

  /** So the server's answers and the clock fix the number of polls. */
  lemma StopsOnce(server: Server, account: nat, deadline: int, start: Clock, m: nat, n: nat)
    requires Stops(server, account, deadline, start, m) && Stops(server, account, deadline, start, n)
    ensures m == n
  {
    var i: nat, j: nat := m - 1, n - 1;
    assert i < j ==> Pending(server.poll(account, i)) && Answered(server, deadline, start, i).now < deadline;
    assert j < i ==> Pending(server.poll(account, j)) && Answered(server, deadline, start, j).now < deadline;
  }

  /** An operation reported as failed is polled like a pending one: up to the first answer at or after the deadline. */
  lemma FailedIsPolled(server: Server, account: nat, deadline: int, start: Clock, polls: nat)
    requires polls > 0 && forall k: nat :: server.poll(account, k) == Reported("failed")
    ensures Stops(server, account, deadline, start, polls) <==>
            && Answered(server, deadline, start, polls - 1).now >= deadline
            && InTime(server, deadline, start, polls - 1)
    ensures forall id :: !Succeeds(server, account, id, polls)
  {
    assert "failed"[0] == 'f' && "succeeded"[0] == 's';
    forall k: nat
      ensures Pending(server.poll(account, k))
    {
      assert server.poll(account, k) == Reported("failed");
    }
    var last: nat := polls - 1;
    assert Pending(server.poll(account, last)) && Polled(server, account, polls);
  }

  /** The polling of one capture, and its inventory check. It ends, whatever the server answers. */
  method Follow(server: Server, account: nat, id: Id, deadline: int, start: Clock)
    returns (completed: bool, end: Clock, ghost polls: nat, ghost requests: seq<Request>)
    ensures Polled(server, account, polls) && PollOf(account, 0) in requests
    ensures forall q <- requests :: !q.Admit?
    // Past the deadline a capture is still polled, once.
    ensures end.now >= start.now && polls <= 1 + Max(0, deadline - start.now)
    ensures completed <==> Succeeds(server, account, id, polls)
    ensures Stops(server, account, deadline, start, polls)
    ensures Pending(server.poll(account, polls - 1)) ==> end == Answered(server, deadline, start, polls - 1)
  {
    end, polls, requests := start, 0, [];
    var turn := 0;
    while true
      invariant polls == turn && end.now >= start.now && turn <= Max(0, Min(end.now, deadline) - start.now)
      invariant forall k :: 0 <= k < turn ==> Pending(server.poll(account, k))
      invariant end == TurnStart(server, deadline, start, turn)
      invariant InTime(server, deadline, start, turn)
      invariant turn > 0 ==> PollOf(account, 0) in requests
      invariant forall q <- requests :: !q.Admit?
      decreases Max(0, deadline - end.now)
    {
      requests := requests + [PollOf(account, turn)];
      var current := server.poll(account, turn);
      turn, polls := turn + 1, turn + 1;
      end := After(end, server);
      if current.Broken? {
        return false, end, polls, requests;
      }
      if current.state == "succeeded" {
        break;
      }
      if end.now >= deadline {
        return false, end, polls, requests;
      }
      end := After(end, server);
      var pause := Max(0, Min(1000, deadline - end.now));
      end := After(end.(now := end.now + pause), server);
    }
    requests := requests + [List(account)];
    end := After(end, server);
    var items := server.inventory(account);
    if items.None? || id !in items.value {
      return false, end, polls, requests;
    }
    return true, end, polls, requests;
  }

  // ----- what the lists should hold

  /** The admissions of the first loop: one for each ready account, in order. */
  function Admissions(accounts: seq<Account>): seq<Request> {
    if accounts == [] then []
    else
      var n := |accounts| - 1;
      Admissions(accounts[..n]) + if Ready(accounts[n]) then [Admit(n)] else []
  }

  function Captures(accounts: seq<Account>, server: Server): seq<Capture> {
    if accounts == [] then []
    else
      var n := |accounts| - 1;
      Captures(accounts[..n], server)
      + if Ready(accounts[n]) && server.admit(n).Some? then [Capture(n, server.admit(n).value)] else []
  }

  function Unavailable(accounts: seq<Account>): seq<Id> {
    if accounts == [] then []
    else
      var n := |accounts| - 1;
      Unavailable(accounts[..n]) + if Ready(accounts[n]) then [] else [accounts[n].id]
  }

  function Refusals(accounts: seq<Account>, server: Server): nat {
    if accounts == [] then 0
    else
      var n := |accounts| - 1;
      Refusals(accounts[..n], server) + if Ready(accounts[n]) && server.admit(n).None? then 1 else 0
  }

  /** The captures that succeed, given how often each was polled. */
  function Successes(server: Server, captures: seq<Capture>, polls: seq<nat>): (r: seq<Id>)
    requires |polls| == |captures|
    ensures |r| <= |captures|
  {
    if captures == [] then []
    else
      var n := |captures| - 1;
      Successes(server, captures[..n], polls[..n])
      + if Succeeds(server, captures[n].account, captures[n].id, polls[n]) then [captures[n].id] else []
  }

  function Ids(captures: seq<Capture>): (r: seq<Id>)
    ensures |r| == |captures| && forall c :: 0 <= c < |r| ==> r[c] == captures[c].id
  {
    seq(|captures|, c requires 0 <= c < |captures| => captures[c].id)
  }

  /** The backup of a ready account was admitted, and its receipt is in the account's inventory. */
  predicate BackedUp(server: Server, account: nat) {
    && server.admit(account).Some? && server.inventory(account).Some?
    && server.admit(account).value in server.inventory(account).value
  }

  /** Every account is in exactly one list: unavailable, refused, or captured. */
  lemma {:induction false} EachAccountOnce(accounts: seq<Account>, server: Server)
    ensures |Unavailable(accounts)| + Refusals(accounts, server) + |Captures(accounts, server)| == |accounts|
    ensures Refusals(accounts, server) == 0 <==>
              forall i :: 0 <= i < |accounts| && Ready(accounts[i]) ==> server.admit(i).Some?
    decreases |accounts|
  {
    if accounts != [] {
      var n := |accounts| - 1;
      EachAccountOnce(accounts[..n], server);
      assert forall i :: 0 <= i < n ==> accounts[..n][i] == accounts[i];
    }
  }

  /** The captures are the admitted accounts. */
  lemma {:induction false} CapturesAre(accounts: seq<Account>, server: Server, c: Capture)
    ensures c in Captures(accounts, server) <==>
              c.account < |accounts| && Ready(accounts[c.account]) && server.admit(c.account) == Some(c.id)
    decreases |accounts|
  {
    if accounts != [] {
      var n := |accounts| - 1;
      CapturesAre(accounts[..n], server, c);
      assert c.account < n ==> accounts[..n][c.account] == accounts[c.account];
    }
  }

  lemma {:induction false} AllSucceed(server: Server, captures: seq<Capture>, polls: seq<nat>)
    requires |polls| == |captures|
    ensures |Successes(server, captures, polls)| == |captures| <==>
              forall c :: 0 <= c < |captures| ==> Succeeds(server, captures[c].account, captures[c].id, polls[c])
    ensures |Successes(server, captures, polls)| == |captures| ==> Successes(server, captures, polls) == Ids(captures)
    decreases |captures|
  {
    if captures != [] {
      var n := |captures| - 1;
      AllSucceed(server, captures[..n], polls[..n]);
      assert forall c :: 0 <= c < n ==> captures[..n][c] == captures[c] && polls[..n][c] == polls[c];
    }
  }

  /** The first loop: admit every ready account. */
  method AdmitAll(accounts: seq<Account>, server: Server, start: Clock)
    returns (captures: seq<Capture>, unavailable: seq<Id>, failures: nat, end: Clock, ghost requests: seq<Request>)
    ensures captures == Captures(accounts, server) && unavailable == Unavailable(accounts)
    ensures failures == Refusals(accounts, server) && requests == Admissions(accounts)
  {
    captures, unavailable, failures, end, requests := [], [], 0, start, [];
    for i := 0 to |accounts|
      invariant requests == Admissions(accounts[..i]) && captures == Captures(accounts[..i], server)
      invariant unavailable == Unavailable(accounts[..i]) && failures == Refusals(accounts[..i], server)
    {
      assert accounts[..i + 1][..i] == accounts[..i];
      if !Ready(accounts[i]) {
        unavailable := unavailable + [accounts[i].id];
        continue;
      }
      requests := requests + [Admit(i)];
      end := After(end, server);
      var operation := server.admit(i);
      if operation.Some? {
        captures := captures + [Capture(i, operation.value)];
      } else {
        failures := failures + 1;
      }
    }
    assert accounts[..|accounts|] == accounts;
  }

  /** The second loop: follow every capture against the one deadline. */
  method FollowAll(captures: seq<Capture>, server: Server, deadline: int, start: Clock)
    returns (completed: seq<Id>, failures: nat, ghost polls: seq<nat>, ghost requests: seq<Request>)
    ensures |polls| == |captures| && completed == Successes(server, captures, polls)
    ensures failures == |captures| - |completed|
    ensures forall c :: 0 <= c < |captures| ==>
              Polled(server, captures[c].account, polls[c]) && PollOf(captures[c].account, 0) in requests
    ensures forall q <- requests :: !q.Admit?
  {
    completed, failures, polls, requests := [], 0, [], [];
    var clock := start;
    for c := 0 to |captures|
      invariant |polls| == c && completed == Successes(server, captures[..c], polls)
      invariant failures == c - |completed|
      invariant forall d :: 0 <= d < c ==>
                  Polled(server, captures[d].account, polls[d]) && PollOf(captures[d].account, 0) in requests
      invariant forall q <- requests :: !q.Admit?
    {
      var done;
      ghost var turns, made;
      done, clock, turns, made := Follow(server, captures[c].account, captures[c].id, deadline, clock);
      assert captures[..c + 1][..c] == captures[..c] && (polls + [turns])[..c] == polls;
      polls, requests := polls + [turns], requests + made;
      if done {
        completed := completed + [captures[c].id];
      } else {
        failures := failures + 1;
      }
    }
    assert captures[..|captures|] == captures;
  }

  method BackupAccounts(accounts: seq<Account>, server: Server, start: Clock, timeout: int)
    returns (outcome: Outcome, ghost polls: seq<nat>, ghost requests: seq<Request>)
    ensures var captures := Captures(accounts, server);
            && |polls| == |captures|
            && (forall c :: 0 <= c < |captures| ==>
                  Polled(server, captures[c].account, polls[c]) && PollOf(captures[c].account, 0) in requests)
            && var failed := Refusals(accounts, server) + |captures| - |Successes(server, captures, polls)|;
               outcome == if failed == 0 then Returned(Successes(server, captures, polls), Unavailable(accounts))
                          else AggregateError(failed)
    ensures outcome.Returned? ==>
              && outcome.completed == Ids(Captures(accounts, server)) && outcome.unavailable == Unavailable(accounts)
              && forall i :: 0 <= i < |accounts| && Ready(accounts[i]) ==> BackedUp(server, i)
    // Every ready account is admitted before the first poll.
    ensures Admissions(accounts) <= requests && forall q <- requests[|Admissions(accounts)|..] :: !q.Admit?
  {
    var captures, unavailable, refused, clock;
    ghost var admissions, follows;
    captures, unavailable, refused, clock, admissions := AdmitAll(accounts, server, start);
    var deadline := clock.now + timeout;
    var completed, failed;
    completed, failed, polls, follows := FollowAll(captures, server, deadline, clock);
    requests := admissions + follows;
    assert requests[|admissions|..] == follows;
    if refused + failed > 0 {
      return AggregateError(refused + failed), polls, requests;
    }
    AllBackedUp(accounts, server, polls);
    return Returned(completed, unavailable), polls, requests;
  }

  /**
    A normal return means that every ready account was admitted and every capture succeeded and is listed,
    and conversely.
   */
  lemma ReturnedMeans(accounts: seq<Account>, server: Server, polls: seq<nat>)
    requires |polls| == |Captures(accounts, server)|
    ensures var captures := Captures(accounts, server);
            Refusals(accounts, server) + |captures| - |Successes(server, captures, polls)| == 0 <==>
            && (forall i :: 0 <= i < |accounts| && Ready(accounts[i]) ==> server.admit(i).Some?)
            && (forall c :: 0 <= c < |captures| ==> Succeeds(server, captures[c].account, captures[c].id, polls[c]))
  {
    EachAccountOnce(accounts, server);
    AllSucceed(server, Captures(accounts, server), polls);
  }

  /** Without a failure, every ready account is backed up, and the completed operations are all those admitted. */
  lemma AllBackedUp(accounts: seq<Account>, server: Server, polls: seq<nat>)
    requires |polls| == |Captures(accounts, server)| && Refusals(accounts, server) == 0
    requires |Successes(server, Captures(accounts, server), polls)| == |Captures(accounts, server)|
    ensures Successes(server, Captures(accounts, server), polls) == Ids(Captures(accounts, server))
    ensures forall i :: 0 <= i < |accounts| && Ready(accounts[i]) ==> BackedUp(server, i)
  {
    var captures := Captures(accounts, server);
    ReturnedMeans(accounts, server, polls);
    AllSucceed(server, captures, polls);
    forall i | 0 <= i < |accounts| && Ready(accounts[i])
      ensures BackedUp(server, i)
    {
      CapturesAre(accounts, server, Capture(i, server.admit(i).value));
      var c :| 0 <= c < |captures| && captures[c] == Capture(i, server.admit(i).value);
    }
  }
}

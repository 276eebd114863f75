/**
  The inspector driver of the purge bootstrap child: numbered requests and commands, the deferreds that
  replies settle, and one breakpoint barrier. Deferreds are numbered in the order they are made.
 */
module InspectorDriver {
  import opened Common

  datatype Outcome = Pending | Resolved | Rejected

  datatype Location = Location(scriptId: string, lineNumber: nat)

  datatype Barrier = Barrier(location: Location, stopped: nat, frame: bool)

  /** What the driver writes: a request on the socket or a command on the child's standard input. */
  datatype Message = Request(id: nat, name: string) | Command(id: nat)

  /** `resolve` and `reject` of a promise: only the first has an effect. */
  function Settle(outcomes: seq<Outcome>, d: nat, o: Outcome): (r: seq<Outcome>)
    ensures |r| == |outcomes|
  {
    if d < |outcomes| && outcomes[d].Pending? then outcomes[d := o] else outcomes
  }

  function RejectAll(outcomes: seq<Outcome>, ds: set<nat>): (r: seq<Outcome>)
    ensures |r| == |outcomes|
    ensures forall i :: 0 <= i < |r| ==> r[i] == if i in ds && outcomes[i].Pending? then Rejected else outcomes[i]
  {
    seq(|outcomes|, i requires 0 <= i < |outcomes| => if i in ds && outcomes[i].Pending? then Rejected else outcomes[i])
  }

  lemma RejectOneMore(outcomes: seq<Outcome>, ds: set<nat>, d: nat)
    ensures Settle(RejectAll(outcomes, ds), d, Rejected) == RejectAll(outcomes, ds + {d})
  {
  }

  lemma RejectNone(outcomes: seq<Outcome>)
    ensures RejectAll(outcomes, {}) == outcomes
  {
  }

  function IdsOf(wire: seq<Message>): (r: seq<nat>)
    ensures |r| == |wire|
  {
    seq(|wire|, i requires 0 <= i < |wire| => wire[i].id)
  }

  predicate Increasing(ids: seq<nat>, last: nat) {
    && (forall i, j :: 0 <= i < j < |ids| ==> ids[i] < ids[j])
    && (forall i :: 0 <= i < |ids| ==> 0 < ids[i] <= last)
  }

  lemma NextId(ids: seq<nat>, last: nat)
    requires Increasing(ids, last)
    ensures Increasing(ids + [last + 1], last + 1)
  {
  }

  /** What reaches the driver: lines and frames from the child, calls of its methods, and its failure. */
  datatype Event =
    | Ready
    | Endpoint
    | CommandReply(id: nat, error: bool)
    | Paused(location: Option<Location>)
    | Reply(id: nat, error: bool)
    | DoSend(name: string)
    | DoReconcile
    | DoArm(at: Location)
    | DoResume
    | DoFail

  /** Where a barrier is armed and nobody has been told yet, followed over the events. */
  function Waits(event: Event, waiting: Option<Location>): Option<Location> {
    match event
    case DoArm(at) => Some(at)
    case DoResume => None
    case DoFail => None
    case Paused(location) => if waiting.Some? && location == waiting then None else waiting
    case _ => waiting
  }

  /** Somewhere in the run `arm` or `resume` comes while a barrier is still waiting. */
  predicate Overlaps(events: seq<Event>, waiting: Option<Location>)
    decreases |events|
  {
    events != [] && (
      || ((events[0].DoArm? || events[0].DoResume?) && waiting.Some?)
      || Overlaps(events[1..], Waits(events[0], waiting)))
  }

  /** What a deferred was made for. */
  datatype Owner = Start | OfRequest(id: nat) | OfCommand(id: nat) | OfBarrier

  ghost predicate Tracked(entries: map<nat, nat>, owners: seq<Owner>, owner: nat -> Owner, last: nat) {
    forall id :: id in entries ==> 0 < id <= last && entries[id] < |owners| && owners[entries[id]] == owner(id)
  }

  /** Some handler can still settle what this owner waits for. */
  ghost predicate Reachable(d: nat, owner: Owner, requests: map<nat, nat>, commands: map<nat, nat>,
                            barrier: Option<Barrier>)
  {
    match owner
    case Start => true
    case OfRequest(id) => id in requests && requests[id] == d
    case OfCommand(id) => id in commands && commands[id] == d
    case OfBarrier => barrier.Some? && barrier.value.stopped == d
  }

  /** What is pending can still be settled, or was a barrier given up. */
  ghost predicate Live(outcomes: seq<Outcome>, owners: seq<Owner>, requests: map<nat, nat>, commands: map<nat, nat>,
                       barrier: Option<Barrier>, orphans: set<nat>)
  {
    && |owners| == |outcomes|
    && (forall d :: d in orphans ==> d < |outcomes|)
    && forall d :: 0 <= d < |outcomes| ==>
         (d in orphans <==> outcomes[d].Pending? && !Reachable(d, owners[d], requests, commands, barrier))
  }

  class Driver {
    var outcomes: seq<Outcome>
    var commands: map<nat, nat>
    var requests: map<nat, nat>
    var sequence: nat
    var barrier: Option<Barrier>
    var wire: seq<Message>
    const ready: nat := 0
    const endpoint: nat := 1
    ghost var owners: seq<Owner>
    /** Barriers that were replaced or cleared before they were reached. */
    ghost var orphans: set<nat>

    ghost predicate Valid()
      reads this
    {
      && |owners| == |outcomes| >= 2
      && (forall d :: 0 <= d < |owners| ==> (owners[d].Start? <==> d < 2))
      // All ids come from the one sequence, so they are distinct.
      && Increasing(IdsOf(wire), sequence)
      && Tracked(requests, owners, (id: nat) => OfRequest(id), sequence)
      && Tracked(commands, owners, (id: nat) => OfCommand(id), sequence)
      && (barrier.Some? ==>
            && barrier.value.stopped < |owners| && owners[barrier.value.stopped].OfBarrier?
            && (barrier.value.frame ==> !outcomes[barrier.value.stopped].Pending?))
      && Live(outcomes, owners, requests, commands, barrier, orphans)
    }

    /** Nothing settled changes, and ids already sent stay. */
    twostate predicate Kept()
      reads this
    {
      && |old(outcomes)| <= |outcomes|
      && (forall d :: 0 <= d < |old(outcomes)| && !old(outcomes)[d].Pending? ==> outcomes[d] == old(outcomes)[d])
      && old(sequence) <= sequence && old(wire) <= wire
    }

    constructor ()
      ensures Valid() && sequence == 0 && orphans == {} && barrier.None? && wire == [] && outcomes == [Pending, Pending]
    {
      outcomes, owners := [Pending, Pending], [Start, Start];
      commands, requests, sequence, barrier, wire, orphans := map[], map[], 0, None, [], {};
    }

    /** `send`: a request with a new id and its own deferred. */
    method Send(name: string) returns (id: nat)
      requires Valid()
      modifies this
      ensures Valid() && Kept() && orphans == old(orphans)
      ensures id == old(sequence) + 1 == sequence && wire == old(wire) + [Request(id, name)]
      ensures outcomes == old(outcomes) + [Pending]
      ensures requests == old(requests)[id := |old(outcomes)|] && commands == old(commands) && barrier == old(barrier)
    {
      id := sequence + 1;
      sequence := id;
      requests := requests[id := |outcomes|];
      outcomes, owners := outcomes + [Pending], owners + [OfRequest(id)];
      NextId(IdsOf(wire), id - 1);
      assert IdsOf(wire + [Request(id, name)]) == IdsOf(wire) + [id];
      wire := wire + [Request(id, name)];
    }

    /** `reconcile`: a command with a new id, from the same sequence. */
    method Reconcile() returns (id: nat)
      requires Valid()
      modifies this
      ensures Valid() && Kept() && orphans == old(orphans)
      ensures id == old(sequence) + 1 == sequence && wire == old(wire) + [Command(id)]
      ensures outcomes == old(outcomes) + [Pending]
      ensures commands == old(commands)[id := |old(outcomes)|] && requests == old(requests) && barrier == old(barrier)
    {
      id := sequence + 1;
      sequence := id;
      commands := commands[id := |outcomes|];
      outcomes, owners := outcomes + [Pending], owners + [OfCommand(id)];
      NextId(IdsOf(wire), id - 1);
      assert IdsOf(wire + [Command(id)]) == IdsOf(wire) + [id];
      wire := wire + [Command(id)];
    }

    /** The child's readiness line. */
    method OnReady()
      requires Valid()
      modifies this`outcomes
      ensures Valid() && Kept() && outcomes == Settle(old(outcomes), ready, Resolved)
    {
      outcomes := Settle(outcomes, ready, Resolved);
    }

    /** The child's diagnostics name the inspector's address. */
    method OnEndpoint()
      requires Valid()
      modifies this`outcomes
      ensures Valid() && Kept() && outcomes == Settle(old(outcomes), endpoint, Resolved)
    {
      outcomes := Settle(outcomes, endpoint, Resolved);
    }

    /** The child's reply to a command: it settles that command's deferred, once. */
    method OnCommandReply(id: nat, error: bool)
      requires Valid()
      modifies this`outcomes, this`commands
      ensures Valid() && Kept() && commands == old(commands) - {id}
      ensures forall d :: 0 <= d < |outcomes| && outcomes[d] != old(outcomes)[d] ==> owners[d] == OfCommand(id)
      ensures outcomes == if id in old(commands)
                          then Settle(old(outcomes), old(commands)[id], if error then Rejected else Resolved)
                          else old(outcomes)
    {
      if id !in commands {
        assert commands - {id} == commands;
        return;
      }
      var command := commands[id];
      commands := commands - {id};
      outcomes := Settle(outcomes, command, if error then Rejected else Resolved);
    }

    /** The stop is the armed barrier's. */
    predicate AtBarrier(location: Option<Location>)
      reads this
    {
      barrier.Some? && location.Some? && location.value == barrier.value.location
    }

    /** `Debugger.paused`: either the armed barrier, whose waiter is resolved, or one resume request. */
    method OnPaused(location: Option<Location>)
      requires Valid()
      modifies this
      ensures Valid() && Kept() && orphans == old(orphans) && commands == old(commands)
      ensures if old(AtBarrier(location))
              then && wire == old(wire) && requests == old(requests)
                   && barrier == Some(old(barrier).value.(frame := true))
                   && outcomes == Settle(old(outcomes), barrier.value.stopped, Resolved)
              else && wire == old(wire) + [Request(old(sequence) + 1, "Debugger.resume")]
                   && requests == old(requests)[old(sequence) + 1 := |old(outcomes)|]
                   && barrier == old(barrier) && outcomes == old(outcomes) + [Pending]
    {
      if AtBarrier(location) {
        barrier := Some(barrier.value.(frame := true));
        outcomes := Settle(outcomes, barrier.value.stopped, Resolved);
      } else {
        var id := Send("Debugger.resume");
      }
    }

    /** A reply settles the deferred of its id and no other, and takes the id out, so a second reply finds nothing. */
    method OnReply(id: nat, error: bool)
      requires Valid()
      modifies this`outcomes, this`requests
      ensures Valid() && Kept() && requests == old(requests) - {id}
      ensures forall d :: 0 <= d < |outcomes| && outcomes[d] != old(outcomes)[d] ==> owners[d] == OfRequest(id)
      ensures outcomes == if id in old(requests)
                          then Settle(old(outcomes), old(requests)[id], if error then Rejected else Resolved)
                          else old(outcomes)
    {
      if id !in requests {
        assert requests - {id} == requests;
        return;
      }
      var pending := requests[id];
      requests := requests - {id};
      outcomes := Settle(outcomes, pending, if error then Rejected else Resolved);
    }

    /** `arm`, once the breakpoint is installed. A barrier that was still waiting is given up. */
    method Arm(location: Location)
      requires Valid()
      modifies this
      ensures Valid() && Kept() && wire == old(wire) && requests == old(requests) && commands == old(commands)
      ensures barrier == Some(Barrier(location, |old(outcomes)|, false)) && outcomes == old(outcomes) + [Pending]
      ensures orphans == old(orphans + GivenUp())
    {
      orphans := orphans + GivenUp();
      barrier := Some(Barrier(location, |outcomes|, false));
      outcomes, owners := outcomes + [Pending], owners + [OfBarrier];
    }

    /** `resume` clears the barrier once the breakpoint is removed. */
    method Disarm()
      requires Valid()
      modifies this
      ensures Valid() && Kept() && wire == old(wire) && requests == old(requests) && commands == old(commands)
      ensures barrier == None && outcomes == old(outcomes) && orphans == old(orphans + GivenUp())
    {
      orphans := orphans + GivenUp();
      barrier := None;
    }

    /** The waiter of the current barrier, if it was never reached. */
    ghost function GivenUp(): set<nat>
      reads this
    {
      if Waiting().Some? then {barrier.value.stopped} else {}
    }

    /** `fail` rejects every pending deferred but the waiters of barriers given up. */
    method Fail()
      requires Valid()
      modifies this`outcomes
      ensures Valid() && Kept()
      ensures forall d :: 0 <= d < |outcomes| ==>
                outcomes[d] == if old(outcomes)[d].Pending? && d !in orphans then Rejected else old(outcomes)[d]
      ensures (forall d :: 0 <= d < |outcomes| ==> !outcomes[d].Pending?) <==> orphans == {}
    {
      RejectNone(outcomes);
      ghost var start, done := outcomes, {};
      RejectOneMore(start, done, ready);
      outcomes, done := Settle(outcomes, ready, Rejected), done + {ready};
      RejectOneMore(start, done, endpoint);
      outcomes, done := Settle(outcomes, endpoint, Rejected), done + {endpoint};
      if barrier.Some? {
        RejectOneMore(start, done, barrier.value.stopped);
        outcomes, done := Settle(outcomes, barrier.value.stopped, Rejected), done + {barrier.value.stopped};
      }
      done := RejectValues(commands, start, done);
      done := RejectValues(requests, start, done);
    }

    method RejectValues(entries: map<nat, nat>, ghost start: seq<Outcome>, ghost before: set<nat>)
      returns (ghost done: set<nat>)
      requires outcomes == RejectAll(start, before)
      modifies this`outcomes
      ensures outcomes == RejectAll(start, done)
      ensures forall d :: d in done <==> d in before || exists id :: id in entries && entries[id] == d
    {
      done := before;
      var left := entries.Keys;
      while left != {}
        invariant left <= entries.Keys && outcomes == RejectAll(start, done)
        invariant forall d :: d in done <==>
                    d in before || exists id :: id in entries && id !in left && entries[id] == d
        decreases |left|
      {
        var id :| id in left;
        RejectOneMore(start, done, entries[id]);
        outcomes := Settle(outcomes, entries[id], Rejected);
        done, left := done + {entries[id]}, left - {id};
      }
    }

    function Waiting(): Option<Location>
      reads this
    {
      if barrier.Some? && barrier.value.stopped < |outcomes| && outcomes[barrier.value.stopped].Pending?
      then Some(barrier.value.location) else None
    }

    /** Replies leave a waiting barrier as it is. */
    method HandleReply(id: nat, error: bool)
      requires Valid()
      modifies this`outcomes, this`requests
      ensures Valid() && Kept() && Waiting() == old(Waiting())
    {
      OnReply(id, error);
    }

    method HandleCommandReply(id: nat, error: bool)
      requires Valid()
      modifies this`outcomes, this`commands
      ensures Valid() && Kept() && Waiting() == old(Waiting())
    {
      OnCommandReply(id, error);
    }

    method Handle(event: Event)
      requires Valid()
      modifies this
      ensures Valid() && Kept() && old(orphans) <= orphans
      ensures Waiting() == Waits(event, old(Waiting()))
      ensures orphans != old(orphans) <==> (event.DoArm? || event.DoResume?) && old(Waiting()).Some?
    {
      match event
      case Ready => OnReady();
      case Endpoint => OnEndpoint();
      case CommandReply(id, error) => HandleCommandReply(id, error);
      case Paused(location) => OnPaused(location);
      case Reply(id, error) => HandleReply(id, error);
      case DoSend(name) => var _ := Send(name);
      case DoReconcile => var _ := Reconcile();
      case DoArm(location) => Arm(location);
      case DoResume => Disarm();
      case DoFail => Fail();
    }

    /**
      Every reachable state, by any order of events: ids stay distinct, and what is settled stays as it was settled.
      A deferred that no failure will settle appears exactly when a waiting barrier is armed over or cleared.
    */
    method Drive(events: seq<Event>)
      requires Valid()
      modifies this
      ensures Valid() && Kept() && old(orphans) <= orphans
      ensures forall i, j :: 0 <= i < j < |wire| ==> wire[i].id != wire[j].id
      ensures orphans == old(orphans) <==> !Overlaps(events, old(Waiting()))
    {
      var i := 0;
      while i < |events|
        invariant 0 <= i <= |events| && Valid() && Kept() && old(orphans) <= orphans
        invariant Overlaps(events, old(Waiting())) <==> orphans != old(orphans) || Overlaps(events[i..], Waiting())
      {
        assert events[i..][1..] == events[i + 1..];
        Handle(events[i]);
        i := i + 1;
      }
      DistinctIds(wire, sequence);
    }
  }

  lemma DistinctIds(wire: seq<Message>, last: nat)
    requires Increasing(IdsOf(wire), last)
    ensures forall i, j :: 0 <= i < j < |wire| ==> wire[i].id != wire[j].id
  {
    forall i, j | 0 <= i < j < |wire|
      ensures wire[i].id != wire[j].id
    {
      assert IdsOf(wire)[i] < IdsOf(wire)[j];
    }
  }

  /** Arming twice without a stop in between leaves the first waiter pending for ever, whatever fails later. */
  method ArmedTwice(first: Location, second: Location) returns (driver: Driver)
    ensures fresh(driver) && driver.Valid()
    ensures driver.outcomes == [Rejected, Rejected, Pending, Rejected]
  {
    driver := new Driver();
    driver.Arm(first);
    driver.Arm(second);
    driver.Fail();
  }
}

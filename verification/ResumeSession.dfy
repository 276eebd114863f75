/**
  The resume session: a growing chain of workspace generations, each with its own gateway. Every `await` splits an
  operation in two, so other operations, gateway requests and the service itself may come in between.
*/
module ResumeSession {
  import opened Common
  import opened Workspaces

  type Id = string

  datatype Answer = Unassigned | Revoked | Forwarded

  datatype Served = Served(gateway: nat, workspace: Option<Id>, read: Option<State>, answer: Answer)

  /** A request whose state read is still out. */
  datatype InFlight = InFlight(gateway: nat, workspace: Id)

  datatype Event =
    | Moves(id: Id, to: State)              // the service takes a workspace one transition further
    | Create                                // `create` up to its admission request
    | Resume(id: Id)                        // `resume` up to its admission request
    | Admitted(gateway: nat, workspace: Id) // the service answers either of them
    | Arrives(gateway: nat)                 // a model request reaches a gateway
    | Reads(k: nat)                         // a state read comes back
    | Closes                                // the gateways present are stopped

  /** What happens before a request is answered, and whether it fails. */
  datatype Turn = Turn(events: seq<Event>, fails: bool)

  /** The requests of `close` for one generation: its state, the cancellation, and the polls within its time. */
  datatype Wait = Wait(get: Turn, cancel: Turn, polls: seq<Turn>)

  /** How a wait, or an operation with waits, ends; a session may also stop before the end of `close`. */
  datatype Ending = Done | NoWorkspace | Unanswered | RuledOut | TimedOut | Unfinished

  /** What the session waits for: a start, a preservation, or an end. */
  datatype Goal = ToReady | ToPreserved | ToEnd

  predicate Reached(goal: Goal, s: State) {
    match goal
    case ToReady => s.Ready?
    case ToPreserved => s.Preserved?
    case ToEnd => Terminal(s)
  }

  predicate Missed(goal: Goal, s: State) {
    match goal
    case ToReady => Terminal(s)
    case ToPreserved => Terminal(s) && !s.Preserved?
    case ToEnd => false
  }

  predicate NoClose(events: seq<Event>) {
    forall e :: e in events ==> !e.Closes?
  }

  predicate NoCloseDuring(turns: seq<Turn>) {
    forall i :: 0 <= i < |turns| ==> NoClose(turns[i].events)
  }

  predicate Undisturbed(wait: Wait) {
    NoClose(wait.get.events) && NoClose(wait.cancel.events) && NoCloseDuring(wait.polls)
  }

  predicate AnyFails(turns: seq<Turn>) {
    exists i :: 0 <= i < |turns| && turns[i].fails
  }

  predicate Fails(wait: Wait) {
    wait.get.fails || wait.cancel.fails || AnyFails(wait.polls)
  }

  // ----- which events make a gateway

  /** What the events tell of a session: its members, the gateways that wait for an admission, all gateways, and those
      made since they were last stopped. */
  datatype Outline = Outline(members: seq<Id>, waiting: set<nat>, gateways: nat, open: nat)

  const START := Outline([], {}, 0, 0)

  /** `create` makes a gateway, and so does `resume` of a member. */
  predicate Makes(event: Event, members: seq<Id>) {
    event.Create? || (event.Resume? && event.id in members)
  }

  function After(o: Outline, event: Event): Outline {
    if Makes(event, o.members) then
      o.(waiting := o.waiting + {o.gateways}, gateways := o.gateways + 1, open := o.open + 1)
    else if event.Closes? then o.(open := 0)
    else if event.Admitted? && event.gateway in o.waiting then
      o.(members := o.members + [event.workspace], waiting := o.waiting - {event.gateway})
    else o
  }

  function Follow(o: Outline, events: seq<Event>): Outline {
    if events == [] then o else After(Follow(o, events[..|events| - 1]), events[|events| - 1])
  }

  lemma FollowOne(o: Outline, events: seq<Event>, event: Event)
    ensures Follow(o, events + [event]) == After(Follow(o, events), event)
  {
    assert (events + [event])[..|events|] == events;
  }

  /** Event `i` makes a gateway, and none after it stops the gateways. */
  predicate LateGateway(o: Outline, events: seq<Event>, i: nat) {
    i < |events| && Makes(events[i], Follow(o, events[..i]).members) && NoClose(events[i + 1..])
  }

  /** A gateway is open at the end if and only if one was left open before, or made, and not stopped after that. */
  lemma {:induction false} OpenMeans(o: Outline, events: seq<Event>)
    ensures Follow(o, events).open > 0 <==>
            (o.open > 0 && NoClose(events)) || exists i :: LateGateway(o, events, i)
    decreases |events|
  {
    if events != [] {
      var front, last := events[..|events| - 1], events[|events| - 1];
      assert events == front + [last];
      OpenMeans(o, front);
      LateLonger(o, front, last);
    }
  }

  lemma NotLate(o: Outline, events: seq<Event>, i: nat, at: nat)
    requires i <= at < |events| && events[at].Closes?
    ensures !LateGateway(o, events, i)
  {
    if i < at {
      assert events[i + 1..][at - i - 1] == events[at];
    }
  }

  lemma LateLonger(o: Outline, front: seq<Event>, last: Event)
    ensures LateGateway(o, front + [last], |front|) <==> Makes(last, Follow(o, front).members)
    ensures forall i: nat :: i < |front| ==>
              (LateGateway(o, front + [last], i) <==> LateGateway(o, front, i) && !last.Closes?)
  {
    var all := front + [last];
    assert all[..|front|] == front && all[|front| + 1..] == [];
    forall i: nat | i < |front|
      ensures LateGateway(o, all, i) <==> LateGateway(o, front, i) && !last.Closes?
    {
      assert all[..i] == front[..i] && all[i + 1..] == front[i + 1..] + [last];
      NoCloseOne(front[i + 1..], last);
    }
  }

  lemma NoCloseOne(events: seq<Event>, last: Event)
    ensures NoClose(events + [last]) <==> NoClose(events) && !last.Closes?
  {
    assert last in events + [last];
    assert forall e :: e in events ==> e in events + [last];
  }

  // ----- the events of waits

  /** What was let in since `before` comes from these events. */
  predicate LetIn(before: seq<Event>, after: seq<Event>, offered: seq<Event>) {
    before <= after && forall i :: |before| <= i < |after| ==> after[i] in offered
  }

  lemma LetInMore(a: seq<Event>, b: seq<Event>, c: seq<Event>, first: seq<Event>, second: seq<Event>, all: seq<Event>)
    requires LetIn(a, b, first) && LetIn(b, c, second)
    requires (forall e :: e in first ==> e in all) && forall e :: e in second ==> e in all
    ensures LetIn(a, c, all)
  {
    forall i | |a| <= i < |c|
      ensures c[i] in all
    {
      assert i < |b| ==> c[i] == b[i];
    }
  }

  function Flat(turns: seq<Turn>): seq<Event> {
    if turns == [] then [] else turns[0].events + Flat(turns[1..])
  }

  lemma {:induction false} FlatHolds(turns: seq<Turn>, i: nat)
    requires i < |turns|
    ensures forall e :: e in turns[i].events ==> e in Flat(turns)
    decreases i
  {
    if i > 0 {
      FlatHolds(turns[1..], i - 1);
    }
  }

  function Offer(wait: Wait): seq<Event> {
    wait.get.events + wait.cancel.events + Flat(wait.polls)
  }

  function Offers(waits: seq<Wait>): seq<Event> {
    if waits == [] then [] else Offer(waits[0]) + Offers(waits[1..])
  }

  lemma {:induction false} OffersHold(waits: seq<Wait>, k: nat)
    requires k < |waits|
    ensures forall e :: e in Offer(waits[k]) ==> e in Offers(waits)
    decreases k
  {
    if k > 0 {
      OffersHold(waits[1..], k - 1);
    }
  }

  /** The first `k` generations were seen to, the first of them with its look first. */
  predicate Closing(start: seq<Event>, history: seq<Event>, waits: seq<Wait>, k: nat)
    requires k <= |waits|
  {
    && LetIn(start, history, Offers(waits))
    && (if k == 0 then history == start else start + waits[0].get.events <= history)
  }

  lemma ClosingStep(start: seq<Event>, before: seq<Event>, after: seq<Event>, waits: seq<Wait>, k: nat)
    requires k < |waits| && Closing(start, before, waits, k)
    requires LetIn(before, after, Offer(waits[k])) && before + waits[k].get.events <= after
    ensures Closing(start, after, waits, k + 1)
  {
    OffersHold(waits, k);
    LetInMore(start, before, after, Offers(waits), Offer(waits[k]), Offers(waits));
  }

  /** Where each generation came from: nothing for `create`, the position of its source for `resume`. */
  predicate Forest(sources: seq<Option<nat>>) {
    forall k :: 0 <= k < |sources| && sources[k].Some? ==> sources[k].value < k
  }

  function Root(sources: seq<Option<nat>>, k: nat): (root: nat)
    requires Forest(sources) && k < |sources|
    ensures root <= k && sources[root].None?
  {
    if sources[k].None? then k else Root(sources, sources[k].value)
  }

  /** A lineage never changes afterwards, whatever joins the session later. */
  lemma {:induction false} RootStays(sources: seq<Option<nat>>, later: seq<Option<nat>>, k: nat)
    requires Forest(later) && sources <= later && k < |sources|
    ensures Forest(sources) && Root(sources, k) == Root(later, k)
    decreases k
  {
    assert forall i :: 0 <= i < |sources| ==> sources[i] == later[i];
    if sources[k].Some? {
      RootStays(sources, later, sources[k].value);
    }
  }

  /** A session with one `create` first is one tree: every generation descends from the first. */
  lemma {:induction false} OneRoot(sources: seq<Option<nat>>, k: nat)
    requires Forest(sources) && k < |sources|
    requires forall i :: 0 < i < |sources| ==> sources[i].Some?
    ensures Root(sources, k) == 0
    decreases k
  {
    if sources[k].Some? {
      OneRoot(sources, sources[k].value);
    }
  }

  /** Every generation is bound to a gateway of its own, and every bound gateway to a generation. */
  ghost predicate Bound(generations: seq<Id>, via: seq<nat>, gateways: seq<Option<Id>>) {
    && |via| == |generations|
    && (forall k :: 0 <= k < |via| ==> via[k] < |gateways| && gateways[via[k]] == Some(generations[k]))
    && (forall j, k :: 0 <= j < k < |via| ==> via[j] != via[k])
    && (forall g :: 0 <= g < |gateways| && gateways[g].Some? ==> g in via)
  }

  lemma BindOne(generations: seq<Id>, via: seq<nat>, gateways: seq<Option<Id>>, g: nat, workspace: Id)
    requires Bound(generations, via, gateways) && g < |gateways| && gateways[g].None?
    ensures Bound(generations + [workspace], via + [g], gateways[g := Some(workspace)])
  {
    var after := via + [g];
    forall h | 0 <= h < |gateways| && gateways[g := Some(workspace)][h].Some?
      ensures h in after
    {
      assert h in via || after[|via|] == h;
    }
  }

  lemma AddGateway(generations: seq<Id>, via: seq<nat>, gateways: seq<Option<Id>>)
    requires Bound(generations, via, gateways)
    ensures Bound(generations, via, gateways + [None])
  {
  }

  /** What admission waits for: an unbound gateway, and the source if this is a resume. */
  ghost predicate Awaiting(pending: map<nat, Option<nat>>, gateways: seq<Option<Id>>, count: nat) {
    forall g :: g in pending ==>
      g < |gateways| && gateways[g].None? && (pending[g].Some? ==> pending[g].value < count)
  }

  ghost predicate Known(generations: seq<Id>, states: map<Id, State>) {
    forall k :: 0 <= k < |generations| ==> generations[k] in states
  }

  ghost predicate Asked(inFlight: seq<InFlight>, gateways: seq<Option<Id>>) {
    forall k :: 0 <= k < |inFlight| ==>
      inFlight[k].gateway < |gateways| && gateways[inFlight[k].gateway] == Some(inFlight[k].workspace)
  }

  /** The workspaces of a gateway's answers, and the rule by which it answered. */
  ghost predicate Logged(log: seq<Served>, gateways: seq<Option<Id>>) {
    forall i :: 0 <= i < |log| ==>
      && log[i].gateway < |gateways|
      && (log[i].answer.Unassigned? <==> log[i].read.None?)
      && (log[i].read.Some? ==> log[i].workspace.Some? && gateways[log[i].gateway] == log[i].workspace)
      && (log[i].answer.Forwarded? <==> log[i].read.Some? && Active(log[i].read.value))
  }

  /** A request in flight, and an answer given, name a gateway that is already bound. */
  lemma BindingKeeps(inFlight: seq<InFlight>, log: seq<Served>, gateways: seq<Option<Id>>, g: nat, workspace: Id)
    requires Asked(inFlight, gateways) && Logged(log, gateways) && g < |gateways| && gateways[g].None?
    ensures Asked(inFlight, gateways[g := Some(workspace)]) && Logged(log, gateways[g := Some(workspace)])
  {
  }

  /** The service only ever moves on: what is gone stays gone, and no workspace is forgotten. */
  ghost predicate Onward(before: map<Id, State>, after: map<Id, State>) {
    forall id :: id in before ==>
      id in after && (Gone(before[id]) ==> Gone(after[id])) && (Terminal(before[id]) ==> after[id] == before[id])
  }

  lemma AwaitingLess(pending: map<nat, Option<nat>>, gateways: seq<Option<Id>>, count: nat, g: nat, workspace: Id)
    requires Awaiting(pending, gateways, count) && g in pending
    ensures Awaiting(pending - {g}, gateways[g := Some(workspace)], count + 1)
  {
  }

  /** The service knows a workspace once it has answered for it. */
  function Record(states: map<Id, State>, workspace: Id): map<Id, State> {
    if workspace in states then states else states[workspace := Queued]
  }

  lemma RecordKnows(generations: seq<Id>, states: map<Id, State>, workspace: Id)
    requires Known(generations, states)
    ensures Known(generations + [workspace], Record(states, workspace)) && Onward(states, Record(states, workspace))
  {
  }

  lemma MoveOnward(generations: seq<Id>, states: map<Id, State>, id: Id, to: State)
    requires Known(generations, states) && id in states && to in Transitions(states[id])
    ensures Known(generations, states[id := to]) && Onward(states, states[id := to])
  {
  }

  /** The first `k` generations have ended. */
  ghost predicate Ended(generations: seq<Id>, k: nat, states: map<Id, State>) {
    k <= |generations| && forall i :: 0 <= i < k ==> generations[i] in states && Terminal(states[generations[i]])
  }

  lemma StaysEnded(before: seq<Id>, k: nat, was: map<Id, State>, after: seq<Id>, now: map<Id, State>)
    requires Ended(before, k, was) && before <= after && Onward(was, now)
    ensures Ended(after, k, now)
  {
    forall i | 0 <= i < k
      ensures after[i] in now && Terminal(now[after[i]])
    {
      assert after[i] == before[i];
    }
  }

  lemma EndedMore(generations: seq<Id>, k: nat, states: map<Id, State>)
    requires Ended(generations, k, states) && k < |generations| && generations[k] in states
    ensures Ended(generations, k + 1, states) <==> Terminal(states[generations[k]])
  {
  }

  /** Nothing that was answered since `from` was forwarded for a workspace already gone `before`. */
  ghost predicate Silent(log: seq<Served>, from: nat, before: map<Id, State>) {
    forall i :: from <= i < |log| && log[i].answer.Forwarded? ==>
      log[i].workspace.Some? && (log[i].workspace.value in before ==> !Gone(before[log[i].workspace.value]))
  }

  datatype Snapshot = Snapshot(generations: seq<Id>, sources: seq<Option<nat>>, gateways: seq<Option<Id>>, stopped: nat,
                               states: map<Id, State>, log: seq<Served>, history: seq<Event>)

  /** Generations only grow, a bound gateway keeps its workspace, and the service moves on. */
  ghost predicate Later(a: Snapshot, b: Snapshot) {
    && a.generations <= b.generations && a.sources <= b.sources && a.stopped <= b.stopped
    && a.history <= b.history
    && |a.gateways| <= |b.gateways|
    && (forall g :: 0 <= g < |a.gateways| && a.gateways[g].Some? ==> b.gateways[g] == a.gateways[g])
    && Onward(a.states, b.states)
    && a.log <= b.log && Silent(b.log, |a.log|, a.states)
  }

  lemma LaterStill(a: Snapshot, b: Snapshot, c: Snapshot)
    requires Later(a, b) && Later(b, c)
    ensures Later(a, c)
  {
  }

  lemma LaterTold(a: Snapshot, b: Snapshot, event: Event)
    requires Later(a, b)
    ensures Later(a, b.(history := b.history + [event]))
  {
  }

  /** The gateways up to some point are stopped, and no others. */
  ghost predicate Stopped(listening: seq<bool>, stopped: nat) {
    stopped <= |listening| && forall g :: 0 <= g < |listening| ==> (listening[g] <==> stopped <= g)
  }

  class Session {
    var generations: seq<Id>
    var gateways: seq<Option<Id>>
    var listening: seq<bool>
    var inFlight: seq<InFlight>
    var log: seq<Served>
    /** The service's own record of every workspace. */
    var states: map<Id, State>
    ghost var sources: seq<Option<nat>>
    ghost var via: seq<nat>
    var pending: map<nat, Option<nat>>
    /** How many gateways there were when they were last stopped. */
    ghost var stopped: nat
    /** All events of the session. */
    ghost var history: seq<Event>

    ghost predicate Valid()
      reads this
    {
      && |sources| == |generations| && Forest(sources)
      && Bound(generations, via, gateways) && |listening| == |gateways| && Stopped(listening, stopped)
      && Awaiting(pending, gateways, |generations|)
      && Known(generations, states)
      && Asked(inFlight, gateways)
      && Logged(log, gateways)
    }

    ghost function Sketch(): Outline
      requires stopped <= |gateways|
      reads this
    {
      Outline(generations, pending.Keys, |gateways|, |gateways| - stopped)
    }

    /** The session is as its events tell. */
    ghost predicate Traced()
      reads this
    {
      Valid() && Sketch() == Follow(START, history)
    }

    ghost function Snap(): Snapshot
      reads this
    {
      Snapshot(generations, sources, gateways, stopped, states, log, history)
    }

    twostate predicate Kept()
      reads this
    {
      Later(old(Snap()), Snap())
    }

    constructor ()
      ensures Traced() && generations == [] && gateways == [] && log == [] && states == map[] && history == []
    {
      generations, gateways, listening, inFlight, log, states := [], [], [], [], [], map[];
      sources, via, pending, stopped, history := [], [], map[], 0, [];
    }

    /** `gateway`: a new one, bound to nothing yet, on behalf of the admission that follows. */
    method Gateway(source: Option<nat>)
      requires Valid() && (source.Some? ==> source.value < |generations|)
      modifies this`gateways, this`listening, this`pending
      ensures Valid() && Kept()
      ensures gateways == old(gateways) + [None] && pending == old(pending)[|old(gateways)| := source]
      ensures Sketch() == After(old(Sketch()), Create)
    {
      AddGateway(generations, via, gateways);
      pending := pending[|gateways| := source];
      gateways, listening := gateways + [None], listening + [true];
    }

    /** The membership test of `resume`: the first generation with this id. */
    method Find(id: Id) returns (k: nat)
      ensures k <= |generations| && (k < |generations| ==> generations[k] == id)
      ensures k == |generations| <==> id !in generations
    {
      k := 0;
      while k < |generations| && generations[k] != id
        invariant k <= |generations| && id !in generations[..k]
      {
        k := k + 1;
      }
    }

    /** `resume` refuses an id that is not part of the session before it makes a gateway. */
    method BeginResume(id: Id) returns (accepted: bool)
      requires Valid()
      modifies this`gateways, this`listening, this`pending
      ensures Valid() && Kept() && (accepted <==> id in generations)
      ensures if accepted then gateways == old(gateways) + [None]
              else gateways == old(gateways) && pending == old(pending)
      ensures Sketch() == After(old(Sketch()), Resume(id))
    {
      var k := Find(id);
      accepted := k < |generations|;
      if accepted {
        Gateway(Some(k));
      }
    }

    /** The admission comes back: the gateway is bound, once, and the generation appended. */
    method Admit(g: nat, workspace: Id)
      requires Valid()
      modifies this`gateways, this`generations, this`sources, this`via, this`pending, this`states
      ensures Valid() && Kept()
      ensures if g in old(pending)
              then && generations == old(generations) + [workspace] && gateways == old(gateways)[g := Some(workspace)]
                   && sources == old(sources) + [old(pending)[g]] && pending == old(pending) - {g}
              else generations == old(generations) && gateways == old(gateways) && pending == old(pending)
      ensures Sketch() == After(old(Sketch()), Admitted(g, workspace))
    {
      if g in pending {
        Join(g, workspace);
      }
    }

    /** The binding and the new generation. */
    method Join(g: nat, workspace: Id)
      requires Valid() && g in pending
      modifies this`gateways, this`generations, this`sources, this`via, this`pending, this`states
      ensures Valid() && Kept()
      ensures generations == old(generations) + [workspace] && gateways == old(gateways)[g := Some(workspace)]
      ensures sources == old(sources) + [old(pending)[g]] && pending == old(pending) - {g}
    {
      BindOne(generations, via, gateways, g, workspace);
      BindingKeeps(inFlight, log, gateways, g, workspace);
      AwaitingLess(pending, gateways, |generations|, g, workspace);
      RecordKnows(generations, states, workspace);
      sources, via := sources + [pending[g]], via + [g];
      gateways := gateways[g := Some(workspace)];
      generations := generations + [workspace];
      states := Record(states, workspace);
      pending := pending - {g};
    }

    /** The service's own steps. */
    method Move(id: Id, to: State)
      requires Valid()
      modifies this`states
      ensures Valid() && Kept()
      ensures states == if id in old(states) && to in Transitions(old(states)[id]) then old(states)[id := to]
                        else old(states)
      ensures Sketch() == After(old(Sketch()), Moves(id, to))
    {
      if id in states && to in Transitions(states[id]) {
        MoveOnward(generations, states, id, to);
        states := states[id := to];
      }
    }

    /** A request: refused while unbound, else it goes off to read the state. */
    method Arrive(g: nat)
      requires Valid()
      modifies this`inFlight, this`log
      ensures Valid() && Kept()
      ensures if g >= |gateways| || !listening[g] then log == old(log) && inFlight == old(inFlight)
              else if gateways[g].None?
              then log == old(log) + [Served(g, None, None, Unassigned)] && inFlight == old(inFlight)
              else log == old(log) && inFlight == old(inFlight) + [InFlight(g, gateways[g].value)]
      ensures Sketch() == After(old(Sketch()), Arrives(g))
    {
      if g >= |gateways| || !listening[g] {
        return;
      }
      match gateways[g]
      case None => log := log + [Served(g, None, None, Unassigned)];
      case Some(workspace) => inFlight := inFlight + [InFlight(g, workspace)];
    }

    /** The state comes back, and decides. */
    method Read(k: nat)
      requires Valid()
      modifies this`inFlight, this`log
      ensures Valid() && Kept()
      ensures if k < |old(inFlight)|
              then var request := old(inFlight)[k];
                   && request.workspace in states && |log| == |old(log)| + 1
                   && log[|old(log)|].workspace == Some(request.workspace)
                   && log[|old(log)|].read == Some(states[request.workspace])
                   && inFlight == old(inFlight)[..k] + old(inFlight)[k + 1..]
              else log == old(log) && inFlight == old(inFlight)
      ensures Sketch() == After(old(Sketch()), Reads(k))
    {
      if k >= |inFlight| {
        return;
      }
      var request := inFlight[k];
      KnownWorkspace(request);
      var state := states[request.workspace];
      inFlight := inFlight[..k] + inFlight[k + 1..];
      var answer := if Active(state) then Forwarded else Revoked;
      log := log + [Served(request.gateway, Some(request.workspace), Some(state), answer)];
    }

    lemma KnownWorkspace(request: InFlight)
      requires Valid() && request in inFlight
      ensures request.workspace in states
    {
      var k :| 0 <= k < |inFlight| && inFlight[k] == request;
      var g := inFlight[k].gateway;
      var j :| 0 <= j < |via| && via[j] == g;
      assert gateways[via[j]] == Some(generations[j]);
    }

    /** No gateway serves requests any more. */
    predicate Silenced()
      reads this
    {
      forall g :: 0 <= g < |listening| ==> !listening[g]
    }

    lemma SilencedIff()
      requires Valid()
      ensures Silenced() <==> |gateways| == stopped
    {
      if stopped < |gateways| {
        assert listening[stopped];
      }
    }

    /** A gateway still serves if and only if some event made one and no later event stopped the gateways. */
    lemma ServingIff()
      requires Traced()
      ensures !Silenced() <==> exists i :: LateGateway(START, history, i)
    {
      SilencedIff();
      OpenMeans(START, history);
    }

    /** After the gateways were stopped at some event, only later ones matter. */
    lemma ServingSince(at: nat)
      requires Traced() && at < |history| && history[at].Closes?
      ensures !Silenced() <==> exists i :: at < i && LateGateway(START, history, i)
    {
      ServingIff();
      forall i: nat | i <= at
        ensures !LateGateway(START, history, i)
      {
        NotLate(START, history, i, at);
      }
    }

    /** If no event let in while closing creates or resumes, no gateway serves at its end. */
    lemma ClosedQuietly(before: seq<Event>, waits: seq<Wait>)
      requires Traced() && LetIn(before + [Closes], history, Offers(waits))
      requires forall e :: e in Offers(waits) ==> !e.Create? && !e.Resume?
      ensures Silenced()
    {
      assert history[|before|] == (before + [Closes])[|before|] == Closes;
      ServingSince(|before|);
    }

    /** `close` first stops every gateway there is. */
    method StopGateways()
      requires Valid()
      modifies this`listening, this`stopped
      ensures Valid() && Kept() && stopped == |gateways| && Sketch() == After(old(Sketch()), Closes)
    {
      var g := 0;
      while g < |gateways|
        invariant g <= |gateways| == |listening| && forall h :: 0 <= h < g ==> !listening[h]
      {
        listening := listening[g := false];
        g := g + 1;
      }
      stopped := |gateways|;
    }

    method Handle(event: Event)
      requires Traced()
      modifies this
      ensures Traced() && Kept() && history == old(history) + [event]
      ensures !event.Closes? ==> stopped == old(stopped)
    {
      ghost var a := Snap();
      Apply(event);
      ghost var b := Snap();
      FollowOne(START, history, event);
      history := history + [event];
      LaterTold(a, b, event);
    }

    /** What an event does to all but the history. */
    method Apply(event: Event)
      requires Valid()
      modifies this`generations, this`gateways, this`listening, this`inFlight, this`log, this`states, this`sources,
               this`via, this`pending, this`stopped
      ensures Valid() && Kept() && Sketch() == After(old(Sketch()), event)
      ensures !event.Closes? ==> stopped == old(stopped)
    {
      match event
      case Moves(id, to) => Move(id, to);
      case Create => Gateway(None);
      case Resume(id) => var _ := BeginResume(id);
      case Admitted(g, workspace) => Admit(g, workspace);
      case Arrives(g) => Arrive(g);
      case Reads(k) => Read(k);
      case Closes => StopGateways();
    }

    /** Every run, from every reachable state: what was gone at its start is never forwarded for again. */
    method Drive(events: seq<Event>)
      requires Traced()
      modifies this
      ensures Traced() && Kept() && history == old(history) + events
      ensures NoClose(events) ==> stopped == old(stopped)
    {
      var i := 0;
      while i < |events|
        invariant 0 <= i <= |events| && Traced() && Kept() && history == old(history) + events[..i]
        invariant NoClose(events) ==> stopped == old(stopped)
      {
        Handle(events[i]);
        i := i + 1;
      }
    }

    /** `waitFor` on a generation's state; any request may fail, and time may run out after any poll. */
    method WaitFor(id: Id, polls: seq<Turn>, goal: Goal) returns (e: Ending)
      requires Traced() && id in states
      modifies this
      ensures Traced() && Kept() && (NoCloseDuring(polls) ==> stopped == old(stopped))
      ensures LetIn(old(history), history, Flat(polls))
      ensures match e
              case Done => Reached(goal, states[id])
              case RuledOut => Missed(goal, states[id])
              case Unanswered => AnyFails(polls)
              case TimedOut => polls == [] || !Reached(goal, states[id])
              case _ => false
    {
      var i := 0;
      while i < |polls|
        invariant i <= |polls| && Traced() && Kept() && LetIn(old(history), history, Flat(polls))
        invariant NoCloseDuring(polls) ==> stopped == old(stopped)
        invariant i > 0 ==> !Reached(goal, states[id])
      {
        FlatHolds(polls, i);
        ghost var before := history;
        Drive(polls[i].events);
        LetInMore(old(history), before, history, Flat(polls), polls[i].events, Flat(polls));
        if polls[i].fails {
          return Unanswered;
        }
        if Missed(goal, states[id]) {
          return RuledOut;
        }
        if Reached(goal, states[id]) {
          return Done;
        }
        i := i + 1;
      }
      e := TimedOut;
    }

    /** What `close` does for one generation: look, cancel what is not on its way out, and wait for the end. */
    method EndOne(k: nat, wait: Wait) returns (e: Ending)
      requires Traced() && k < |generations| && Ended(generations, k, states)
      modifies this
      ensures Traced() && Kept() && (Undisturbed(wait) ==> stopped == old(stopped))
      ensures LetIn(old(history), history, Offer(wait)) && old(history) + wait.get.events <= history
      ensures e.Done? ==> Ended(generations, k + 1, states)
      ensures e.Unanswered? ==> Fails(wait)
      ensures e.TimedOut? ==> wait.polls == [] || !Ended(generations, k + 1, states)
      ensures e.Done? || e.Unanswered? || e.TimedOut?
    {
      ghost var a := Snap();
      var id := generations[k];
      var ok := Cancel(id, wait.get, wait.cancel);
      if !ok {
        return Unanswered;
      }
      ghost var b := Snap();
      e := WaitFor(id, wait.polls, ToEnd);
      LaterStill(a, b, Snap());
      LetInMore(a.history, b.history, history, wait.get.events + wait.cancel.events, Flat(wait.polls), Offer(wait));
      StaysEnded(a.generations, k, a.states, generations, states);
      EndedMore(generations, k, states);
    }

    /** Look at a workspace, and cancel it if it is not on its way out. */
    method Cancel(id: Id, get: Turn, cancel: Turn) returns (ok: bool)
      requires Traced() && id in states
      modifies this
      ensures LetIn(old(history), history, get.events + cancel.events) && old(history) + get.events <= history
      ensures Traced() && Kept() && (NoClose(get.events) && NoClose(cancel.events) ==> stopped == old(stopped))
      ensures !ok ==> get.fails || cancel.fails
    {
      ghost var a := Snap();
      Drive(get.events);
      if get.fails {
        return false;
      }
      if states[id] in {Queued, Provisioning, Connected, Ready} {
        ghost var b := Snap();
        Drive(cancel.events);
        LaterStill(a, b, Snap());
        if cancel.fails {
          return false;
        }
      }
      ok := true;
    }

    /**
      `close`: stop the gateways, then see to the end of each generation in turn, over the growing list. If it returns,
      every generation has ended, also those that a late resume added meanwhile. A gateway that such a resume makes is
      not stopped: at the end a gateway serves exactly when some event since made one and none after it stopped them.
    */
    method Close(waits: seq<Wait>) returns (e: Ending)
      requires Traced()
      modifies this
      ensures Traced() && Kept()
      ensures LetIn(old(history) + [Closes], history, Offers(waits))
      ensures old(generations) != [] && waits != [] ==> old(history) + [Closes] + waits[0].get.events <= history
      ensures match e
              case Done => Ended(generations, |generations|, states)
              case Unanswered => exists k :: 0 <= k < |waits| && Fails(waits[k])
              case TimedOut =>
                exists k :: 0 <= k < |waits| && k < |generations|
                            && (waits[k].polls == [] || !Ended(generations, k + 1, states))
              case Unfinished => |waits| < |generations|
              case _ => false
      ensures !Silenced() <==> exists i :: |old(history)| < i && LateGateway(START, history, i)
      ensures (forall k :: 0 <= k < |waits| ==> Undisturbed(waits[k])) ==> stopped == |old(gateways)|
    {
      Handle(Closes);
      ghost var start := history;
      var k := 0;
      while k < |generations|
        invariant Traced() && Kept() && k <= |waits| && Ended(generations, k, states)
        invariant Closing(start, history, waits, k) && start == old(history) + [Closes]
        invariant (forall i :: 0 <= i < |waits| ==> Undisturbed(waits[i])) ==> stopped == |old(gateways)|
        decreases |waits| - k
      {
        if k == |waits| {
          ServingSince(|old(history)|);
          return Unfinished;
        }
        ghost var before := Snap();
        e := EndOne(k, waits[k]);
        LaterStill(old(Snap()), before, Snap());
        ClosingStep(start, before.history, history, waits, k);
        if !e.Done? {
          ServingSince(|old(history)|);
          return;
        }
        k := k + 1;
      }
      ServingSince(|old(history)|);
      e := Done;
    }

    /** The first part of `detach`: look at the workspace, and wait for one that is still starting. */
    method AwaitStart(id: Id, first: Turn, starting: seq<Turn>) returns (e: Ending)
      requires Traced() && id in states
      modifies this
      ensures Traced() && Kept()
      ensures e.Unanswered? ==> first.fails || AnyFails(starting)
      ensures e.RuledOut? ==> Terminal(states[id])
      ensures e.Done? || e.Unanswered? || e.RuledOut? || e.TimedOut?
    {
      ghost var a := Snap();
      Drive(first.events);
      if first.fails {
        return Unanswered;
      }
      if states[id] in {Queued, Provisioning, Connected} {
        ghost var b := Snap();
        e := WaitFor(id, starting, ToReady);
        LaterStill(a, b, Snap());
        return;
      }
      e := Done;
    }

    /** The second part: look again, and ask to preserve a workspace that is ready. */
    method Preserve(id: Id, second: Turn, preserve: Turn) returns (ok: bool)
      requires Traced() && id in states
      modifies this
      ensures Traced() && Kept() && (!ok ==> second.fails || preserve.fails)
    {
      ghost var a := Snap();
      Drive(second.events);
      if second.fails {
        return false;
      }
      if states[id].Ready? {
        ghost var b := Snap();
        Drive(preserve.events);
        LaterStill(a, b, Snap());
        if preserve.fails {
          return false;
        }
      }
      ok := true;
    }

    /** `detach` returns only if the generation that was the last one at the call is preserved. */
    method Detach(first: Turn, starting: seq<Turn>, second: Turn, preserve: Turn, polls: seq<Turn>) returns (e: Ending)
      requires Traced()
      modifies this
      ensures Traced() && Kept() && (e.NoWorkspace? <==> old(generations) == [])
      ensures e.Unanswered? ==> first.fails || AnyFails(starting) || second.fails || preserve.fails || AnyFails(polls)
      ensures old(generations) != [] ==>
                var last := old(generations)[|old(generations)| - 1];
                last in states && (e.Done? ==> states[last] == Preserved) && (e.RuledOut? ==> Terminal(states[last]))
    {
      if generations == [] {
        return NoWorkspace;
      }
      var id := generations[|generations| - 1];
      ghost var a := Snap();
      e := Prepare(id, first, starting, second, preserve);
      if !e.Done? {
        return;
      }
      ghost var b := Snap();
      e := WaitFor(id, polls, ToPreserved);
      LaterStill(a, b, Snap());
    }

    method Prepare(id: Id, first: Turn, starting: seq<Turn>, second: Turn, preserve: Turn) returns (e: Ending)
      requires Traced() && id in states
      modifies this
      ensures Traced() && Kept()
      ensures e.Unanswered? ==> first.fails || AnyFails(starting) || second.fails || preserve.fails
      ensures e.RuledOut? ==> Terminal(states[id])
      ensures e.Done? || e.Unanswered? || e.RuledOut? || e.TimedOut?
    {
      ghost var a := Snap();
      e := AwaitStart(id, first, starting);
      if !e.Done? {
        return;
      }
      ghost var b := Snap();
      var ok := Preserve(id, second, preserve);
      LaterStill(a, b, Snap());
      if !ok {
        e := Unanswered;
      }
    }
  }

  /** A resume of a member during the first wait of `close`, with no second `close`, leaves a gateway serving. */
  method CloseDuringResume(session: Session, id: Id, waits: seq<Wait>) returns (e: Ending)
    requires session.Traced() && id in session.generations
    requires waits != [] && waits[0].get.events == [Resume(id)] && NoClose(Offers(waits))
    modifies session
    ensures session.Traced() && !session.Silenced()
  {
    ghost var before := session.history;
    e := session.Close(waits);
    assert id in Follow(START, before).members;
    ResumeIsLate(before, session.history, id, Offers(waits));
  }

  lemma ResumeIsLate(before: seq<Event>, history: seq<Event>, id: Id, offered: seq<Event>)
    requires id in Follow(START, before).members && NoClose(offered)
    requires LetIn(before + [Closes], history, offered) && before + [Closes] + [Resume(id)] <= history
    ensures LateGateway(START, history, |before| + 1)
  {
    var at := |before| + 1;
    FollowOne(START, before, Closes);
    assert history[..at] == before + [Closes];
    assert history[at] == (before + [Closes] + [Resume(id)])[at] == Resume(id);
    LetInQuietly(before + [Closes], history, offered, at + 1);
  }

  lemma LetInQuietly(before: seq<Event>, after: seq<Event>, offered: seq<Event>, at: nat)
    requires LetIn(before, after, offered) && NoClose(offered) && |before| <= at <= |after|
    ensures NoClose(after[at..])
  {
    forall e | e in after[at..]
      ensures !e.Closes?
    {
      var i :| 0 <= i < |after[at..]| && after[at..][i] == e;
      assert after[at + i] == e;
    }
  }

  /** Such a session: one generation, resumed while its end is waited for. */
  method LateResume() returns (session: Session)
    ensures session.Traced() && !session.Silenced()
  {
    session := new Session();
    session.Handle(Create);
    session.Handle(Admitted(0, "a"));
    OneCreated(session);
    var get, cancel := Turn([Resume("a")], false), Turn([Moves("a", Canceled)], false);
    var wait := Wait(get, cancel, [Turn([], false)]);
    OneOffer(wait);
    var e := CloseDuringResume(session, "a", [wait]);
  }

  lemma OneOffer(wait: Wait)
    requires NoClose(wait.get.events) && NoClose(wait.cancel.events) && wait.polls == [Turn([], false)]
    ensures NoClose(Offers([wait]))
  {
    assert [wait][1..] == [] && wait.polls[1..] == [];
    assert Flat(wait.polls) == [] + Flat([]);
    assert Offers([wait]) == Offer(wait) + [];
  }

  lemma OneCreated(session: Session)
    requires session.Traced() && session.history == [Create] + [Admitted(0, "a")]
    ensures "a" in session.generations
  {
    var none: seq<Event> := [];
    FollowOne(START, none, Create);
    assert none + [Create] == [Create];
    FollowOne(START, [Create], Admitted(0, "a"));
  }
}

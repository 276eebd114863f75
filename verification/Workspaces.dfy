/** The workspace life cycle of the API contract, and which states a workspace never comes back from. */
module Workspaces {
  datatype State =
    | Queued | Provisioning | Connected | Ready | Preserving | Terminating
    | Succeeded | Failed | Canceled | Expired | Preserved

  function Transitions(from: State): set<State> {
    match from
    case Queued => {Provisioning, Canceled, Expired}
    case Provisioning => {Connected, Queued, Terminating, Failed, Canceled, Expired}
    case Connected => {Ready, Preserving, Terminating, Failed, Canceled, Expired}
    case Ready => {Preserving, Terminating, Succeeded, Failed, Canceled, Expired}
    case Preserving => {Terminating, Preserved, Failed}
    case Terminating => {Succeeded, Failed, Canceled, Expired}
    case _ => {}
  }

  /** A workspace history: every state follows from the one before. */
  predicate History(states: seq<State>) {
    forall i :: 0 < i < |states| ==> states[i] in Transitions(states[i - 1])
  }

  predicate Terminal(s: State) {
    s.Succeeded? || s.Failed? || s.Canceled? || s.Expired? || s.Preserved?
  }

  /** The states in which a gateway forwards. */
  predicate Active(s: State) {
    s.Provisioning? || s.Connected? || s.Ready? || s.Preserving?
  }

  predicate Gone(s: State) {
    s.Terminating? || Terminal(s)
  }

  lemma {:induction false} GoneForever(states: seq<State>)
    requires History(states) && states != [] && Gone(states[0])
    ensures forall i :: 0 <= i < |states| ==> Gone(states[i])
    decreases |states|
  {
    if |states| > 1 {
      var before := states[..|states| - 1];
      assert forall i :: 0 < i < |before| ==> before[i] in Transitions(before[i - 1]);
      GoneForever(before);
      assert states[|states| - 1] in Transitions(before[|before| - 1]);
    }
  }

  /**
    A gateway is dead for good exactly in the states the contract calls gone: `queued` also revokes it, but only
    until the launch is retried.
  */
  lemma RevokedForGood(s: State)
    ensures Gone(s) <==> forall states: seq<State> ::
      History(states) && states != [] && states[0] == s ==> !Active(states[|states| - 1])
  {
    if Gone(s) {
      forall states: seq<State> | History(states) && states != [] && states[0] == s
        ensures !Active(states[|states| - 1])
      {
        GoneForever(states);
      }
    } else if Active(s) {
      assert History([s]) && [s][0] == s;
    } else {
      assert History([s, Provisioning]) && [s, Provisioning][0] == s;
    }
  }
}

/**
  Launchers and daemons of the detached session, interleaved file operation by file operation.
  Daemons and launchers are numbered in the order they start; any number of each takes part.
 */
module SessionDaemon {
  import opened Common

  /** The daemon's own line of control: claim, set up, write the temporary file, rename it. */
  datatype Main = Unclaimed | Setup | WroteTmp | Published | Failed

  /** `close`, whose body `closing ??=` starts at most once. Broken: its cleanup, removal or release threw. */
  datatype Closer = Open | StackDown | Removed | Released | Broken(removed: bool)

  datatype Exit = Running | Exited(code: int) | Killed

  datatype Daemon = Daemon(main: Main, closer: Closer, stopAsked: bool, exit: Exit)

  datatype Wait =
    | Probing | Reading | Spawning
    | Waiting | CheckingLock | ProbingAgain | ReadingAgain
    | Returned(owner: nat) | StartupFailed | StartupStopped | TimedOut | FileVanished

  datatype Launcher = Launcher(wait: Wait, child: Option<nat>)

  /** `lock`: the directory and who made it. `connection`, `tmp`: the files and whose session they describe. */
  datatype State = State(lock: Option<nat>, connection: Option<nat>, tmp: Option<nat>,
                         daemons: seq<Daemon>, launchers: seq<Launcher>)

  const EMPTY := State(None, None, None, [], [])

  datatype Step =
    | Start
    | Probe(l: nat) | Read(l: nat) | Spawn(l: nat) | CheckExit(l: nat) | CheckLock(l: nat) | Timeout(l: nat)
    | Claim(d: nat) | ClaimFails(d: nat) | Write(d: nat) | Publish(d: nat) | Fail(d: nat) | AskStop(d: nat)
    | TakeDown(d: nat, ok: bool) | Remove(d: nat) | RemoveFails(d: nat) | Release(d: nat) | ReleaseFails(d: nat)
    | Exit(d: nat, code: int) | Kill(d: nat)

  predicate LauncherReady(s: State, step: Step)
    requires step.Probe? || step.Read? || step.Spawn? || step.CheckExit? || step.CheckLock? || step.Timeout?
  {
    step.l < |s.launchers| &&
    var w := s.launchers[step.l].wait;
    match step
    case Probe(_) => w.Probing? || w.ProbingAgain?
    case Read(_) => w.Reading? || w.ReadingAgain?
    case Spawn(_) => w.Spawning?
    case CheckExit(_) => w.Waiting? && s.launchers[step.l].child.Some? && s.launchers[step.l].child.value < |s.daemons|
    case CheckLock(_) => w.CheckingLock?
    case Timeout(_) => w.Waiting?
  }

  predicate Enabled(s: State, step: Step) {
    match step
    case Start => true
    case Probe(_) => LauncherReady(s, step)
    case Read(_) => LauncherReady(s, step)
    case Spawn(_) => LauncherReady(s, step)
    case CheckExit(_) => LauncherReady(s, step)
    case CheckLock(_) => LauncherReady(s, step)
    case Timeout(_) => LauncherReady(s, step)
    case _ =>
      step.d < |s.daemons| && s.daemons[step.d].exit.Running? &&
      var d := s.daemons[step.d];
      match step
      case Claim(_) => d.main.Unclaimed?
      case ClaimFails(_) => d.main.Unclaimed?
      case Write(_) => d.main.Setup?
      case Publish(_) => d.main.WroteTmp?
      case Fail(_) => d.main.Setup? || d.main.WroteTmp?
      case AskStop(_) => !d.main.Unclaimed?
      case TakeDown(_, _) => d.closer.Open? && (d.stopAsked || d.main.Failed?)
      case Remove(_) => d.closer.StackDown?
      case RemoveFails(_) => d.closer.StackDown?
      case Release(_) => d.closer.Removed?
      case ReleaseFails(_) => d.closer.Removed?
      case Exit(_, code) =>
        || (code == 0 && d.stopAsked && d.closer.Released?)
        || (code == 1 && d.main.Failed? && d.closer.Released?)
        || (code == 1 && d.closer.Broken?)
      case Kill(_) => true
  }

  function SetDaemon(s: State, i: nat, d: Daemon): State
    requires i < |s.daemons|
  {
    s.(daemons := s.daemons[i := d])
  }

  function SetWait(s: State, i: nat, w: Wait): State
    requires i < |s.launchers|
  {
    s.(launchers := s.launchers[i := s.launchers[i].(wait := w)])
  }

  function NextLauncher(s: State, step: Step): State
    requires step.Probe? || step.Read? || step.Spawn? || step.CheckExit? || step.CheckLock? || step.Timeout?
    requires LauncherReady(s, step)
  {
    var l := s.launchers[step.l];
    match step
    case Probe(i) =>
      SetWait(s, i, if s.connection.Some? then (if l.wait.Probing? then Reading else ReadingAgain)
                    else if l.wait.Probing? then Spawning else Waiting)
    case Read(i) =>
      SetWait(s, i, if s.connection.Some? then Returned(s.connection.value) else FileVanished)
    case Spawn(i) =>
      s.(daemons := s.daemons + [Daemon(Unclaimed, Open, false, Running)],
         launchers := s.launchers[i := Launcher(Waiting, Some(|s.daemons|))])
    case CheckExit(i) =>
      SetWait(s, i, match s.daemons[l.child.value].exit
                    case Running => ProbingAgain
                    case Killed => ProbingAgain
                    case Exited(code) => if code != 0 then StartupFailed else CheckingLock)
    case CheckLock(i) => SetWait(s, i, if s.lock.None? then StartupStopped else ProbingAgain)
    case Timeout(i) => SetWait(s, i, TimedOut)
  }

  function Next(s: State, step: Step): State
    requires Enabled(s, step)
  {
    match step
    case Start => s.(launchers := s.launchers + [Launcher(Probing, None)])
    case Probe(_) => NextLauncher(s, step)
    case Read(_) => NextLauncher(s, step)
    case Spawn(_) => NextLauncher(s, step)
    case CheckExit(_) => NextLauncher(s, step)
    case CheckLock(_) => NextLauncher(s, step)
    case Timeout(_) => NextLauncher(s, step)
    case Claim(i) =>
      // mkdir: it makes the directory, or it fails because there is one and the daemon exits with 0.
      if s.lock.None? then SetDaemon(s.(lock := Some(i)), i, s.daemons[i].(main := Setup))
      else SetDaemon(s, i, s.daemons[i].(exit := Exited(0)))
    case ClaimFails(i) =>
      // Any other error of mkdir ends the daemon.
      SetDaemon(s, i, s.daemons[i].(exit := Exited(1)))
    case Write(i) => SetDaemon(s.(tmp := Some(i)), i, s.daemons[i].(main := WroteTmp))
    case Publish(i) =>
      // rename: it fails when the temporary file is gone.
      if s.tmp.None? then SetDaemon(s, i, s.daemons[i].(main := Failed))
      else SetDaemon(s.(connection := s.tmp, tmp := None), i, s.daemons[i].(main := Published))
    case Fail(i) => SetDaemon(s, i, s.daemons[i].(main := Failed))
    case AskStop(i) => SetDaemon(s, i, s.daemons[i].(stopAsked := true))
    case TakeDown(i, ok) => SetDaemon(s, i, s.daemons[i].(closer := if ok then StackDown else Broken(false)))
    case Remove(i) => SetDaemon(s.(connection := None), i, s.daemons[i].(closer := Removed))
    case Release(i) => SetDaemon(s.(lock := None), i, s.daemons[i].(closer := Released))
    case RemoveFails(i) => SetDaemon(s, i, s.daemons[i].(closer := Broken(false)))
    case ReleaseFails(i) => SetDaemon(s, i, s.daemons[i].(closer := Broken(true)))
    case Exit(i, code) => SetDaemon(s, i, s.daemons[i].(exit := Exited(code)))
    case Kill(i) => SetDaemon(s, i, s.daemons[i].(exit := Killed))
  }

  // ----- runs

  ghost predicate Path(from: State, ss: seq<State>, steps: seq<Step>) {
    && |ss| == |steps| + 1 && ss[0] == from
    && forall i :: 0 <= i < |steps| ==> Enabled(ss[i], steps[i]) && ss[i + 1] == Next(ss[i], steps[i])
  }

  ghost predicate Run(ss: seq<State>, steps: seq<Step>) {
    Path(EMPTY, ss, steps)
  }

  /** Between claim and release; a killed daemon never releases. */
  predicate Holding(d: Daemon) {
    !d.main.Unclaimed? && !d.closer.Released?
  }

  predicate Locked(s: State) {
    && (s.lock.Some? ==> s.lock.value < |s.daemons|)
    && (forall i :: 0 <= i < |s.daemons| ==> (Holding(s.daemons[i]) <==> s.lock == Some(i)))
    && (forall i :: 0 <= i < |s.daemons| ==>
          var d := s.daemons[i];
          && (d.main.Unclaimed? ==> d.closer.Open? && !d.stopAsked)
          && (d.exit == Exited(0) ==> d.main.Unclaimed? || (d.stopAsked && d.closer.Released?)))
  }

  predicate ByLauncher(step: Step) {
    step.Probe? || step.Read? || step.Spawn? || step.CheckExit? || step.CheckLock? || step.Timeout? || step.Start?
  }

  lemma LauncherLocked(s: State, step: Step)
    requires Locked(s) && Enabled(s, step) && ByLauncher(step)
    ensures Locked(Next(s, step))
  {
  }

  lemma ClaimLocked(s: State, i: nat)
    requires Locked(s) && Enabled(s, Claim(i))
    ensures Locked(Next(s, Claim(i)))
  {
  }

  lemma ReleaseLocked(s: State, i: nat)
    requires Locked(s) && Enabled(s, Release(i))
    ensures Locked(Next(s, Release(i)))
  {
    assert Holding(s.daemons[i]);
  }

  lemma DaemonLocked(s: State, step: Step)
    requires Locked(s) && Enabled(s, step) && !ByLauncher(step) && !step.Claim? && !step.Release?
    ensures Locked(Next(s, step))
  {
    var d := Next(s, step).daemons[step.d];
    assert Holding(d) == Holding(s.daemons[step.d]);
    assert Next(s, step).daemons == s.daemons[step.d := d] && Next(s, step).lock == s.lock;
  }

  lemma StepLocked(s: State, step: Step)
    requires Locked(s) && Enabled(s, step)
    ensures Locked(Next(s, step))
  {
    if ByLauncher(step) {
      LauncherLocked(s, step);
    } else if step.Claim? {
      ClaimLocked(s, step.d);
    } else if step.Release? {
      ReleaseLocked(s, step.d);
    } else {
      DaemonLocked(s, step);
    }
  }

  lemma {:induction false} RunLocked(ss: seq<State>, steps: seq<Step>, i: nat)
    requires Run(ss, steps) && i < |ss|
    ensures Locked(ss[i])
  {
    if i > 0 {
      RunLocked(ss, steps, i - 1);
      assert Enabled(ss[i - 1], steps[i - 1]) && ss[i] == Next(ss[i - 1], steps[i - 1]);
      StepLocked(ss[i - 1], steps[i - 1]);
    }
  }

  /** Whatever the interleaving, at most one daemon is between its claim and its release. */
  lemma AtMostOneHolder(ss: seq<State>, steps: seq<Step>, i: nat, a: nat, b: nat)
    requires Run(ss, steps) && i < |ss| && a < |ss[i].daemons| && b < |ss[i].daemons|
    requires Holding(ss[i].daemons[a]) && Holding(ss[i].daemons[b])
    ensures a == b && ss[i].lock == Some(a)
  {
    RunLocked(ss, steps, i);
  }

  /** A release removes the lock its own claim made, never a successor's. */
  lemma ReleaseOwn(ss: seq<State>, steps: seq<Step>, i: nat, d: nat)
    requires Run(ss, steps) && i < |steps| && steps[i] == Release(d)
    ensures ss[i].lock == Some(d) && ss[i + 1].lock == None
  {
    RunLocked(ss, steps, i);
    assert Enabled(ss[i], steps[i]);
  }

  /** Once released, always released: a daemon releases at most once. */
  lemma {:induction false} ReleaseOnce(ss: seq<State>, steps: seq<Step>, i: nat, j: nat, d: nat)
    requires Run(ss, steps) && i < j < |steps| && steps[i] == Release(d)
    ensures steps[j] != Release(d)
  {
    assert Enabled(ss[i], steps[i]) && ss[i + 1] == Next(ss[i], steps[i]);
    StaysReleased(ss, steps, i + 1, j, d);
    assert Enabled(ss[j], steps[j]);
  }

  lemma {:induction false} StaysReleased(ss: seq<State>, steps: seq<Step>, i: nat, j: nat, d: nat)
    requires Run(ss, steps) && i <= j < |ss| && d < |ss[i].daemons| && ss[i].daemons[d].closer.Released?
    ensures d < |ss[j].daemons| && ss[j].daemons[d].closer.Released?
    decreases j
  {
    if i < j {
      StaysReleased(ss, steps, i, j - 1, d);
      assert Enabled(ss[j - 1], steps[j - 1]) && ss[j] == Next(ss[j - 1], steps[j - 1]);
    }
  }

  /** A lock whose holder is dead is never removed and never taken again. */
  lemma {:induction false} DeadHolderKeepsLock(ss: seq<State>, steps: seq<Step>, i: nat, j: nat, d: nat)
    requires Run(ss, steps) && i <= j < |ss| && ss[i].lock == Some(d)
    requires d < |ss[i].daemons| && !ss[i].daemons[d].exit.Running?
    ensures ss[j].lock == Some(d) && d < |ss[j].daemons| && ss[j].daemons[d] == ss[i].daemons[d]
    decreases j
  {
    if i < j {
      DeadHolderKeepsLock(ss, steps, i, j - 1, d);
      RunLocked(ss, steps, j - 1);
      assert Enabled(ss[j - 1], steps[j - 1]) && ss[j] == Next(ss[j - 1], steps[j - 1]);
      DeadHolderStep(ss[j - 1], steps[j - 1], d);
    }
  }

  lemma DeadHolderStep(s: State, step: Step, d: nat)
    requires Locked(s) && Enabled(s, step) && s.lock == Some(d) && d < |s.daemons| && !s.daemons[d].exit.Running?
    ensures var t := Next(s, step); t.lock == Some(d) && d < |t.daemons| && t.daemons[d] == s.daemons[d]
  {
  }

  // ----- what can still happen

  /** The premise on `close`: it removes the file only when the daemon's own line of control is at its end. */
  predicate Settled(s: State, step: Step) {
    step.Remove? ==> step.d < |s.daemons| && (s.daemons[step.d].main.Published? || s.daemons[step.d].main.Failed?)
  }

  ghost predicate SettledPath(from: State, ss: seq<State>, steps: seq<Step>) {
    Path(from, ss, steps) && forall i :: 0 <= i < |steps| ==> Settled(ss[i], steps[i])
  }

  /** Some continuation, if asked for a settled one, leads to the goal. */
  ghost predicate Can(s: State, settled: bool, goal: State -> bool) {
    exists ss: seq<State>, steps: seq<Step> :: (
      Path(s, ss, steps) && (settled ==> SettledPath(s, ss, steps)) && goal(ss[|steps|]))
  }

  lemma CanNow(s: State, settled: bool, goal: State -> bool)
    requires goal(s)
    ensures Can(s, settled, goal)
  {
    var none: seq<Step> := [];
    assert SettledPath(s, [s], none) && goal([s][|none|]);
  }

  lemma CanStep(s: State, settled: bool, goal: State -> bool, step: Step)
    requires Enabled(s, step) && (settled ==> Settled(s, step)) && Can(Next(s, step), settled, goal)
    ensures Can(s, settled, goal)
  {
    var next := Next(s, step);
    var ss: seq<State>, steps: seq<Step> :|
      Path(next, ss, steps) && (settled ==> SettledPath(next, ss, steps)) && goal(ss[|steps|]);
    var longer, all := [s] + ss, [step] + steps;
    PathCons(s, step, ss, steps);
    assert longer[|all|] == ss[|steps|];
  }

  lemma PathCons(s: State, step: Step, ss: seq<State>, steps: seq<Step>)
    requires Enabled(s, step) && Path(Next(s, step), ss, steps)
    ensures Path(s, [s] + ss, [step] + steps)
    ensures Settled(s, step) && SettledPath(Next(s, step), ss, steps) ==> SettledPath(s, [s] + ss, [step] + steps)
  {
    var longer, all := [s] + ss, [step] + steps;
    forall i | 0 <= i < |all|
      ensures Enabled(longer[i], all[i]) && longer[i + 1] == Next(longer[i], all[i])
    {
      if i > 0 {
        assert longer[i] == ss[i - 1] && all[i] == steps[i - 1] && longer[i + 1] == ss[i];
      }
    }
    if Settled(s, step) && SettledPath(Next(s, step), ss, steps) {
      forall i | 0 <= i < |all|
        ensures Settled(longer[i], all[i])
      {
        if i > 0 {
          assert longer[i] == ss[i - 1] && all[i] == steps[i - 1];
        }
      }
    }
  }

  // ----- the lock of a daemon that cannot release it

  /** The holder is dead, or its stack could not be taken down. */
  predicate Stuck(s: State, d: nat) {
    s.lock == Some(d) && d < |s.daemons| && (!s.daemons[d].exit.Running? || s.daemons[d].closer.Broken?)
  }

  lemma StuckStep(s: State, step: Step, d: nat)
    requires Locked(s) && Stuck(s, d) && Enabled(s, step)
    ensures Stuck(Next(s, step), d)
  {
  }

  lemma {:induction false} StuckPath(s: State, ss: seq<State>, steps: seq<Step>, d: nat, i: nat)
    requires Locked(s) && Stuck(s, d) && Path(s, ss, steps) && i < |ss|
    ensures Locked(ss[i]) && Stuck(ss[i], d)
  {
    if i > 0 {
      StuckPath(s, ss, steps, d, i - 1);
      assert Enabled(ss[i - 1], steps[i - 1]) && ss[i] == Next(ss[i - 1], steps[i - 1]);
      StepLocked(ss[i - 1], steps[i - 1]);
      StuckStep(ss[i - 1], steps[i - 1], d);
    }
  }

  lemma StuckForGood(s: State, d: nat)
    requires Locked(s) && Stuck(s, d)
    ensures !Can(s, false, (t: State) => t.lock.None?)
  {
    forall more: seq<State>, later: seq<Step> | Path(s, more, later)
      ensures more[|later|].lock.Some?
    {
      StuckPath(s, more, later, d, |later|);
    }
  }

  function StepsLeft(d: Daemon): nat {
    match d.closer
    case Open => if d.stopAsked || d.main.Failed? then 3 else 4
    case StackDown => 2
    case Removed => 1
    case _ => 0
  }

  lemma {:induction false} HolderFrees(s: State, d: nat)
    requires Locked(s) && s.lock == Some(d) && !Stuck(s, d)
    ensures Can(s, false, (t: State) => t.lock.None?)
    decreases if d < |s.daemons| then StepsLeft(s.daemons[d]) else 0
  {
    var daemon := s.daemons[d];
    assert Holding(daemon);
    if daemon.closer.Removed? {
      CanNow(Next(s, Release(d)), false, (t: State) => t.lock.None?);
      CanStep(s, false, (t: State) => t.lock.None?, Release(d));
    } else {
      var step := if daemon.closer.StackDown? then Remove(d)
                  else if daemon.stopAsked || daemon.main.Failed? then TakeDown(d, true)
                  else AskStop(d);
      StepLocked(s, step);
      HolderFrees(Next(s, step), d);
      CanStep(s, false, (t: State) => t.lock.None?, step);
    }
  }

  /** From any reachable state, some continuation frees the lock if and only if its holder runs and is not Broken. */
  lemma LockFreedIff(ss: seq<State>, steps: seq<Step>, d: nat)
    requires Run(ss, steps) && ss[|steps|].lock == Some(d)
    ensures d < |ss[|steps|].daemons|
    ensures Can(ss[|steps|], false, (t: State) => t.lock.None?) <==>
            ss[|steps|].daemons[d].exit.Running? && !ss[|steps|].daemons[d].closer.Broken?
  {
    var s := ss[|steps|];
    RunLocked(ss, steps, |steps|);
    if Stuck(s, d) {
      StuckForGood(s, d);
    } else {
      HolderFrees(s, d);
    }
  }

  // ----- the published file

  predicate Gone(d: Daemon) {
    d.closer.Removed? || d.closer.Released? || d.closer == Broken(true)
  }

  /** The premise: no write or rename of a daemon takes effect after its own removal of the file. */
  predicate Quiet(s: State, step: Step) {
    match step
    case Write(d) => d < |s.daemons| && !Gone(s.daemons[d])
    case Publish(d) => d < |s.daemons| && !Gone(s.daemons[d])
    case _ => true
  }

  ghost predicate QuietRun(ss: seq<State>, steps: seq<Step>) {
    Run(ss, steps) && forall i :: 0 <= i < |steps| ==> Quiet(ss[i], steps[i])
  }

  predicate Owned(s: State) {
    && (s.connection.Some? ==>
          && s.connection.value < |s.daemons|
          && s.daemons[s.connection.value].main.Published? && !Gone(s.daemons[s.connection.value]))
    && (forall i :: 0 <= i < |s.daemons| ==>
          (s.daemons[i].main.WroteTmp? && !Gone(s.daemons[i]) ==> s.tmp == Some(i)))
  }

  lemma OwnedByDaemon(s: State, step: Step)
    requires Locked(s) && Owned(s) && Enabled(s, step) && Quiet(s, step) && !ByLauncher(step)
    requires !step.Remove? && !step.Write? && !step.Publish?
    ensures Owned(Next(s, step))
  {
    var d := Next(s, step).daemons[step.d];
    var n := Next(s, step);
    assert n.daemons == s.daemons[step.d := d] && n.connection == s.connection && n.tmp == s.tmp;
    assert Gone(d) <==> Gone(s.daemons[step.d]);
    assert d.main.WroteTmp? ==> s.daemons[step.d].main.WroteTmp?;
    assert s.daemons[step.d].main.Published? ==> d.main.Published?;
  }

  lemma OwnedByFile(s: State, step: Step)
    requires Locked(s) && Owned(s) && Enabled(s, step) && Quiet(s, step)
    requires step.Remove? || step.Write? || step.Publish?
    ensures Owned(Next(s, step))
  {
    assert Holding(s.daemons[step.d]);
    assert forall i :: 0 <= i < |s.daemons| && i != step.d ==> !Holding(s.daemons[i]);
    assert s.connection.Some? ==> Holding(s.daemons[s.connection.value]);
    assert forall i :: 0 <= i < |s.daemons| && s.daemons[i].main.WroteTmp? && !Gone(s.daemons[i]) ==>
      Holding(s.daemons[i]);
  }

  lemma OwnedByLauncher(s: State, step: Step)
    requires Owned(s) && Enabled(s, step) && ByLauncher(step)
    ensures Owned(Next(s, step))
  {
  }

  lemma {:induction false} RunOwned(ss: seq<State>, steps: seq<Step>, i: nat)
    requires QuietRun(ss, steps) && i < |ss|
    ensures Owned(ss[i])
  {
    if i > 0 {
      RunOwned(ss, steps, i - 1);
      RunLocked(ss, steps, i - 1);
      assert Enabled(ss[i - 1], steps[i - 1]) && ss[i] == Next(ss[i - 1], steps[i - 1]);
      assert Quiet(ss[i - 1], steps[i - 1]);
      StepOwned(ss[i - 1], steps[i - 1]);
    }
  }

  lemma StepOwned(s: State, step: Step)
    requires Locked(s) && Owned(s) && Enabled(s, step) && Quiet(s, step)
    ensures Owned(Next(s, step))
  {
    if ByLauncher(step) {
      OwnedByLauncher(s, step);
    } else if step.Remove? || step.Write? || step.Publish? {
      OwnedByFile(s, step);
    } else {
      OwnedByDaemon(s, step);
    }
  }

  /** A visible connection file describes the session of the daemon that holds the lock. */
  lemma FileBelongsToHolder(ss: seq<State>, steps: seq<Step>, i: nat)
    requires QuietRun(ss, steps) && i < |ss| && ss[i].connection.Some?
    ensures ss[i].lock == ss[i].connection
  {
    RunOwned(ss, steps, i);
    RunLocked(ss, steps, i);
  }

  /** Whoever has removed the file was at the end of its own line before. */
  predicate Finished(s: State) {
    forall i :: 0 <= i < |s.daemons| && Gone(s.daemons[i]) ==> s.daemons[i].main.Published? || s.daemons[i].main.Failed?
  }

  /** What every settled run keeps. */
  predicate Kept(s: State) {
    Locked(s) && Owned(s) && Finished(s)
  }

  lemma SettledStep(s: State, step: Step)
    requires Kept(s) && Enabled(s, step) && Settled(s, step)
    ensures Quiet(s, step) && Kept(Next(s, step))
  {
    FinishedStep(s, step);
    StepLocked(s, step);
    StepOwned(s, step);
  }

  lemma FinishedStep(s: State, step: Step)
    requires Locked(s) && Finished(s) && Enabled(s, step) && Settled(s, step)
    ensures Quiet(s, step) && Finished(Next(s, step))
  {
  }

  lemma {:induction false} SettledKeeps(s: State, ss: seq<State>, steps: seq<Step>, i: nat)
    requires Kept(s) && SettledPath(s, ss, steps) && i < |ss|
    ensures Kept(ss[i])
  {
    if i > 0 {
      SettledKeeps(s, ss, steps, i - 1);
      assert Enabled(ss[i - 1], steps[i - 1]) && ss[i] == Next(ss[i - 1], steps[i - 1]);
      assert Settled(ss[i - 1], steps[i - 1]);
      SettledStep(ss[i - 1], steps[i - 1]);
    }
  }

  /** A visible connection file describes the session of the lock holder. */
  predicate FileOwned(s: State) {
    s.connection.Some? ==> s.lock == s.connection
  }

  lemma KeptOwnsFile(s: State)
    requires Kept(s)
    ensures FileOwned(s)
  {
  }

  /** A run in which every removal is settled is quiet, so its files are always owned. */
  lemma SettledIsQuiet(ss: seq<State>, steps: seq<Step>)
    requires SettledPath(EMPTY, ss, steps)
    ensures QuietRun(ss, steps) && forall i :: 0 <= i < |ss| ==> FileOwned(ss[i])
  {
    forall i | 0 <= i < |ss|
      ensures Kept(ss[i]) && FileOwned(ss[i])
    {
      SettledKeeps(EMPTY, ss, steps, i);
      KeptOwnsFile(ss[i]);
    }
    forall i | 0 <= i < |steps|
      ensures Quiet(ss[i], steps[i])
    {
      assert Kept(ss[i]) && Enabled(ss[i], steps[i]) && Settled(ss[i], steps[i]);
      SettledStep(ss[i], steps[i]);
    }
  }

  /** A daemon that has removed the file, and whose own line then goes on, leaves a file without a lock. */
  lemma {:induction false} LatePublish(s: State, d: nat)
    requires d < |s.daemons| && s.daemons[d].exit.Running? && s.daemons[d].closer.Removed?
    requires s.daemons[d].main.Setup? || (s.daemons[d].main.WroteTmp? && s.tmp.Some?)
    ensures Can(s, true, (t: State) => !FileOwned(t))
    decreases s.daemons[d].main.Setup?
  {
    var goal := (t: State) => !FileOwned(t);
    if s.daemons[d].main.Setup? {
      var wrote := Next(s, Write(d));
      LatePublish(wrote, d);
      CanStep(s, true, goal, Write(d));
    } else {
      LateRenameBreaks(s, d);
      var published := Next(s, Publish(d));
      CanNow(Next(published, Release(d)), true, goal);
      CanStep(published, true, goal, Release(d));
      CanStep(s, true, goal, Publish(d));
    }
  }

  /**
    When a daemon may remove the file: as long as removals are settled, ownership of the file is safe in every
    continuation of a removal if and only if that removal is settled as well. Otherwise the daemon alone breaks it.
   */
  lemma RemovalIff(ss: seq<State>, steps: seq<Step>, d: nat)
    requires SettledPath(EMPTY, ss, steps) && Enabled(ss[|steps|], Remove(d))
    ensures Settled(ss[|steps|], Remove(d)) <==>
            !Can(Next(ss[|steps|], Remove(d)), true, (t: State) => !FileOwned(t))
  {
    var s := ss[|steps|];
    SettledKeeps(EMPTY, ss, steps, |steps|);
    var next := Next(s, Remove(d));
    if Settled(s, Remove(d)) {
      SettledStep(s, Remove(d));
      forall more: seq<State>, later: seq<Step> | SettledPath(next, more, later)
        ensures FileOwned(more[|later|])
      {
        SettledKeeps(next, more, later, |later|);
        KeptOwnsFile(more[|later|]);
      }
    } else {
      assert Holding(s.daemons[d]) && !Gone(s.daemons[d]);
      LatePublish(next, d);
    }
  }

  // ----- launchers

  /** A launcher returns only the session of a daemon that holds the lock as the file is read. */
  lemma LauncherReturnsHolder(ss: seq<State>, steps: seq<Step>, i: nat, l: nat)
    requires QuietRun(ss, steps) && i < |steps| && l < |ss[i + 1].launchers|
    requires steps[i] == Read(l) && ss[i + 1].launchers[l].wait.Returned?
    ensures var d := ss[i + 1].launchers[l].wait.owner;
            ss[i].lock == Some(d) && d < |ss[i].daemons| && ss[i].daemons[d].main.Published?
  {
    assert Enabled(ss[i], steps[i]) && ss[i + 1] == Next(ss[i], steps[i]);
    RunOwned(ss, steps, i);
    RunLocked(ss, steps, i);
  }

  lemma {:induction false} NoReleaseKeepsLock(ss: seq<State>, steps: seq<Step>, i: nat, j: nat)
    requires Run(ss, steps) && i <= j < |ss| && ss[i].lock.Some?
    requires forall k :: i <= k < j ==> !steps[k].Release?
    ensures ss[j].lock == ss[i].lock
    decreases j
  {
    if i < j {
      NoReleaseKeepsLock(ss, steps, i, j - 1);
      assert Enabled(ss[j - 1], steps[j - 1]) && ss[j] == Next(ss[j - 1], steps[j - 1]);
    }
  }

  /** Launchers that return with no release in between return the same session. */
  lemma SameSession(ss: seq<State>, steps: seq<Step>, i: nat, j: nat, a: nat, b: nat)
    requires QuietRun(ss, steps) && i <= j < |steps| && a < |ss[i + 1].launchers| && b < |ss[j + 1].launchers|
    requires steps[i] == Read(a) && ss[i + 1].launchers[a].wait.Returned?
    requires steps[j] == Read(b) && ss[j + 1].launchers[b].wait.Returned?
    requires forall k :: i <= k < j ==> !steps[k].Release?
    ensures ss[i + 1].launchers[a].wait == ss[j + 1].launchers[b].wait
  {
    LauncherReturnsHolder(ss, steps, i, a);
    LauncherReturnsHolder(ss, steps, j, b);
    NoReleaseKeepsLock(ss, steps, i, j);
  }

  /** A launcher waits for the daemon it started, and checks the lock only after that daemon exited with 0. */
  predicate Attached(s: State) {
    forall i :: 0 <= i < |s.launchers| ==>
      var l := s.launchers[i];
      && (l.child.Some? ==> l.child.value < |s.daemons|)
      && (l.wait.CheckingLock? || l.wait.StartupStopped? ==>
            l.child.Some? && s.daemons[l.child.value].exit == Exited(0))
      && (l.wait.Waiting? || l.wait.ProbingAgain? || l.wait.ReadingAgain? ==> l.child.Some?)
  }

  lemma {:induction false} RunAttached(ss: seq<State>, steps: seq<Step>, i: nat)
    requires Run(ss, steps) && i < |ss|
    ensures Attached(ss[i])
  {
    if i > 0 {
      RunAttached(ss, steps, i - 1);
      assert Enabled(ss[i - 1], steps[i - 1]) && ss[i] == Next(ss[i - 1], steps[i - 1]);
      AttachedStep(ss[i - 1], steps[i - 1]);
    }
  }

  lemma AttachedStep(s: State, step: Step)
    requires Attached(s) && Enabled(s, step)
    ensures Attached(Next(s, step))
  {
    if ByLauncher(step) {
      AttachedByLauncher(s, step);
    } else {
      assert Next(s, step).launchers == s.launchers;
      assert s.daemons[step.d].exit.Running?;
    }
  }

  lemma AttachedByLauncher(s: State, step: Step)
    requires Attached(s) && Enabled(s, step) && ByLauncher(step)
    ensures Attached(Next(s, step))
  {
  }

  /**
    "Isolated startup stopped" is raised only with no lock in place, after the launcher's own daemon exited
    with 0; that daemon either lost the claim or was asked to stop and has released.
   */
  lemma StoppedOnlyWithoutLock(ss: seq<State>, steps: seq<Step>, i: nat, l: nat)
    requires Run(ss, steps) && i < |steps| && steps[i] == CheckLock(l)
    ensures l < |ss[i].launchers| && l < |ss[i + 1].launchers|
    ensures ss[i + 1].launchers[l].wait.StartupStopped? <==> ss[i].lock.None?
    ensures var child := ss[i].launchers[l].child;
            && child.Some? && child.value < |ss[i].daemons| && ss[i].daemons[child.value].exit == Exited(0)
            && (ss[i].daemons[child.value].main.Unclaimed?
                || (ss[i].daemons[child.value].stopAsked && ss[i].daemons[child.value].closer.Released?))
  {
    assert Enabled(ss[i], steps[i]) && ss[i + 1] == Next(ss[i], steps[i]);
    RunAttached(ss, steps, i);
    RunLocked(ss, steps, i);
  }

  // ----- the premise is needed

  /** A rename that follows the daemon's own removal leaves a file without a holder as soon as it releases. */
  lemma LateRenameBreaks(s: State, d: nat)
    requires d < |s.daemons| && s.daemons[d].exit.Running?
    requires s.daemons[d].main.WroteTmp? && s.daemons[d].closer.Removed? && s.tmp.Some?
    ensures Enabled(s, Publish(d)) && Enabled(Next(s, Publish(d)), Release(d))
    ensures var after := Next(Next(s, Publish(d)), Release(d));
            after.connection.Some? && after.lock.None?
  {
  }

  /** Some run ends in `s`; if asked for, with every rename of it quiet. */
  ghost predicate Reaches(steps: seq<Step>, s: State, quietRenames: bool) {
    exists ss: seq<State> :: (
      && Run(ss, steps) && ss[|steps|] == s
      && (quietRenames ==> forall i :: 0 <= i < |steps| && steps[i].Publish? ==> Quiet(ss[i], steps[i])))
  }

  lemma Then(steps: seq<Step>, s: State, quietRenames: bool, step: Step, next: State)
    requires Reaches(steps, s, quietRenames) && Enabled(s, step) && next == Next(s, step)
    requires quietRenames && step.Publish? ==> Quiet(s, step)
    ensures Reaches(steps + [step], next, quietRenames)
  {
    var ss: seq<State> :| Run(ss, steps) && ss[|steps|] == s
      && (quietRenames ==> forall i :: 0 <= i < |steps| && steps[i].Publish? ==> Quiet(ss[i], steps[i]));
    var longer := ss + [next];
    assert Run(longer, steps + [step]);
  }

  /** A holder can die with its lock in place, which nothing frees then. */
  lemma HolderCanDie()
    ensures exists steps, s :: Reaches(steps, s, true) && Locked(s) && Stuck(s, 0)
                               && !Can(s, false, (t: State) => t.lock.None?)
  {
    Started(true);
    var dead := State(Some(0), None, None, [SETUP.(exit := Killed)], [WAITING]);
    Then(START, State(Some(0), None, None, [SETUP], [WAITING]), true, Kill(0), dead);
    StuckForGood(dead, 0);
  }

  /** And so can the cleanup of its stack throw. */
  lemma HolderCanBreak()
    ensures exists steps, s :: Reaches(steps, s, true) && Locked(s) && Stuck(s, 0) && s.daemons[0].exit.Running?
                               && !Can(s, false, (t: State) => t.lock.None?)
  {
    Breaking();
    StuckForGood(BROKEN, 0);
  }

  const BROKEN := State(Some(0), None, None, [Daemon(Setup, Broken(false), true, Running)], [WAITING])

  lemma Breaking()
    ensures Reaches(START + [AskStop(0)] + [TakeDown(0, false)], BROKEN, true)
  {
    Started(true);
    var asked := State(Some(0), None, None, [Daemon(Setup, Open, true, Running)], [WAITING]);
    Then(START, State(Some(0), None, None, [SETUP], [WAITING]), true, AskStop(0), asked);
    Then(START + [AskStop(0)], asked, true, TakeDown(0, false), BROKEN);
  }

  /** Daemon 0 has been started and holds the lock. */
  const SETUP := Daemon(Setup, Open, false, Running)
  const WAITING := Launcher(Waiting, Some(0))
  const START: seq<Step> := [Start] + [Probe(0)] + [Spawn(0)] + [Claim(0)]

  lemma Started(quiet: bool)
    ensures Reaches(START, State(Some(0), None, None, [SETUP], [WAITING]), quiet)
  {
    Probed(quiet);
    Then([Start] + [Probe(0)], State(None, None, None, [], [Launcher(Spawning, None)]), quiet, Spawn(0),
         State(None, None, None, [Daemon(Unclaimed, Open, false, Running)], [WAITING]));
    Then([Start] + [Probe(0)] + [Spawn(0)],
         State(None, None, None, [Daemon(Unclaimed, Open, false, Running)], [WAITING]), quiet, Claim(0),
         State(Some(0), None, None, [SETUP], [WAITING]));
  }

  lemma Probed(quiet: bool)
    ensures Reaches([Start] + [Probe(0)], State(None, None, None, [], [Launcher(Spawning, None)]), quiet)
  {
    assert Run([EMPTY], []);
    assert Reaches([], EMPTY, quiet) by { assert [EMPTY][0] == EMPTY; }
    assert [] + [Start] == [Start];
    Then([], EMPTY, quiet, Start, State(None, None, None, [], [Launcher(Probing, None)]));
    Then([Start], State(None, None, None, [], [Launcher(Probing, None)]), quiet, Probe(0),
         State(None, None, None, [], [Launcher(Spawning, None)]));
  }

  /** Four steps of one daemon: it is asked to stop, takes its stack down, and removes the file. */
  lemma Stopping(steps: seq<Step>, tmp: Option<nat>, d: Daemon, quiet: bool)
    requires Reaches(steps, State(Some(0), None, tmp, [d], [WAITING]), quiet)
    requires d.exit.Running? && d.closer.Open? && !d.main.Unclaimed?
    ensures Reaches(steps + [AskStop(0)] + [TakeDown(0, true)] + [Remove(0)],
                    State(Some(0), None, tmp, [d.(stopAsked := true, closer := Removed)], [WAITING]), quiet)
  {
    var asked := d.(stopAsked := true);
    var down := asked.(closer := StackDown);
    Then(steps, State(Some(0), None, tmp, [d], [WAITING]), quiet, AskStop(0),
         State(Some(0), None, tmp, [asked], [WAITING]));
    Then(steps + [AskStop(0)], State(Some(0), None, tmp, [asked], [WAITING]), quiet, TakeDown(0, true),
         State(Some(0), None, tmp, [down], [WAITING]));
    Then(steps + [AskStop(0)] + [TakeDown(0, true)], State(Some(0), None, tmp, [down], [WAITING]), quiet, Remove(0),
         State(Some(0), None, tmp, [asked.(closer := Removed)], [WAITING]));
  }

  /** A daemon that is stopped while it publishes: its file outlives its lock. */
  lemma PremiseNeeded()
    ensures exists steps, s :: Reaches(steps, s, false) && s.connection.Some? && s.lock.None?
  {
    Started(false);
    var wrote := Daemon(WroteTmp, Open, false, Running);
    var gone := Daemon(WroteTmp, Removed, true, Running);
    var steps := START + [Write(0)];
    Then(START, State(Some(0), None, None, [SETUP], [WAITING]), false, Write(0),
         State(Some(0), None, Some(0), [wrote], [WAITING]));
    Stopping(steps, Some(0), wrote, false);
    steps := steps + [AskStop(0)] + [TakeDown(0, true)] + [Remove(0)];
    Then(steps, State(Some(0), None, Some(0), [gone], [WAITING]), false, Publish(0),
         State(Some(0), Some(0), None, [Daemon(Published, Removed, true, Running)], [WAITING]));
    Then(steps + [Publish(0)], State(Some(0), Some(0), None, [Daemon(Published, Removed, true, Running)], [WAITING]),
         false, Release(0), State(None, Some(0), None, [Daemon(Published, Released, true, Running)], [WAITING]));
  }

  /** A second launcher starts daemon 1, which takes the free lock. */
  lemma Successor(steps: seq<Step>, d: Daemon, quiet: bool)
    requires Reaches(steps, State(None, None, None, [d], [WAITING]), quiet)
    ensures Reaches(steps + [Start] + [Probe(1)] + [Spawn(1)] + [Claim(1)],
                    State(Some(1), None, None, [d, SETUP], [WAITING, Launcher(Waiting, Some(1))]), quiet)
  {
    var started := State(None, None, None, [d], [WAITING, Launcher(Probing, None)]);
    var probed := State(None, None, None, [d], [WAITING, Launcher(Spawning, None)]);
    var spawned := State(None, None, None, [d, Daemon(Unclaimed, Open, false, Running)],
                         [WAITING, Launcher(Waiting, Some(1))]);
    Then(steps, State(None, None, None, [d], [WAITING]), quiet, Start, started);
    Then(steps + [Start], started, quiet, Probe(1), probed);
    Then(steps + [Start] + [Probe(1)], probed, quiet, Spawn(1), spawned);
    Then(steps + [Start] + [Probe(1)] + [Spawn(1)], spawned, quiet, Claim(1),
         State(Some(1), None, None, [d, SETUP], [WAITING, Launcher(Waiting, Some(1))]));
  }

  /**
    Keeping only the renames quiet is not enough: daemon 0 writes the shared temporary file after its release,
    and daemon 1 publishes it as its own.
   */
  lemma QuietRenamesAreNotEnough()
    ensures exists steps, s :: Reaches(steps, s, true) && s.connection == Some(0) && s.lock == Some(1)
  {
    Started(true);
    Stopping(START, None, SETUP, true);
    var steps := START + [AskStop(0)] + [TakeDown(0, true)] + [Remove(0)];
    var gone := Daemon(Setup, Released, true, Running);
    Then(steps, State(Some(0), None, None, [Daemon(Setup, Removed, true, Running)], [WAITING]), true, Release(0),
         State(None, None, None, [gone], [WAITING]));
    Successor(steps + [Release(0)], gone, true);
    steps := steps + [Release(0)] + [Start] + [Probe(1)] + [Spawn(1)] + [Claim(1)];
    LateWrite(steps, gone);
  }

  lemma LateWrite(steps: seq<Step>, gone: Daemon)
    requires gone == Daemon(Setup, Released, true, Running)
    requires Reaches(steps, State(Some(1), None, None, [gone, SETUP], [WAITING, Launcher(Waiting, Some(1))]), true)
    ensures exists more, s :: Reaches(more, s, true) && s.connection == Some(0) && s.lock == Some(1)
  {
    var ls := [WAITING, Launcher(Waiting, Some(1))];
    var wrote := Daemon(WroteTmp, Open, false, Running);
    var late := gone.(main := WroteTmp);
    Then(steps, State(Some(1), None, None, [gone, SETUP], ls), true, Write(1),
         State(Some(1), None, Some(1), [gone, wrote], ls));
    Then(steps + [Write(1)], State(Some(1), None, Some(1), [gone, wrote], ls), true, Write(0),
         State(Some(1), None, Some(0), [late, wrote], ls));
    Then(steps + [Write(1)] + [Write(0)], State(Some(1), None, Some(0), [late, wrote], ls), true, Publish(1),
         State(Some(1), Some(0), None, [late, wrote.(main := Published)], ls));
  }
}

/**
  The scheduled manager backup: a run over three kinds of small durable files that may throw or crash at any
  write, and be started again. Windows and operation ids are numbers; a fresh id stands for `randomUUID()`.
 */
module ManagerBackup {
  import opened Common

  type Window = nat
  type Id = nat

  /** `<window>.operation.json`, or a file in its place that does not parse. */
  datatype Identity = Issued(id: Id) | Damaged

  datatype Result = Began | Succeeded | Failed

  /** `health.json`; a receipt file is named by its window. */
  datatype Health = Health(operationId: Option<Id>, receiptFile: Option<Window>, result: Result)

  /** What one durable write does: it takes effect or not, and the run goes on, throws or dies. */
  datatype Fate = Done | Refused | Doubtful | CrashBefore | CrashAfter

  datatype Ending = Returned | Threw | Crashed

  /** The operation of a receipt is the operation its capture was called with. */
  datatype Disk = Disk(health: Option<Health>, identities: map<Window, Identity>, receipts: map<Window, Id>)

  datatype Capture = Capture(window: Window, id: Id)

  /** What the surroundings of one run decide. */
  datatype Surroundings = Surroundings(
    readable: bool, window: Window, uuid: Id, configured: Ending, captured: Ending,
    first: Fate, identity: Fate, second: Fate, receipt: Fate, last: Fate, failure: Fate)

  // ----- what every disk state keeps

  predicate Injective(identities: map<Window, Identity>) {
    forall a, b :: a in identities && b in identities && identities[a].Issued? && identities[a] == identities[b] ==>
      a == b
  }

  /** Receipts come from completed captures of their own window's operation. */
  predicate ReceiptsGood(d: Disk, completed: set<Id>) {
    forall w :: w in d.receipts ==>
      w in d.identities && d.identities[w] == Issued(d.receipts[w]) && d.receipts[w] in completed
  }

  predicate HealthGood(d: Disk) {
    d.health.Some? ==>
      var h := d.health.value;
      && (h.receiptFile.Some? ==> h.receiptFile.value in d.receipts)
      && (h.result.Succeeded? ==> h.receiptFile.Some? && h.operationId == Some(d.receipts[h.receiptFile.value]))
  }

  predicate CapturesGood(d: Disk, captures: seq<Capture>) {
    forall i :: 0 <= i < |captures| ==>
      captures[i].window in d.identities && d.identities[captures[i].window] == Issued(captures[i].id)
  }

  predicate Consistent(d: Disk, captures: seq<Capture>, completed: set<Id>) {
    Injective(d.identities) && ReceiptsGood(d, completed) && HealthGood(d) && CapturesGood(d, captures)
  }

  /** Two captures share an operation id exactly when they share a window. */
  lemma OneIdPerWindow(d: Disk, captures: seq<Capture>, completed: set<Id>, i: nat, j: nat)
    requires Consistent(d, captures, completed) && i < |captures| && j < |captures|
    ensures captures[i].window == captures[j].window <==> captures[i].id == captures[j].id
  {
    assert d.identities[captures[i].window] == Issued(captures[i].id);
  }

  /** The receipt named by the health file is there, and a success names a receipt of the recorded operation. */
  lemma HealthMeans(d: Disk, captures: seq<Capture>, completed: set<Id>)
    requires Consistent(d, captures, completed) && d.health.Some? && d.health.value.receiptFile.Some?
    ensures var w := d.health.value.receiptFile.value;
            && w in d.receipts && d.receipts[w] in completed
            && (d.health.value.result.Succeeded? ==> d.health.value.operationId == Some(d.receipts[w]))
  {
    assert d.health.value.receiptFile.value in d.receipts;
  }

  predicate Unissued(d: Disk, id: Id) {
    forall w :: w in d.identities ==> d.identities[w] != Issued(id)
  }

  /** Receipts and identities stay, and an identity keeps its content. */
  predicate Extends(before: Disk, after: Disk) {
    && (forall w :: w in before.identities ==> w in after.identities && after.identities[w] == before.identities[w])
    && (forall w :: w in before.receipts ==> w in after.receipts && after.receipts[w] == before.receipts[w])
  }

  /** The only id a run can add is its own. */
  predicate AddsOnly(before: Disk, after: Disk, id: Id) {
    forall w :: w in after.identities ==> w in before.identities || after.identities[w] == Issued(id)
  }

  /** The receipt the monitoring reads. */
  function LastReceipt(d: Disk): Option<Window> {
    if d.health.Some? then d.health.value.receiptFile else None
  }

  predicate IsDamaged(d: Disk, w: Window) {
    w in d.identities && d.identities[w].Damaged?
  }

  /** Nothing around the run goes wrong. */
  predicate Fine(env: Surroundings) {
    && env.first.Done? && env.identity.Done? && env.second.Done? && env.configured.Returned? && env.captured.Returned?
    && env.receipt.Done? && env.last.Done?
  }

  class Job {
    var disk: Disk
    /** Every call of `captureManagerBackup` ever made, and the operations whose call completed. */
    ghost var captures: seq<Capture>
    ghost var completed: set<Id>

    ghost predicate Valid()
      reads this
    {
      Consistent(disk, captures, completed)
    }

    constructor (disk: Disk)
      requires disk.receipts == map[] && disk.health.None? && Injective(disk.identities)
      ensures Valid() && this.disk == disk && captures == []
    {
      this.disk, captures, completed := disk, [], {};
    }

    method WriteHealth(h: Health, fate: Fate) returns (e: Ending)
      modifies this`disk
      ensures disk == (if fate.Done? || fate.Doubtful? || fate.CrashAfter?
                       then old(disk).(health := Some(h)) else old(disk))
      ensures e == EndOf(fate)
    {
      if fate.Done? || fate.Doubtful? || fate.CrashAfter? {
        disk := disk.(health := Some(h));
      }
      return EndOf(fate);
    }

    method WriteIdentity(w: Window, id: Id, fate: Fate) returns (e: Ending)
      modifies this`disk
      ensures disk == (if fate.Done? || fate.Doubtful? || fate.CrashAfter?
                       then old(disk).(identities := old(disk).identities[w := Issued(id)]) else old(disk))
      ensures e == EndOf(fate)
    {
      if fate.Done? || fate.Doubtful? || fate.CrashAfter? {
        disk := disk.(identities := disk.identities[w := Issued(id)]);
      }
      return EndOf(fate);
    }

    method WriteReceipt(w: Window, id: Id, fate: Fate) returns (e: Ending)
      modifies this`disk
      ensures disk == (if fate.Done? || fate.Doubtful? || fate.CrashAfter?
                       then old(disk).(receipts := old(disk).receipts[w := id]) else old(disk))
      ensures e == EndOf(fate)
    {
      if fate.Done? || fate.Doubtful? || fate.CrashAfter? {
        disk := disk.(receipts := disk.receipts[w := id]);
      }
      return EndOf(fate);
    }

    /** Read or issue this window's operation id, and write it down before anything uses it. */
    method Identify(env: Surroundings) returns (e: Ending, id: Option<Id>)
      requires Valid() && Unissued(disk, env.uuid)
      modifies this`disk
      ensures Valid() && Extends(old(disk), disk) && AddsOnly(old(disk), disk, env.uuid)
      ensures disk.health == old(disk).health && disk.receipts == old(disk).receipts
      ensures e.Returned? <==> id.Some?
      ensures e.Returned? <==> !IsDamaged(old(disk), env.window) && env.identity.Done?
      ensures id.Some? ==> env.window in disk.identities && disk.identities[env.window] == Issued(id.value)
    {
      id := None;
      var operation := env.uuid;
      if env.window in disk.identities {
        if disk.identities[env.window].Damaged? {
          return Threw, None;
        }
        operation := disk.identities[env.window].id;
      }
      e := WriteIdentity(env.window, operation, env.identity);
      if e.Returned? {
        id := Some(operation);
      }
    }

    /** From the second health write to the last one. */
    method Perform(env: Surroundings, kept: Option<Window>, id: Id) returns (e: Ending)
      requires Valid() && env.window in disk.identities && disk.identities[env.window] == Issued(id)
      requires disk.health == Some(Health(None, kept, Began))
      modifies this
      ensures Valid() && disk.identities == old(disk).identities && Extends(old(disk), disk)
      ensures disk.health.Some?
      ensures LastReceipt(disk) == kept
              || (LastReceipt(disk) == Some(env.window) && disk.health.value.result.Succeeded?)
      ensures captures == old(captures) || captures == old(captures) + [Capture(env.window, id)]
      ensures e.Returned? <==>
                && env.second.Done? && env.configured.Returned? && env.captured.Returned?
                && env.receipt.Done? && env.last.Done?
      ensures e.Returned? ==>
                && captures == old(captures) + [Capture(env.window, id)]
                && disk.health == Some(Health(Some(id), Some(env.window), Succeeded))
    {
      e := WriteHealth(Health(Some(id), kept, Began), env.second);
      if !e.Returned? {
        return;
      }
      if !env.configured.Returned? {
        return env.configured;
      }
      captures := captures + [Capture(env.window, id)];
      if !env.captured.Returned? {
        return env.captured;
      }
      completed := completed + {id};
      e := WriteReceipt(env.window, id, env.receipt);
      if !e.Returned? {
        return;
      }
      e := WriteHealth(Health(Some(id), Some(env.window), Succeeded), env.last);
    }

    /** `captureDailyManagerBackup` under the folder's lock. */
    method Run(env: Surroundings) returns (e: Ending)
      requires Valid() && Unissued(disk, env.uuid)
      modifies this
      ensures Valid() && Extends(old(disk), disk) && AddsOnly(old(disk), disk, env.uuid)
      // Only a success moves the last good receipt, and then to this window's.
      ensures LastReceipt(disk) == LastReceipt(old(disk))
              || (LastReceipt(disk) == Some(env.window) && disk.health.value.result.Succeeded?)
      ensures |captures| <= |old(captures)| + 1 && old(captures) <= captures
      ensures e.Returned? <==> env.readable && Fine(env) && !IsDamaged(old(disk), env.window)
      // A run that throws reports the failure, and keeps the receipt that was last before it.
      ensures env.readable && env.first.Done? && e.Threw? && env.failure.Done? ==>
                disk.health.Some? && disk.health.value.result.Failed? && LastReceipt(disk) == LastReceipt(old(disk))
      ensures e.Returned? ==>
                && |captures| == |old(captures)| + 1 && captures[|old(captures)|].window == env.window
                && disk.health == Some(Health(Some(captures[|old(captures)|].id), Some(env.window), Succeeded))
    {
      if !env.readable {
        return Threw;
      }
      var kept := LastReceipt(disk);
      e := WriteHealth(Health(None, kept, Began), env.first);
      if !e.Returned? {
        return;
      }
      var operationId;
      e, operationId := Identify(env);
      if operationId.Some? {
        e := Perform(env, kept, operationId.value);
      }
      if e.Threw? {
        e := WriteHealth(Health(operationId, kept, Failed), env.failure);
        if e.Returned? {
          e := Threw;
        }
      }
    }

    /** Any sequence of runs, each with its own surroundings, as long as their ids are fresh. */
    method Schedule(envs: seq<Surroundings>) returns (ends: seq<Ending>)
      requires Valid()
      requires forall i :: 0 <= i < |envs| ==> Unissued(disk, envs[i].uuid)
      requires forall i, j :: 0 <= i < j < |envs| ==> envs[i].uuid != envs[j].uuid
      modifies this
      ensures Valid() && |ends| == |envs|
      ensures forall i, j :: 0 <= i < |captures| && 0 <= j < |captures| ==>
                (captures[i].window == captures[j].window <==> captures[i].id == captures[j].id)
      ensures LastReceipt(old(disk)).Some? ==> LastReceipt(disk).Some?
    {
      ends := [];
      for k := 0 to |envs|
        invariant Valid() && |ends| == k
        invariant forall i :: k <= i < |envs| ==> Unissued(disk, envs[i].uuid)
        invariant LastReceipt(old(disk)).Some? ==> LastReceipt(disk).Some?
      {
        var e := Run(envs[k]);
        ends := ends + [e];
      }
      forall i, j | 0 <= i < |captures| && 0 <= j < |captures|
        ensures captures[i].window == captures[j].window <==> captures[i].id == captures[j].id
      {
        OneIdPerWindow(disk, captures, completed, i, j);
      }
    }
  }

  function EndOf(fate: Fate): Ending {
    match fate
    case Done => Returned
    case Refused => Threw
    case Doubtful => Threw
    case CrashBefore => Crashed
    case CrashAfter => Crashed
  }
}

/**
 * What the merge promises for one assignment (uup-game-service.ts, lines
 * 350-414), stated against the raw records rather than against the lookup
 * helpers the merge is written with.
 */
module EntryFacts {
  import opened Wrappers
  import opened GameTypes
  import opened Lookup
  import opened Powerups
  import opened Merger

  /** `s[k]` is the first element of `s` that satisfies `p`. */
  ghost predicate IsFirst<T>(s: seq<T>, k: int, p: T -> bool)
  {
    0 <= k < |s| && p(s[k]) && forall j :: 0 <= j < k ==> !p(s[j])
  }

  /** `find` returns exactly the first match. */
  lemma FindIsFirst<T>(s: seq<T>, p: T -> bool, k: int)
    requires IsFirst(s, k, p)
    ensures Find(s, p) == Some(s[k])
  {
    var r := Find(s, p);
    assert r.Some?;
    var k' :| 0 <= k' < |s| && s[k'] == r.value && p(r.value) && forall j :: 0 <= j < k' ==> !p(s[j]);
    if k' < k {
      assert p(s[k']);
    } else if k < k' {
      assert p(s[k]);
    }
  }

  /** The student has a progress record for assignment `id`. */
  ghost predicate HasProgress(data: RawStudentData, id: int)
  {
    exists k :: 0 <= k < |data.assignmentProgress| && data.assignmentProgress[k].assignmentId == id
  }

  /**
   * An assignment without a progress record becomes the "not started" entry,
   * whatever the other records say, and neither lookup is made: the entry is
   * the same for any two pairs of lookup replies.
   */
  lemma NotStartedEntry(data: RawStudentData, a: Assignment, types: seq<PowerupType>,
                        hintOf: Oracle<string>, pointsOf: Oracle<int>,
                        hintOf': Oracle<string>, pointsOf': Oracle<int>)
    requires !HasProgress(data, a.id)
    ensures DetailsFor(data, a, types, hintOf, pointsOf) == DetailsFor(data, a, types, hintOf', pointsOf')
    ensures DetailsFor(data, a, types, hintOf, pointsOf).Success?
    ensures var d := DetailsFor(data, a, types, hintOf, pointsOf).value;
      && d.id == a.id && d.name == a.name && d.path == a.path
      && !d.unlocked && !d.started && !d.finished
      && d.tasksFullyFinished == 0 && d.tasksTurnedIn == 0
      && d.previousPoints == -1 && d.points == 0
      && d.currentTask == LoadingTask && d.taskHint == ""
      && !d.buyingPowerUp && d.powerupsUsed == [] && !d.collapsed
  {
    assert ProgressFor(data, a.id).None?;
  }

  /**
   * A started assignment keeps its catalog identity, is provisionally
   * unlocked, is finished exactly when its first progress record says
   * "Completed", and lists the powerups spent on it.
   */
  lemma StartedEntry(data: RawStudentData, a: Assignment, types: seq<PowerupType>,
                     hintOf: Oracle<string>, pointsOf: Oracle<int>, k: int)
    requires IsFirst(data.assignmentProgress, k, (x: ProgressRecord) => x.assignmentId == a.id)
    requires DetailsFor(data, a, types, hintOf, pointsOf).Success?
    ensures var d := DetailsFor(data, a, types, hintOf, pointsOf).value;
      && d.id == a.id && d.name == a.name && d.path == a.path
      && d.unlocked && d.started
      && (d.finished <==> data.assignmentProgress[k].status == "Completed")
      && !d.buyingPowerUp && !d.collapsed
      && d.powerupsUsed == UsedOf(data.powerups, types, a.id)
  {
    FindIsFirst(data.assignmentProgress, (x: ProgressRecord) => x.assignmentId == a.id, k);
  }

  /**
   * The counters and points of a started assignment come from the first
   * record of each kind for it, and are 0 when there is none.
   */
  lemma StartedCounters(data: RawStudentData, a: Assignment, types: seq<PowerupType>,
                        hintOf: Oracle<string>, pointsOf: Oracle<int>)
    requires HasProgress(data, a.id)
    requires DetailsFor(data, a, types, hintOf, pointsOf).Success?
    ensures var d := DetailsFor(data, a, types, hintOf, pointsOf).value;
      && (forall k :: IsFirst(data.completedTasks, k, (x: CompletedRecord) => x.assignmentId == a.id) ==>
            d.tasksFullyFinished == data.completedTasks[k].completed)
      && ((forall k :: 0 <= k < |data.completedTasks| ==> data.completedTasks[k].assignmentId != a.id) ==>
            d.tasksFullyFinished == 0)
      && (forall k :: IsFirst(data.turnedInTasks, k, (x: TurnedInRecord) => x.assignmentId == a.id) ==>
            d.tasksTurnedIn == data.turnedInTasks[k].turnedIn)
      && ((forall k :: 0 <= k < |data.turnedInTasks| ==> data.turnedInTasks[k].assignmentId != a.id) ==>
            d.tasksTurnedIn == 0)
      && (forall k :: IsFirst(data.assignmentPoints, k, (x: PointsRecord) => x.assignmentId == a.id) ==>
            d.points == data.assignmentPoints[k].points)
      && ((forall k :: 0 <= k < |data.assignmentPoints| ==> data.assignmentPoints[k].assignmentId != a.id) ==>
            d.points == 0)
  {
    assert ProgressFor(data, a.id).Some?;
    forall k | IsFirst(data.completedTasks, k, (x: CompletedRecord) => x.assignmentId == a.id) {
      FindIsFirst(data.completedTasks, (x: CompletedRecord) => x.assignmentId == a.id, k);
    }
    forall k | IsFirst(data.turnedInTasks, k, (x: TurnedInRecord) => x.assignmentId == a.id) {
      FindIsFirst(data.turnedInTasks, (x: TurnedInRecord) => x.assignmentId == a.id, k);
    }
    forall k | IsFirst(data.assignmentPoints, k, (x: PointsRecord) => x.assignmentId == a.id) {
      FindIsFirst(data.assignmentPoints, (x: PointsRecord) => x.assignmentId == a.id, k);
    }
  }

  /**
   * The current task of a started assignment is the first current-task
   * record for it, or the Loading placeholder when there is none.
   */
  lemma StartedCurrentTask(data: RawStudentData, a: Assignment, types: seq<PowerupType>,
                           hintOf: Oracle<string>, pointsOf: Oracle<int>)
    requires HasProgress(data, a.id)
    requires DetailsFor(data, a, types, hintOf, pointsOf).Success?
    ensures var d := DetailsFor(data, a, types, hintOf, pointsOf).value;
      && (forall k :: IsFirst(data.currentTasks, k, (x: CurrentTaskRecord) => x.assignmentId == a.id) ==>
            d.currentTask == Task(data.currentTasks[k].taskNumber, data.currentTasks[k].taskName))
      && ((forall k :: 0 <= k < |data.currentTasks| ==> data.currentTasks[k].assignmentId != a.id) ==>
            d.currentTask == LoadingTask)
  {
    assert ProgressFor(data, a.id).Some?;
    forall k | IsFirst(data.currentTasks, k, (x: CurrentTaskRecord) => x.assignmentId == a.id) {
      FindIsFirst(data.currentTasks, (x: CurrentTaskRecord) => x.assignmentId == a.id, k);
    }
  }

  /** Some log record of a used `name` powerup of assignment `id` is at task `taskNumber`. */
  ghost predicate SpentOn(log: seq<PowerupRecord>, types: seq<PowerupType>, id: int, name: string, taskNumber: int)
  {
    exists r :: 0 <= r < |log| && CountsAsUsed(log[r], types, id)
                && UsedEntry(log[r], types) == UsedPowerup(name, taskNumber)
  }

  /** The used list holds a `name` entry at `taskNumber` exactly when the log records one. */
  lemma UsedOnIff(log: seq<PowerupRecord>, types: seq<PowerupType>, id: int, name: string, taskNumber: int)
    ensures UsedOn(UsedOf(log, types, id), name, taskNumber) <==> SpentOn(log, types, id, name, taskNumber)
  {
    var used := UsedOf(log, types, id);
    var p := (u: UsedPowerup) => u.name == name && u.taskNumber == taskNumber;
    if UsedOn(used, name, taskNumber) {
      var i := FindIndex(used, p);
      assert used[i] in used;
      UsedOfSound(log, types, id);
    }
    if SpentOn(log, types, id, name, taskNumber) {
      var r :| 0 <= r < |log| && CountsAsUsed(log[r], types, id)
               && UsedEntry(log[r], types) == UsedPowerup(name, taskNumber);
      UsedOfComplete(log, types, id);
      var k :| 0 <= k < |used| && used[k] == UsedEntry(log[r], types);
      assert p(used[k]);
    }
  }

  /**
   * The dependent lookup for `name` is made exactly when the assignment is
   * started, has a first current-task record, and the log records a used
   * `name` powerup of this assignment at that task: a use at any other task
   * triggers nothing.
   */
  lemma LookupNeededIff(data: RawStudentData, a: Assignment, types: seq<PowerupType>, name: string)
    ensures NeedsLookup(data, a, types, name) <==>
      && HasProgress(data, a.id)
      && exists c :: IsFirst(data.currentTasks, c, (x: CurrentTaskRecord) => x.assignmentId == a.id)
                     && SpentOn(data.powerups, types, a.id, name, data.currentTasks[c].taskNumber)
  {
    var p := (x: CurrentTaskRecord) => x.assignmentId == a.id;
    var current := CurrentTaskFor(data, a.id);
    if current.Some? {
      var c :| 0 <= c < |data.currentTasks| && data.currentTasks[c] == current.value && p(current.value)
               && forall j :: 0 <= j < c ==> !p(data.currentTasks[j]);
      assert IsFirst(data.currentTasks, c, p);
      UsedOnIff(data.powerups, types, a.id, name, current.value.taskNumber);
    }
    forall c | IsFirst(data.currentTasks, c, p)
      ensures current == Some(data.currentTasks[c])
    {
      FindIsFirst(data.currentTasks, p, c);
    }
  }

  /**
   * Without a use of either powerup on the current task, the entry does not
   * depend on the lookups: it is the same for any two pairs of lookup
   * replies, it is a success, and it has no hint and no rolled-back points.
   */
  lemma NoLookupNoDependency(data: RawStudentData, a: Assignment, types: seq<PowerupType>,
                             hintOf: Oracle<string>, pointsOf: Oracle<int>,
                             hintOf': Oracle<string>, pointsOf': Oracle<int>)
    requires !NeedsLookup(data, a, types, "Hint") && !NeedsLookup(data, a, types, "Second Chance")
    ensures DetailsFor(data, a, types, hintOf, pointsOf) == DetailsFor(data, a, types, hintOf', pointsOf')
    ensures DetailsFor(data, a, types, hintOf, pointsOf).Success?
    ensures DetailsFor(data, a, types, hintOf, pointsOf).value.taskHint == ""
    ensures DetailsFor(data, a, types, hintOf, pointsOf).value.previousPoints == -1
  {
  }

  /** The task number the dependent lookups are made for. */
  function LookupTask(data: RawStudentData, id: int): int
  {
    match CurrentTaskFor(data, id)
    case Some(current) => current.taskNumber
    case None => LoadingTask.taskNumber
  }

  /**
   * The merge of one assignment fails exactly when a lookup it makes fails;
   * the hint lookup comes first, so its failure is the one reported, and a
   * failed second-chance lookup is reported only after a hint lookup that
   * was not needed or succeeded. On success the replies are attached.
   */
  lemma LookupOutcomes(data: RawStudentData, a: Assignment, types: seq<PowerupType>,
                       hintOf: Oracle<string>, pointsOf: Oracle<int>)
    ensures var t := LookupTask(data, a.id);
      var hintFails := NeedsLookup(data, a, types, "Hint") && hintOf(a.id, t).Failure?;
      var pointsFail := NeedsLookup(data, a, types, "Second Chance") && pointsOf(a.id, t).Failure?;
      var r := DetailsFor(data, a, types, hintOf, pointsOf);
      && (r.Failure? <==> hintFails || pointsFail)
      && (hintFails ==> r == Failure(hintOf(a.id, t).error))
      && (!hintFails && pointsFail ==> r == Failure(pointsOf(a.id, t).error))
      && (r.Success? && NeedsLookup(data, a, types, "Hint") ==> r.value.taskHint == hintOf(a.id, t).value)
      && (r.Success? && !NeedsLookup(data, a, types, "Hint") ==> r.value.taskHint == "")
      && (r.Success? && NeedsLookup(data, a, types, "Second Chance") ==> r.value.previousPoints == pointsOf(a.id, t).value)
      && (r.Success? && !NeedsLookup(data, a, types, "Second Chance") ==> r.value.previousPoints == -1)
  {
  }
}

/**
 * The assignment detail merger and unlock gate (uup-game-service.ts, lines
 * 346-422): one merged entry per active catalog assignment, joined with the
 * raw student records by assignment id, the two dependent lookups for a used
 * hint or second chance on the current task, the sequential unlock rule and
 * the final sort by id.
 */
module Merger {
  import opened Wrappers
  import opened GameTypes
  import opened Lookup
  import opened Powerups

  /**
   * A dependent lookup by assignment id and task number (the used hint's
   * text, or the points before a second chance), its reply already
   * normalized: the payload, or the failure message.
   */
  type Oracle<T> = (int, int) -> Result<T, Msg>

  /**
   * Why a student-view call ends without a view: a failure message thrown on
   * purpose, or the runtime error of unlocking the first entry of an empty
   * list.
   */
  datatype Fault = Thrown(message: Msg) | NoFirstEntry

  /** The active catalog entries, in catalog order. */
  function ActiveOf(catalog: seq<Assignment>): (r: seq<Assignment>)
    ensures forall x :: x in r <==> x in catalog && x.active
    ensures |r| <= |catalog|
  {
    if |catalog| == 0 then []
    else
      var rest := ActiveOf(catalog[..|catalog| - 1]);
      var last := catalog[|catalog| - 1];
      assert catalog == catalog[..|catalog| - 1] + [last];
      if last.active then rest + [last] else rest
  }

  /** Whether a powerup of `name` was spent on task `taskNumber`. */
  predicate UsedOn(used: seq<UsedPowerup>, name: string, taskNumber: int)
  {
    FindIndex(used, (u: UsedPowerup) => u.name == name && u.taskNumber == taskNumber) != -1
  }

  /** The entry of an assignment the student has not started. */
  function NotStarted(a: Assignment): AssignmentDetails
  {
    AssignmentDetails(a.id, a.name, a.path, false, false, false, 0, 0, -1, 0, LoadingTask, "", false, [], false)
  }

  // Keyed lookups: the first raw record of each kind for one assignment.

  function ProgressFor(data: RawStudentData, id: int): Option<ProgressRecord>
  {
    Find(data.assignmentProgress, (x: ProgressRecord) => x.assignmentId == id)
  }

  function CurrentTaskFor(data: RawStudentData, id: int): Option<CurrentTaskRecord>
  {
    Find(data.currentTasks, (x: CurrentTaskRecord) => x.assignmentId == id)
  }

  function PointsFor(data: RawStudentData, id: int): Option<PointsRecord>
  {
    Find(data.assignmentPoints, (x: PointsRecord) => x.assignmentId == id)
  }

  function CompletedFor(data: RawStudentData, id: int): Option<CompletedRecord>
  {
    Find(data.completedTasks, (x: CompletedRecord) => x.assignmentId == id)
  }

  function TurnedInFor(data: RawStudentData, id: int): Option<TurnedInRecord>
  {
    Find(data.turnedInTasks, (x: TurnedInRecord) => x.assignmentId == id)
  }

  /**
   * The dependent lookup for powerup `name` is made: the assignment is
   * started, has a current task, and `name` was spent on that task.
   */
  predicate NeedsLookup(data: RawStudentData, a: Assignment, types: seq<PowerupType>, name: string)
  {
    && ProgressFor(data, a.id).Some?
    && CurrentTaskFor(data, a.id).Some?
    && UsedOn(UsedOf(data.powerups, types, a.id), name, CurrentTaskFor(data, a.id).value.taskNumber)
  }

  /** The hint shown for the current task: looked up when needed, empty otherwise. */
  function HintFor(data: RawStudentData, a: Assignment, types: seq<PowerupType>, hintOf: Oracle<string>): Result<string, Msg>
  {
    if NeedsLookup(data, a, types, "Hint") then hintOf(a.id, CurrentTaskFor(data, a.id).value.taskNumber) else Success("")
  }

  /** The points before a second chance: looked up when needed, -1 otherwise. */
  function PreviousPointsFor(data: RawStudentData, a: Assignment, types: seq<PowerupType>, pointsOf: Oracle<int>): Result<int, Msg>
  {
    if NeedsLookup(data, a, types, "Second Chance") then pointsOf(a.id, CurrentTaskFor(data, a.id).value.taskNumber) else Success(-1)
  }

  /** The entry of a started assignment, once both lookups have succeeded. */
  function Started(data: RawStudentData, a: Assignment, types: seq<PowerupType>,
                   progress: ProgressRecord, hint: string, previousPoints: int): AssignmentDetails
  {
    var current, completed := CurrentTaskFor(data, a.id), CompletedFor(data, a.id);
    var turnedIn, points := TurnedInFor(data, a.id), PointsFor(data, a.id);
    AssignmentDetails(
      a.id, a.name, a.path,
      true, true, progress.status == "Completed",
      if completed.Some? then completed.value.completed else 0,
      if turnedIn.Some? then turnedIn.value.turnedIn else 0,
      previousPoints,
      if points.Some? then points.value.points else 0,
      if current.Some? then Task(current.value.taskNumber, current.value.taskName) else LoadingTask,
      hint, false, UsedOf(data.powerups, types, a.id), false)
  }

  /** The merged entry of one catalog assignment, or the message of the lookup that failed. */
  function DetailsFor(data: RawStudentData, a: Assignment, types: seq<PowerupType>,
                      hintOf: Oracle<string>, pointsOf: Oracle<int>): Result<AssignmentDetails, Msg>
  {
    match ProgressFor(data, a.id)
    case None => Success(NotStarted(a))
    case Some(progress) =>
      match HintFor(data, a, types, hintOf)
      case Failure(m) => Failure(m)
      case Success(hint) =>
        match PreviousPointsFor(data, a, types, pointsOf)
        case Failure(m) => Failure(m)
        case Success(previousPoints) => Success(Started(data, a, types, progress, hint, previousPoints))
  }

  /** The merge of each active assignment, in catalog order. */
  function Merges(data: RawStudentData, active: seq<Assignment>, types: seq<PowerupType>,
                  hintOf: Oracle<string>, pointsOf: Oracle<int>): seq<Result<AssignmentDetails, Msg>>
  {
    seq(|active|, i requires 0 <= i < |active| => DetailsFor(data, active[i], types, hintOf, pointsOf))
  }

  /** The values of `rs` in order, or the first failure among them. */
  function Collect(rs: seq<Result<AssignmentDetails, Msg>>): Result<seq<AssignmentDetails>, Msg>
  {
    if |rs| == 0 then Success([])
    else
      match Collect(rs[..|rs| - 1])
      case Failure(m) => Failure(m)
      case Success(ds) =>
        match rs[|rs| - 1]
        case Failure(m) => Failure(m)
        case Success(d) => Success(ds + [d])
  }

  /** The entries of `active` in order, or the first failure in that order. */
  function MergeAll(data: RawStudentData, active: seq<Assignment>, types: seq<PowerupType>,
                    hintOf: Oracle<string>, pointsOf: Oracle<int>): Result<seq<AssignmentDetails>, Msg>
  {
    Collect(Merges(data, active, types, hintOf, pointsOf))
  }

  /**
   * The unlock gate, judged in the order of `ds`: the first entry is unlocked,
   * each later one exactly when its predecessor finished enough tasks.
   */
  function Gate(ds: seq<AssignmentDetails>, taskRequirement: int): (r: seq<AssignmentDetails>)
    ensures |r| == |ds|
  {
    if |ds| == 0 then []
    else if |ds| == 1 then [ds[0].(unlocked := true)]
    else Gate(ds[..|ds| - 1], taskRequirement)
         + [ds[|ds| - 1].(unlocked := ds[|ds| - 2].tasksFullyFinished >= taskRequirement)]
  }

  ghost predicate SortedById(s: seq<AssignmentDetails>)
  {
    forall i, j :: 0 <= i < j < |s| ==> s[i].id <= s[j].id
  }

  // ---------------------------------------------------------------------------
  // The imperative merge
  // ---------------------------------------------------------------------------

  /** The body of the merge loop for one catalog assignment. */
  method MergeOne(data: RawStudentData, a: Assignment, types: seq<PowerupType>,
                  hintOf: Oracle<string>, pointsOf: Oracle<int>) returns (r: Result<AssignmentDetails, Msg>)
    ensures r == DetailsFor(data, a, types, hintOf, pointsOf)
  {
    var index := FindIndex(data.assignmentProgress, (x: ProgressRecord) => x.assignmentId == a.id);
    if index == -1 {
      return Success(NotStarted(a));
    }
    var current := FindIndex(data.currentTasks, (x: CurrentTaskRecord) => x.assignmentId == a.id);
    var used := MapUsedPowerupData(data.powerups, types, a.id);
    var hint: Result<string, Msg> := Success("");
    var previousPoints: Result<int, Msg> := Success(-1);
    if current != -1 {
      var taskNumber := data.currentTasks[current].taskNumber;
      hint := FetchIfSpent(used, "Hint", a.id, taskNumber, hintOf, "");
      if hint.Failure? {
        return Failure(hint.error);
      }
      previousPoints := FetchIfSpent(used, "Second Chance", a.id, taskNumber, pointsOf, -1);
      if previousPoints.Failure? {
        return Failure(previousPoints.error);
      }
    }
    assert HintFor(data, a, types, hintOf) == hint;
    assert PreviousPointsFor(data, a, types, pointsOf) == previousPoints;
    var d := Assemble(data, a, types, data.assignmentProgress[index], used, hint.value, previousPoints.value);
    r := Success(d);
  }

  /** One dependent lookup, made only when `name` was spent on the task. */
  method FetchIfSpent<T>(used: seq<UsedPowerup>, name: string, id: int, taskNumber: int,
                         lookup: Oracle<T>, default: T) returns (r: Result<T, Msg>)
    ensures UsedOn(used, name, taskNumber) ==> r == lookup(id, taskNumber)
    ensures !UsedOn(used, name, taskNumber) ==> r == Success(default)
  {
    r := Success(default);
    if UsedOn(used, name, taskNumber) {
      r := lookup(id, taskNumber);
    }
  }

  /** The entry of a started assignment, from the first matching record of each kind. */
  method Assemble(data: RawStudentData, a: Assignment, types: seq<PowerupType>, progress: ProgressRecord,
                  used: seq<UsedPowerup>, hint: string, previousPoints: int) returns (d: AssignmentDetails)
    requires used == UsedOf(data.powerups, types, a.id)
    ensures d == Started(data, a, types, progress, hint, previousPoints)
  {
    var current := FindIndex(data.currentTasks, (x: CurrentTaskRecord) => x.assignmentId == a.id);
    var pIndex := FindIndex(data.assignmentPoints, (x: PointsRecord) => x.assignmentId == a.id);
    var ffIndex := FindIndex(data.completedTasks, (x: CompletedRecord) => x.assignmentId == a.id);
    var tiIndex := FindIndex(data.turnedInTasks, (x: TurnedInRecord) => x.assignmentId == a.id);
    d := AssignmentDetails(
      a.id, a.name, a.path,
      true, true, progress.status == "Completed",
      if ffIndex != -1 then data.completedTasks[ffIndex].completed else 0,
      if tiIndex != -1 then data.turnedInTasks[tiIndex].turnedIn else 0,
      previousPoints,
      if pIndex != -1 then data.assignmentPoints[pIndex].points else 0,
      if current == -1 then LoadingTask
      else Task(data.currentTasks[current].taskNumber, data.currentTasks[current].taskName),
      hint, false, used, false);
  }

  /** Overwrite every `unlocked` flag in place by the gate rule, in array order. */
  method ApplyUnlockGate(a: array<AssignmentDetails>, taskRequirement: int)
    requires a.Length > 0
    modifies a
    ensures a[..] == Gate(old(a[..]), taskRequirement)
  {
    ghost var before := a[..];
    a[0] := a[0].(unlocked := true);
    assert before[..1] == [before[0]];
    assert a[..1] == Gate(before[..1], taskRequirement);
    for i := 1 to a.Length
      invariant a[..i] == Gate(before[..i], taskRequirement)
      invariant a[i..] == before[i..]
    {
      assert before[..i + 1][..i] == before[..i];
      assert a[i] == before[i] && a[i - 1].tasksFullyFinished == before[i - 1].tasksFullyFinished;
      a[i] := a[i].(unlocked := a[i - 1].tasksFullyFinished >= taskRequirement);
      assert a[..i + 1] == a[..i] + [a[i]];
    }
    assert before[..a.Length] == before;
  }

  method SwapWithPrevious(a: array<AssignmentDetails>, j: int)
    requires 0 < j < a.Length
    modifies a
    ensures a[j - 1] == old(a[j]) && a[j] == old(a[j - 1])
    ensures forall k :: 0 <= k < a.Length && k != j - 1 && k != j ==> a[k] == old(a[k])
    ensures multiset(a[..]) == old(multiset(a[..]))
  {
    a[j - 1], a[j] := a[j], a[j - 1];
  }

  /** Sort in place, ascending by id. */
  method SortById(a: array<AssignmentDetails>)
    modifies a
    ensures SortedById(a[..])
    ensures multiset(a[..]) == old(multiset(a[..]))
  {
    for i := 0 to a.Length
      invariant forall p, q :: 0 <= p < q < i ==> a[p].id <= a[q].id
      invariant multiset(a[..]) == old(multiset(a[..]))
    {
      var j := i;
      while j > 0 && a[j - 1].id > a[j].id
        invariant 0 <= j <= i
        invariant forall p, q :: 0 <= p < q <= i && p != j && q != j ==> a[p].id <= a[q].id
        invariant forall q :: j < q <= i ==> a[j].id < a[q].id
        invariant multiset(a[..]) == old(multiset(a[..]))
      {
        SwapWithPrevious(a, j);
        j := j - 1;
      }
    }
  }

  /** The loop of the merge: one entry per active assignment, or the first failure. */
  method MergeActive(data: RawStudentData, active: seq<Assignment>, types: seq<PowerupType>,
                     hintOf: Oracle<string>, pointsOf: Oracle<int>)
    returns (r: Result<seq<AssignmentDetails>, Msg>)
    ensures r == MergeAll(data, active, types, hintOf, pointsOf)
  {
    ghost var merges := Merges(data, active, types, hintOf, pointsOf);
    var assignments: seq<AssignmentDetails> := [];
    for i := 0 to |active|
      invariant Collect(merges[..i]) == Success(assignments)
    {
      assert merges[..i + 1][..i] == merges[..i];
      var details := MergeOne(data, active[i], types, hintOf, pointsOf);
      if details.Failure? {
        CollectAborts(merges, i + 1);
        return Failure(details.error);
      }
      assignments := assignments + [details.value];
    }
    assert merges[..|active|] == merges;
    r := Success(assignments);
  }

  /**
   * The merged entries of the active assignments, gated in catalog order and
   * then sorted by id; the first failed lookup's message when a lookup fails,
   * and a runtime error when no assignment is active.
   */
  method MapAssignmentDetails(data: RawStudentData, catalog: seq<Assignment>, types: seq<PowerupType>,
                              taskRequirement: int, hintOf: Oracle<string>, pointsOf: Oracle<int>)
    returns (r: Result<seq<AssignmentDetails>, Fault>)
    ensures |ActiveOf(catalog)| == 0 ==> r == Failure(NoFirstEntry)
    ensures |ActiveOf(catalog)| > 0 ==>
              (r.Failure? <==> MergeAll(data, ActiveOf(catalog), types, hintOf, pointsOf).Failure?)
    ensures |ActiveOf(catalog)| > 0 && r.Failure? ==>
              r.error == Thrown(MergeAll(data, ActiveOf(catalog), types, hintOf, pointsOf).error)
    ensures r.Success? ==>
              && MergeAll(data, ActiveOf(catalog), types, hintOf, pointsOf).Success?
              && SortedById(r.value)
              && multiset(r.value)
                 == multiset(Gate(MergeAll(data, ActiveOf(catalog), types, hintOf, pointsOf).value, taskRequirement))
  {
    var active := ActiveOf(catalog);
    var merged := MergeActive(data, active, types, hintOf, pointsOf);
    if merged.Failure? {
      return Failure(Thrown(merged.error));
    }
    var assignments := merged.value;
    MergeAllSuccess(data, active, types, hintOf, pointsOf);
    if |assignments| == 0 {
      return Failure(NoFirstEntry);
    }
    var a := new AssignmentDetails[|assignments|](k requires 0 <= k < |assignments| => assignments[k]);
    assert a[..] == assignments;
    ApplyUnlockGate(a, taskRequirement);
    assert a[..] == Gate(assignments, taskRequirement);
    SortById(a);
    r := Success(a[..]);
  }

  // ---------------------------------------------------------------------------
  // The merge over the catalog
  // ---------------------------------------------------------------------------

  /** A failure in a prefix is the outcome of the whole collection. */
  lemma {:induction false} CollectAborts(rs: seq<Result<AssignmentDetails, Msg>>, k: nat)
    requires k <= |rs|
    requires Collect(rs[..k]).Failure?
    ensures Collect(rs) == Collect(rs[..k])
    decreases |rs| - k
  {
    if k < |rs| {
      var prefix := rs[..|rs| - 1];
      assert prefix[..k] == rs[..k];
      CollectAborts(prefix, k);
    } else {
      assert rs[..k] == rs;
    }
  }

  /** A successful collection holds every value, in order. */
  lemma {:induction false} CollectSuccess(rs: seq<Result<AssignmentDetails, Msg>>)
    requires Collect(rs).Success?
    ensures |Collect(rs).value| == |rs|
    ensures forall i :: 0 <= i < |rs| ==> rs[i] == Success(Collect(rs).value[i])
  {
    if |rs| > 0 {
      CollectSuccess(rs[..|rs| - 1]);
    }
  }

  /** A failed collection reports the first failure, at index `i`. */
  lemma {:induction false} CollectFirstFailure(rs: seq<Result<AssignmentDetails, Msg>>) returns (i: nat)
    requires Collect(rs).Failure?
    ensures i < |rs| && rs[i] == Failure(Collect(rs).error)
    ensures forall j :: 0 <= j < i ==> rs[j].Success?
  {
    var prefix := rs[..|rs| - 1];
    if Collect(prefix).Failure? {
      i := CollectFirstFailure(prefix);
      assert rs[i] == prefix[i];
      assert forall j :: 0 <= j < i ==> rs[j] == prefix[j];
    } else {
      CollectSuccess(prefix);
      i := |rs| - 1;
      assert forall j :: 0 <= j < i ==> rs[j] == prefix[j];
    }
  }

  /** A successful merge has exactly one entry per active assignment, in catalog order. */
  lemma MergeAllSuccess(data: RawStudentData, active: seq<Assignment>,
                        types: seq<PowerupType>, hintOf: Oracle<string>, pointsOf: Oracle<int>)
    requires MergeAll(data, active, types, hintOf, pointsOf).Success?
    ensures var ds := MergeAll(data, active, types, hintOf, pointsOf).value;
      && |ds| == |active|
      && forall i :: 0 <= i < |active| ==> DetailsFor(data, active[i], types, hintOf, pointsOf) == Success(ds[i])
  {
    CollectSuccess(Merges(data, active, types, hintOf, pointsOf));
  }

  /** A failed merge reports the failure of the first assignment, in catalog order, that fails. */
  lemma MergeAllFirstFailure(data: RawStudentData, active: seq<Assignment>,
                             types: seq<PowerupType>, hintOf: Oracle<string>, pointsOf: Oracle<int>)
    requires MergeAll(data, active, types, hintOf, pointsOf).Failure?
    ensures exists i :: (0 <= i < |active|
      && DetailsFor(data, active[i], types, hintOf, pointsOf) == Failure(MergeAll(data, active, types, hintOf, pointsOf).error)
      && forall j :: 0 <= j < i ==> DetailsFor(data, active[j], types, hintOf, pointsOf).Success?)
  {
    var rs := Merges(data, active, types, hintOf, pointsOf);
    var i := CollectFirstFailure(rs);
    assert forall j :: 0 <= j < i ==> DetailsFor(data, active[j], types, hintOf, pointsOf) == rs[j];
  }

  /** The merge succeeds exactly when every active assignment merges. */
  lemma MergeAllSucceedsIff(data: RawStudentData, active: seq<Assignment>,
                            types: seq<PowerupType>, hintOf: Oracle<string>, pointsOf: Oracle<int>)
    ensures MergeAll(data, active, types, hintOf, pointsOf).Success?
        <==> forall i :: 0 <= i < |active| ==> DetailsFor(data, active[i], types, hintOf, pointsOf).Success?
  {
    if MergeAll(data, active, types, hintOf, pointsOf).Success? {
      MergeAllSuccess(data, active, types, hintOf, pointsOf);
    } else {
      MergeAllFirstFailure(data, active, types, hintOf, pointsOf);
    }
  }
}

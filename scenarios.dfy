/**
 * Concrete and boundary cases of the merge (uup-game-service.ts, lines
 * 346-422): a student without progress records, the gate judged in catalog
 * order, and two assignments where the first one's completion tally decides
 * whether the second one opens.
 */
module Scenarios {
  import opened Wrappers
  import opened GameTypes
  import opened Powerups
  import opened Merger
  import opened EntryFacts
  import opened ListFacts

  /**
   * Without progress records every active assignment merges to its "not
   * started" entry and no lookup can fail; the gate then unlocks the first
   * active assignment in catalog order and each later one only when the
   * requirement is at most 0.
   */
  lemma NoProgressRecords(data: RawStudentData, catalog: seq<Assignment>, types: seq<PowerupType>,
                          taskRequirement: int, hintOf: Oracle<string>, pointsOf: Oracle<int>)
    requires |data.assignmentProgress| == 0
    ensures MergeAll(data, ActiveOf(catalog), types, hintOf, pointsOf).Success?
    ensures var ds := MergeAll(data, ActiveOf(catalog), types, hintOf, pointsOf).value;
      && |ds| == |ActiveOf(catalog)|
      && (forall i :: 0 <= i < |ds| ==> ds[i] == NotStarted(ActiveOf(catalog)[i]))
      && (|ds| > 0 ==> Gate(ds, taskRequirement)[0].unlocked)
      && (forall i :: 0 < i < |ds| ==> (Gate(ds, taskRequirement)[i].unlocked <==> 0 >= taskRequirement))
  {
    var active := ActiveOf(catalog);
    forall i | 0 <= i < |active|
      ensures DetailsFor(data, active[i], types, hintOf, pointsOf) == Success(NotStarted(active[i]))
    {
      assert ProgressFor(data, active[i].id).None?;
    }
    MergeAllSucceedsIff(data, active, types, hintOf, pointsOf);
    MergeAllSuccess(data, active, types, hintOf, pointsOf);
    GateRule(MergeAll(data, active, types, hintOf, pointsOf).value, taskRequirement);
  }

  /** A student with no records at all. */
  const NoRecords: RawStudentData := RawStudentData("student", 0, [], [], [], [], [], [])

  /** Two active assignments listed with the higher id first. */
  const DescendingCatalog: seq<Assignment> :=
    [Assignment(2, "Second", "second", true, 10, 0), Assignment(1, "First", "first", true, 10, 0)]

  /**
   * The gate runs in catalog order and the sort comes after it, so when the
   * catalog lists a higher id first the lowest-id assignment can end up
   * locked at the head of the sorted output: here the student has no
   * records, the requirement is 1, and every id-sorted arrangement of the
   * gated entries opens with assignment 1 locked and assignment 2 unlocked.
   */
  lemma LowestIdMayStayLocked(hintOf: Oracle<string>, pointsOf: Oracle<int>, out: seq<AssignmentDetails>)
    requires MergeAll(NoRecords, ActiveOf(DescendingCatalog), [], hintOf, pointsOf).Success?
    requires SortedById(out)
    requires multiset(out) == multiset(Gate(MergeAll(NoRecords, ActiveOf(DescendingCatalog), [], hintOf, pointsOf).value, 1))
    ensures |out| == 2
    ensures out[0].id == 1 && !out[0].unlocked
    ensures out[1].id == 2 && out[1].unlocked
  {
    var g := DescendingGate(hintOf, pointsOf);
    var sorted := [g[1], g[0]];
    assert g == [g[0], g[1]];
    assert multiset(sorted) == multiset(g);
    var id := (d: AssignmentDetails) => d.id;
    assert SortedBy(out, id);
    SortedArrangementUnique(sorted, out, id);
  }

  /** The gated entries of the descending catalog, in catalog order. */
  lemma DescendingGate(hintOf: Oracle<string>, pointsOf: Oracle<int>) returns (g: seq<AssignmentDetails>)
    requires MergeAll(NoRecords, ActiveOf(DescendingCatalog), [], hintOf, pointsOf).Success?
    ensures g == Gate(MergeAll(NoRecords, ActiveOf(DescendingCatalog), [], hintOf, pointsOf).value, 1)
    ensures |g| == 2 && g[0].id == 2 && g[0].unlocked && g[1].id == 1 && !g[1].unlocked
  {
    var catalog := DescendingCatalog;
    ActiveOfAllActive(catalog);
    NoProgressRecords(NoRecords, catalog, [], 1, hintOf, pointsOf);
    var ds := MergeAll(NoRecords, catalog, [], hintOf, pointsOf).value;
    g := Gate(ds, 1);
    GateKeepsFields(ds, 1);
  }

  /** Two active assignments in id order. */
  const TwoAssignments: seq<Assignment> :=
    [Assignment(1, "First", "first", true, 10, 0), Assignment(2, "Second", "second", true, 10, 0)]

  /** The first assignment is completed with `finished` tasks fully finished; the second is not started. */
  function FirstCompleted(finished: int): RawStudentData
  {
    RawStudentData("student", 0, [], [], [ProgressRecord(1, "Completed")], [], [CompletedRecord(1, finished)], [])
  }

  /** Without powerup records no lookup is made, so the merge of every assignment succeeds. */
  lemma NoPowerupsNoFailure(data: RawStudentData, active: seq<Assignment>, types: seq<PowerupType>,
                            hintOf: Oracle<string>, pointsOf: Oracle<int>)
    requires |data.powerups| == 0
    ensures MergeAll(data, active, types, hintOf, pointsOf).Success?
  {
    forall i | 0 <= i < |active|
      ensures DetailsFor(data, active[i], types, hintOf, pointsOf).Success?
    {
      assert UsedOf(data.powerups, types, active[i].id) == [];
      NoLookupNoDependency(data, active[i], types, hintOf, pointsOf, hintOf, pointsOf);
    }
    MergeAllSucceedsIff(data, active, types, hintOf, pointsOf);
  }

  /**
   * Two assignments in id order, the first completed with `finished` tasks
   * fully finished and a requirement of 3: the first is finished and
   * unlocked, the second is not started and opens exactly when
   * `finished >= 3`.
   */
  lemma TwoAssignmentUnlock(finished: int, hintOf: Oracle<string>, pointsOf: Oracle<int>, out: seq<AssignmentDetails>)
    requires MergeAll(FirstCompleted(finished), ActiveOf(TwoAssignments), [], hintOf, pointsOf).Success?
    requires SortedById(out)
    requires multiset(out) == multiset(Gate(MergeAll(FirstCompleted(finished), ActiveOf(TwoAssignments), [], hintOf, pointsOf).value, 3))
    ensures |out| == 2
    ensures out[0].id == 1 && out[0].started && out[0].finished && out[0].unlocked
    ensures out[0].tasksFullyFinished == finished
    ensures out[1].id == 2 && !out[1].started && (out[1].unlocked <==> finished >= 3)
  {
    ActiveOfAllActive(TwoAssignments);
    SortedCatalogKeepsGateOrder(FirstCompleted(finished), TwoAssignments, [], 3, hintOf, pointsOf, out);
    var ds := FirstCompletedEntries(finished, hintOf, pointsOf);
    GateKeepsFields(ds, 3);
  }

  /** The merged entries of the two assignments, before the gate. */
  lemma FirstCompletedEntries(finished: int, hintOf: Oracle<string>, pointsOf: Oracle<int>)
    returns (ds: seq<AssignmentDetails>)
    requires MergeAll(FirstCompleted(finished), ActiveOf(TwoAssignments), [], hintOf, pointsOf).Success?
    ensures ds == MergeAll(FirstCompleted(finished), ActiveOf(TwoAssignments), [], hintOf, pointsOf).value
    ensures |ds| == 2
    ensures ds[0].id == 1 && ds[0].started && ds[0].finished && ds[0].tasksFullyFinished == finished
    ensures ds[1].id == 2 && !ds[1].started
  {
    var data, catalog := FirstCompleted(finished), TwoAssignments;
    ActiveOfAllActive(catalog);
    ds := MergeAll(data, catalog, [], hintOf, pointsOf).value;
    MergeAllSuccess(data, catalog, [], hintOf, pointsOf);
    StartedEntry(data, catalog[0], [], hintOf, pointsOf, 0);
    assert HasProgress(data, 1);
    StartedCounters(data, catalog[0], [], hintOf, pointsOf);
    assert IsFirst(data.completedTasks, 0, (x: CompletedRecord) => x.assignmentId == 1);
    assert !HasProgress(data, 2);
    NotStartedEntry(data, catalog[1], [], hintOf, pointsOf, hintOf, pointsOf);
  }
}

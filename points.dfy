/**
 * The points total (uup-game-service.ts, lines 311-317): the sum over every
 * raw points record, whatever the catalog says about its assignment.
 */
module Points {
  import opened GameTypes

  function SumPoints(records: seq<PointsRecord>): int
  {
    if |records| == 0 then 0 else SumPoints(records[..|records| - 1]) + records[|records| - 1].points
  }

  method MapPoints(data: RawStudentData) returns (points: int)
    ensures points == SumPoints(data.assignmentPoints)
  {
    points := 0;
    var records := data.assignmentPoints;
    for i := 0 to |records|
      invariant points == SumPoints(records[..i])
    {
      assert records[..i + 1][..i] == records[..i];
      points := points + records[i].points;
    }
    assert records[..|records|] == records;
  }

  lemma {:induction false} SumPointsAppend(a: seq<PointsRecord>, b: seq<PointsRecord>)
    ensures SumPoints(a + b) == SumPoints(a) + SumPoints(b)
    decreases |b|
  {
    if |b| == 0 {
      assert a + b == a;
    } else {
      assert (a + b)[..|a + b| - 1] == a + b[..|b| - 1];
      SumPointsAppend(a, b[..|b| - 1]);
    }
  }

  /** The records of the given assignments, in order. */
  function RecordsOf(records: seq<PointsRecord>, ids: set<int>): (r: seq<PointsRecord>)
    ensures forall x :: x in r <==> x in records && x.assignmentId in ids
  {
    if |records| == 0 then []
    else
      var rest := RecordsOf(records[..|records| - 1], ids);
      var last := records[|records| - 1];
      assert records == records[..|records| - 1] + [last];
      if last.assignmentId in ids then rest + [last] else rest
  }

  /** The records of every other assignment, in order. */
  function RecordsNotOf(records: seq<PointsRecord>, ids: set<int>): (r: seq<PointsRecord>)
    ensures forall x :: x in r <==> x in records && x.assignmentId !in ids
  {
    if |records| == 0 then []
    else
      var rest := RecordsNotOf(records[..|records| - 1], ids);
      var last := records[|records| - 1];
      assert records == records[..|records| - 1] + [last];
      if last.assignmentId !in ids then rest + [last] else rest
  }

  /**
   * The total does not depend on the catalog: split by any set of assignment
   * ids (the active ones, say), the records outside the set still count.
   */
  lemma {:induction false} SumPointsSplit(records: seq<PointsRecord>, ids: set<int>)
    ensures SumPoints(records) == SumPoints(RecordsOf(records, ids)) + SumPoints(RecordsNotOf(records, ids))
  {
    if |records| > 0 {
      var prefix := records[..|records| - 1];
      var last := records[|records| - 1];
      SumPointsSplit(prefix, ids);
      if last.assignmentId in ids {
        SumPointsAppend(RecordsOf(prefix, ids), [last]);
      } else {
        SumPointsAppend(RecordsNotOf(prefix, ids), [last]);
      }
    }
  }
}

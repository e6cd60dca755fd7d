/**
 * The student view (uup-game-service.ts, lines 296-308): one server reply
 * with the student's raw records, turned into the aggregate the game view
 * is drawn from.
 */
module StudentView {
  import opened Wrappers
  import opened GameTypes
  import opened Powerups
  import opened Points
  import opened Merger

  /** The student-data reply; `data` is read only when `success` is set. */
  datatype StudentReply = StudentReply(success: bool, message: Msg, data: RawStudentData)

  /**
   * A failed reply surfaces its own top-level message. A successful one
   * yields the student and token balance as sent, the points total over all
   * raw points records, the unspent-powerup tally, and the merged, gated and
   * sorted assignment entries; a failure of the merge is the failure of the
   * whole call.
   */
  method GetStudentData(reply: StudentReply, catalog: seq<Assignment>, types: seq<PowerupType>,
                        taskRequirement: int, hintOf: Oracle<string>, pointsOf: Oracle<int>)
    returns (r: Result<StudentData, Fault>)
    ensures !reply.success ==> r == Failure(Thrown(reply.message))
    ensures reply.success && |ActiveOf(catalog)| == 0 ==> r == Failure(NoFirstEntry)
    ensures reply.success && |ActiveOf(catalog)| > 0 ==>
              (r.Failure? <==> MergeAll(reply.data, ActiveOf(catalog), types, hintOf, pointsOf).Failure?)
    ensures reply.success && |ActiveOf(catalog)| > 0 && r.Failure? ==>
              r.error == Thrown(MergeAll(reply.data, ActiveOf(catalog), types, hintOf, pointsOf).error)
    ensures r.Success? ==>
              && reply.success
              && r.value.student == reply.data.student
              && r.value.tokens == reply.data.tokens
              && r.value.points == SumPoints(reply.data.assignmentPoints)
              && r.value.unusedPowerups == TallyOf(reply.data.powerups, types)
              && MergeAll(reply.data, ActiveOf(catalog), types, hintOf, pointsOf).Success?
              && SortedById(r.value.assignmentsData)
              && multiset(r.value.assignmentsData)
                 == multiset(Gate(MergeAll(reply.data, ActiveOf(catalog), types, hintOf, pointsOf).value, taskRequirement))
  {
    if !reply.success {
      return Failure(Thrown(reply.message));
    }
    var data := reply.data;
    var points := MapPoints(data);
    var unused := MapUnusedPowerupData(data.powerups, types);
    var assignments := MapAssignmentDetails(data, catalog, types, taskRequirement, hintOf, pointsOf);
    if assignments.Failure? {
      return Failure(assignments.error);
    }
    r := Success(StudentData(data.student, data.tokens, points, unused, assignments.value));
  }
}

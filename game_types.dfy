/**
 * The records the game service works with: the catalog entities it receives,
 * the raw per-student records the server sends, and the merged view it builds
 * (uup-game-view/src/browser/uup-game-service.ts, lines 3-102).
 */
module GameTypes {
  import opened Wrappers

  /** A task of an assignment; `LoadingTask` stands for "no current task yet". */
  datatype Task = Task(taskNumber: int, name: string)

  const LoadingTask: Task := Task(-1, "Loading")

  /** A powerup catalog entry; only `id` and `name` matter to the merge. */
  datatype PowerupType = PowerupType(id: int, name: string, price: int)

  /** A powerup spent on a task of one assignment. */
  datatype UsedPowerup = UsedPowerup(name: string, taskNumber: int)

  /** How many powerups of one name the student holds but has not spent. */
  datatype UnusedPowerup = UnusedPowerup(name: string, amount: int)

  /** An assignment of the catalog. */
  datatype Assignment = Assignment(
    id: int, name: string, path: string, active: bool, points: int, challengePts: int)

  /** The merged, display-ready view of one assignment. */
  datatype AssignmentDetails = AssignmentDetails(
    id: int,
    name: string,
    path: string,
    unlocked: bool,
    started: bool,
    finished: bool,
    tasksFullyFinished: int,
    tasksTurnedIn: int,
    previousPoints: int,
    points: int,
    currentTask: Task,
    taskHint: string,
    buyingPowerUp: bool,
    powerupsUsed: seq<UsedPowerup>,
    collapsed: bool)

  /** The aggregate the student view is drawn from. */
  datatype StudentData = StudentData(
    student: string,
    tokens: int,
    points: int,
    unusedPowerups: seq<UnusedPowerup>,
    assignmentsData: seq<AssignmentDetails>)

  // The raw records of the server's student-data reply, one kind per list.
  // The counters `completed` and `turnedIn` are taken as already parsed integers.

  datatype PointsRecord = PointsRecord(assignmentId: int, points: int)

  datatype PowerupRecord = PowerupRecord(typeId: int, used: bool, assignmentId: int, taskNumber: int)

  datatype ProgressRecord = ProgressRecord(assignmentId: int, status: string)

  datatype CurrentTaskRecord = CurrentTaskRecord(assignmentId: int, taskNumber: int, taskName: string)

  datatype CompletedRecord = CompletedRecord(assignmentId: int, completed: int)

  datatype TurnedInRecord = TurnedInRecord(assignmentId: int, turnedIn: int)

  /** The `data` object of a successful student-data reply. */
  datatype RawStudentData = RawStudentData(
    student: string,
    tokens: int,
    assignmentPoints: seq<PointsRecord>,
    powerups: seq<PowerupRecord>,
    assignmentProgress: seq<ProgressRecord>,
    currentTasks: seq<CurrentTaskRecord>,
    completedTasks: seq<CompletedRecord>,
    turnedInTasks: seq<TurnedInRecord>)

  /** A failure message; the server may leave it undefined. */
  type Msg = Option<string>
}

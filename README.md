# Student view reconciliation of the UUP game service

This project models the core of `GameService` in the UUP game view, a
browser-side service that builds a student's gamified assignment view. The
server sends several partial record lists, each keyed by assignment id: progress status,
current task, points, completed and turned-in counters, and a powerup usage
log. The service joins them with the assignment catalog into one display
entry per active assignment. Where a "Hint" or "Second Chance" powerup was
spent on the current task, it makes a dependent lookup. It then unlocks the
assignments one after another by the previous one's completion tally and
sorts the list by id. Alongside, it totals the student's points and tallies
the powerups the student still holds.

Modules:

- `GameTypes`: the catalog entities, the raw records and the merged view.
- `Lookup`: the `findIndex` and `find` searches.
- `Normalizer`: the response normalizer.
- `Points`: the points total.
- `Powerups`: the used and unused powerup resolvers.
- `Merger`: the per-assignment merge, the unlock gate, the sort and the
  whole detail mapping.
- `EntryFacts`, `ListFacts` and `Scenarios`: what the merge promises, stated
  against the raw records.
- `StudentView`: the assembly of the student aggregate.

How the source's steps are modelled:

- The loops of the source are methods with loop invariants. Each is proved
  equal to a recursive specification function, and the properties are
  proved about that function.
- The unlock gate and the sort work in place on an array, as the source
  does on its list.
- The two dependent lookups (`getUsedHint`, `getPreviousPoints`) are
  function parameters. Each maps an assignment id and a task number to the
  normalized reply: the payload value, or the failure message.

The unlock gate runs in catalog order, before the sort by id. An
assignment's predecessor is therefore the previous active assignment in
catalog order, not the previous id. `ListFacts.SortedCatalogKeepsGateOrder`
proves that the two coincide when the active catalog is in increasing id
order. `Scenarios.LowestIdMayStayLocked` exhibits a catalog where they
differ.

## Model

| member | source | states |
|---|---|---|
| Normalizer.MapResponse | uup-game-view/src/browser/uup-game-service.ts:154-174 | success and data are copied; with no `data` key the message is the top-level one, otherwise it is `data.reason` on failure and `data.message` on success |
| Normalizer.FailureConventionsAgree | uup-game-view/src/browser/uup-game-service.ts:159-165 | two failures give the same normalized message: one explained at the top level, the other by `data.reason` |
| Normalizer.DataShadowsTopLevelMessage | uup-game-view/src/browser/uup-game-service.ts:159-171 | once a reply carries `data`, its top-level message has no effect on the normalized reply |
| Lookup.FindIndex | uup-game-view/src/browser/uup-game-service.ts:350-355 | the index of the first element matching the predicate; -1 exactly when none matches |
| Lookup.Find | uup-game-view/src/browser/uup-game-service.ts:322 | the first matching element; none exactly when nothing matches |
| Lookup.FindType | uup-game-view/src/browser/uup-game-service.ts:322 | the first powerup catalog entry with the requested id, or none when no entry has it |
| Points.MapPoints | uup-game-view/src/browser/uup-game-service.ts:311-317 | the loop's total equals the sum over all raw points records |
| Points.SumPointsAppend | uup-game-view/src/browser/uup-game-service.ts:311-317 | the total of two concatenated record lists is the sum of their totals |
| Points.SumPointsSplit | uup-game-view/src/browser/uup-game-service.ts:311-317 | the total is the points of any set of assignments plus the points of all others, so records of inactive assignments still count |
| Powerups.MapUsedPowerupData | uup-game-view/src/browser/uup-game-service.ts:319-329 | the loop yields exactly the specification list of used powerups of the assignment, in log order |
| Powerups.UsedOfAppend | uup-game-view/src/browser/uup-game-service.ts:319-329 | resolving a concatenated log gives the two resolutions one after the other |
| Powerups.UsedOfSingle | uup-game-view/src/browser/uup-game-service.ts:322-325 | one log record gives its catalog name and task number exactly when its type is known, it is used and it belongs to the assignment |
| Powerups.UsedOfSound | uup-game-view/src/browser/uup-game-service.ts:319-329 | every used entry comes from a used record of the assignment with a known type |
| Powerups.UsedOfComplete | uup-game-view/src/browser/uup-game-service.ts:319-329 | every used record of the assignment with a known type appears in the list |
| Powerups.UsedNamesAreCatalogNames | uup-game-view/src/browser/uup-game-service.ts:322-325 | every used entry carries a name from the powerup catalog |
| Powerups.MapUnusedPowerupData | uup-game-view/src/browser/uup-game-service.ts:331-344 | the loop yields exactly the specification tally of unused powerups |
| Powerups.TallyMatchesNames | uup-game-view/src/browser/uup-game-service.ts:331-344 | the tally lists each name of an unused, known-type record once, in order of first occurrence, with its number of occurrences, and the amounts add up to the number of such records |
| Powerups.TallyProperties | uup-game-view/src/browser/uup-game-service.ts:331-344 | tally names are distinct and in first-occurrence order; every amount is at least 1 and equals that name's count; a name is tallied exactly when some unused record resolves to it; the amounts sum to the number of unused records |
| Powerups.UnusedNamesSound | uup-game-view/src/browser/uup-game-service.ts:334-337 | every tallied name is the catalog name of some unused log record |
| Powerups.TallyExample | uup-game-view/src/browser/uup-game-service.ts:331-344 | two unused "Hint" records and one unused "Second Chance" record tally to Hint 2, Second Chance 1 |
| Merger.ActiveOf | uup-game-view/src/browser/uup-game-service.ts:348 | exactly the active catalog entries are kept, and no more than the catalog holds |
| Merger.Gate | uup-game-view/src/browser/uup-game-service.ts:417-419 | the gate keeps the number of entries |
| Merger.MergeOne | uup-game-view/src/browser/uup-game-service.ts:350-415 | the body of the merge loop computes the specification merge of one assignment, including the failure a lookup reply aborts it with |
| Merger.FetchIfSpent | uup-game-view/src/browser/uup-game-service.ts:360-373 | the lookup is made exactly when the powerup was spent on the task; otherwise the default value stays |
| Merger.Assemble | uup-game-view/src/browser/uup-game-service.ts:375-394 | the started entry built from the first matching record of each kind equals the specification entry |
| Merger.ApplyUnlockGate | uup-game-view/src/browser/uup-game-service.ts:417-419 | the array after the in-place pass is the specification gate applied to its old contents |
| Merger.SwapWithPrevious | uup-game-view/src/browser/uup-game-service.ts:420 | swaps two neighbours, leaves every other slot alone and keeps the multiset |
| Merger.SortById | uup-game-view/src/browser/uup-game-service.ts:420 | the array ends sorted by id and is a permutation of its old contents |
| Merger.MergeActive | uup-game-view/src/browser/uup-game-service.ts:347-416 | the loop over the active assignments yields the specification merge: all entries in catalog order, or the first failure |
| Merger.MapAssignmentDetails | uup-game-view/src/browser/uup-game-service.ts:346-422 | no active assignment gives the runtime error; a lookup failure gives that message; otherwise the result is sorted by id and is a permutation of the merged entries gated in catalog order |
| Merger.CollectAborts | uup-game-view/src/browser/uup-game-service.ts:349-416 | once a prefix of the loop fails, the whole merge ends with that failure |
| Merger.CollectSuccess | uup-game-view/src/browser/uup-game-service.ts:349-416 | a successful collection holds every value, in order |
| Merger.CollectFirstFailure | uup-game-view/src/browser/uup-game-service.ts:349-416 | a failed collection reports the failure at the first failing index |
| Merger.MergeAllSuccess | uup-game-view/src/browser/uup-game-service.ts:349-416 | a successful merge has one entry per active assignment, each its own merge result, in catalog order |
| Merger.MergeAllFirstFailure | uup-game-view/src/browser/uup-game-service.ts:349-416 | a failed merge reports the failure of the first active assignment, in catalog order, whose merge fails |
| Merger.MergeAllSucceedsIff | uup-game-view/src/browser/uup-game-service.ts:349-416 | the merge succeeds exactly when the merge of every active assignment succeeds |
| EntryFacts.FindIsFirst | uup-game-view/src/browser/uup-game-service.ts:350-355 | a keyed lookup returns exactly the first record with that assignment id |
| EntryFacts.NotStartedEntry | uup-game-view/src/browser/uup-game-service.ts:396-414 | without a progress record the entry is the not-started default (locked, counters 0, previous points -1, Loading task, no hint, no powerups) whatever the lookups answer |
| EntryFacts.StartedEntry | uup-game-view/src/browser/uup-game-service.ts:375-394 | a started entry keeps id, name and path; it is provisionally unlocked, finished exactly when its first progress record says "Completed", not buying and not collapsed, and it lists its used powerups |
| EntryFacts.StartedCounters | uup-game-view/src/browser/uup-game-service.ts:353-385 | tasks fully finished, tasks turned in and points come from the first record of each kind for the assignment, and are 0 without one |
| EntryFacts.StartedCurrentTask | uup-game-view/src/browser/uup-game-service.ts:352-389 | the current task is the first current-task record for the assignment, or the Loading placeholder without one |
| EntryFacts.UsedOnIff | uup-game-view/src/browser/uup-game-service.ts:360-367 | the used list holds a given powerup at a given task exactly when the log records such a use |
| EntryFacts.LookupNeededIff | uup-game-view/src/browser/uup-game-service.ts:359-368 | the guard of a lookup holds exactly when the assignment is started, has a current task, and the log records that powerup used on that very task; the lookup is sent only if the merge reaches it, that is, no earlier lookup failed |
| EntryFacts.NoLookupNoDependency | uup-game-view/src/browser/uup-game-service.ts:357-374 | with neither powerup spent on the current task, the entry succeeds, ignores the lookups, and has no hint and previous points -1 |
| EntryFacts.LookupOutcomes | uup-game-view/src/browser/uup-game-service.ts:359-373 | the merge fails exactly when a made lookup fails; a hint failure wins over a second-chance failure; on success, the replies are attached or the defaults stay |
| ListFacts.GateRule | uup-game-view/src/browser/uup-game-service.ts:417-419 | the first entry is unlocked, and each later one exactly when its predecessor's fully-finished tally meets the requirement |
| ListFacts.GateOnlyUnlocks | uup-game-view/src/browser/uup-game-service.ts:417-419 | the gate changes no field but `unlocked` |
| ListFacts.GateKeepsFields | uup-game-view/src/browser/uup-game-service.ts:417-419 | the gate keeps length, identity, progress flags and the fully-finished tally |
| ListFacts.ActiveOfAppend | uup-game-view/src/browser/uup-game-service.ts:348 | filtering a concatenated catalog gives the two filtered parts one after the other, so the filter keeps catalog order and repeated entries |
| ListFacts.ActiveOfSingle | uup-game-view/src/browser/uup-game-service.ts:348 | one catalog entry is kept exactly when it is active |
| ListFacts.ActiveOfAllActive | uup-game-view/src/browser/uup-game-service.ts:348 | a catalog of active assignments only passes the filter unchanged |
| ListFacts.MergeKeepsIdentity | uup-game-view/src/browser/uup-game-service.ts:376-400 | merged entries carry their catalog assignment's id, name and path, in catalog order |
| ListFacts.ArrangementFromActive | uup-game-view/src/browser/uup-game-service.ts:348-420 | every output entry comes from an active catalog assignment, with its name and path |
| ListFacts.ArrangementCoversActive | uup-game-view/src/browser/uup-game-service.ts:348-420 | the output has one entry per active assignment, and every active assignment appears |
| ListFacts.OutputMatchesActive | uup-game-view/src/browser/uup-game-service.ts:346-422 | the result of a successful detail mapping holds exactly the active catalog assignments; inactive ones never appear |
| ListFacts.SortedArrangementsShareHead | uup-game-view/src/browser/uup-game-service.ts:420 | two sorted arrangements of the same elements with distinct keys start with the same element |
| ListFacts.SameTails | uup-game-view/src/browser/uup-game-service.ts:420 | removing a common head keeps two arrangements of the same elements |
| ListFacts.SortedArrangementUnique | uup-game-view/src/browser/uup-game-service.ts:420 | with distinct keys, the sorted arrangement is unique, so the sort's outcome is determined |
| ListFacts.SortedArrangementIsGated | uup-game-view/src/browser/uup-game-service.ts:417-420 | with catalog ids increasing, the sorted output is the gated list itself |
| ListFacts.SortedCatalogKeepsGateOrder | uup-game-view/src/browser/uup-game-service.ts:417-420 | with catalog ids increasing, the sorted output has the lowest id unlocked, and each later entry unlocked exactly when its predecessor finished enough tasks |
| Scenarios.NoProgressRecords | uup-game-view/src/browser/uup-game-service.ts:396-419 | without progress records every entry is not started; the first in catalog order is unlocked, and each later one only when the requirement is at most 0 |
| Scenarios.DescendingGate | uup-game-view/src/browser/uup-game-service.ts:417-419 | for catalog [id 2, id 1] with no records and requirement 1, the gate unlocks id 2 and locks id 1 |
| Scenarios.LowestIdMayStayLocked | uup-game-view/src/browser/uup-game-service.ts:417-420 | in that case the sorted output starts with id 1 locked, followed by id 2 unlocked |
| Scenarios.NoPowerupsNoFailure | uup-game-view/src/browser/uup-game-service.ts:356-373 | without powerup records no lookup is made and the merge succeeds |
| Scenarios.FirstCompletedEntries | uup-game-view/src/browser/uup-game-service.ts:350-415 | with assignment 1 completed with tally n and assignment 2 not started, the merged entries show exactly that |
| Scenarios.TwoAssignmentUnlock | uup-game-view/src/browser/uup-game-service.ts:346-422 | with requirement 3, assignment 1 is finished and unlocked, and assignment 2 is not started and unlocked exactly when n >= 3 |
| StudentView.GetStudentData | uup-game-view/src/browser/uup-game-service.ts:296-308 | a failed reply throws its own message; a successful one gives the student, the tokens, the total over all points records, the unused tally and the sorted, gated entries; a failure of the detail mapping fails the call |

## Left out

- The HTTP requests, JSON decoding and `async` sequencing are not modelled (`getStudentData`'s request, lines 289-295; `getUsedHint` and `getPreviousPoints`, lines 269-287). The student-data reply is a parameter. The two dependent lookups are functions from assignment id and task number to the normalized reply: the payload value on success, the message `MapResponse` picks on failure. `Merger.NeedsLookup` is the guard of a lookup. The lookup is sent only if the merge gets that far: a failed hint lookup stops the second-chance lookup of the same assignment, and a failed lookup stops the lookups of every later assignment. `Merger.DetailsFor` and `Merger.Collect` never consult a reply past the first failure, but the model does not record which requests were sent, nor their timing.
- The other `GameService` requests are not part of this model: `getAssignments`, `getPowerupTypes`, `getChallengeConfig`, `getTaskCategories`, `buyPowerup`, `startAssignment`, `useHint`, `useSecondChance`, `switchTask`, `turnInTask` and `getSecondChanceAvailableTasks`. Neither are the interfaces only they use (`TaskCategory`, `ChallengeConfig`, the response interfaces), nor the unused `CourseInfo` interface. The catalog and the powerup types are parameters of `GetStudentData`, as they are of the source's function.
- `parseInt` on the completed and turned-in counters is not modelled. The counters are taken as integers already, and JavaScript's `NaN` is left out.
- JavaScript `number`s (ids, task numbers, tokens, points, previous points, counters) are taken as unbounded integers. Fractional points and floating-point rounding are not modelled. In particular, `points += x.points` (line 314) is floating-point addition, whose result can depend on the order of the records; `Points.SumPointsAppend` and `Points.SumPointsSplit` hold of the integer model only.
- Assignment ids are compared as integers. JavaScript's loose `==` between a string id and a number id is not modelled.
- Malformed replies are not modelled: a missing record list, or `data: null` read by `mapResponse`, would make the source throw a `TypeError`. Absent optional messages are `Option` values.
- The empty active list is modelled. The source throws a `TypeError` when it unlocks the first entry of an empty list, which is `Merger.NoFirstEntry`. `Merger.ApplyUnlockGate` requires a non-empty array because its caller handles that case first.
- Merger.SortById: does not state that the sort is stable, as JavaScript's `Array.prototype.sort` is. It states sorted by id and a permutation. With distinct ids that already fixes the order (`ListFacts.SortedArrangementUnique`).
- StudentView.GetStudentData: does not state the order among entries sharing an id, for the same reason as `SortById`. It states sorted by id and a permutation of the gated entries.
- Merger.MapAssignmentDetails: does not state the order among entries sharing an id (see `SortById`), nor the output order for a catalog whose ids are not increasing, beyond sortedness and permutation. The gate then runs in catalog order, as in the code (see `Scenarios.LowestIdMayStayLocked`).
- The `collapsed` and `buyingPowerUp` flags are modelled only as initialized. Their later changes belong to the presentation layer.

# OnRecord commitment ledger — a Dafny model

OnRecord keeps a ledger of interpersonal commitments. Each one is a promise
with a promisor, a promisee, a definition of done, an optional deadline, a
status (PENDING, MET, BREACHED, DISPUTED) and a log of updates. This project
models the part of the application that is logic rather than rendering:

- `types.dfy` (module `Types`): the `Status` and `Category` enumerations with
  their enum strings, and the `Update`, `Commitment` and `AnalysisResult`
  records. The optional `deadline` is an `Option<int>`.
- `app.dfy` (module `App`): the ledger handlers of the application root.
  Each handler builds a new list from the old one, and these new lists are
  the pure functions `AddCommitment`, `SetStatus` and `AddLog`. Class
  `AppState` holds the state the handlers reassign: the `commitments` list,
  the modal flag and the five form fields. Its methods are
  `HandleAddCommitment`, `ResetForm`, `HandleStatusChange` and
  `HandleAddLog`.
- `dashboard.dfy` (module `Dashboard`): the total, MET, BREACHED and PENDING
  counts, built as the length of a status filter. Also the three-slice chart
  data, and how the counts move when the handlers run.
- `commitment_card.dfy` (module `CommitmentCard`): the badge colour of each
  status and the PAST DUE predicate at an explicit time `now`. Also the
  buttons a card offers, what pressing them does to the ledger, runs of
  presses, and the two-update "Recent Updates" list.
- `pattern_analysis.dfy` (module `PatternAnalysis`): the three-band colour of
  a reliability score, the service's fallback result, and class
  `AnalysisPanel` with the `loading` / `analysis` view state.
- `constants.dfy` (modules `Constants` and `SeedFacts`): the four-record seed
  ledger, whose timestamps are offsets from a load time `loadTime`, and what
  it gives for the statistics and the past-due marker.

Environment inputs are parameters:
- the random ids (`id`, and `newId` for log entries);
- the clock (`now`, `clock`, `loadTime`);
- the text typed into the log dialog (`note: Option<string>`, where `None`
  means the dialog was cancelled);
- the analysis service (`analyze: seq<Commitment> -> AnalysisResult`).

Inside `handleAddLog` the id generator and the clock are called once for each
matching record. So `newId` and `clock` are functions of the record's
position: each matching record gets its own entry, with id `newId(i)` and
time `clock(i)` for its position `i`. In a run of card presses
(`CommitmentCard.Run`) every press carries its own `newId` and `clock`, so
successive presses draw fresh values.

The model keeps these behaviours of the code:
- A status change and a log entry act on *every* record whose id matches.
  The model does not assume unique ids. Lemma
  `CommitmentCard.SharedIdRewritesSettled` shows the effect. With two records
  under one id, the "Mark Met" button of the PENDING one also rewrites the
  BREACHED one.
- The author of a log entry is always the constant `Current User`.
- A new commitment always gets category Personal Growth and no deadline;
  only the five text fields come from the form.
- A deadline of `0` counts as absent, because of the `commitment.deadline &&`
  test.

## Model

| member | source | states |
|---|---|---|
| `Types.StatusNameInjective` | types.ts:2-7 | the four status values have pairwise distinct enum strings |
| `Types.CategoryNameInjective` | types.ts:9-15 | the five categories have pairwise distinct display strings (Relationship, Co-Parenting, Professional, Recovery, Personal Growth) |
| `App.AddCommitment` | App.tsx:23-35 | the new list is one longer. Its tail is exactly the old list. Its head is a PENDING record with no updates, category Personal Growth, no deadline, the given id and creation time, and the five form values |
| `App.Accepted` | App.tsx:54 | a cancelled dialog is rejected, and an accepted note is present and non-empty |
| `App.LogEntry` | App.tsx:59-64 | the entry for position `pos` has author Current User, the note, and the id and time drawn for that position |
| `App.PrependLog` | App.tsx:55-68 | each matching record gets the log entry for its position in front of its updates and keeps every other field; other records are unchanged |
| `App.SetStatus` | App.tsx:49 | length and order are kept. Every record with the id gets the new status and keeps its other fields. Every other record is unchanged |
| `App.AddLog` | App.tsx:52-69 | a cancelled or empty note leaves every record unchanged. An accepted note prepends one update (author Current User, the note, a per-record id and time) to each matching record's updates, and leaves all other records unchanged |
| `App.SetStatusAbsent` | App.tsx:49 | a status change for an id no record has returns the list unchanged |
| `App.SetStatusIdempotent` | App.tsx:49 | setting the same status twice gives the same list as setting it once |
| `App.SetStatusLookup` | App.tsx:49 | after a status change every record with that id has the new status, and the id sequence is unchanged |
| `App.AddLogRejected` | App.tsx:53-54 | a cancelled (null) or empty note leaves the list unchanged |
| `App.AddLogPrependsOne` | App.tsx:55-68 | with an accepted note, a matching record gets exactly one more update, in front, by Current User with that note. Its previous updates, status and other fields are kept. Non-matching records, ids and statuses are unchanged |
| `App.AddLogKeepsStatuses` | App.tsx:55-68 | adding a log entry never changes any status or any id, in order |
| `App.AddCommitmentKeepsUniqueIds` | App.tsx:23-35 | adding under an id not yet in use keeps the ids unique |
| `App.UpdatesKeepUniqueIds` | App.tsx:48-69 | status changes and log entries keep the id sequence, so they keep unique ids unique |
| `App.AppState.constructor` | App.tsx:11-19 | the initial state is the seed ledger, the modal is closed, and all five form fields are empty |
| `App.AppState.ResetForm` | App.tsx:40-46 | title, description, promisor, promisee and definition of done become empty, and nothing else changes |
| `App.AppState.HandleAddCommitment` | App.tsx:21-38 | the ledger becomes `AddCommitment` of the old ledger and the old form values. Then the modal is closed and the form cleared |
| `App.AppState.HandleStatusChange` | App.tsx:48-50 | the ledger becomes `SetStatus` of the old ledger, and nothing else changes |
| `App.AppState.HandleAddLog` | App.tsx:52-69 | the ledger becomes `AddLog` of the old ledger (unchanged for a rejected note), and nothing else changes |
| `Dashboard.WithStatus` | components/Dashboard.tsx:16-18 | the filter holds only records with the given status, every such record, and no more records than the ledger |
| `Dashboard.WithStatusMultiplicity` | components/Dashboard.tsx:16-18 | the filter keeps each record with the status exactly as often as it occurs in the ledger and drops all others, so its length is the number of such records |
| `Dashboard.CountStatus` | components/Dashboard.tsx:16-18 | a tally is the length of the filter, at most the ledger length |
| `Dashboard.CountStatusZero` | components/Dashboard.tsx:16-18 | a tally is zero exactly when no record has that status |
| `Dashboard.ComputeStats` | components/Dashboard.tsx:14-21 | total is the ledger length, and met + breached + pending plus the DISPUTED records make up the total |
| `Dashboard.ChartData` | components/Dashboard.tsx:23-27 | three slices with pairwise distinct labels and colours, carrying met, breached and pending in that order |
| `Dashboard.CountsPartition` | components/Dashboard.tsx:15-18 | the PENDING, MET, BREACHED and DISPUTED counts add up to the total |
| `Dashboard.StatsBound` | components/Dashboard.tsx:14-21 | total is the list length. met + breached + pending <= total, with equality exactly when no record is DISPUTED |
| `Dashboard.EmptyStats` | components/Dashboard.tsx:14-21 | an empty ledger gives all four counts zero |
| `Dashboard.ChartDataSlices` | components/Dashboard.tsx:23-27 | three slices named Met, Breached, Pending in that order, carrying the met, breached and pending counts. Their sum is the number of non-DISPUTED records |
| `Dashboard.CountDependsOnStatuses` | components/Dashboard.tsx:14-21 | two ledgers with the same status sequence have the same counts |
| `Dashboard.AddLogKeepsStats` | components/Dashboard.tsx:14-21 | adding a log entry leaves all four statistics unchanged |
| `Dashboard.AddCommitmentStats` | components/Dashboard.tsx:14-21 | adding a commitment raises total and pending by one and keeps met and breached |
| `Dashboard.SetStatusCount` | components/Dashboard.tsx:14-21 | after a status change, the count of each status loses the matching records that had it, and the new status gains every matching record |
| `Dashboard.MarkMetStats` | components/Dashboard.tsx:14-21 | with unique ids, marking a PENDING record MET lowers pending by one and raises met by one. Total and breached are unchanged |
| `CommitmentCard.StatusColor` | components/CommitmentCard.tsx:13-21 | no status falls to the default branch's class |
| `CommitmentCard.HasDeadline` | components/CommitmentCard.tsx:23 | a truthy deadline is present, and a deadline of 0 is not truthy |
| `CommitmentCard.IsExpired` | components/CommitmentCard.tsx:23 | a record without a deadline or not PENDING is never past due, and a past-due record's deadline lies before now |
| `CommitmentCard.Press` | components/CommitmentCard.tsx:71-75 | a press keeps the length and the ids. "Add Log" keeps every status. A status button changes only records with the card's id, and only to MET or BREACHED |
| `CommitmentCard.StatusColorDistinct` | components/CommitmentCard.tsx:13-21 | the four statuses get four distinct badge classes, and none is the default branch's class |
| `CommitmentCard.IsExpiredCases` | components/CommitmentCard.tsx:23 | past due never holds without a deadline, with a deadline of 0, or when the status is not PENDING. Otherwise it holds exactly when the deadline is strictly before now |
| `CommitmentCard.IsExpiredMonotone` | components/CommitmentCard.tsx:23 | a record that is past due stays past due at every later time |
| `CommitmentCard.Actions` | components/CommitmentCard.tsx:69-75 | "Add Log" is always offered. "Mark Met" and "Mark Breached" are offered exactly when the status is PENDING |
| `CommitmentCard.PressTransitions` | components/CommitmentCard.tsx:69-75 | with unique ids, an offered button changes only its own record's status, and only from PENDING to MET or BREACHED. Ids and length are kept |
| `CommitmentCard.SharedIdRewritesSettled` | components/CommitmentCard.tsx:71-72 | with a shared id, "Mark Met" on a PENDING card also turns a BREACHED record into MET |
| `CommitmentCard.PressNeverDisputes` | components/CommitmentCard.tsx:69-75 | one press of an offered button on a ledger with no DISPUTED record leaves none DISPUTED |
| `CommitmentCard.DisputedUnreachable` | components/CommitmentCard.tsx:69-75 | no run of card presses, each press with its own ids and clock, ever produces a DISPUTED record |
| `CommitmentCard.RecentUpdates` | components/CommitmentCard.tsx:83 | the listed updates are a prefix of the updates, in order, with at most two of them (all of them when there are fewer) |
| `CommitmentCard.RecentSection` | components/CommitmentCard.tsx:79-83 | the section is shown exactly when there is an update to list, and the first update is listed first |
| `PatternAnalysis.ScoreColor` | components/PatternAnalysis.tsx:23-27 | every score maps to one of the emerald, amber and rose classes |
| `PatternAnalysis.ScoreColorBands` | components/PatternAnalysis.tsx:23-27 | a score of 80 or more is emerald, 50 up to 80 is amber, and below 50 is rose. Each score gets exactly one class |
| `PatternAnalysis.ScoreColorMonotone` | components/PatternAnalysis.tsx:23-27 | a higher score never gets a lower band |
| `PatternAnalysis.FallbackIsRose` | services/geminiService.ts:82-87 | the fallback result's score 0 is shown rose |
| `PatternAnalysis.AnalysisPanel.ShowsGenerate` | components/PatternAnalysis.tsx:42 | the Generate button shows only when not loading and no result is shown |
| `PatternAnalysis.AnalysisPanel.ShowsResult` | components/PatternAnalysis.tsx:56 | the result view shows only when an analysis is held |
| `PatternAnalysis.AnalysisPanel.constructor` | components/PatternAnalysis.tsx:12-13 | the panel starts not loading and with no analysis, so the Generate button shows |
| `PatternAnalysis.AnalysisPanel.StartAnalyze` | components/PatternAnalysis.tsx:17 | loading is set, and the Generate button is hidden |
| `PatternAnalysis.AnalysisPanel.FinishAnalyze` | components/PatternAnalysis.tsx:19-20 | the answer is stored and loading ends. The result view shows |
| `PatternAnalysis.AnalysisPanel.HandleAnalyze` | components/PatternAnalysis.tsx:16-21 | afterwards the analysis is the service's answer for the current ledger and loading is off |
| `PatternAnalysis.AnalysisPanel.Reset` | components/PatternAnalysis.tsx:89 | the analysis is dropped and loading kept. The Generate button shows exactly when not loading |
| `Constants.InitialCommitments` | constants.tsx:4-61 | the seed holds four records |
| `SeedFacts.SeedIds` | constants.tsx:6-49 | seed ids are '1', '2', '3', '4' in order, hence unique. The seed update ids 'u1' and 'u2' are distinct |
| `SeedFacts.SeedStats` | constants.tsx:15-58 | seed statistics: total 4, met 1, breached 1, pending 2, disputed 0 |
| `SeedFacts.SeedCount` | constants.tsx:15-58 | the count of each status over the seed |
| `SeedFacts.SeedSettledNeverExpired` | constants.tsx:13-43 | record '1' has no deadline. Record '3' is a day past its deadline but BREACHED. Neither is ever past due |
| `SeedFacts.SeedPendingExpiry` | constants.tsx:28-58 | records '2' and '4' are PENDING and become past due exactly after their deadlines (load time + 2 days, + 2 hours). Neither is past due at load time |
| `SeedFacts.SeedCreatedInPast` | constants.tsx:12-55 | every seed record was created before load time |

## Left out

- The analysis service (services/geminiService.ts) is a foreign call. The model takes it as a function parameter and keeps only its fallback result. Prompt serialisation, JSON parsing and transcription are not modelled.
- Voice capture (components/VoiceInput.tsx) is not modelled, because it is browser I/O: microphone, MediaRecorder, FileReader and async callbacks.
- Routing, JSX layout, styling, the pie chart rendering, and locale date formatting are not modelled.
- The form's `onChange` setters and the buttons that open and close the modal only assign one field each. They are not modelled; the modal flag appears only where `handleAddCommitment` closes it.
- The browser's `required` check on form fields runs before submission. The handler does not check it, so `HandleAddCommitment` takes any form values.
- The format of generated ids (nine base-36 characters from `Math.random`) is not modelled, and neither are their collisions. Ids are parameters.
- Reliability scores are JavaScript numbers, modelled as `real`. NaN, which falls to the rose band in the source, is not modelled.
- `AnalysisPanel.HandleAnalyze` runs its two halves back to back. It does not model the await point: a ledger change while the call is in flight, a second click, or the panel being discarded before the answer arrives.
- `Constants.InitialCommitments` reads the clock once, as `loadTime`, while the seed literal calls `Date.now()` once per timestamp. The calls can differ by a millisecond or so, which moves the exact boundaries in `SeedFacts.SeedPendingExpiry` by that much.
- `Dashboard.MarkMetStats` is stated for ledgers with unique ids. `Dashboard.SetStatusCount` gives the general count change for shared ids.

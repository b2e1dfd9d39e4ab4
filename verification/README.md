# Findings and alerts, modelled and proved

This project models two coupled state machines of the vulnerability tracker and proves what they
keep over whole runs.

**Findings.** SBOMs are uploaded into scopes (a project, with or without a service), scanned,
deleted and pruned. Each scan inserts links between an SBOM, a package and a vulnerability, retires
links the scanner no longer reports, and reconciles the older SBOMs of the scope against the
scanned one. Risk acceptances hide findings. Daily snapshots count what is open today, or rebuild a
past day from timestamps.

**Alerts.** A check run walks enabled rules and open (project, vulnerability) pairs in an arbitrary
order and mutates shared notification rows: deliver, retry up to five times, give up, resend when
the affected services change, resolve when the pair closes.

## How it is laid out

| file | content |
|---|---|
| `Store.dfy` | rows and tables, scopes, the ranking of SBOMs, coverage, actionable findings |
| `Scanner.dfy` | one scan on metadata and links, as tables and link by link |
| `Scanning.dfy` | consequences of scans, repeated scans, and the periodic rescan |
| `Deletion.dfy` | deletion of an SBOM and the canonical form it leaves |
| `Retention.dfy` | pruning |
| `Acceptances.dfy`, `AcceptanceRace.dfy` | risk acceptances, served one at a time and interleaved |
| `Meaning.dfy` | what each operation does, from rows and literals alone |
| `Lifecycle.dfy` | all operations as steps, histories, and what every history keeps |
| `Snapshots.dfy`, `SeverityCounts.dfy` | open today and on a past day, and the counts |
| `FindingStore.dfy` | the operations as methods over mutable tables, with the loops of the source |
| `Witnesses.dfy` | histories that reach the states in which expected properties fail |
| `AlertEpisodes.dfy` | the automaton of one (rule, vulnerability) pair and its history-only reference |
| `AlertRun.dfy` | the check run over shared notification objects |
| `AlertSystem.dfy` | sequences of runs, and the store and the alerts together |
| `UpsertRace.dfy` | concurrent scans as interleaved transactions |
| `ProjectView.dfy` | the vulnerability list of a project page |
| `Pagination.dfy` | page arithmetic |

Functions such as `ScanSbom`, `DeleteSbom`, `PruneSboms`, `Accept` and `Step` are specifications.
The methods of `FindingStore.Session` and `AlertRun.NotificationTable` are proved to have exactly
their effect, `Meaning` says from rows, fields and literals what that effect is, and the other lemmas say
what it promises.

Results worth knowing before reading the table:

* A scan never opens a fixed link again, so a CVE that was retired on the latest SBOM and is
  reported again can end up open nowhere. `Witnesses.ReportedYetOpenNowhere` gives the history, and
  `Scanning.ReportedIsOpenIff` says exactly when every reported CVE is open after the scan. The user
  guide (`docs/guide/vulnerabilities.md`) reads as if it always were; the model follows the code.
* A past day is not fixed. Uploads and acceptances dated after a day leave alone what counts for it,
  and so do scans of SBOMs dated after it (`Snapshots.ForwardKeepsDay`). A scan of an SBOM whose own
  date lies within the day can add to it, a prune and a deletion take links out of it
  (`Witnesses.DeletionRewritesDay`), a deletion also brings links back, and so does the revert of an
  acceptance made by its end, since its row is gone (`Witnesses.RevertRewritesDay`).
  `Snapshots.AfterDay` gives the exact difference for every operation, and `Snapshots.PastDayIsStable`
  says which histories leave the vulnerabilities of the day as they were. How these split by severity
  follows the latest reports: `FindingStore.RowIsRebuilt` says when a whole row is rebuilt as it was.
* Uploading, scanning and deleting an SBOM restores all statuses if and only if the scope was in
  canonical form before.
* Two deletions can end differently by their order when upload instants tie
  (`Witnesses.DeletionsDisagree`); `Deletion.DeletionsAlwaysCommuteIff` says exactly when they cannot.
* With check and insert interleaved, a project-wide and a service acceptance can coexist.
  `AcceptanceRace.ExclusionSurvivesIff` says for which sets of requests they cannot.
* The reconcile looks for strictly older SBOMs while the ranking breaks ties by id: a finding open on
  an SBOM of the same upload instant as the latest one survives every rescan.
  `Scanning.RoundsReconcileIff` shows that nothing else keeps a full round from reconciling the store.
* A prune can delete the last SBOM on which a finding is open, for instance when a newer one is not
  scanned yet. `Retention.PruneHidesNothingIff` says exactly when it does not.

Assumptions. Unique indexes and foreign keys of the database appear as invariants, or as guards of
insert steps. Each operation is one step, except in the two race modules. New ids are new. The clock,
the scanner's report and the outcome of each delivery are inputs. Query results without an `ORDER BY`
come in any order. In `UpsertRace` a statement sees committed rows and those of its own transaction, and
an insert waits for an open transaction that holds the same key, as under READ COMMITTED isolation; the
only integrity error is a duplicate key.

## Model

| member | source | states |
|---|---|---|
| `Meaning.LatestMeans` | app/services/scanning.py:45-61 | the latest SBOM of a project and service is the one uploaded last, with the greatest id among equals |
| `Meaning.ActionableMeans` | app/services/acceptance.py:21-31 | a link is actionable exactly when it is open and no acceptance of its vulnerability and project is for the whole project or for its service |
| `Meaning.UploadMeans` | app/services/sbom_parser.py:115-150 | an unknown project or a stored document changes nothing; otherwise one SBOM is added, field by field, with its dependencies and its service |
| `Meaning.FailedScanIsIdle` | app/services/scanning.py:26-33 | a scanner that fails on a document, and an SBOM that is gone, leave the store as it was |
| `Meaning.BlankScanIsClean` | app/services/scanning.py:30-40 | an empty document is scanned clean whatever the scanner does: nothing stays open on it |
| `Meaning.ScannedSbomMeans` | app/services/vulnerability_scanner.py:183-326 | link by link on the scanned SBOM: which pairs of a report get an open link and with which dates, which open links are fixed and when, and that no other moves |
| `Meaning.ScannedScopeMeans` | app/services/vulnerability_scanner.py:244-291 | link by link on all others: fixed exactly when open on an SBOM of the same project and service uploaded earlier, with its CVE open nowhere on the scanned SBOM |
| `Meaning.MatchMeans` | app/services/vulnerability_scanner.py:125-180 | field by field, what one more match does to the vulnerability rows |
| `Meaning.PickMeans` | app/api/v1/sboms.py:231-242 | the SBOM a deletion settles on is another one of its project and service that was uploaded last |
| `Meaning.DeleteTakes` | app/api/v1/sboms.py:244-245 | the rows a deletion removes, and the tables it leaves alone |
| `Meaning.DeletedMeans` | app/api/v1/sboms.py:247-268 | what a deletion leaves of each remaining link, with status and dates |
| `Meaning.PruneMeans` | app/services/retention.py:26-65 | row by row what a prune keeps; nothing changes without a cutoff |
| `Meaning.AcceptMeans` | app/api/v1/vulnerabilities.py:231-311 | a request is served exactly when project, vulnerability and service exist and fit, something is open for it, and no row for the project or the same service stands in its way; its row is then the only effect |
| `Meaning.ServedIff` | app/api/v1/vulnerabilities.py:231-311 | equally, exactly when its row would hide an open link and leave the acceptances exclusive |
| `Meaning.RefusalMeans` | app/api/v1/vulnerabilities.py:231-294 | which refusal answers which request |
| `Meaning.CountedTodayMeans` | app/services/snapshots.py:32-44 | counted today: rated, with an open link no acceptance hides, whatever its dates |
| `Meaning.CountedOnDayMeans` | app/services/snapshots.py:45-65 | counted for another day: rated, with a link detected before the day was over and not fixed or accepted before |
| `Meaning.SnapshotMeans` | app/services/snapshots.py:67-111 | the four severity counts, the fixed count and the dependencies of a stored row |
| `Meaning.FixedAndDepsMean` | app/services/snapshots.py:82-97 | fixed by the end of a day, and dependencies of SBOMs created by its start |
| `Meaning.SummaryMeans` | app/services/mcp_server.py:517-563 | what the total of the summary and the fixed count range over |
| `Meaning.HistoryKeeps` | app/models/vulnerability.py:66-86 | every state of every history from the empty store keeps the references, dates and uniqueness that the tables need |
| `Store.LatestBeatsAll` | app/services/scanning.py:45-61 | an SBOM has row number 1 exactly when it beats every other SBOM of its scope by upload instant, then id |
| `Store.LatestOf` | app/services/scanning.py:45-61 | every scope that has an SBOM has one of row number 1 |
| `Scanner.RefreshAllAt` | app/services/vulnerability_scanner.py:125-180 | the match-by-match upsert loop leaves, for every CVE and report, the row of a closed form: last match wins, last present value wins, packages accumulate in order without repeats; unreported CVEs keep their row |
| `Scanner.AppendAllNewContents` | app/services/vulnerability_scanner.py:175-179 | affected packages keep what was there first, gain exactly the new non-empty ones, and stay distinct |
| `Scanner.RefreshTwice` | app/services/vulnerability_scanner.py:161-180 | metadata after processing a report twice equals metadata after once, for every report |
| `Scanner.ScanLinkByLink` | app/services/vulnerability_scanner.py:183-326 | insert, retire and reconcile run over the whole table act on each single link as one closed rule, from the links before the scan alone |
| `Scanning.OwnedServicesGiveScopes` | app/services/vulnerability_scanner.py:247-251 | where services own SBOMs of their project only, the service-only reconcile filter selects exactly the (project, service) scope |
| `Scanning.ScanSettlesScope` | app/services/scanning.py:30-40 | a successful scan leaves on its SBOM only reported CVEs open, leaves on every older SBOM of the scope no other CVE open, changes no other link, never touches a fixed link, and adds exactly the reported keys |
| `Scanning.FirstScanOpensReport` | app/services/vulnerability_scanner.py:183-232 | the first scan of an SBOM opens exactly the reported pairs with an id and a package, dated by the SBOM |
| `Scanning.ReportedIsOpenIff` | app/services/vulnerability_scanner.py:193-201 | all reported CVEs with a package are open after a scan if and only if none of them was linked by fixed links only |
| `Witnesses.ReportedYetOpenNowhere` | app/services/vulnerability_scanner.py:193-194 | a history from the empty store in which an SBOM is scanned with a CVE, without it and with it again, after which the CVE is open on no SBOM |
| `Scanning.RescanChangesNothing` | app/services/scanning.py:17-40 | scanning again with the same outcome at any later time leaves the whole store unchanged |
| `Scanning.ScansOfScopesCommute` | app/services/vulnerability_scanner.py:244-326 | scans of SBOMs in different scopes commute on links, for all reports and clocks |
| `Scanning.ScanSettlesIff` | app/services/vulnerability_scanner.py:252-258 | a scan of the latest SBOM leaves no CVE of its scope open beyond it if and only if what was open on SBOMs of the same upload instant is open on it afterwards |
| `Scanning.RescanSettles` | app/services/tasks.py:32-47 | for any order, repeats and failures among scans of latest SBOMs, a scope with one successful scan has no CVE open beyond its latest SBOM if and only if nothing that was open on a tied SBOM is missing on it at the end |
| `Scanning.RoundsReconcileIff` | app/services/tasks.py:32-47 | every fully successful round, in any order and with any reports, reconciles the whole store if and only if nothing is open on an SBOM tied with the latest of its scope when it starts |
| `Witnesses.TieStaysOpen` | app/services/vulnerability_scanner.py:252-258 | a history from the empty store with two uploads at one instant, after which a full round leaves the store unreconciled |
| `Deletion.DeleteGivesCanonical` | app/api/v1/sboms.py:224-270 | after a deletion a link of the scope is fixed exactly when its SBOM is older than the newest one left and its CVE has no link there; keys, dates of detection and other scopes stay |
| `Deletion.DeleteForgetsStatuses` | app/api/v1/sboms.py:247-268 | after a deletion the statuses depend on link keys only: whatever they were in the scope before, they come out the same |
| `Deletion.DeletionsAlwaysCommuteIff` | app/api/v1/sboms.py:230-268 | two deletions in either order give the same keys, statuses and detection dates, whichever SBOMs their queries for the newest one return, if and only if the SBOMs tied for newest in what is left of the scope, or of each of the two scopes, carry the same of the CVEs of older ones |
| `Deletion.DeletionsCommute` | app/api/v1/sboms.py:230-268 | so they always do when no two SBOMs of a scope share their upload instant |
| `Witnesses.DeletionsDisagree` | app/api/v1/sboms.py:235-243 | a history from the empty store with two newest SBOMs of one instant, after which the order of two deletions and the answers of their queries decide a status |
| `Deletion.UploadScanDeleteRestores` | app/api/v1/sboms.py:224-270 | upload, scan with any outcome, and delete of a new SBOM restores every status if and only if its scope was canonical |
| `Retention.NothingDangles` | app/services/retention.py:58-63 | no child row lacks its SBOM after any of the three deletes, and exactly the children of kept SBOMs are kept |
| `Retention.KeptExactly` | app/services/retention.py:39-55 | a prune keeps exactly the latest SBOM of each scope and the SBOMs created from the cutoff on |
| `Retention.LatestSurvives` | app/services/retention.py:39-55 | the list of latest SBOMs is the same before and after a prune |
| `Retention.SecondPruneIsIdle` | app/services/retention.py:26-65 | a second prune with the same or an earlier cutoff changes nothing |
| `Retention.PruneIsTransparent` | app/services/retention.py:26-65 | on a reconciled store a prune keeps the set of actionable (project, service, vulnerability) findings, and the store stays reconciled |
| `Retention.PruneHidesNothingIff` | app/services/retention.py:26-65 | on any store a prune keeps all actionable findings if and only if each one on an SBOM to be pruned is actionable on an SBOM that is kept |
| `Witnesses.PruneCanHide` | app/services/retention.py:26-65 | a history from the empty store whose last step, a prune, removes the only finding |
| `Acceptances.AcceptKeepsExclusive` | app/api/v1/vulnerabilities.py:262-301 | served one at a time, acceptances of one (project, vulnerability) are for different services |
| `Acceptances.AtMostOneCover` | app/services/acceptance.py:21-31 | then at most one acceptance covers a finding |
| `Acceptances.AcceptHides` | app/api/v1/vulnerabilities.py:243-301 | a created acceptance removes exactly the open links it covers from the actionable ones, and always at least one |
| `Acceptances.RevertShows` | app/api/v1/vulnerabilities.py:319-325 | reverting shows exactly the open links the acceptance covered, none of which was showing |
| `Acceptances.AcceptThenRevert` | app/api/v1/vulnerabilities.py:296-325 | accept, then revert, is the identity on the store |
| `AcceptanceRace.OneRowAlways` | app/models/acceptance.py:21-37 | under every interleaving of checks, inserts and reverts there is one row per (project, service, vulnerability) |
| `AcceptanceRace.ExclusionSurvivesIff` | app/api/v1/vulnerabilities.py:265-310 | acceptances stay exclusive in every interleaving of checks, inserts and reverts if and only if no (project, vulnerability) is requested both for the project and for a service |
| `AcceptanceRace.RequestGoesOn` | app/api/v1/vulnerabilities.py:265-311 | in every state an unanswered request can take its next step, and is answered by its second |
| `Lifecycle.SecondUploadIsIdle` | app/services/sbom_parser.py:115-121 | a document seen before, under any project or name, changes nothing |
| `Lifecycle.UploadBecomesLatest` | app/services/sbom_parser.py:123-144 | a new document becomes the latest SBOM of its scope whatever date it carries, under the service of that name in the project, and displaces no other scope's latest |
| `Lifecycle.AlwaysConsistent` | app/services/vulnerability_scanner.py:281-290 | every state of every history of uploads, scans, deletions, prunes, acceptances and reverts has links fixed exactly when dated, no dangling row, services owning SBOMs of their project, unique documents and service names, and exclusive acceptances |
| `Snapshots.BranchesAgreeIff` | app/services/snapshots.py:32-65 | the live and the reconstructed branch count the same vulnerabilities if and only if what only dates after the day add, and what was fixed or accepted since, is counted by the other branch too |
| `Snapshots.BranchesAgree` | app/services/snapshots.py:32-65 | so they do once the day end is past every stored timestamp |
| `Witnesses.AheadCountsToday` | app/services/snapshots.py:32-65 | a history from the empty store in which a document dated ahead is counted today and not by the reconstruction of the day |
| `Snapshots.ScanAfterDay` | app/services/snapshots.py:49-65 | a scan after a day adds to it exactly its newly linked, uncovered keys dated within the day, and removes nothing |
| `Snapshots.PruneAfterDay` | app/services/retention.py:26-65 | a prune takes exactly the links of the SBOMs it deletes out of a past day |
| `Snapshots.RevertAfterDay` | app/services/acceptance.py:21-31 | a revert brings back into a past day exactly the links that the acceptance, if made by then, kept out of it |
| `Snapshots.AfterDay` | app/services/snapshots.py:49-65 | the exact difference every operation dated after a day makes to the links that count for it |
| `Snapshots.PastDayIsStable` | app/services/snapshots.py:49-65 | over any sequence of operations dated after a day the vulnerabilities counted for it never change if and only if in every step those that lose links keep or gain one, and none is gained |
| `Snapshots.ForwardKeepsDay` | app/services/snapshots.py:49-65 | uploads, new projects, later acceptances and their reverts, and later scans of SBOMs dated after a day never change the vulnerabilities counted for it |
| `Witnesses.DeletionRewritesDay` | app/api/v1/sboms.py:257-268 | a history from the empty store in which a deletion on the next day empties the day before |
| `Witnesses.RevertRewritesDay` | app/api/v1/vulnerabilities.py:319-325 | a history from the empty store in which a revert brings a vulnerability back into a past day |
| `Snapshots.DeleteAfterDay` | app/api/v1/sboms.py:257-268 | a deletion after a day takes its SBOM's links out of the day and brings back every link of the scope that was fixed by then |
| `SeverityCounts.CountsAgree` | app/api/v1/vulnerabilities.py:143-176 | snapshot counts equal the counts of distinct (id, severity) rows that dashboard and REST summary make |
| `SeverityCounts.CountRows` | app/services/mcp_server.py:531-534 | the counter loop leaves in each bucket the number of rows of its severity, unknown and missing together |
| `SeverityCounts.SummarizeVulnerabilities` | app/services/mcp_server.py:517-573 | for rows in any order the four named counts are the snapshot's, and the total is the number of distinct actionable vulnerabilities |
| `SeverityCounts.FixedCountsAgree` | app/services/snapshots.py:82-89 | the snapshot's set of fixed vulnerabilities for a day no fix lies after is the one dashboard and MCP count |
| `FindingStore.Session.StoreSbom` | app/services/sbom_parser.py:97-150 | returns the SBOM that holds the document and stores it as specified, creating the service once |
| `FindingStore.Session.UpsertVulnerability` | app/services/vulnerability_scanner.py:125-180 | select, insert when missing, refresh: the table becomes the specified one |
| `FindingStore.Session.LinkVulnerability` | app/services/vulnerability_scanner.py:183-208 | an existing link is left alone, a missing one is inserted open and dated by the SBOM |
| `FindingStore.Session.ProcessGrypeResults` | app/services/vulnerability_scanner.py:211-232 | the loop over matches yields the specified metadata, links and reported ids |
| `FindingStore.Session.RetireStaleVulnerabilities` | app/services/vulnerability_scanner.py:294-326 | both branches fix exactly the open links of the SBOM whose CVE is not reported |
| `FindingStore.Session.ReconcileVulnerabilities` | app/services/vulnerability_scanner.py:244-291 | all three branches fix exactly the open links of older SBOMs whose CVE is not open on this one |
| `FindingStore.Session.DoScanSbom` | app/services/scanning.py:17-42 | the whole scan, with unknown SBOM, empty document and failed scanner |
| `FindingStore.Session.DeleteSbomById` | app/api/v1/sboms.py:224-270 | the deletion, with its missing-SBOM answer, settles on an SBOM of greatest upload instant among the rest |
| `FindingStore.Session.ReopenAll` | app/api/v1/sboms.py:250-265 | the loop of updates re-opens exactly the fixed links of the given SBOMs, in any order |
| `FindingStore.Session.PruneExpired` | app/services/retention.py:26-65 | three statements that re-evaluate their target make the specified prune; off without a cutoff |
| `FindingStore.Session.CreateRiskAcceptance` | app/api/v1/vulnerabilities.py:231-311 | every refusal in its order, and a created row as the only effect |
| `FindingStore.Session.DeleteRiskAcceptance` | app/api/v1/vulnerabilities.py:319-325 | removes the row when it exists and says whether it did |
| `FindingStore.Session.DoSnapshotMetrics` | app/services/snapshots.py:18-129 | counting the query rows, in any order, gives the severity counts of the vulnerabilities open now, or reconstructed for another day; the row of its day is replaced and no other |
| `FindingStore.TodayAgrees` | app/services/snapshots.py:32-89 | today's stored row equals the reconstruction of the day on the same store, the summary counts and the dashboard's fixed count, when every stored instant lies by the end of the day |
| `SeverityCounts.FixedAfterDay` | app/services/snapshots.py:82-89 | of the links fixed by a day, a later deletion takes away those of its scope, a prune those of the SBOMs it deletes, and no operation adds any |
| `FindingStore.DayIsRebuiltIff` | app/services/snapshots.py:49-97 | over any sequence of operations after a day, every later store tells for it the open vulnerabilities with their severities, the fixed ones and the dependencies that its end showed, if and only if each step leaves all of them as they were |
| `FindingStore.SeveritiesStayIff` | app/services/vulnerability_scanner.py:161-180 | an operation keeps the severities of given vulnerabilities if and only if the last match about each of them that it reports carries the severity it has |
| `FindingStore.DepsAfterDay` | app/services/snapshots.py:91-97 | the exact difference every operation makes to the dependencies counted for a day |
| `FindingStore.RowIsRebuilt` | app/services/snapshots.py:49-129 | after any sequence of such operations the row rebuilt for the day is the row stored when it ended |
| `AlertEpisodes.HistoryDeterminesRows` | app/services/alerting.py:270-399 | after any sequence of runs the rows of a pair are resolved ones followed by the one active row its current stretch prescribes, a stretch being read off what the runs saw |
| `AlertEpisodes.DeliveryIffUnsettled` | app/services/alerting.py:270-302 | a run delivers exactly when the pair is open, severe enough, and its stretch is new or has neither a success nor five tries |
| `AlertEpisodes.NextRun` | app/services/alerting.py:286-302 | a run of a stretch delivers while fewer than five runs came before it and none of them succeeded |
| `AlertEpisodes.FailingRuns` | app/services/alerting.py:286-302 | however long deliveries fail, five are made |
| `AlertEpisodes.SuccessEnds` | app/services/alerting.py:286-289 | after a success nothing more is sent in the stretch |
| `AlertEpisodes.DeliveryBudget` | app/services/alerting.py:286-302 | at most five sends and one success for each stretch begun, less what the running stretch has left |
| `AlertEpisodes.OneRowPerStretch` | app/services/alerting.py:357-399 | a pair has exactly one row for each stretch begun |
| `AlertEpisodes.RowLaws` | app/services/alerting.py:357-399 | over all histories rows are only appended, one at a time; resolved rows never change, sent rows only resolve, failed rows resolve, get sent or gain one attempt; sent rows have 0 attempts, failed rows 1 to 5; at most one row is active |
| `AlertEpisodes.RunAgrees` | app/services/alerting.py:316-328 | after a run a closed pair has no active row, an open and severe pair has one, with the current services, and a pair below the threshold keeps its rows |
| `AlertRun.ThresholdMeaning` | app/services/alerting.py:20-26 | the rank comparison admits exactly the severities a threshold names; unknown or missing severity passes none |
| `AlertRun.LoadNotifications` | app/services/alerting.py:305-313 | loads exactly the notifications of enabled rules, in order |
| `AlertRun.IndexByPair` | app/services/alerting.py:331-339 | groups notifications by pair, in order |
| `AlertRun.NotificationTable.ResolveClosed` | app/services/alerting.py:316-328 | resolves exactly the rows of enabled rules whose pair is not open |
| `AlertRun.NotificationTable.RecordDelivery` | app/services/alerting.py:342-399 | flips the failed rows, or adds one, or closes all and adds one, as the action asks |
| `AlertRun.NotificationTable.CheckRule` | app/services/alerting.py:427-451 | the inner loop, in any order of the open pairs, steps each pair of the rule once and leaves all other pairs alone |
| `AlertRun.NotificationTable.DoCheckAlerts` | app/services/alerting.py:402-453 | a run makes every (rule, vulnerability) pair take its own independent step, for every visiting order, and delivers once for exactly the pairs whose step delivers |
| `AlertSystem.OpenVulnerabilities` | app/services/alerting.py:29-68 | the loop over joined rows, repeated and in any order, gives the open pairs and the distinct services of each |
| `AlertSystem.CheckAlerts` | app/services/alerting.py:402-453 | a check of the store has the effect of a run on its actionable findings |
| `AlertSystem.RunChecks` | app/services/alerting.py:402-453 | check runs one after the other over one table of notification objects, from empty, leave the table and the delivery logs that the next rows speak of |
| `AlertSystem.TableIsEpisodes` | app/services/alerting.py:402-453 | after any sequence of runs the shared table is one episode automaton per pair |
| `AlertSystem.ServicesRead` | app/services/alerting.py:51-67 | the services a run reads for a pair are those of its actionable links |
| `AlertSystem.ActiveRowsAgree` | app/services/alerting.py:402-453 | after any sequence of runs that ends on a store, for every enabled rule: no active row when nothing is actionable in its project, exactly one with exactly the services of the actionable links when the stored severity reaches the threshold, and unchanged rows below it |
| `AlertSystem.DeliveryIsRecorded` | app/services/alerting.py:441-451 | a pair in the log has one active row for those services, through the channel of the rule, sent or failed as the delivery went |
| `AlertSystem.SendsAreBounded` | app/services/alerting.py:286-302 | over any sequence of runs and any changes to store and rules, a pair occurs in the delivery logs at most five times per stretch begun |
| `AlertSystem.SentIffUnsettled` | app/services/alerting.py:286-302 | the log of a run names a pair exactly when the pair's history of views calls for a delivery |
| `AlertSystem.SamePairsSameTable` | app/services/alerting.py:428-451 | tables that agree on every pair hold the same rows, so the visiting order shows only in row order |
| `AlertSystem.PruneIsInvisibleIff` | app/services/retention.py:26-65 | on any store the next check reads the same inputs after a prune if and only if every actionable link pruned has its pair, and its service, kept open by an SBOM that stays |
| `AlertSystem.PruneIsInvisible` | app/services/retention.py:26-65 | after a prune of a reconciled store the next check reads the same inputs |
| `AlertSystem.RescanThenPrune` | app/services/tasks.py:32-75 | after a full rescan round, in any order, a prune is invisible to the next check, when nothing was open on a tied SBOM |
| `AlertSystem.AcceptedPairCloses` | app/services/acceptance.py:21-31 | a project acceptance turns its open pair into a closed one |
| `AlertSystem.RevertAlertsAgain` | app/services/alerting.py:316-328 | accept, check, revert, check: no active row in between, and the second check delivers again |
| `UpsertRace.OneRowEach` | app/services/vulnerability_scanner.py:135-159 | under every interleaving of concurrent scans, commits and aborts there is one row per CVE and one per (SBOM, package, vulnerability) |
| `UpsertRace.ReselectFinds` | app/services/vulnerability_scanner.py:155-159 | the select after a conflict always sees exactly one row |
| `UpsertRace.CommittedScanIsStored` | app/services/vulnerability_scanner.py:186-208 | a committed scan holds for every match the id of the only row of its CVE, committed, and its link is committed |
| `UpsertRace.StoredExactly` | app/services/vulnerability_scanner.py:125-208 | a CVE or a link has a committed row if and only if it had one at first or a committed scan asked for it, so an aborted scan leaves nothing |
| `UpsertRace.NeverStuck` | app/services/vulnerability_scanner.py:125-208 | in every interleaving a running scan can go on, unless its insert waits for another open transaction |
| `UpsertRace.StepShrinks` | app/services/vulnerability_scanner.py:211-232 | every statement brings its scan nearer to its end, at most five for each match |
| `ProjectView.PickLatest` | app/api/pages/projects.py:40-47 | for rows in any order, one SBOM of greatest creation date for each service that occurs |
| `ProjectView.NameLeqMeans` | app/api/pages/projects.py:148-152 | names are in dictionary order |
| `ProjectView.SortedScopes` | app/api/pages/projects.py:148-152 | the values of a bucket, each once, sorted |
| `ProjectView.ListVulnerabilities` | app/api/pages/projects.py:93-153 | every CVE of the rows exactly once, from its first row, scores non-increasing with missing ones last, scopes being the whole project and then exactly the services that carry it, by name |
| `ProjectView.ShowVulnerabilities` | app/api/pages/projects.py:62-153 | the same against the store: exactly the actionable CVEs of the chosen SBOMs, each with the whole project and then exactly the services it is actionable in, each once, under its own name and in name order |
| `ProjectView.GetProjectVulns` | app/api/pages/projects.py:30-153 | the whole page: one SBOM of greatest creation date for each service with an SBOM in the project or under the filter, and for these the list as before |
| `Pagination.ClampIsInvisible` | app/services/pagination.py:55-61 | clamping the offset to the row count never changes the fetched rows |
| `Pagination.PageFields` | app/services/pagination.py:48-76 | the request repeated, the row count, the least page count with room for all rows, and the first page for numbers below one |
| `Pagination.PageContents` | app/services/pagination.py:48-66 | a page is the slice its number names, and has more exactly when it is before the last page |
| `Pagination.OffsetContents` | app/services/pagination.py:52-66 | a page with an explicit offset is the slice that starts there, and has more exactly when rows are left behind it |
| `Pagination.PreviewContinues` | app/api/pages/projects.py:376-378 | a preview and the pages loaded after it, each from the offset behind the last, make up the whole list |
| `Pagination.PagesMakeTheList` | app/services/pagination.py:48-66 | pages one to the last concatenate to the whole list |
| `Pagination.HasMoreFormulasAgree` | app/services/mcp_server.py:122-130 | the two ways the MCP tools compute `has_more` agree for every offset and limit |

## Left out

- Vulnerability ids: outside `UpsertRace` a vulnerability is named by its CVE id, since `cve_id` is unique.
- Running the scanner, sending mail, Slack and Discord messages, queues, gRPC and telemetry: inputs here (a report or a failure, a success or not).
- Parsing of reports and documents (`_map_severity`, `_parse_cvss_score`, `_parse_epss`, dates, CycloneDX and SPDX, hashes): a match or a document carries the parsed values.
- Message texts and colours, authentication, middleware, routing, templates and JavaScript.
- Deleting alert rules: it removes all rows of the rule, whose id is never used again, so its history ends there.
- Deleting projects and services.
- Legacy notification rows without a service list: rows made by the code always have one, modelled as the set it stands for.
- Concurrent check runs: one run at a time, as the code makes no claim for overlapping ones.
- Concurrent scans and deletions: `UpsertRace` interleaves scans only.
- `prune_snapshots`, and the creation and update stamps of snapshot rows.
- `get_sbom` of the MCP server and `diff_sboms`: further counting and set comprehensions.
- The dashboard and the REST summary make their severity counts with one formula, modelled once as `SummaryCounts`.
- Ties in `ORDER BY` of paginated queries: a list query has one fixed result order here.
- ProjectView.ListVulnerabilities: the decorative columns of an entry (vector, links, dates, fix versions) are not modelled.
- SeverityCounts.SummarizeVulnerabilities: the affected projects, the affected services and the fixed count of the reply are single aggregates of the database and not in its contract.

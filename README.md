# Treasure hunt: progression and review

A location-based treasure hunt. Teams work through an ordered list of
nodes. At each node a team scans a code: the scan is accepted only when it
belongs to the node at the team's current stage and carries that node's
secret. The team then submits a free-text answer, which waits as *pending*
until an administrator accepts or rejects it. An acceptance moves the team
one stage on and adds the configured points to its score.

The repository holds this state machine twice, and both are modelled as
written:

- **The hosted backend** (`convex/*.ts`) is modelled by ConvexSchema,
  ConvexNodes, ConvexTeams, ConvexSubmissions and ConvexSettings.
  - Its four tables are ordered sequences in a `Database` class. A query
    ending in `.first()` is the first match in table order.
  - Each mutation is a `method` that changes the tables it names. A pure
    step function states the new tables or the thrown error, and the
    lemmas are proved about that function.
- **The in-memory demo** (`project/src/context/GameContext.tsx`) is the
  `GameProvider` class in GameContext. Its `teams`, `nodes` and
  `submissions` lists are sequence fields that each action reassigns.
- **The rules behind the demo's player and admin screens** live in
  QRScanner, PlayerLeaderboard, NodeMap, GameMonitor, SubmissionReview,
  QuestionForm and TeamSetup. Where a screen keeps state (the
  manual-entry field, the answer being typed, the member list), a small
  class holds it.

Shared vocabulary lives in three modules:

- Common: option, status, first-match search, filter, map and slice.
- Sorting: `Array.prototype.sort` with a comparator, modelled as a stable
  insertion sort. It is proved to return a permutation that is sorted
  whenever the comparator is a total preorder.
- Text: ECMAScript `trim`, and decimal numerals for the demo's node
  secrets.

In these places the model follows the code, not what a reader might expect:

- **Backend leaderboard order.** The backend ranks by stage and then
  score, and returns ten teams. The score-then-stage-then-registration
  order is that of the demo's player leaderboard only.
- **Uniqueness.** Neither team codes nor node sequence numbers are checked
  for uniqueness. Every lookup takes the first match.
- **Completion.** The demo's completion test compares the stage with the
  number of nodes in the list, not with the configured `totalNodes`.
- **Re-review.** Neither review handler looks at the previous status (see
  "## Findings").

## Model

| member | source | states |
|---|---|---|
| ConvexSchema.GetTeam | convex/teams.ts:43-50 | the team with that id when one is stored, and nothing exactly when no document has that id |
| ConvexNodes.GetNode | convex/nodes.ts:48-58 | the first node with that sequence number; nothing exactly when no node has it |
| ConvexNodes.GetActiveNodes | convex/nodes.ts:38-45 | exactly the active nodes, each as often as it is stored |
| ConvexNodes.ValidateQRCode | convex/nodes.ts:66-111 | one outcome per check, each holding exactly when the earlier checks pass and this one fails: undecodable, unknown team, unknown node, wrong stage, wrong secret; success returns only the public fields of the node at the team's stage |
| ConvexNodes.CreatedNodeUnlocks | convex/nodes.ts:13-33 | the payload a creation returns unlocks the new node for a team at its stage exactly when no earlier node with that sequence number holds another secret |
| ConvexNodes.GetNodeSnoc | convex/nodes.ts:53-56 | a node added at the end is found only when no earlier node has its sequence number |
| ConvexNodes.ScanScenario | convex/nodes.ts:84-98 | a correct payload for a later node is reported as out of sequence, not as a wrong secret; the right secret at the right stage succeeds |
| ConvexNodes.CreateNode | convex/nodes.ts:13-33 | appends one active node under a fresh id with the given fields and secret, returns the payload with that sequence number and secret, and touches no other table |
| ConvexNodes.UpdateNodeStep | convex/nodes.ts:123-137 | "Node not found" exactly when no node has the number; otherwise the first such node gets the new clue, question, answer and flag, keeps its id, number, secret and creation time, and every other node is unchanged |
| ConvexNodes.UpdateNode | convex/nodes.ts:115-138 | the node table becomes the update step's result, or stays as it was with the error returned |
| ConvexTeams.CreateTeam | convex/teams.ts:10-24 | appends a team at stage 1 with score 0 under a fresh id and returns the code it stored |
| ConvexTeams.JoinTeam | convex/teams.ts:28-40 | the first team whose code equals the argument; nothing exactly when no team has it |
| ConvexTeams.JoinAfterCreate | convex/teams.ts:12-36 | a new team is found by its code unless an earlier team already holds that code, which is then found instead |
| ConvexTeams.LeaderboardCompareIsComparator | convex/teams.ts:57-62 | the stage-then-score comparator is a total preorder, so the sort is well defined |
| ConvexTeams.GetLeaderboard | convex/teams.ts:53-65 | never more than ten teams |
| ConvexTeams.LeaderboardSpec | convex/teams.ts:53-65 | min(10, n) stored teams, each at most as often as stored, ordered by stage and then by score |
| ConvexTeams.LeaderboardCutFair | convex/teams.ts:56-63 | no team cut off by the limit ranks above a team that is shown |
| ConvexTeams.UpdateTeamProgressStep | convex/teams.ts:74-82 | "Team not found" exactly when the id is unknown; otherwise that team's stage becomes the argument and its score grows by the points, and no other team changes |
| ConvexTeams.ProgressOverrideCanLowerStage | convex/teams.ts:78-81 | the override can move a team back to an earlier stage |
| ConvexTeams.UpdateTeamProgress | convex/teams.ts:68-83 | the team table becomes the step's result or is left as it was with the error returned; the other tables are unchanged |
| ConvexSubmissions.SubmitAnswer | convex/submissions.ts:5-22 | appends one pending, unreviewed submission with the given team, node and answer under a fresh id; nothing else changes |
| ConvexSubmissions.JoinTeams | convex/submissions.ts:33-41 | pairs each submission, in order, with its team, or with nothing when the team is gone |
| ConvexSubmissions.GetPendingSubmissions | convex/submissions.ts:25-45 | one entry per pending submission and only those, each paired with its team |
| ConvexSubmissions.GetTeamSubmissions | convex/submissions.ts:84-94 | exactly the submissions of that team, each as often as it is stored |
| ConvexSubmissions.GetAllSubmissions | convex/submissions.ts:97-113 | a permutation of all submissions with their teams, newest first |
| ConvexSubmissions.PointsPerNode | convex/submissions.ts:70-71 | 100 when there is no settings record or its value is 0, and the stored value otherwise; never 0 |
| ConvexSubmissions.Reviewed | convex/submissions.ts:59-63 | the verdict, review time and reviewer are set, and every other field is kept |
| ConvexSubmissions.Credited | convex/submissions.ts:73-76 | exactly one more stage and the given points more; every other field kept |
| ConvexSubmissions.ReviewStep | convex/submissions.ts:54-80 | "Submission not found" exactly when the id is unknown; "Team not found" exactly on approval with the team missing; the review succeeds exactly when the submission exists and, on approval, its team exists; on success the verdict is recorded and, on approval only, the submitter's team is credited |
| ConvexSubmissions.ApprovalCreditsOneTeam | convex/submissions.ts:66-77 | an approval credits exactly the submitter's team, with one stage and the configured points; every other team is untouched |
| ConvexSubmissions.ReviewKeepsIds | convex/submissions.ts:59-76 | a review keeps every id and team reference, so a later review finds the same documents |
| ConvexSubmissions.ReapprovalCreditsTwice | convex/submissions.ts:55-77 | approving the same submission twice moves its team two stages on and credits the points twice |
| ConvexSubmissions.ReReviewOverwritesStatus | convex/submissions.ts:58-63 | rejecting an accepted submission overwrites the verdict and leaves the teams alone |
| ConvexSubmissions.ReviewPendingStep | convex/submissions.ts:55-77 | a variant not in the source: refuses a submission that is no longer pending, and otherwise behaves exactly as the review |
| ConvexSubmissions.GuardedReviewExactlyOnce | convex/submissions.ts:55-77 | with that guard, once a review has succeeded every further review of the submission is refused |
| ConvexSubmissions.ReviewSubmission | convex/submissions.ts:48-81 | the submission and team tables become the review step's result, or are left as they were with the error returned; nodes and settings are unchanged |
| ConvexSettings.GetGameSettings | convex/gameSettings.ts:5-9 | the first settings record; nothing exactly when the table is empty |
| ConvexSettings.InitializeStep | convex/gameSettings.ts:18-37 | inserts a record when there is none and otherwise patches the first one and returns its id; either way the game is on with the given values, and later records are untouched |
| ConvexSettings.InitializeThenQuery | convex/gameSettings.ts:12-38 | afterwards the query returns the given values with the game on, exactly the given password is accepted, and a table of at most one record holds exactly one |
| ConvexSettings.InitializeIdempotent | convex/gameSettings.ts:20-36 | initializing a second time with the same values changes nothing |
| ConvexSettings.UpdateSettingsStep | convex/gameSettings.ts:48-58 | "Game settings not found" exactly when the table is empty; otherwise all four fields of the first record are overwritten |
| ConvexSettings.ToggleStep | convex/gameSettings.ts:66-73 | "Game settings not found" exactly when the table is empty; otherwise the flag is set to the argument, not flipped, and nothing else changes |
| ConvexSettings.ToggleKeepsPassword | convex/gameSettings.ts:62-87 | setting the flag back restores the table, and the flag never changes which passwords are accepted |
| ConvexSettings.UpdateThenVerify | convex/gameSettings.ts:41-87 | after an update exactly the new password is accepted |
| ConvexSettings.VerifyAdminPassword | convex/gameSettings.ts:77-87 | true exactly when a record exists and its password equals the argument |
| ConvexSettings.GetGameStats | convex/gameSettings.ts:90-109 | every team counts as active; pending and accepted submissions are counted; active nodes are exactly as many as the active-node query returns, never more than the node count, and positive when any node is active |
| ConvexSettings.GameStatsBalance | convex/gameSettings.ts:96-107 | pending plus completed never exceeds the total, and the gap is exactly the number of rejected submissions |
| ConvexSettings.InitializeGameSettings | convex/gameSettings.ts:12-38 | the settings table and the returned id are those of the initialization step; a fresh id is drawn only when inserting |
| ConvexSettings.UpdateGameSettings | convex/gameSettings.ts:41-59 | the settings table becomes the update step's result, or stays as it was with the error returned |
| ConvexSettings.ToggleGameActive | convex/gameSettings.ts:62-74 | the settings table becomes the toggle step's result, or stays as it was with the error returned |
| GameContext.JoinTeam | project/src/context/GameContext.tsx:106-109 | the first team with that id; nothing exactly when no team has it |
| GameContext.GetNodeById | project/src/context/GameContext.tsx:127-129 | the first node with that id; nothing exactly when no node has it |
| GameContext.NodeByIdSequential | project/src/context/GameContext.tsx:111-129 | with ids 1..n in list order, id k finds the k-th node, and ids outside 1..n find nothing |
| GameContext.NodeSecretInjective | project/src/context/GameContext.tsx:117 | two node secrets are equal only for the same id and the same timestamp |
| GameContext.DemoNodes | project/src/context/GameContext.tsx:58-90 | three active nodes numbered 1, 2, 3, each with an expected answer and stamped with the mount time |
| GameContext.MarkReviewed | project/src/context/GameContext.tsx:148-155 | the verdict, the time and reviewer "admin" are set, and every other field is kept |
| GameContext.ReviewedSubmissions | project/src/context/GameContext.tsx:146-157 | every submission with that id is marked, every other one is kept, and ids and teams stay in place |
| GameContext.Credit | project/src/context/GameContext.tsx:163-170 | exactly one more stage and the given points more; every other field kept |
| GameContext.CreditedTeams | project/src/context/GameContext.tsx:159-174 | a rejection, or an id absent from the list as it was before the review, leaves the teams alone; otherwise every team with the submitter's id is credited, with no fallback for the points, and only stage and score change |
| GameContext.CreditedTeamsKeepStages | project/src/context/GameContext.tsx:159-174 | a review never moves a team back, so every team stays at stage 1 or later |
| GameContext.DemoReapprovalCreditsTwice | project/src/context/GameContext.tsx:145-174 | approving the same submission twice credits its team twice |
| GameContext.Merge | project/src/context/GameContext.tsx:181-183 | each field the patch supplies is overridden, and each field it omits keeps its value |
| GameContext.Combine | project/src/context/GameContext.tsx:181-183 | spreading two patches: for each of id, totalNodes, gameActive and pointsPerNode, the later patch's value when it supplies one, the earlier's otherwise |
| GameContext.MergeLaws | project/src/context/GameContext.tsx:181-183 | two updates equal one update with the combined patch, an empty patch changes nothing, and repeating an update changes nothing more |
| GameContext.GameProvider.constructor | project/src/context/GameContext.tsx:44-90 | no teams and no submissions, the three demo nodes, settings 5 / on / 100, nobody signed in and no admin |
| GameContext.GameProvider.CreateTeam | project/src/context/GameContext.tsx:92-104 | appends and returns one team at stage 1 with score 0; the id then finds the earlier team with that id when there is one, else the new team |
| GameContext.GameProvider.CreateNode | project/src/context/GameContext.tsx:111-125 | appends an active node numbered one past the list length with the `node-<id>-secret-<time>` secret, keeps ids 1..n+1 in order, and makes the node findable by its id |
| GameContext.GameProvider.SubmitAnswer | project/src/context/GameContext.tsx:131-143 | appends one pending, unreviewed submission; teams, nodes and settings are unchanged |
| GameContext.GameProvider.ReviewSubmission | project/src/context/GameContext.tsx:145-175 | the submissions are marked as above, and the teams are credited from the list as it was before the review, with the current points |
| GameContext.GameProvider.SetCurrentTeam | project/src/context/GameContext.tsx:48 | the signed-in team becomes the argument |
| GameContext.GameProvider.SetAdmin | project/src/context/GameContext.tsx:177-179 | the admin flag becomes the argument |
| GameContext.GameProvider.UpdateGameSettings | project/src/context/GameContext.tsx:181-183 | the settings become the merge of the old settings with the patch |
| QRScanner.ValidateQRCode | project/src/components/player/QRScanner.tsx:21-56 | does nothing without a team; "No active node found!" exactly when no node has the team's stage as its id; success exactly when the text equals that node's secret, and only then is the stage reported as the valid node; any other text is "wrong place" |
| QRScanner.ScanBySequence | project/src/components/player/QRScanner.tsx:26-47 | with ids 1..n, only the secret of node `currentStage` lets a team through, and a stage outside 1..n has no active node |
| QRScanner.OtherNodesSecretIsWrongPlace | project/src/components/player/QRScanner.tsx:36-47 | another node's real secret gets the same "wrong place" banner as any other text |
| QRScanner.ScannerState.constructor | project/src/components/player/QRScanner.tsx:15-19 | an empty field and no banner |
| QRScanner.ScannerState.Validate | project/src/components/player/QRScanner.tsx:21-56 | shows the validation's banner and reports its node, and leaves the banner alone when there is no team |
| QRScanner.ScannerState.HandleManualEntry | project/src/components/player/QRScanner.tsx:72-77 | a blank field changes nothing; otherwise the trimmed text is validated and the field is cleared |
| QRScanner.PaddedEntryAccepted | project/src/components/player/QRScanner.tsx:72-77 | a secret typed with white space around it validates as the secret itself |
| PlayerLeaderboard.PlayerCompareIsComparator | project/src/components/player/Leaderboard.tsx:10-14 | the score, stage, registration comparator is a total preorder |
| PlayerLeaderboard.SortedTeams | project/src/components/player/Leaderboard.tsx:10-14 | a permutation of the teams in which higher score, then higher stage, then earlier registration comes first |
| PlayerLeaderboard.Ranked | project/src/components/player/Leaderboard.tsx:56-57 | one row per team with no cut-off; row i shows the i-th team of the sorted order with rank i + 1 |
| PlayerLeaderboard.FirstRankHasTopScore | project/src/components/player/Leaderboard.tsx:10-57 | rank 1 holds a score no team beats |
| PlayerLeaderboard.TieBreakExample | project/src/components/player/Leaderboard.tsx:10-14 | A(300, 4, t1), B(300, 5, t2), C(300, 5, t0) are listed C, B, A |
| NodeMap.GetNodeStatus | project/src/components/player/NodeMap.tsx:12-16 | completed exactly below the stage, current exactly at it, locked exactly above it |
| NodeMap.ClueShown | project/src/components/player/NodeMap.tsx:74-84 | a clue is shown exactly when the team has reached that node |
| NodeMap.MapView | project/src/components/player/NodeMap.tsx:10-27 | nothing without a team; otherwise one status per node, in list order |
| NodeMap.CompleteIffAllCompleted | project/src/components/player/NodeMap.tsx:92 | with ids 1..n and a stage of 1 or more, the banner shows exactly when every node is completed |
| NodeMap.OneCurrentNode | project/src/components/player/NodeMap.tsx:12-16 | with ids 1..n and a team part-way through, exactly one node is current; those before it are completed and those after it locked |
| GameMonitor.StatsOf | project/src/components/admin/GameMonitor.tsx:10-24 | the total is the number of the team's submissions; accepted, pending and rejected are each the number of the team's submissions with that status, and they add up to the total |
| GameMonitor.AllTeamStats | project/src/components/admin/GameMonitor.tsx:10-24 | one entry per team, in order |
| GameMonitor.SortedTeamStats | project/src/components/admin/GameMonitor.tsx:26 | a permutation of the team statistics, ordered by score alone, highest first |
| GameMonitor.GetMonitorStats | project/src/components/admin/GameMonitor.tsx:28-34 | the list lengths, the pending count and the number of teams past the last node, each bounded by its total and positive when any instance exists |
| GameMonitor.TeamPendingWithinTotal | project/src/components/admin/GameMonitor.tsx:10-34 | no team has more pending answers than the overview's pending count |
| GameMonitor.Label | project/src/components/admin/GameMonitor.tsx:158-163 | Pending exactly when the team has a pending answer, otherwise Finished exactly when it is past the last node, otherwise Active |
| GameMonitor.FinishedLabelMatchesCount | project/src/components/admin/GameMonitor.tsx:158-163 | a team labelled Finished is counted as completed, and a completed team is labelled Finished or Pending |
| SubmissionReview.PendingList | project/src/components/admin/SubmissionReview.tsx:21 | exactly the pending submissions |
| SubmissionReview.ReviewedList | project/src/components/admin/SubmissionReview.tsx:22 | exactly the accepted and rejected submissions |
| SubmissionReview.ReviewListsPartition | project/src/components/admin/SubmissionReview.tsx:21-22 | the two lists split the submissions: disjoint, and together the whole multiset |
| SubmissionReview.RecentReviews | project/src/components/admin/SubmissionReview.tsx:113-115 | min(10, n) reviewed submissions, none shown more often than it is stored, latest review first, with a missing review time counted as 0 |
| SubmissionReview.RecentReviewsCutFair | project/src/components/admin/SubmissionReview.tsx:113-115 | no review left off the list is later than one on it |
| SubmissionReview.GetTeamName | project/src/components/admin/SubmissionReview.tsx:11-14 | the team's name, or "Unknown Team" when no team has the id or its name is empty |
| SubmissionReview.GetNodeClue | project/src/components/admin/SubmissionReview.tsx:16-19 | as written: the first 50 characters of the clue and "...", or "undefined..." for a missing node; always ends in "..." |
| SubmissionReview.NodeClueNeverUnknown | project/src/components/admin/SubmissionReview.tsx:16-19 | the "Unknown Node" fallback is never returned |
| SubmissionReview.GetNodeClueIntended | project/src/components/admin/SubmissionReview.tsx:16-19 | the shortened clue for a known node, and "Unknown Node" for a missing one |
| QuestionForm.ExistingSubmission | project/src/components/player/QuestionForm.tsx:19-21 | a pending answer of the signed-in team for this node, with no such answer before it in the list; nothing exactly when there is none |
| QuestionForm.View | project/src/components/player/QuestionForm.tsx:18-60 | hidden without the node or a team; the waiting notice with the pending answer exactly when one exists; the form only when none does |
| QuestionForm.SubmittedText | project/src/components/player/QuestionForm.tsx:26-32 | nothing exactly for a blank answer; otherwise the answer with the surrounding white space removed |
| QuestionForm.SubmitFromFormLeavesOnePending | project/src/components/player/QuestionForm.tsx:19-60 | submitting from the form leaves exactly one pending answer for the team and node, and the form turns into the waiting notice showing it |
| QuestionForm.AnswerState.constructor | project/src/components/player/QuestionForm.tsx:15 | an empty answer |
| QuestionForm.AnswerState.HandleSubmit | project/src/components/player/QuestionForm.tsx:25-37 | a blank answer changes nothing; otherwise one pending submission with the trimmed text is appended for the signed-in team and the field is cleared |
| TeamSetup.KeptMembers | project/src/components/player/TeamSetup.tsx:21 | the non-blank members, in order and untrimmed, each as often as typed |
| TeamSetup.CanCreate | project/src/components/player/TeamSetup.tsx:20 | a non-empty name and at least one non-blank member |
| TeamSetup.AddMemberKeepsTeam | project/src/components/player/TeamSetup.tsx:20-37 | an added empty row changes neither the kept members nor the guard |
| TeamSetup.MembersNotTrimmed | project/src/components/player/TeamSetup.tsx:21 | " Ann " is kept with its spaces, and a blank row is dropped |
| TeamSetup.TeamSetupForm.constructor | project/src/components/player/TeamSetup.tsx:15-17 | an empty name, one empty member row and an empty join id |
| TeamSetup.TeamSetupForm.AddMember | project/src/components/player/TeamSetup.tsx:35-37 | exactly one empty row is appended |
| TeamSetup.TeamSetupForm.UpdateMember | project/src/components/player/TeamSetup.tsx:39-43 | only the row at the index changes, and the length stays the same |
| TeamSetup.TeamSetupForm.HandleCreateTeam | project/src/components/player/TeamSetup.tsx:19-25 | when the guard holds, one team with the kept members is registered and signed in; otherwise nothing changes |
| TeamSetup.TeamSetupForm.HandleJoinTeam | project/src/components/player/TeamSetup.tsx:27-33 | signs in as the found team exactly when the id finds one; otherwise the signed-in team is unchanged |

## Left out

- JSON handling in `convex/nodes.ts`. The scan validator takes the decoded payload, or nothing when decoding fails, and the node creator returns the payload as a value. A payload that decodes but lacks a numeric `nodeId`, or that decodes to `null`, is not modelled.
- Random and clock values are parameters: the uuid secret, the random team code, the demo's generated ids, and every `Date.now()` timestamp. The demo's team id and creation time are two separate parameters.
- Some `Date.now()` calls of the demo share one parameter: GameContext.GameProvider.CreateNode uses one time for both the node's secret and its creation time (GameContext.tsx lines 117 and 119), and GameContext.DemoNodes uses one time for all three seeded nodes (lines 66, 75 and 84). Nodes whose two readings of the clock differ are not modelled.
- JavaScript numbers are modelled as unbounded integers: stages, scores, node numbers, points per node, node counts and timestamps. Fractional values (a stage of 1.5, which `v.number()` accepts), `NaN` and precision lost above 2^53 are not modelled. In particular, the fallback to 100 points in `convex/submissions.ts` covers `NaN` as well as 0, and only 0 is modelled.
- Team-code format and uniqueness are not modelled. The code is an arbitrary string, and duplicates are allowed, as in the source.
- Convex `ctx.db`, its indexes, `Promise.all` and async execution are not modelled. Each handler is one atomic step over the tables.
  - An index query is taken to return matches in insertion order.
  - A handler that throws is assumed to leave every table as it was. This is the hosting framework's rollback guarantee and is not visible in the code.
- React state batching and the stale `submissions` closure in the demo's `reviewSubmission` are not modelled. The updates are applied in program order; the credit reads the list as it was before the review, as the source does.
- GameContext.GameProvider.SetCurrentTeam: the signed-in team is a copy, so it does not follow later changes to the team list, as in the source. The model does not relate it to `teams`.
- GameContext.GameProvider.constructor: models the provider once its mount effect has loaded the demo nodes. The intermediate state with an empty node list is not modelled.
- Timers are not modelled: the banner reset and simulated camera in the scanner, the submission delay and the `isSubmitting` flag in the answer form. The answer form's submission is applied at once.
- The scanner's `catch` branch and its "Invalid QR code format" banner are not modelled. Only the external `onValidScan` callback could throw inside the `try` block.
- The floating-point success rate, date formatting and all rendering, styling and routing are not modelled. This covers the app and page shells, the admin dashboard, the dashboard's tab switching, the QR image download and the admin login's constant comparison. The node-creation form only forwards to `createNode`, which is modelled.
- Strings are sequences of characters. JavaScript's UTF-16 code units are not modelled, so `substring(0, 50)` counts characters.
- TeamSetup.TeamSetupForm.UpdateMember: requires an index of a displayed row. The source, called with an index past the end, would extend the array with holes; the screen never does that.
- A partial settings object whose key is present but explicitly `undefined` is not modelled: a patch field is either supplied or omitted.
- PlayerLeaderboard.SortedTeams, ConvexTeams.LeaderboardSpec, GameMonitor.SortedTeamStats, SubmissionReview.RecentReviews, ConvexSubmissions.GetAllSubmissions: stability of the sort among equal keys is not stated. The model sorts stably, as `Array.prototype.sort` does.
- ConvexTeams.GetLeaderboard: its own contract states only the bound of ten; the order, content and fairness of the cut are proved in ConvexTeams.LeaderboardSpec and ConvexTeams.LeaderboardCutFair.

## Findings

| source | as written | input that shows it | evidently intended | confidence | as-written member | corrected member |
|---|---|---|---|---|---|---|
| project/src/components/admin/SubmissionReview.tsx:16-19 | `node?.clue.substring(0, 50) + '...' \|\| 'Unknown Node'` concatenates before the fallback, so a missing node yields "undefined..." | a submission whose node id matches no node | "Unknown Node" for a missing node | high (not executed) | SubmissionReview.GetNodeClue, SubmissionReview.NodeClueNeverUnknown | SubmissionReview.GetNodeClueIntended |
| convex/submissions.ts:55-77 | the review never checks the previous status, so a second approval of the same submission credits its team again | approve a pending submission twice | a review refuses a submission that is no longer pending, so points are credited once | medium (not executed) | ConvexSubmissions.ReapprovalCreditsTwice | ConvexSubmissions.ReviewPendingStep, ConvexSubmissions.GuardedReviewExactlyOnce |

The backend and the demo keep the review handlers as written. The guarded
step stands beside the backend's review and does not replace it.

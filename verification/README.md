# Verified model of the project workspace services

This Dafny project models the parts of a project-management backend whose correctness depends
on whole histories or whole structures, and proves what they promise. Each service that changes
rows is a class over mutable tables; each of its methods is proved to leave what a pure function
gives for the operation, and the properties are proved about those functions and about runs of
them. `dafny verify dfyconfig.toml` checks everything.

## What is modelled

**Template forest and ranks.** A nested template is flattened into parent-linked rows, stored,
read back in any order, rebuilt through an insertion-ordered map and copied into project tasks
with base-36 ranks. Files: `digits`, `rank-codec`, `linked-forest`, `forest-shape`, `templates`,
`template-tree`, `trimming`, `seeding`, `seeded-project`. The end-to-end result is
`SeededProject.TemplateToProject`, with `SeededProject.TitlesComeBack` for the titles. Rebuilding
is characterised on arbitrary rows, with orphans, self-parents and parent cycles
(`ForestShape.Coverage`). A random id is the next element of a sequence of distinct ids.

**Outbox.** Files `outbox`, `outbox-runs`, `outbox-history`, `outbox-drain`, `outbox-overrun`. A
poll may return any oldest batch, the queue may refuse any event, and a flush may die between
handing over and saving. No event is lost over any run. The bound of five flushes per batch of
fifty holds when creation times are distinct. It is false in general: events recorded in one
transaction share a creation time and the poll may favour any of them, so one event can be passed
over while the others use up their attempts. `OutboxOverrun.OneTimeExact` says for every such
backlog how many flushes are enough, by counting the attempts its events have left;
`OutboxOverrun.DrainBoundExact` gives the sizes of backlog for which the bound holds in every
reachable table, with a run of recordings that reaches a failing table for each of the other
sizes. `OutboxDrain.DrainEvent` and `OutboxDrain.DrainAny` are bounds that hold with any creation
times.

**Sessions and tokens.** Files `auth-tables`, `auth-service`, `auth-runs`, `auth-sessions`,
`auth-limits`, `auth-answers`, `auth-origins`. Hashes are injective on issued tokens, so a token
and its stored hash are one number; a session is named by its refresh token. Passwords and
one-time codes are compared for equality. Runs contain every call of the service, the passing of
time, and the changes that other services make to users (activation, two-factor setting, creation
and password reset by an administrator). The class keeps the joint invariant, and
`AuthService.Service.Serve` shows that any requests to it are a run. What an invalidation leaves
in force, one-time codes and reset tokens, is stated in `auth-origins`, with what a later session
must go back to; `auth-answers` says exactly when each request succeeds and what it leaves alone.

**Invites, members and roles.** Files `circles`, `circle-invariants`, `circle-effects`,
`invite-history`, `collaboration`, `collaboration-runs`, `collaboration-results`,
`collaboration-clashes`, `collaboration-effects`, `collaboration-assignments`,
`collaboration-witness`, `collaboration-service`. Projects and workspaces run the same invite
state machine, so one model serves both; they meet where a project accept makes the invitee a
guest of the workspace. No service removes a member, so removal is a step of the environment. The
role change of src/users/users.service.ts:206-214 stands as `UpdateMemberRole` in a workspace,
with the reservation made below, and the invites made by
src/tasks/services/task-members.service.ts:252 have the effect of `CreateInvite`.
`CollaborationService.Services.Serve` shows that any requests to the classes are a run that keeps
the joint invariant. The branch of the project accept for a user who is already active is dead;
the same branch of the workspace accept is not, and `CollaborationClashes.WorkspaceExclusiveIff`
says exactly which runs lead to it.

**Status configuration.** Files `status-config`, `status-service`, `status-results`,
`status-effects`. With the compiler settings of the repository (`tsconfig.json`, target ES2023)
the fields of a request object that were not sent are present and undefined, and spreading the
object over a row erases what the row had, while saving leaves undefined columns alone. The model
therefore tells an absent field from an undefined one. For plain objects the promised invariant
holds over every run; for requests as they arrive it does not. `StatusResults.UpdateKeepsIff` says
exactly which updates break it, `StatusResults.RunKeepsIff` which runs, and
`StatusResults.AcceptedIff` which updates are accepted at all: for one, the done status cannot be
renamed alone.

**Project access.** File `project-access`: the route guard and the check in the service, and where
they agree, with a reachable witness for either kind of difference. The agreement on the
membership path rests on the role invariant.

**Slug search.** File `slug-search`: the loop that both services use. The files `options` and
`arithmetic` hold small helpers.

Each call of a service is one atomic step, with the one exception of the crash inside a flush.
Times are in milliseconds. Lemmas carry `{:induction false}` wherever Dafny would otherwise try
induction on its own, so that every induction in the project is written out.

## Model

| member | source | states |
|---|---|---|
| RankCodec.ParseRankValue | src/projects/projects.service.ts:364-371 | the left-to-right loop computes the number that the lower-cased string denotes in base 36, and nothing for absent, empty or non-alphanumeric ranks |
| RankCodec.RankAccepted | src/projects/projects.service.ts:364-371 | exactly the non-empty texts of digits and letters are ranks, and the case of letters does not matter |
| RankCodec.ParseFormat | src/projects/projects.service.ts:364-376 | parsing a formatted number gives the number modulo 36^10, hence the number itself below 36^10 |
| RankCodec.FormatParse | src/projects/projects.service.ts:364-376 | formatting a parsed string gives its lower-cased last ten characters, zero-padded; for a ten-character string its lower case |
| RankCodec.RankOrder | src/projects/projects.service.ts:364-371 | between two ranks, dictionary order is the order of the numbers they denote, and the number determines the rank |
| RankCodec.FormatEmbedsOrder | src/projects/projects.service.ts:373-376 | below 36^10, v is less than w exactly when the rank of v sorts before the rank of w |
| RankCodec.SiblingRanksIncreaseIff | src/projects/projects.service.ts:101-103 | the ranks of n siblings sort in creation order exactly when n is below 36^10/1024; the next one wraps around |
| LinkedForest.StableSortSorts | src/projects/projects.service.ts:356-361 | sorting a sibling list by order permutes it and leaves it sorted |
| LinkedForest.StableSortStable | src/projects/projects.service.ts:356-361 | sorting keeps the rows of each order value in their given sequence |
| LinkedForest.StableSortUnique | src/projects/projects.service.ts:356-361 | any sorted list that keeps the rows of each order value in sequence is the sorted list, so the model does not depend on the sorting algorithm |
| TemplateTree.MapEntriesUnique | src/projects/projects.service.ts:331-342 | filling a map by id leaves at most one row per id |
| TemplateTree.MapEntriesOfUnique | src/projects/projects.service.ts:331-342 | rows with distinct ids are the entries of the map, in the same sequence |
| TemplateTree.PutAppends | src/projects/projects.service.ts:331-342 | a row under a new id comes last in the map |
| TemplateTree.PutReplaces | src/projects/projects.service.ts:331-342 | a row under an id already there takes that place, and no other entry changes |
| LinkedForest.SiblingsOne | src/projects/projects.service.ts:344-354 | a row is a root exactly when its parent is absent, empty or unknown, and hangs under its parent otherwise |
| LinkedForest.SiblingsConcat | src/projects/projects.service.ts:344-354 | the rows under one parent keep the sequence of the rows |
| TemplateTree.FillTaskMap | src/projects/projects.service.ts:331-342 | the map holds the last row set under each id, in order of first insertion |
| TemplateTree.LinkTasks | src/projects/projects.service.ts:344-354 | roots are the rows whose parent is absent or unknown, and each list of subtasks is the list of rows naming that parent |
| TemplateTree.SortNodes | src/projects/projects.service.ts:356-361 | sorting downwards from a list ends, even when rows contain parent cycles, and yields the subtree in which every sibling list is the stable sort of the rows under its parent |
| TemplateTree.WithSortedSubtasks | src/projects/projects.service.ts:356-361 | each row of a sorted list comes back in place with its own subtree finished |
| TemplateTree.BuildTemplateTaskTree | src/projects/projects.service.ts:330-362 | on any rows the result is their forest; it holds each row at most once, and exactly the rows whose parent chain reaches a missing parent |
| ForestShape.RepresentsUnique | src/projects/projects.service.ts:330-362 | rows have at most one forest in which every sibling list is the stable sort of the rows under its parent |
| ForestShape.DepthBound | src/projects/projects.service.ts:356-361 | a parent chain that ends is shorter than the number of ids, the bound on the recursion |
| ForestShape.PreorderUnique | src/projects/projects.service.ts:356-361 | no row occurs twice in a forest whose nodes hang at their own depth |
| ForestShape.Coverage | src/projects/projects.service.ts:330-362 | a row is in the forest, once, exactly when its parent chain reaches a root; rows on or below a parent cycle are left out |
| ForestShape.WellLinkedRecovered | src/projects/projects.service.ts:330-362 | a forest with rising sibling orders and correct parent links is recovered from any permutation of its rows |
| Trimming.TrimIdempotent | src/templates/templates.service.ts:93-94 | trimming a trimmed text changes nothing |
| Trimming.TrimCuts | src/templates/templates.service.ts:93-94 | trimming cuts nothing but white space from either end, and leaves none there |
| Trimming.CutsUnique | src/templates/templates.service.ts:93-94 | there is only one text that is left so, so a text without white space at either end is not changed |
| Trimming.Spaces | src/templates/templates.service.ts:93-94 | no letter, digit or sign of ASCII is white space; space, tab, line feed, carriage return, no-break space and byte order mark are |
| Templates.FlattenedIds | src/templates/templates.service.ts:85-107 | the flattening has one row per node of the outline, and row i carries the i-th id drawn |
| Templates.FlattenRebuild | src/templates/templates.service.ts:85-107 | flattening an outline with distinct ids and rebuilding from any permutation of the rows gives the outline back with names and descriptions trimmed, unchanged if they already were; siblings carry the orders 1, 2, 3 and so on, and no row is lost |
| Templates.TemplateTaskTable.CreateTasks | src/templates/templates.service.ts:135-136 | creating a template adds the flattened rows to it and nothing to any other template |
| Templates.TemplateTaskTable.DeleteTasks | src/templates/templates.service.ts:202 | deleting by template removes exactly that template's rows |
| Templates.TemplateTaskTable.ReplaceTasks | src/templates/templates.service.ts:201-208 | an absent list leaves the rows alone, a given one replaces them, and other templates keep theirs |
| Seeding.CopiedLength | src/projects/projects.service.ts:475-547 | copying a sibling list creates one task per node |
| Seeding.CopiedIds | src/projects/projects.service.ts:475-547 | the created tasks carry the ids drawn, in order |
| Seeding.EntriesNameTasks | src/projects/projects.service.ts:436-547 | each template row has a task with its trimmed name under the id drawn, and one entry in either log that names this task, the template row and the parent of the task |
| Seeding.SeedingTransaction.CollectSeededTaskActivity | src/projects/projects.service.ts:436-473 | each created task adds one entry to either log, naming it, its parent and its template row |
| Seeding.SeedingTransaction.CreateProjectTaskFromTemplate | src/projects/projects.service.ts:475-547 | exactly the tasks and log entries of the node's subtree are added, under fresh ids, with ranks rising in steps from the parent's counter; the count returned is the size of the subtree and other parents' counters are kept |
| Seeding.SeedingTransaction.CreateSiblings | src/projects/projects.service.ts:581-595 | the loop over a sibling list adds exactly that list's tasks and entries |
| Seeding.SeedingTransaction.SeedProjectTasksFromTemplate | src/projects/projects.service.ts:549-603 | the whole forest is copied, or nothing when status and type defaults are missing; the count equals the forest size and the growth of both logs |
| SeededProject.SortByRankViews | src/projects/projects.service.ts:373-376 | sorting tasks by rank string is sorting them by the numbers their ranks denote |
| SeededProject.SeededTasksReadBack | src/projects/projects.service.ts:475-603 | for sibling lists below 36^10/1024, grouping the created tasks by parent and sorting each group by rank, in whatever order they are read, shows the template forest |
| SeededProject.TemplateToProject | src/projects/projects.service.ts:330-603 | an outline sent as a template comes back, trimmed, from the tasks of a project seeded with it, whatever the order rows are read in; the number of tasks is the size of the outline |
| SeededProject.TitlesComeBack | src/projects/projects.service.ts:330-603 | an outline whose names have no white space at either end comes back with exactly these names as titles, in its order and nesting |
| Outbox.OutboxService.Record | src/outbox/outbox.service.ts:40-53 | a pending row with no retries is added under a new id |
| Outbox.OutboxService.AttemptOne | src/outbox/outbox.service.ts:100-140 | a row handed over becomes published; one refused counts a retry and fails at the fifth |
| Outbox.OutboxService.Attempt | src/outbox/outbox.service.ts:97-141 | the loop attempts each polled row once, in memory, and its counters are the sizes of the two outcome sets |
| Outbox.OutboxService.Flush | src/outbox/outbox.service.ts:88-153 | the polled rows are attempted and saved, all others kept; the numbers returned are exactly the growth of the published and failed rows |
| Outbox.OutboxService.CrashedFlush | src/outbox/outbox.service.ts:97-146 | a flush that dies before saving leaves the table as it was and keeps what the queue already has |
| Outbox.OutboxService.PrunePublished | src/outbox/outbox.service.ts:159-169 | exactly the rows published before the cutoff are deleted, and counted |
| Outbox.OutboxService.RequeueFailed | src/outbox/outbox.service.ts:175-187 | exactly the failed rows listed, or all of them without a list, become pending with no retries, and are counted |
| Outbox.FlushMoves | src/outbox/outbox.service.ts:88-153 | a round moves exactly the events handed over to published and those given up to failed |
| OutboxRuns.StepKeepsInv | src/outbox/outbox.service.ts:40-187 | after every step, crashes included, every recorded event is a row of the table or was pruned, pruned and published events are in the queue, and retry counts agree with statuses |
| OutboxRuns.NoLoss | src/outbox/outbox.service.ts:40-187 | over every run of record, flush, crash, prune and requeue: an event missing from the table, or published, was handed to the queue; pending means fewer than five retries and failed means five |
| OutboxRuns.StepMoves | src/outbox/outbox.service.ts:88-187 | the queue never shrinks; a row leaves the table only by being pruned, and changes only by a flush that polled it or a requeue of a failed one |
| OutboxHistory.RecordedRow | src/outbox/outbox.service.ts:40-53 | a recorded event is a pending row of that time, never tried; no other row changes |
| OutboxHistory.TakenRow | src/outbox/outbox.service.ts:114-124 | a row that the queue took in a flush is published at the time of the flush, without an error message, and keeps its other fields |
| OutboxHistory.RefusedRow | src/outbox/outbox.service.ts:125-139 | a row that the queue refused counts one more try, keeps the message, and fails with the fifth |
| OutboxHistory.RequeuedRow | src/outbox/outbox.service.ts:175-187 | a requeue starts exactly the failed rows it lists again, or all with an empty list or none, and touches no other |
| OutboxHistory.RowsTell | src/outbox/outbox.service.ts:40-187 | over every run: a row is published exactly if one flush handed its event over, and bears the time of that flush and no error message; any other has no such time, and the message of its last refusal unless it was not tried since it was recorded or requeued |
| OutboxHistory.QueueIff | src/outbox/outbox.service.ts:97-146 | over every run the queue has exactly the events that a flush, complete or not, handed over |
| OutboxHistory.PruneIff | src/outbox/outbox.service.ts:159-169 | over every run pruning deletes exactly the rows whose events were handed over by a flush before the cutoff |
| OutboxDrain.PassedOver | src/outbox/outbox.service.ts:89-93 | a pending event is left out of a poll only in favour of a full batch of events not created after it |
| OutboxDrain.FewRivals | src/outbox/outbox.service.ts:88-146 | an event with fewer than fifty rivals is settled within five flushes |
| OutboxDrain.DrainDistinct | src/outbox/outbox.service.ts:88-146 | with distinct creation times, n events are gone after 5*ceil(n/50) flushes, whatever the queue answers |
| OutboxDrain.StillPending | src/outbox/outbox.service.ts:88-146 | in any table, an event still pending after f flushes was passed over at least f + retries - 4 times, and its rivals had attempts enough to fill that many batches |
| OutboxDrain.DrainEvent | src/outbox/outbox.service.ts:88-146 | in any table, an event with r rivals is settled within 5 + r/10 flushes |
| OutboxDrain.DrainAny | src/outbox/outbox.service.ts:88-146 | with any creation times, equal ones included, n events are gone after 5 + (n-1)/10 flushes |
| OutboxOverrun.OutlastIff | src/outbox/outbox.service.ts:88-146 | an event that no pending event is older than can be pending after f flushes exactly when the attempts left to its rivals fill the f + retries - 4 batches that must pass it over |
| OutboxOverrun.OneTimeExact | src/outbox/outbox.constants.ts:14-17 | for every backlog of one creation time and every number of flushes: they always empty it exactly when no event has rivals with attempts enough to outlast them |
| OutboxOverrun.SomeRound | src/outbox/outbox.service.ts:88-93 | every table has a poll, and the queue may refuse all of it |
| OutboxOverrun.RecordsReach | src/outbox/outbox.service.ts:40-53 | recording n events at one time is a run of the outbox that ends with them all pending |
| OutboxOverrun.Overrun | src/outbox/outbox.constants.ts:14-17 | when the last batch holds more than ten of n > 50 events recorded at once, the table that recording them reaches has a run of 5*ceil(n/50) flushes that leaves an event pending |
| OutboxOverrun.DrainBoundExact | src/outbox/outbox.constants.ts:14-17 | over all reachable tables, the sizes of backlog that always drain in 5*ceil(n/50) flushes are those up to 50 and those whose last batch holds at most ten events |
| AuthService.Service.CreateSession | src/auth/auth.service.ts:137-158 | a session is stored under a fresh token, unrevoked, for thirty days |
| AuthService.Service.IssueTokenPair | src/auth/auth.service.ts:160-178 | the access token names the user, the user's current token version and the session just stored |
| AuthService.Service.RevokeAllSessions | src/auth/auth.service.ts:180-188 | every unrevoked session of the user is revoked now, all other rows are kept |
| AuthService.Service.RevokePresentedSessionForOtherUser | src/auth/auth.service.ts:190-213 | only the session behind another user's access token is revoked |
| AuthService.Service.Signup | src/auth/auth.service.ts:260-372 | a new account and its first token pair, or a conflict |
| AuthService.Service.Login | src/auth/auth.service.ts:378-497 | all branches: unknown user, lock, failure with and without lockout, deactivation, one-time code, token pair |
| AuthService.Service.ValidateOTP | src/auth/auth.service.ts:503-558 | the code is checked, then its expiry; it is used up when tokens are issued |
| AuthService.Service.RequestPasswordReset | src/auth/auth.service.ts:574-595 | a fresh reset token replaces the one before |
| AuthService.Service.ResetPassword | src/auth/auth.service.ts:597-625 | unknown, used and expired tokens are refused in this order; otherwise password, version and sessions change together |
| AuthService.Service.ChangePassword | src/auth/auth.service.ts:631-647 | the current password is required; version and sessions change with the password |
| AuthService.Service.RefreshToken | src/auth/auth.service.ts:653-695 | replay, expiry, inactivity and deactivation branches, and rotation |
| AuthService.Service.RevokeSession | src/auth/auth.service.ts:721-734 | a user ends one unrevoked session of their own, or is told there is none |
| AuthService.Service.Logout | src/auth/auth.service.ts:740-750 | the session of the presented token is revoked if it was not |
| AuthService.Service.LogoutAll | src/auth/auth.service.ts:752-759 | version and sessions of the user change together |
| AuthService.Service.Handle | src/auth/auth.service.ts:137-759 | any request to the service is exactly one step of a run, and keeps the joint invariant of sessions, issued tokens, chains and lockouts |
| AuthService.Service.Serve | src/auth/auth.service.ts:137-759 | the tables after any requests are those of the run of steps the session and lockout results are about |
| AuthAnswers.LoginIff | src/auth/auth.service.ts:378-497 | a login with the right password of an active, unlocked user sends a code exactly if the user has two-factor login on, and lets the user in otherwise; any other is turned down |
| AuthAnswers.LoginRefused | src/auth/auth.service.ts:385-452 | the reason for a refused login: unknown user, lock, password, deactivation, in this order |
| AuthAnswers.LoginWorks | src/auth/auth.service.ts:477-497 | a login that lets the user in gives an access token that is accepted and a refresh token that is exchanged |
| AuthAnswers.LoginSendsCode | src/auth/auth.service.ts:454-475 | a login with two-factor login on leaves the code sent in force for five minutes, and adds no session |
| AuthAnswers.CodeIff | src/auth/auth.service.ts:503-558 | a code is exchanged exactly if it is the one the user holds and has not expired, and is used up; otherwise nothing changes |
| AuthAnswers.IssuedWorks | src/auth/auth.service.ts:160-178 | every pair issued to an active user works at once |
| AuthAnswers.SignupIff | src/auth/auth.service.ts:260-372 | an unknown user gets an active account with the password given, without two-factor login; a known one is left alone |
| AuthAnswers.ChangeIff | src/auth/auth.service.ts:631-647 | the password changes, to the one given, exactly if the current one is presented |
| AuthAnswers.RequestIff | src/auth/auth.service.ts:574-595 | a known user gets a new reset token for an hour |
| AuthAnswers.ResetIff | src/auth/auth.service.ts:597-625 | a reset token sets the password given exactly if a user holds it, unused, in its time, and is used up |
| AuthAnswers.NewPasswordOnly | src/auth/auth.service.ts:597-647 | over every run a password that was set lets the user in, and no other does, until another is set |
| AuthAnswers.RefreshIff | src/auth/auth.service.ts:653-695 | a refresh token is exchanged exactly if its session is live, unexpired and was used within seven days, and its user is active |
| AuthAnswers.AccessRefused | src/auth/strategies/jwt.strategy.ts:43-64 | an access token is accepted exactly if its user is active and its version and session are current; otherwise the reasons in order |
| AuthAnswers.EndingIff | src/auth/auth.service.ts:721-759 | a user ends exactly the live sessions of their own; logging out always succeeds |
| AuthAnswers.OtherUsersStay | src/auth/auth.service.ts:260-759 | no request changes the row of a user it is not about |
| AuthAnswers.SettingsMove | src/users/users.service.ts:203 | activation and two-factor login change only where they are set |
| AuthAnswers.VersionMoves | src/auth/auth.service.ts:401-759 | the token version rises by one with every invalidation and administrator reset, and with nothing else |
| AuthRuns.RunEvolves | src/auth/auth.service.ts:137-759 | over any run rows stay, token versions never fall, revocation times are written once, and new sessions use new tokens |
| AuthSessions.ReachableInv | src/auth/auth.service.ts:160-178 | at every point of every run, issued access tokens name a session of their user and a version not above the user's |
| AuthSessions.OneLivePerChain | src/auth/auth.service.ts:653-695 | at every point of every run, each rotation chain has at most one unrevoked session |
| AuthSessions.RevokedForever | src/auth/auth.service.ts:180-213 | a revocation time once written is never rewritten, and nothing else of a session ever changes |
| AuthSessions.RefreshOnce | src/auth/auth.service.ts:664-695 | a refresh token exchanged for a new pair is refused at any later point |
| AuthSessions.ReplayShutsOut | src/auth/auth.service.ts:666-669 | presenting a revoked refresh token leaves its owner with no unrevoked session, and everything issued to the owner so far is refused for good |
| AuthSessions.GlobalInvalidation | src/auth/strategies/jwt.strategy.ts:43-64 | after a changed or reset password, a logout everywhere or a lockout, no access or refresh token issued earlier to the user is accepted at any later point; each is behind the token version and its session is revoked |
| AuthSessions.EndedForever | src/auth/auth.service.ts:190-213 | a session revoked by its owner, by logout, or by another user's login over its access token is never refreshed, and its access tokens are refused for good |
| AuthOrigins.NewProofNeeded | src/auth/auth.service.ts:401-625 | after a changed or reset password, a logout everywhere or a lockout, every later live session of the user goes back, through refreshes, to a later login with the password of that time and without two-factor login, or to a code that a login with the password sent at most five minutes before it was presented |
| AuthOrigins.SessionOrigin | src/auth/auth.service.ts:160-178 | every session goes back, through refreshes, to a sign-up, a login of a user without two-factor login at that time, or a code |
| AuthOrigins.TwoFactorNeedsCode | src/auth/auth.service.ts:454-475 | while a user has two-factor login on, every chain of sessions that starts does so at a code, sent for the password at most five minutes before |
| AuthOrigins.SessionEndsWhen | src/auth/auth.service.ts:180-213 | at every point of every run a live session is revoked by exactly the steps that end it - rotation, replay, revocation, logout, invalidation, a login over its token - and nothing else of it changes |
| AuthOrigins.ExchangeWindow | src/auth/auth.service.ts:653-695 | at every point of every run a refresh token is exchanged exactly if it was issued at most seven days ago, is not revoked and its user is active |
| AuthOrigins.CodesSurvive | src/auth/auth.service.ts:503-540 | the one-time codes accepted right after such an invalidation are exactly those accepted right before it |
| AuthOrigins.ResetTokensSurvive | src/auth/auth.service.ts:597-618 | so are the reset tokens, unless the invalidation was a reset |
| AuthOrigins.AdminResetKeepsSessions | src/users/users.service.ts:372-389 | a reset by an administrator shuts out earlier access tokens for good, but refresh tokens are exchanged exactly as before |
| AuthLimits.RunKeepsLocks | src/auth/auth.service.ts:401-452 | over every run the failure counter, the lock time and the times of the failed comparisons agree |
| AuthLimits.LockoutRate | src/auth/auth.service.ts:401-452 | an account has a lock time exactly when its counter has reached five, and the j-th failed comparison after the fifth came at least fifteen minutes times j after it |
| AuthLimits.ResetOnce | src/auth/auth.service.ts:597-618 | a reset token that has changed a password never changes one again |
| AuthLimits.ResetWindow | src/auth/auth.service.ts:574-618 | a reset token changes a password only if it was issued to that user at most an hour before and the user made no later request |
| AuthLimits.OtpWindow | src/auth/auth.service.ts:454-540 | a one-time code yields tokens only if a login sent it to that user at most five minutes before and none was sent or exchanged since |
| Circles.Find | src/project-invites/project-invites.service.ts:448-454 | a lookup answers with a row that fits, and with none only when no row does |
| CollaborationService.Space.CreateInvite | src/project-invites/project-invites.service.ts:202-289 | the guards in order, then a pending invite with a fresh token and a week to run |
| CollaborationService.Space.ResendInvite | src/project-invites/project-invites.service.ts:356-377 | a pending invite gets a fresh token and a new week; any other is refused |
| CollaborationService.Space.CancelInvite | src/project-invites/project-invites.service.ts:383-402 | a pending invite is revoked; any other is refused |
| CollaborationService.Space.DeclineInvite | src/project-invites/project-invites.service.ts:646-666 | only the invitee declines, and only a pending invite |
| CollaborationService.Space.UpsertMember | src/project-invites/project-invites.service.ts:446-491 | the membership row of the user is added, brought back or given the role |
| CollaborationService.Space.AcceptInviteEntity | src/project-invites/project-invites.service.ts:412-526 | unusable role and missing account are refused; otherwise the membership and the invite change together |
| CollaborationService.Space.AcceptInvite | src/project-invites/project-invites.service.ts:579-605 | accept by token, with the expired branch writing the status |
| CollaborationService.Space.AcceptInviteById | src/project-invites/project-invites.service.ts:611-640 | accept by id: expiry is checked, and written, before the invitee is |
| CollaborationService.Space.EnsureMembership | src/project-invites/project-invites.service.ts:106-171 | a known user keeps the role and is reactivated if removed; an unknown one becomes a guest, in a guest role made on demand |
| CollaborationService.Space.AssignMember | src/projects/projects.service.ts:1212-1417 | an active member or a pending invite gets the role, the invite keeping token and expiry; otherwise an invite is created |
| CollaborationService.Space.UpdateMemberRole | src/projects/projects.service.ts:1423-1499 | an active member gets an enabled role of the space |
| CollaborationService.Space.CreateRole | src/projects/project-roles.service.ts:204-231 | a new role is enabled and unprotected |
| CollaborationService.Space.UpdateRole | src/projects/project-roles.service.ts:233-277 | a protected role, or one in use, cannot be disabled |
| CollaborationService.Space.DeleteRole | src/projects/project-roles.service.ts:279-294 | a protected, used or still referenced role cannot be deleted |
| CollaborationService.Space.CreateSpace | src/projects/projects.service.ts:805-844 | a new project gets its default roles, the owner role first and protected, and its creator as the one member, in that role |
| CollaborationService.Space.DeleteSpace | src/projects/projects.service.ts:1152-1153 | deleting a project removes exactly its roles, members and invites |
| CollaborationService.Services.JoinWorkspace | src/project-invites/project-invites.service.ts:493-500 | a project accept makes the invitee a member of the workspace, and only when it succeeds |
| CollaborationService.Services.Call | src/project-invites/project-invites.service.ts:412-640 | a request to a project or a workspace changes both levels as one step of a run |
| CollaborationService.Services.Handle | src/project-invites/project-invites.service.ts:202-688 | any request, or step of the environment, is exactly one step of a run, and keeps the joint invariant of both levels |
| CollaborationService.Services.Serve | src/project-invites/project-invites.service.ts:202-688 | the tables after any requests are those of the run the role and invite results are about |
| CircleEffects.CreateInviteEffect | src/project-invites/project-invites.service.ts:202-289 | an invite is created exactly if space, role and invitee are in order and the invitee is neither active nor invited; it is pending for a week with a new token, and nothing else changes |
| CircleEffects.ResendEffect | src/project-invites/project-invites.service.ts:356-377 | a pending invite gets a new token and week and keeps the rest; nothing else changes |
| CircleEffects.CancelEffect | src/project-invites/project-invites.service.ts:383-402 | a pending invite becomes revoked, and nothing else changes |
| CircleEffects.DeclineEffect | src/project-invites/project-invites.service.ts:646-666 | a pending invite becomes declined at its invitee's request, and nothing else changes |
| CircleEffects.AcceptByTokenEffect | src/project-invites/project-invites.service.ts:579-605 | the invite with the token is accepted if it is pending and in time, expired if it is past its time; the invitee gets the role offered, in the row there was or in a new one, and nothing else changes |
| CircleEffects.AcceptByIdEffect | src/project-invites/project-invites.service.ts:611-640 | the same by id, at the invitee's request, the time being looked at first |
| CircleEffects.KnownGuestEffect | src/project-invites/project-invites.service.ts:106-171 | a project accept leaves a workspace member as they were, or brings a removed one back in the former role |
| CircleEffects.NewGuestEffect | src/project-invites/project-invites.service.ts:106-171 | it gives anyone else a membership in a guest role, which is made if there is none |
| CircleEffects.AssignEffect | src/projects/projects.service.ts:1212-1417 | an active member gets the role assigned, a pending invite offers it and keeps token, expiry and invitee, anyone else is invited; nothing else changes |
| CircleEffects.UpdateMemberRoleEffect | src/projects/projects.service.ts:1423-1499 | an active member gets the role, exactly if it is enabled and of the space, and nothing else changes |
| CircleEffects.CreateRoleEffect | src/projects/project-roles.service.ts:204-231 | one new enabled, unprotected role, and nothing else |
| CircleEffects.UpdateRoleEffect | src/projects/project-roles.service.ts:233-277 | a role is enabled or disabled as asked, unless it is to be disabled and is protected or in use; nothing else changes |
| CircleEffects.DeleteRoleEffect | src/projects/project-roles.service.ts:279-294 | a role goes exactly if it is not protected, in use or mentioned; nothing else changes |
| CircleEffects.NewSpaceEffect | src/projects/projects.service.ts:805-844 | a new space has its new enabled roles, one of them protected, and its creator as its one member, in that one; no other row changes |
| CircleEffects.WithoutSpaceEffect | src/projects/projects.service.ts:1152-1153 | the rows that go with a space are exactly its own |
| CollaborationEffects.CallEffect | src/project-invites/project-invites.service.ts:202-688 | in every run each request has the effect above in the tables of its level |
| CollaborationEffects.CallNext | src/project-invites/project-invites.service.ts:493-500 | it leaves the other level alone, but for a project accept that succeeds |
| CollaborationAssignments.AssignGives | src/projects/projects.service.ts:1246-1336 | assigning leaves an active member holding exactly the role, and anyone else with a pending invite that offers it |
| CollaborationAssignments.AssignedRoleIsJoined | src/projects/projects.service.ts:1246-1336 | over every run, someone assigned a role before joining holds exactly that role after accepting, if it was the last one assigned |
| CircleInvariants.CreateInviteKeeps | src/project-invites/project-invites.service.ts:214-246 | creating an invite keeps the joint invariant |
| CircleInvariants.AssignKeeps | src/projects/projects.service.ts:1246-1336 | assigning a member keeps the joint invariant |
| CircleInvariants.AcceptEntityKeeps | src/workspace-invites/workspace-invites.service.ts:349-392 | accepting keeps the joint invariant, in projects and workspaces alike |
| CircleInvariants.RoleOpsKeep | src/projects/project-roles.service.ts:115-136 | creating, disabling, enabling and deleting roles keep the joint invariant, because of the in-use check |
| CircleInvariants.WithGuestKeeps | src/project-invites/project-invites.service.ts:106-171 | the guest membership keeps the invariant of the workspace |
| CircleInvariants.WithoutSpaceKeeps | src/projects/projects.service.ts:1152-1153 | deleting a project keeps the invariant of all others |
| CollaborationRuns.StepKeepsInv | src/project-invites/project-invites.service.ts:202-688 | every step of every service, role changes of project and workspace members, the deletion of projects and the environment included, keeps the joint invariant of both levels |
| CollaborationRuns.NewSpaceKeeps | src/projects/projects.service.ts:805-844 | a new space leaves all spaces sound |
| CollaborationResults.RolesStayValid | src/projects/project-roles.service.ts:115-136 | at every reachable state each active membership and each pending invite refers to an existing, enabled role of its own space |
| CollaborationResults.OneSeatOneInvite | src/project-invites/project-invites.service.ts:228-246 | at every reachable state a user has at most one membership row and one pending invite per space, and in a project never both an active membership and a pending invite |
| CollaborationResults.AcceptNeverUnavailable | src/project-invites/project-invites.service.ts:432-444 | at every reachable state no accept is turned down for its role or its invitee's account |
| CollaborationResults.ProjectInviteeIsNotActive | src/project-invites/project-invites.service.ts:483-491 | the branch of the project accept for a user who is already active is never taken |
| CollaborationResults.ProjectAcceptOvertakes | src/workspace-invites/workspace-invites.service.ts:380-386 | in a workspace that branch can be taken: accepting a project invite leaves the user active there with the workspace invite still pending |
| CollaborationClashes.JoiningIff | src/project-invites/project-invites.service.ts:579-640 | a project accept succeeds exactly when the invite it presents, by current token or on behalf of its invitee, is pending and has not expired |
| CollaborationClashes.StepClashIff | src/project-invites/project-invites.service.ts:493-500 | from any sound state in which no one is both active in a workspace and invited to it, a step keeps it so exactly when it does not let someone join a project who has a pending invite to its workspace |
| CollaborationClashes.WorkspaceExclusiveIff | src/workspace-invites/workspace-invites.service.ts:380-386 | over any run from the start: no one is ever both active in a workspace and invited to it exactly when no accepted project invite overtakes a workspace invite |
| CollaborationWitness.WorkspaceInviteeMayBeActive | src/workspace-invites/workspace-invites.service.ts:380-386 | a concrete run that ends so, and the accept that then changes the role of an active member |
| CollaborationResults.ClosedForever | src/workspace-invites/workspace-invites.service.ts:260-310 | an invite that is not pending never changes again, in any run, and goes only with its project |
| CollaborationResults.AcceptConditions | src/project-invites/project-invites.service.ts:579-640 | a successful accept presents the current token, or comes from the invitee, of a pending invite, within seven days of that token being issued |
| CollaborationResults.AcceptanceTimes | src/project-invites/project-invites.service.ts:502-505 | at every reachable state an invite has an acceptance time exactly when it is accepted, and no two invites share a token |
| CollaborationResults.AcceptCloses | src/project-invites/project-invites.service.ts:502-505 | accepting sets status and acceptance time together |
| CollaborationResults.AcceptOnce | src/workspace-invites/workspace-invites.service.ts:434-493 | an invite is accepted at most once, by token or by id |
| CollaborationResults.OldTokenForgotten | src/project-invites/project-invites.service.ts:372-374 | after a resend the old token is unknown at any later point |
| CollaborationResults.ProjectAcceptEnrols | src/project-invites/project-invites.service.ts:446-505 | a successful project accept leaves the invitee active in the project in the role offered, and active in its workspace in the role held there before or as a guest |
| StatusService.NormalizeStatusSemantics | src/projects/project-config.service.ts:175-201 | the assignments to the local copy compute the normal form, or refuse a policy on a status that is not done |
| StatusResults.NormalizeIdempotent | src/projects/project-config.service.ts:175-201 | normalising twice is normalising once; done as flag and done as category coincide, and other input is unchanged |
| StatusService.ProjectConfigService.AssertCanCreateStatus | src/projects/project-config.service.ts:203-220 | a second active done status is refused, and so is any other one while there is none |
| StatusService.ProjectConfigService.AssertCanUpdateStatus | src/projects/project-config.service.ts:222-242 | an update that would make a second active done status, or leave none, is refused |
| StatusService.ProjectConfigService.CreateStatus | src/projects/project-config.service.ts:513-555 | all branches of creation, with the other default cleared when a new one is asked for; the invariant is kept |
| StatusService.ProjectConfigService.UpdateStatus | src/projects/project-config.service.ts:557-606 | all branches of an update, telling absent from undefined fields; the invariant is kept exactly when the request is harmless |
| StatusService.ProjectConfigService.DeleteStatus | src/projects/project-config.service.ts:608-630 | canonical and used statuses and the last active done one are kept; so is the invariant |
| StatusEffects.UpdateEffect | src/projects/project-config.service.ts:588-606 | an accepted update writes every value sent into the row, keeps every column not sent, up to what making the status done entails, and changes no other row |
| StatusEffects.CanonicalOnlyRenamed | src/projects/project-config.service.ts:566-586 | a canonical status is only ever renamed, but for the policy of the done one when it is left undefined; a request that sends anything else is refused |
| StatusEffects.UpdateRefusal | src/projects/project-config.service.ts:557-600 | the reason for a refused update, the first that holds |
| StatusEffects.RenameEffect | src/projects/project-config.service.ts:588-606 | a renamed status has the new name, and every other one its own |
| StatusEffects.CreateEffect | src/projects/project-config.service.ts:526-548 | the new row has the name, key and values sent, and the usual ones for the rest; other rows lose at most the default flag, and only to a new default |
| StatusEffects.CreatedIff | src/projects/project-config.service.ts:513-540 | a status is created exactly if its key is free, and it is neither done nor has a completion policy |
| StatusEffects.CreateRefusal | src/projects/project-config.service.ts:513-540 | the reason for a refused creation |
| StatusEffects.DeleteEffect | src/projects/project-config.service.ts:608-630 | a status is deleted exactly if it is custom and unused, and nothing else changes |
| StatusEffects.DeleteRefusal | src/projects/project-config.service.ts:608-625 | the reason for a refused deletion |
| StatusResults.SeededInv | src/projects/project-config.service.ts:265-325 | the seeded statuses satisfy the invariant, with exactly one active done status |
| StatusResults.CreateKeeps | src/projects/project-config.service.ts:203-220 | creation keeps the invariant |
| StatusResults.DeleteKeeps | src/projects/project-config.service.ts:244-254 | deletion keeps the invariant |
| StatusResults.UpdateKeepsIff | src/projects/project-config.service.ts:557-606 | any update, whatever comes of it, keeps the invariant exactly when it is harmless: the row is unknown, or the request is turned down for what it asks, or it does not name only part of what makes a custom status done or active |
| StatusResults.RunKeepsIff | src/projects/project-config.service.ts:513-630 | from any sound statuses, the seeded ones among them, the invariant - one active done status, the canonical stages, at most one default, distinct keys, done as flag with done as category - holds at every point of a run of arbitrary requests exactly when each update is harmless where it arrives |
| StatusResults.OrdinaryRunsKeepInv | src/projects/project-config.service.ts:513-630 | in particular it holds throughout every run whose updates leave no field undefined, or give neither category nor done flag nor activate a status, as renaming and deactivating do not |
| StatusResults.TwoActiveDone | src/projects/project-config.service.ts:588-600 | a request that only sets the category of an active custom status to done leaves two active done statuses |
| StatusResults.TwoActiveDoneReachable | src/projects/project-config.service.ts:314-324 | the seeded statuses have such a row |
| StatusResults.AcceptedIff | src/projects/project-config.service.ts:557-606 | for every row and every request, whether the update is accepted, from what the request sends: canonical statuses keep their semantics, the done one must not be left without what makes it done and active, and a custom one must not become active and done |
| StatusResults.RenamedIff | src/projects/project-config.service.ts:588-600 | a request that only renames a status is accepted exactly for statuses other than the done one |
| StatusResults.DoneCannotBeRenamed | src/projects/project-config.service.ts:588-589 | for the done one it is turned down for want of a done status |
| ProjectAccess.RoleIsEnabled | src/projects/projects.service.ts:243-254 | at every reachable state an active membership has an enabled role, so the second test of it changes nothing |
| ProjectAccess.GuardServiceAgreement | src/auth/guards/project-permission.guard.ts:239-324 | for a project in the caller's workspace the guard allows exactly when the service does, on six routes, but for the member routes on which they look at different permissions; when they differ is characterised exactly, and which of the two refuses |
| ProjectAccess.ListingDiverges | src/auth/guards/project-permission.guard.ts:239-324 | at a reachable state the guard refuses to list the members of a project where the service would not |
| ProjectAccess.AssigningDiverges | src/projects/projects.service.ts:233-254 | at a reachable state the service refuses to assign a member, or change a role, where the guard does not |
| ProjectAccess.ProjectRoutesAgree | src/projects/projects.service.ts:290-328 | on the read, update and delete routes they always agree |
| ProjectAccess.DisabledRoleWouldDiverge | src/projects/projects.service.ts:233-254 | without the role invariant they would not: only the service tests the role's status |
| ProjectAccess.AdminsPass | src/auth/guards/project-permission.guard.ts:150-205 | an administrator of the project's workspace passes the guard whatever a route declares, and the service |
| ProjectAccess.OutsidersStop | src/auth/guards/project-permission.guard.ts:268-297 | someone from another workspace and without membership passes neither |
| ProjectAccess.GuardIff | src/auth/guards/project-permission.guard.ts:239-324 | whom the guard lets through on each of the six routes, by the two permission matrices and the membership |
| ProjectAccess.ServiceIff | src/projects/projects.service.ts:233-328 | whom the service lets through on them |
| ProjectAccess.GuardRefusal | src/auth/guards/project-permission.guard.ts:239-324 | how the guard refuses: unknown project, a declaration without an action, or no permission |
| ProjectAccess.ServiceRefusal | src/projects/projects.service.ts:233-328 | how the service refuses: reading looks at the permission first, everything else at the project |
| ProjectAccess.ResourceIff | src/auth/guards/project-permission.guard.ts:205-236 | whom the guard lets through on any resource and action: administration domains count as managing projects, for the workspace and for the manager flag |
| SlugSearch.DecimalInjective | src/auth/auth.service.ts:252 | different numbers have different decimal texts |
| SlugSearch.DecimalDenotes | src/auth/auth.service.ts:252 | the decimal text of a number is its numeral, without leading zeros |
| SlugSearch.CandidateForm | src/auth/auth.service.ts:246-253 | the first slug tried is the base, the k-th after it the base, a dash and the numeral of k |
| SlugSearch.CandidatesDiffer | src/auth/auth.service.ts:246-253 | no slug is tried twice |
| SlugSearch.Pigeonhole | src/workspaces/workspaces.service.ts:28-35 | if the first n candidates are taken, at least n slugs are |
| SlugSearch.GenerateSlug | src/auth/auth.service.ts:238-254 | the loop stops within one probe more than there are taken slugs, with a free slug and the smallest suffix that frees it |

## Left out

- Concurrency: two calls that interleave their reads and writes are not modelled; the only step inside a call is the crash of a flush.
- Outbox.OutboxService.PrunePublished: takes the cutoff; subtracting calendar days from the current date is left out.
- OutboxOverrun.OutlastIff: is exact for events that no pending event is older than, and so for every backlog of one creation time; for an event behind older ones with ties among them the condition is shown necessary (`StillPending`) but not sufficient.
- OutboxOverrun.DrainBoundExact: is exact by the size of the backlog; which patterns of several creation times with ties overrun is bounded by `DrainEvent` and not decided.
- Templates.TemplateTaskTable.CreateTasks: the template's own row and the flag for the default template are left out.
- Seeding.SeedingTransaction.CollectSeededTaskActivity: a log entry is its task, parent and template row; the actor, the project and the constant action type are left out.
- Seeding.SeedingTransaction.CreateProjectTaskFromTemplate: status, type, reporter and completion of a created task, the same for all of them, are left out.
- SeededProject.SortByRankViews: compares ranks by character code; a database collation that orders lower-case letters and digits differently is not modelled.
- Seeding.SeedingTransaction.SeedProjectTasksFromTemplate: the search for the default status and type is a flag, and a task is its id, title, parent and rank.
- AuthSessions.GlobalInvalidation: is about tokens issued by `issueTokenPair`; re-authentication tokens carry neither version nor session and are not covered, nor is the fifteen-minute life of an access token, which only shortens acceptance.
- AuthService.Service.Signup: creates the user and the token pair; the workspace created with it is a step of the collaboration model.
- Passwords: bcrypt compares only the first 72 bytes; the model compares passwords exactly.
- Circles.Find: answers with the newest fitting row where the database may pick any; the uniqueness results show that for members and pending invites there is only one.
- CollaborationService.Space.CreateInvite: who may invite is the business of the guards and is left out here, as are messages, activity logs, outbox records and notifications.
- CollaborationService.Space.CreateRole: the name, the slug made from it and the check that both are free are left out.
- CollaborationService.Space.UpdateRole: models the status of a role; names, slugs and permission matrices do not bear on the invariants.
- CollaborationService.Space.DeleteRole: the database's refusal to delete a referenced role is the outcome RoleReferenced.
- CollaborationService.Space.CreateSpace: default roles are numbered, not named.
- CollaborationService.Space.UpdateMemberRole: for a workspace, a membership has one role here; src/users/users.service.ts:206-214 writes the scalar column of the role and not the relation column, which the guards read, so there the role in force stays the former one.
- CollaborationService.Space.DeleteSpace: authorisation and the outbox record are left out, and the deletion is taken to succeed where the database may refuse it because of the order in which it drops roles and memberships.
- StatusService.ProjectConfigService.UpdateStatus: explicit nulls in a request are left out; the database refuses them for the columns modelled.
- StatusService.ProjectConfigService.CreateStatus: colour, position and work-in-progress limit are left out, and the project is assumed to exist.
- ProjectAccess.GuardServiceAgreement: requires the workspace role to have a permission matrix, without which the guard ignores even an administrator; finding the project id in a request is left out.
- SlugSearch.GenerateSlug: takes the base as given; making it from a name is left out.
- Ranking after the last existing task (`getNextSeedRank`), scheduling, progress, search, listing and reports.

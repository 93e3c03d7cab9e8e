# ScreenGuard: a verified model

ScreenGuard limits screen time and apps for children. A server keeps rules and totals; an agent on
each computer counts time, closes apps and locks screens, with or without the server. This project
models the parts of it that decide, count and synchronise, and proves what they promise over every
input, run and interleaving. `dafny verify dfyconfig.toml` checks all of it.

## What is modelled

| files | part of the system |
|---|---|
| `Apps`, `AppGroups`, `Membership`, `BoardMove` | app ids, group rules, the one group of an app, and moving apps on the board |
| `Store` | the server's tables as fields of one class |
| `GroupMigration`, `MigrationMeaning`, `BlockedMigration` | database migrations v16 and v17 |
| `Approvals`, `AppsApi`, `NewApps` | blocking new apps: the calls, and the guard they keep |
| `ConfigPush`, `AppLimits`, `AppEnforce`, `ClosedApps` | from the server's policy to the processes the agent closes |
| `GroupWarnings` | warning before a group's time is up |
| `Closing` | warn, SIGTERM, SIGKILL |
| `LockTasks`, `LockAgent` | lock tasks that sleep and re-check a shared set |
| `PairingCodes`, `Pairing`, `PairingServer` | the pairing handshake |
| `UsageSync`, `UsageArrival`, `UsageLink` | screen time on one lossy, ordered channel |
| `AppSync`, `AppSyncLink` | app and group time that may be lost, repeated and reordered |
| `UsageTimers`, `UsageClock`, `AppAccounting` | timers, carried remainders and capped gaps |
| `AppScan` | the process scanner's cache |
| `ScreenTime` | offline and online enforcement |
| `DnsFilter` | DNS names and the blocklist |

The objects the program updates in place are classes. Each method is tied to a specification
function, and what the program promises is proved about those functions. Interleaving parts are
state machines: a history is a sequence of atomic events, `Replay` is the state it leads to, a class
carries its history as a ghost field, and every property is about all histories.

## Reading the statements

- Tables are sets, maps or, where row order matters, sequences. A rule's unique key is everything but
  its id, so deleting by rule id is deleting that row.
- Random ids and tokens are parameters. Where they must be new, the statement says so.
- Instants are natural numbers in milliseconds; each history has its own clock. Dates are strings or
  day numbers.
- Lower-casing group names is ASCII only. A decoder turns the bytes of a DNS label into text; its
  behaviour is assumed only on ASCII labels, and only where a statement says so.
- Calls that answer from outside (a process is alive, a message arrives, a screen locks) are inputs.

## Where the code does less than it seems to

These claims are false of the code, so the exact condition is proved instead, with an example.

- A category or prefix exclusion in the destination group keeps an app out although the call
  succeeds (`MoveInTakesEffect`, `FixedExclusionKeepsAppOut`).
- A rule stores the trimmed id, so a request, decision or board move for an id with surrounding
  whitespace is about another app than the one it stores. `GuardStep` and `NewAppsStayBlocked` say
  exactly which calls end the guard, `LoopEndsUnmanaged` what the board's loop achieves and
  `MoveIntoBlocked` what the migration does (`UntrimmedAppIsNotNamed` for one request).
- The second of two fresh processes of a group gets no grace period (`GraceIsSkippedExactly`,
  `SecondProcessSkipsGrace`).
- A lock task's check and its kill are two steps, so a lift in between comes too late
  (`ArmedWhenKilled`, `LiftAfterTheCheckIsTooLate`).
- A block lifted and set again while its task sleeps has two live tasks and shares the old grace
  (`OneTaskExactly`, `FullGraceSinceArming`, `RearmingSharesTheOldGrace`).
- A warning lifts a lock online but not offline (`WarningLiftsOnlyOnline`).
- A process in a cycle of parents of its own app is never asked to close, only killed
  (`TopIsReachedExactly`, `OwnParentIsNoTop`).
- An accept call that reports nobody is waiting leaves the agent paired (`AcceptFailsExactly`,
  `StoredMeansPaired`, `FailedAcceptStillPairs`).
- Screen time is marked synced when sent, so a lost snapshot is not resent before more time is counted
  (`ResentExactly`, `LossCostsExactly`, `EverythingArrivesExactly`, `LostSnapshotIsNotResent`), and
  time still unsent at midnight is dropped (`ResetCostsExactly`, `ResetDropsWhatWasNotSent`,
  `MidnightDropsOfflineTime`).
- The scanner misses what a newly managed user already runs (`ScanIsExact`, `MissedExactly`,
  `RunIsExact`, `NewlyManagedIsMissed`).
- Offline a window includes its end, online it does not, so the agent can lock where the server allows
  (`AgreementIsExact`, `NeverStricterIsExact`, `OverlapDisagrees`), and without a
  limit for the day the server still counts a full day (`NoLimitIsExact`).
- A DNS label that contains a dot is read as two labels (`VerdictIsLabelWiseExactly`,
  `DottedNameIsExact`, `DottedLabelReadsAsTwo`).

## Model

| member | source | states |
|---|---|---|
| `Apps.ParseIsInverseOfDisplay` | crates/common/src/apps.rs:83-105 | an id parses exactly when it is what an id displays as and keeps the length and name rules; so it survives the wire |
| `Apps.WireForms` | crates/common/src/apps.rs:18-37 | what each kind of app is called on the wire |
| `Apps.NamesAllowed` | crates/common/src/apps.rs:39-60 | which characters each kind allows in a name |
| `Apps.LengthsAddUp` | crates/common/src/apps.rs:83-90 | lengths are counted in bytes of UTF-8 |
| `Apps.TrimTrims` | crates/server/src/app_groups.rs:189 | what a rule stores is trimmed, and trimming changes exactly the values with surrounding whitespace |
| `Apps.TrimDropsWhitespace` | crates/server/src/app_groups.rs:189 | trimming drops surrounding whitespace and nothing else |
| `Apps.RuleHitsExactly` | crates/common/src/apps.rs:128-135 | a rule hits the app it names, the ids that start with its prefix, and the apps of its category |
| `Apps.MatchesExactly` | crates/common/src/apps.rs:138-143 | a group takes an app that an inclusion hits and no exclusion does |
| `Apps.AssignIndexIsTheWinner` | crates/common/src/apps.rs:145-159 | the assigned group is the first that names the app and does not exclude it, or else the first that matches it, with no other candidate before it |
| `Apps.UnassignedMeansNoMatch` | crates/common/src/apps.rs:140-159 | an app has no group exactly when no group matches it |
| `Apps.AssignDependsOnMatches` | crates/common/src/apps.rs:145-159 | two rule lists that match an app alike, position by position, assign the same position |
| `AppGroups.SortIsDisplayOrder` | crates/server/src/app_groups.rs:235-266 | listing groups loses and invents none and puts predefined ones first, then by name |
| `AppGroups.ListGroupsSelects` | crates/server/src/app_groups.rs:235-266 | exactly the groups of the profile are listed, each once |
| `AppGroups.DisplayOrderMeans` | crates/server/src/app_groups.rs:235-266 | Games come first, then Web browsers, Blocked and the own groups, alike ones by name without regard to case |
| `AppGroups.ValidRuleMeans` | crates/server/src/app_groups.rs:196-215 | which values each kind of rule allows |
| `AppGroups.CleanNameMeans` | crates/server/src/app_groups.rs:132-141 | a name is stored without control characters and surrounding whitespace, and refused if nothing is left or it is too long |
| `AppGroups.AddRule` | crates/server/src/app_groups.rs:187-228 | an invalid rule is refused, an existing one is a no-op, and a new one replaces its opposite and nothing else |
| `AppGroups.DeleteRule` | crates/server/src/app_groups.rs:230-233 | deletes the rule of that group and nothing else, and says whether there was one |
| `AppGroups.ClearOpposite` | crates/server/src/app_groups.rs:286-297 | drops the opposing explicit entry and, when the app moves in, every other listed group's entry for it |
| `AppGroups.ApplyMembership` | crates/server/src/app_groups.rs:298-314 | adds an entry or an exclusion exactly when the app is not yet where it should be |
| `AppGroups.SetMembership` | crates/server/src/app_groups.rs:268-315 | refuses an invalid id, reports a missing group, and otherwise leaves the rules the later properties are about |
| `AppGroups.BuiltinRulesAreValid` | crates/server/src/app_groups.rs:16-21 | the predefined groups' rules pass the rule check as they are written |
| `AppGroups.BuiltinsTake` | crates/server/src/app_groups.rs:16-21 | as seeded, Games takes exactly the apps with the category or of the launchers, Web browsers those with the category, Blocked none |
| `AppGroups.SeededOneMeans` | crates/server/src/app_groups.rs:78-110 | a missing predefined group is created with its name and rules, Blocked with no time on every day |
| `AppGroups.SeededMeans` | crates/server/src/app_groups.rs:78-110 | afterwards the profile has every predefined group asked for, and groups are only added to it |
| `AppGroups.Seed` | crates/server/src/app_groups.rs:78-110 | creates the predefined groups a profile does not have, with their rules, and blocks every day of Blocked |
| `AppGroups.ReplaceLimits` | crates/server/src/app_groups.rs:336-360 | refuses repeated or out-of-range days and minutes; otherwise the group has exactly the given limits for the profile |
| `AppGroups.DeleteGroupRows` | crates/server/src/app_groups.rs:165-173 | removes the group and every row that belongs to it |
| `Membership.MoveInTakesEffect` | crates/server/src/app_groups.rs:268-315 | after a successful move in the app belongs to the group exactly when no category or prefix exclusion there hits it and its id is trimmed, or the group's other rules already decide for it |
| `Membership.MoveOutTakesEffect` | crates/server/src/app_groups.rs:268-315 | after taking the app out, the group is not its group exactly if its id is trimmed or dropping the entry was enough |
| `Membership.NoOtherGroupNamesIt` | crates/server/src/app_groups.rs:290-297 | after a move in no other listed group names the app |
| `Membership.OtherAppsStay` | crates/server/src/app_groups.rs:268-315 | every other app keeps its group, whatever its categories |
| `Membership.OtherGroupsStay` | crates/server/src/app_groups.rs:268-315 | only the app's own explicit entries change, and in other groups only its inclusions go |
| `Membership.RepeatingChangesNothing` | crates/server/src/app_groups.rs:268-315 | repeating the call changes nothing and has the same outcome |
| `Membership.FixedExclusionKeepsAppOut` | crates/server/src/app_groups.rs:303-309 | a category exclusion in the destination cannot be overridden: the call succeeds and the app stays out |
| `BoardMove.CurrentGroup` | crates/common/src/apps.rs:145-159 | the current group is the first that names the app, or else the first that matches it |
| `BoardMove.RemovalIsOneRound` | webui/app.py:690-697 | taking the app out of its current group leaves exactly one round fewer to go if its id is trimmed, and changes nothing otherwise |
| `BoardMove.RemovalDecreases` | webui/app.py:690-697 | a removal strictly decreases entries naming the app plus groups matching it exactly if its id is trimmed |
| `BoardMove.DoneMeansUnmanaged` | webui/app.py:688-697 | no round is needed exactly when no group has the app |
| `BoardMove.LoopEndsUnmanaged` | webui/app.py:688-697 | the loop leaves the app unmanaged exactly when it already was, or its id is trimmed and there are at least the rounds needed |
| `BoardMove.FiveRoundsAreEnough` | webui/app.py:690-697 | with at most five entries plus matches, five rounds are enough exactly if the id is trimmed |
| `BoardMove.MoveToUnmanaged` | webui/app.py:688-697 | the loop of membership calls leaves the rules the round-by-round removal stands for |
| `BoardMove.UnlistedTakesOneRound` | webui/app.py:690-697 | an app the board does not show is taken out of one group only |
| `GroupMigration.CopyGroup` | crates/server/src/app_groups.rs:415-447 | one copy: its row, its rules, and the profile's limits, extra time and recorded time moved to it |
| `GroupMigration.SeedAll` | crates/server/src/app_groups.rs:409-414 | without shared groups every profile gets the predefined ones |
| `GroupMigration.SeededAllMeans` | crates/server/src/app_groups.rs:409-414 | afterwards every profile has every predefined group, and no group is lost |
| `GroupMigration.SplitSharedGroups` | crates/server/src/app_groups.rs:402-452 | the migration as a whole: copies for every profile and group, then the shared rows dropped |
| `MigrationMeaning.OnlyCopiesRemain` | crates/server/src/app_groups.rs:402-452 | afterwards the groups are exactly the copies |
| `MigrationMeaning.CopiesAreListedAlike` | crates/server/src/app_groups.rs:402-452 | a profile lists its copies in the order the shared groups were listed |
| `MigrationMeaning.CopiesKeepTheirRules` | crates/server/src/app_groups.rs:417-428 | a copy has exactly the rules of the group it copies |
| `MigrationMeaning.MeaningIsPreserved` | crates/server/src/app_groups.rs:402-452 | for every profile, app and category list the group afterwards is the copy of the group before |
| `MigrationMeaning.ProfileRowsAreRenamed` | crates/server/src/app_groups.rs:429-446 | a profile's limits, extra time and recorded time are exactly the old rows under that renaming |
| `MigrationMeaning.CopiesKeepTheirLimits` | crates/server/src/app_groups.rs:429-436 | a copy has exactly the limits its shared group had for the profile |
| `MigrationMeaning.NothingSharedIsLeft` | crates/server/src/app_groups.rs:448-450 | no shared group and no row of one is left |
| `Approvals.SetMode` | crates/server/src/app_approvals.rs:34-70 | the mode is what was asked for, and other profiles keep theirs; turning it on makes exactly the apps that users of the profile used known ones and overwrites no status |
| `Approvals.Request` | crates/server/src/app_approvals.rs:72-92 | a known app is left alone; a new one is recorded as pending and put into Blocked |
| `Approvals.Decide` | crates/server/src/app_approvals.rs:103-111 | an invalid id is refused; otherwise the notice is gone and the app is in or out of Blocked |
| `Approvals.Seen` | crates/server/src/app_approvals.rs:113-122 | answers a notice and records nothing for an unknown app |
| `Approvals.SetBlocked` | crates/server/src/app_approvals.rs:94-101 | puts the app into the profile's Blocked group or takes it out; no such group is no failure |
| `Approvals.MembershipGoesByCategories` | crates/server/src/app_approvals.rs:94-101 | a membership call goes by the categories stored for the app |
| `AppsApi.AppRequestCall` | crates/server/src/app_usage.rs:126-151 | an app request is exactly its policy step; it is new only for an app not known before |
| `NewApps.RequestCategoriesMean` | crates/server/src/app_usage.rs:126-148 | recorded with an app are at most twenty of the categories sent, plain words only, and all of them if they are |
| `AppsApi.MembershipCall` | crates/server/src/api/apps.rs:165-177 | a membership call leaves exactly the policy of the move, and succeeds only for a listed group |
| `AppsApi.DecideCall` | crates/server/src/api/apps.rs:259-268 | a decision, and putting an approved app into a group, is exactly its policy step |
| `AppsApi.MoveCall` | crates/server/src/api/apps.rs:165-179 | a board move answers the notice only when the move succeeded |
| `AppsApi.CreateGroupCall` | crates/server/src/api/apps.rs:109-114 | creating a group is exactly its policy step; a bad name changes nothing |
| `AppsApi.RenameGroupCall` | crates/server/src/api/apps.rs:116-126 | renaming touches the profile's own group only; a bad name changes nothing |
| `AppsApi.DeleteGroupCall` | crates/server/src/api/apps.rs:128-135 | the Blocked group cannot be deleted; another group goes with its rows |
| `AppsApi.AddRuleCall` | crates/server/src/api/apps.rs:137-146 | Blocked takes explicit inclusions only; any other rule for it is refused |
| `AppsApi.DeleteRuleCall` | crates/server/src/api/apps.rs:148-155 | deletes a rule of an existing group of the profile |
| `AppsApi.PutLimitsCall` | crates/server/src/api/apps.rs:192-206 | the Blocked group's limits cannot be replaced |
| `AppsApi.ModeCall` | crates/server/src/api/apps.rs:242-247 | turning the mode on or off is exactly its policy step |
| `NewApps.NamedAppsAreBlocked` | crates/common/src/apps.rs:145-159 | an app Blocked names, and no other group, belongs to Blocked whatever its categories |
| `NewApps.OnlyNamedAppsAreBlocked` | crates/server/src/api/apps.rs:40-47 | only apps Blocked names belong to it |
| `NewApps.GuardAppRequest` | crates/server/src/app_usage.rs:126-151 | a request keeps new apps blocked unless it records an app of the profile under an untrimmed id, exactly |
| `NewApps.GuardDecision` | crates/server/src/api/apps.rs:259-268 | a decision keeps new apps blocked unless it puts an approved untrimmed id into another group, where the entry stored names a pending app, exactly |
| `NewApps.GuardMove` | crates/server/src/api/apps.rs:165-179 | a board move keeps new apps blocked unless it puts an untrimmed id into another group, where the entry stored names a pending app, exactly |
| `NewApps.GuardPostRule` | crates/server/src/api/apps.rs:137-146 | a new rule keeps new apps blocked unless it is an explicit entry for one of them in another group, exactly |
| `NewApps.GuardDropRule` | crates/server/src/api/apps.rs:148-155 | deleting a rule keeps new apps blocked unless it is Blocked's entry for one of them, exactly |
| `NewApps.GuardStep` | crates/server/src/api/apps.rs:109-268 | every call, trimmed ids or not, keeps new apps blocked and only there, except exactly the raw rule edits and untrimmed ids that break it |
| `NewApps.StepTrims` | crates/server/src/app_groups.rs:189 | every call keeps the values stored in rules trimmed |
| `NewApps.NewAppsStayBlocked` | crates/server/src/app_approvals.rs:1-8 | over every run of calls in any profile, new apps stay blocked throughout exactly when no call of it breaks the guard |
| `ConfigPush.BuildGroups` | crates/server/src/remaining.rs:187-205 | the pushed groups are the profile's groups in display order, each with exactly its rules, limits and extra time |
| `ConfigPush.BuildLimits` | crates/server/src/remaining.rs:197-202 | a pushed group has exactly its limit rows |
| `ConfigPush.ReplacingKeepsKeys` | crates/server/src/app_groups.rs:336-360 | replacing limits leaves one row per profile, group and day |
| `ConfigPush.BuildApproval` | crates/server/src/app_approvals.rs:185-194 | nothing with the mode off; otherwise known apps are approved and denied ones denied, nothing else |
| `ClosedApps.PushConfig` | crates/server/src/remaining.rs:146-229 | what the server builds from its tables is the configuration the statements about closed apps are about |
| `ClosedApps.BlockedGroupIsExhausted` | crates/agent/src/app_limits.rs:33-57 | Blocked is out of time on every day, whatever was used here or elsewhere and whatever extra time is sent |
| `ClosedApps.PendingAppIsBlocked` | crates/agent/src/app_enforce.rs:85-124 | a new app's process is closed as blocked, whatever the usage and whether the mode is on or off |
| `ClosedApps.ClosedForApproval` | crates/agent/src/app_enforce.rs:98-105 | with the mode on, exactly the processes not autostarted of apps the server does not know are closed for approval; with it off, none |
| `ClosedApps.TurningOnClosesNewApps` | crates/server/src/app_approvals.rs:34-70 | an app the server does not know is closed for approval exactly if the mode was turned on |
| `ClosedApps.NewAppsAreClosed` | crates/agent/src/app_enforce.rs:76-137 | end to end: at every point of a run in which no call breaks the guard, the agent's targets contain each process of a pending app, as blocked |
| `ClosedApps.NewAppIsBlocked` | crates/server/src/app_approvals.rs:72-92 | a new app requested under a trimmed id waits for the parents and belongs to Blocked, whatever its categories |
| `ClosedApps.ApprovedAppIsNotBlocked` | crates/server/src/app_approvals.rs:103-111 | once the parents allow an app, Blocked does not have it, whatever its categories |
| `ClosedApps.RefusedAppStaysBlocked` | crates/server/src/app_approvals.rs:103-111 | an app the parents keep blocked belongs to Blocked, whatever its categories, exactly if its id is trimmed |
| `ClosedApps.DecisionEndsTheNotice` | crates/server/src/app_approvals.rs:103-111 | a decision ends the app's notice and no other |
| `ClosedApps.MoveEndsTheNotice` | crates/server/src/api/apps.rs:165-179 | a board move ends the app's notice and no other exactly if it succeeds |
| `ClosedApps.TurningOnKeepsUsedApps` | crates/server/src/app_approvals.rs:34-70 | turning the mode on closes nothing the child has already used, except for its group's limit |
| `ClosedApps.UntrimmedAppIsNotNamed` | crates/server/src/app_groups.rs:189 | an app id with surrounding whitespace slips through the request: new apps stay guarded exactly if the id is trimmed |
| `BlockedMigration.SeedingGuards` | crates/server/src/app_groups.rs:84-110 | a freshly seeded profile is guarded |
| `BlockedMigration.SeedingBlocks` | crates/server/src/app_groups.rs:84-110 | a freshly seeded Blocked group blocks every day and names nothing |
| `BlockedMigration.SettleProfile` | crates/server/src/app_approvals.rs:199-212 | one profile: fails exactly at an app id that, trimmed, is none; otherwise its Blocked group exists and takes the denied and waiting apps, and other profiles keep theirs |
| `BlockedMigration.MoveIntoBlocked` | crates/server/src/app_approvals.rs:196-215 | fails exactly at an app id that, trimmed, is none; otherwise the same apps wait, every denied app counts as known and is in Blocked if its id is trimmed, and a profile is guarded exactly if its waiting ids are |
| `AppLimits.StatusIsOfLimitedGroups` | crates/agent/src/app_limits.rs:33-57 | exactly the groups with a limit that day are reported, with local and remote time added up |
| `AppLimits.OutOfTime` | crates/agent/src/app_limits.rs:20-57 | out of time means blocked, or the time used reaches the adjusted limit; a blocked day ignores extra time |
| `AppLimits.StatusMeans` | crates/agent/src/app_limits.rs:33-57 | used is the time here and elsewhere, and left is the limit with the extra time less that; a blocked day ignores extra time |
| `AppLimits.LimitOnMeans` | crates/agent/src/app_limits.rs:33-45 | the limit of a day is its first entry |
| `GroupWarnings.Warner.DueWarnings` | crates/agent/src/app_limits.rs:59-88 | the groups to warn about and their minutes left, and exactly which thresholds have fired afterwards |
| `GroupWarnings.MinutesLeftMeans` | crates/agent/src/app_limits.rs:71 | minutes left are the seconds left, rounded up |
| `GroupWarnings.FiredIsExact` | crates/agent/src/app_limits.rs:59-88 | a threshold counts as fired exactly when it was reached and the time left has not risen above it since |
| `GroupWarnings.WarningIsExact` | crates/agent/src/app_limits.rs:59-88 | a group in use is warned about exactly when some threshold is reached for the first time, or again after time was added |
| `GroupWarnings.SecondWarningIsTighter` | crates/agent/src/app_limits.rs:59-88 | while no time is added, a second warning means a tighter threshold was passed |
| `AppEnforce.Targets` | crates/agent/src/app_enforce.rs:76-137 | the targets, collected in one pass and marked in place in a second |
| `AppEnforce.WhoIsClosed` | crates/agent/src/app_enforce.rs:85-124 | exactly the managed children's processes, never ScreenGuard itself, that are unapproved or whose app's one group, by the categories it is shown with, is out of time; approval comes first, and key, names and reason say why |
| `AppEnforce.OwnMeansNamed` | crates/agent/src/app_enforce.rs:89-93 | ScreenGuard's own processes are those with its name in their name or path |
| `AppEnforce.CollectedAreTheTargets` | crates/agent/src/app_enforce.rs:85-124 | exactly the processes that have to be closed are targets |
| `AppEnforce.HelperMeansTargetedParent` | crates/agent/src/app_enforce.rs:126-135 | a target is not a top exactly when its parent is a target of the same app |
| `AppEnforce.EveryTargetHasATop` | crates/agent/src/app_enforce.rs:126-135 | with an acyclic parent relation every target leads, through targets of its app, to a top |
| `AppEnforce.TopIsReachedExactly` | crates/agent/src/app_enforce.rs:126-135 | a target leads, through targets of its app, to a top exactly when its chain of same-app parents has no cycle |
| `AppEnforce.OwnParentIsNoTop` | crates/agent/src/app_enforce.rs:126-135 | with a cycle nobody is asked: a process that is its own parent is never a top |
| `Closing.Closer.Advance` | crates/agent/src/app_enforce.rs:187-229 | one target's step: warn, SIGTERM, SIGKILL or nothing, and what is remembered |
| `Closing.Closer.Enforce` | crates/agent/src/app_enforce.rs:176-232 | a call's signals and notices are those of the recorded history, which grows by exactly this call |
| `Closing.StageHasStory` | crates/agent/src/app_enforce.rs:179-229 | a process has a stage exactly when it was targeted and alive without a break, and the stage says when and why |
| `Closing.KillIsExact` | crates/agent/src/app_enforce.rs:215-229 | SIGKILL goes exactly to the living processes that were marked Termed at least GRACE ago (with SIGTERM if a top) and were targeted and alive ever since |
| `Closing.TermIsSafe` | crates/agent/src/app_enforce.rs:203-223 | SIGTERM only for tops; at a limit only after an unbroken warning of GRACE or a notice within RELAUNCH_WINDOW |
| `Closing.TermIsExact` | crates/agent/src/app_enforce.rs:187-223 | SIGTERM goes exactly to the living tops with an unbroken warning of GRACE, and to those first targeted that are blocked, unapproved or told about within RELAUNCH_WINDOW |
| `Closing.NoticeIsExact` | crates/agent/src/app_enforce.rs:189-202 | the child is told exactly when a process is first targeted without a break and nothing was said about its group within RELAUNCH_WINDOW; ten seconds before a limit closes it, at once otherwise |
| `Closing.RecentlyToldIsExact` | crates/agent/src/app_enforce.rs:181-191 | the pruned memory knows exactly whether the child was told within RELAUNCH_WINDOW |
| `Closing.GraceIsSkippedExactly` | crates/agent/src/app_enforce.rs:191-214 | a process over its limit is closed on sight exactly when the child was told about its group within RELAUNCH_WINDOW, be it in the same call |
| `Closing.NoticesAreApart` | crates/agent/src/app_enforce.rs:189-202 | two notices about one user and group are at least RELAUNCH_WINDOW apart |
| `Closing.PruningIsInvisible` | crates/agent/src/app_enforce.rs:182 | pruning at ten windows gives the same signals and notices as never pruning |
| `Closing.OldNoticesAreForgotten` | crates/agent/src/app_enforce.rs:182 | exactly the notices of the last ten windows are kept |
| `Closing.KillIsReached` | crates/agent/src/app_enforce.rs:203-228 | a process that stays alive and targeted through three visits GRACE apart gets SIGKILL at the third |
| `Closing.SecondProcessSkipsGrace` | crates/agent/src/app_enforce.rs:191-214 | the second of two fresh processes of one group is closed in the very call that first tells the child |
| `LockTasks.TaskStory` | crates/agent/src/enforcement.rs:138-195 | what every phase of a lock task implies about its past |
| `LockTasks.KillIsJustified` | crates/agent/src/enforcement.rs:138-195 | a kill comes only from a task with preserve-off settings that warned if they give any grace, locked, waited the whole grace and then found its uid armed |
| `LockTasks.ArmedWhenKilled` | crates/agent/src/enforcement.rs:176-192 | the check and the kill are two steps: the uid is armed at the kill exactly if nothing disarmed it for good in between |
| `LockTasks.KillEndsTheTask` | crates/agent/src/enforcement.rs:188-195 | a task kills once: its next step ends it and disarms its user |
| `LockTasks.DisarmedIsSafe` | crates/agent/src/enforcement.rs:132-136 | once a uid is disarmed and not armed again, no task that had not passed its check kills it |
| `LockTasks.ArmedHasATask` | crates/agent/src/heartbeat.rs:763-803 | an armed uid's latest arming task is live or ended preserving the sessions |
| `LockTasks.NewArmingNewTask` | crates/agent/src/heartbeat.rs:763-792 | arming an unarmed uid spawns exactly one task |
| `LockTasks.OneTaskExactly` | crates/agent/src/heartbeat.rs:763-803 | a uid never has two live tasks exactly when every arming that spawns one finds none of its tasks live |
| `LockTasks.FullGraceSinceArming` | crates/agent/src/enforcement.rs:150-195 | a kill comes a whole grace after each arming of its uid that found no task of it live |
| `LockTasks.RearmingSharesTheOldGrace` | crates/agent/src/enforcement.rs:176 | lifting and setting a block again leaves two live tasks, and the old one kills without a new grace |
| `LockTasks.LiftAfterTheCheckIsTooLate` | crates/agent/src/enforcement.rs:176-192 | a block lifted between the check and the kill still costs the session |
| `LockAgent.Agent.RemainingUpdate` | crates/agent/src/heartbeat.rs:761-845 | each entry arms or disarms its user, in order |
| `LockAgent.OnlineEntry` | crates/agent/src/heartbeat.rs:761-822 | a Lock arms an unarmed user and spawns one task for it; any other entry lifts the lock |
| `LockAgent.UpdateSettles` | crates/agent/src/heartbeat.rs:761-822 | afterwards a user is armed exactly if the last entry is Lock; without an entry nothing changes |
| `LockAgent.Agent.OfflineBeat` | crates/agent/src/heartbeat.rs:1029-1085 | each entry without the server arms, lifts, or leaves a lock in place |
| `LockAgent.OfflineEntry` | crates/agent/src/heartbeat.rs:1029-1085 | a Lock arms and spawns as online, Allow lifts, a warning does nothing |
| `LockAgent.OfflineSettles` | crates/agent/src/heartbeat.rs:1029-1085 | afterwards a user is armed exactly if the last entry other than a warning is Lock |
| `LockAgent.Agent.HandleMidnight` | crates/agent/src/enforcement.rs:246-271 | midnight only arms |
| `LockAgent.MidnightSettles` | crates/agent/src/enforcement.rs:246-271 | armed are exactly those that were, and those with a Lock entry |
| `LockAgent.Agent.ConfigPush` | crates/agent/src/heartbeat.rs:624-643 | new settings are cached, then armed users without preservation are evicted |
| `LockAgent.EvictionSettles` | crates/agent/src/heartbeat.rs:624-643 | a push lifts exactly the locks of users it does not preserve the sessions of |
| `LockAgent.CachingSettles` | crates/agent/src/heartbeat.rs:624-643 | the settings cached are the last ones sent |
| `LockAgent.Agent.ArmUid` | crates/agent/src/heartbeat.rs:849-869 | arming an armed uid starts no second task |
| `LockAgent.Agent.ExecuteStep` | crates/agent/src/enforcement.rs:138-195 | one stretch of a lock task between two pauses, and the sessions it sets out to terminate, whether the calls succeed or not |
| `LockAgent.Agent.RunTask` | crates/agent/src/enforcement.rs:138-195 | a task's step sets out to terminate sessions exactly when it kills, and then all sessions of its uid |
| `LockAgent.WarningLiftsOnlyOnline` | crates/agent/src/heartbeat.rs:820-822 | a warning lifts a lock online and leaves it in place offline; the two agree exactly if the uid was not armed |
| `LockAgent.EvictionRestartsTheLock` | crates/agent/src/heartbeat.rs:624-643 | after preservation is switched off the next lock spawns a task that does not preserve |
| `PairingCodes.CodesMatch` | crates/server/src/api/agents.rs:131-135 | the accumulated byte difference is zero exactly when the normalised codes are equal |
| `PairingCodes.SeparatorsAndCaseDoNotMatter` | crates/server/src/api/agents.rs:123-129 | a separator anywhere and letter case leave a code the same |
| `PairingCodes.NormalizeIsStable` | crates/server/src/api/agents.rs:123-129 | normalising twice is normalising once |
| `PairingCodes.BytesStandFor` | crates/server/src/api/agents.rs:123-129 | a digit or capital letter stands for itself, a small letter for its capital, anything else for nothing |
| `PairingCodes.PlainCodesMatchExactly` | crates/server/src/api/agents.rs:131-135 | two codes of digits and capital letters match exactly if they are equal |
| `Pairing.Fits` | crates/server/src/ws.rs:153-161 | every handle belongs to a registered connection of its machine that no accept call has taken; each connection is taken once |
| `Pairing.FiveWrongCodesAtMost` | crates/server/src/api/agents.rs:154-168 | a pairing request takes at most five wrong codes |
| `Pairing.CountedWrongCodes` | crates/server/src/api/agents.rs:154-168 | a handle's counter is the number of wrong codes entered for it |
| `Pairing.OneDecisionByCode` | crates/server/src/api/agents.rs:141-178 | a connection is decided at most once, and only after a code matching its own was entered |
| `Pairing.CleanupRemovesItsOwn` | crates/server/src/ws.rs:170-177 | a closing connection removes its own handle and no other |
| `Pairing.WaitingIsReachable` | crates/server/src/ws.rs:153-177 | a waiting request keeps its handle unless it used up its codes, was superseded, or was taken |
| `Pairing.RequestKeepsPairings` | crates/server/src/db.rs:839-886 | a pairing request changes no token and no status of a paired or disabled agent |
| `Pairing.OneRowPerMachine` | crates/server/src/db.rs:839-886 | over every history a machine has one row, however often it asks |
| `Pairing.RequestedIsKnown` | crates/server/src/db.rs:839-886 | a request leaves its machine a row, a new pending one only if it had none |
| `Pairing.TokensComeFromCodes` | crates/server/src/db.rs:926-937 | an agent's token was given to a connection of its own machine after that connection's code was entered |
| `Pairing.PairedHasToken` | crates/server/src/db.rs:926-937 | a paired agent has a token |
| `Pairing.StoredMeansPaired` | crates/server/src/api/agents.rs:172-173 | over every history, once an accept call has stored its token, the row was given this token and no event of the handshake takes the pairing back |
| `Pairing.AcceptFailsExactly` | crates/server/src/api/agents.rs:172-177 | an accept call ends with nobody there, its agent paired all the same, exactly when its connection left before the decision was sent |
| `Pairing.FailedAcceptStillPairs` | crates/server/src/api/agents.rs:172-177 | an accept call can report that nobody is waiting and still leave the agent paired |
| `PairingServer.Server.UpsertAgentPending` | crates/server/src/db.rs:839-886 | inserts the agent or makes it pending unless it is paired or disabled |
| `PairingServer.Server.PairingRequest` | crates/server/src/ws.rs:132-150 | a request stores its row and opens one connection |
| `PairingServer.Server.RegisterHandle` | crates/server/src/ws.rs:152-161 | the request enters the map in place of an older one of its machine |
| `PairingServer.Server.EnterCode` | crates/server/src/api/agents.rs:141-170 | each answer exactly when: unknown agent, nobody waiting, wrong code with the exact number of attempts left, or accepted |
| `PairingServer.Server.StoreToken` | crates/server/src/api/agents.rs:172-173 | the agent is paired with the new token |
| `PairingServer.Server.SendDecision` | crates/server/src/api/agents.rs:174-177 | succeeds exactly if the call has stored its token and its connection still waits |
| `PairingServer.Server.CleanupHandle` | crates/server/src/ws.rs:170-177 | removes the handle only if it is still its own |
| `PairingServer.Server.ReceiveDecision` | crates/server/src/ws.rs:179-187 | the connection passes on the token it was sent |
| `UsageLink.AgentLog.AddUsageSeconds` | crates/agent/src/db.rs:653-668 | adds to the day's row and flags it for the next sync |
| `UsageLink.AgentLog.MarkUsageSynced` | crates/agent/src/db.rs:687-693 | flags the row as synced |
| `UsageLink.AgentLog.ResetUsageForDate` | crates/agent/src/db.rs:695-702 | zeroes an existing row |
| `UsageLink.ServerTotals.AddUsageSeconds` | crates/server/src/db.rs:1639-1660 | adds a delta |
| `UsageLink.ServerTotals.ReconcileUsageSeconds` | crates/server/src/db.rs:1662-1694 | takes a snapshot: only ever raises the total |
| `UsageLink.ServerTotals.TakeBeat` | crates/server/src/remaining.rs:26-48 | adds the positive deltas of known users with a profile |
| `UsageLink.ServerTotals.TakeSnapshot` | crates/server/src/ws.rs:320-331 | reconciles every entry of a known user |
| `UsageLink.Connection.SendHeartbeat` | crates/agent/src/heartbeat.rs:966-1031 | counts first, then sends when online |
| `UsageLink.Connection.SendUsageSync` | crates/agent/src/heartbeat.rs:1180-1209 | sends every unsynced row and marks it at once |
| `UsageSync.HandlingIsBounded` | crates/server/src/db.rs:1639-1694 | handling a message never lowers a total nor adds more than it says, and exactly that for a known user |
| `UsageSync.NothingIsInvented` | crates/server/src/db.rs:1639-1694 | what has arrived or can still arrive never exceeds what the agent counted |
| `UsageSync.ServerIsNeverAhead` | crates/agent/src/heartbeat.rs:966-1031 | the server never shows more screen time than the agent ever counted, whatever messages are lost |
| `UsageSync.ServerNeverForgets` | crates/agent/src/db.rs:695-702 | no event, the midnight reset included, lowers a total on the server |
| `UsageArrival.EverythingArrivesExactly` | crates/agent/src/heartbeat.rs:966-1031 | everything counted reaches the server, or still can, exactly when each count is in a surviving heartbeat or a later surviving snapshot of the whole total |
| `UsageArrival.ServerIsCompleteExactly` | crates/server/src/db.rs:1639-1694 | the server's total is all the time ever counted exactly when the messages it took cover it |
| `UsageArrival.LocalIsExact` | crates/agent/src/db.rs:695-702 | the agent's own total is all the time ever counted exactly while no reset came after time was counted |
| `UsageArrival.ResetCostsExactly` | crates/agent/src/db.rs:695-702 | after a reset everything arrives exactly when what came before it was sent before it and survived, and everything since is in surviving heartbeats |
| `UsageArrival.ResentExactly` | crates/agent/src/heartbeat.rs:1201-1206 | a row is due again exactly when time was counted for it, or the row reset, with no sync since; so a lost snapshot is sent again exactly then |
| `UsageArrival.LossCostsExactly` | crates/server/src/db.rs:1662-1694 | losing a message costs nothing exactly when a later snapshot on the channel carries the key or the message added nothing |
| `UsageArrival.SnapshotSettlesTheTotal` | crates/server/src/ws.rs:320-331 | right after a snapshot of the whole total is delivered, the total is the one it carried |
| `UsageArrival.SnapshotSettlesExactly` | crates/server/src/db.rs:1662-1694 | right after any snapshot is delivered the total is the one it carried exactly when the total before did not exceed it; only a reset before it was sent can make it exceed |
| `UsageSync.LosslessIsExact` | crates/agent/src/heartbeat.rs:966-1031 | without losses the two routes agree with the agent exactly |
| `UsageSync.LostSnapshotIsNotResent` | crates/agent/src/heartbeat.rs:1201-1206 | a row is marked when sent: a lost snapshot is not sent again until more time is counted |
| `UsageSync.ResetDropsWhatWasNotSent` | crates/agent/src/db.rs:695-702 | after the reset only what was on its way, and what is counted later, can still reach the server |
| `UsageSync.MidnightDropsOfflineTime` | crates/agent/src/db.rs:695-702 | time counted offline and not sent before midnight never arrives |
| `AppSyncLink.UsageServer.Ingest` | crates/server/src/app_usage.rs:26-124 | stores the larger value of each accepted entry, and says how many were stored and rejected |
| `AppSync.AcceptedExactly` | crates/server/src/app_usage.rs:36-55 | accepted are totals of known users, of days up to tomorrow, for apps and for groups of the profile |
| `AppSyncLink.UsageLog.AddUsage` | crates/agent/src/db.rs:502-514 | adds to the day's total and flags it |
| `AppSyncLink.UsageLog.MarkSynced` | crates/agent/src/db.rs:541-550 | marks a row only if it still holds what was sent |
| `AppSyncLink.Connection.SendAppUsageSync` | crates/agent/src/heartbeat.rs:1133-1178 | everything due is sent in chunks, all group totals with the first message; afterwards every row is flagged with the total it holds |
| `AppSync.DueExactly` | crates/agent/src/db.rs:516-540 | due are the totals of rows not synced, and of all rows since a given day |
| `AppSync.StoredIsTheLargest` | crates/server/src/app_usage.rs:26-124 | whatever was lost, repeated or reordered, a stored total is the largest delivered one, at most a day |
| `AppSync.StoredWasUsed` | crates/server/src/app_usage.rs:26-124 | a stored total never exceeds the time the agent counted, nor a day |
| `AppSync.SyncedWasSent` | crates/agent/src/db.rs:541-550 | a row flagged synced has had the total it holds sent |
| `AppSync.ReconnectCatchesUp` | crates/agent/src/heartbeat.rs:1133-1178 | after a reconnect sync fully delivered, every row since that day is on the server, exactly while nothing more is used |
| `UsageTimers.RunningMeansCounting` | crates/agent/src/heartbeat.rs:443-513 | a running timer belongs to a user that counts; while the computer is awake exactly those users' timers run |
| `UsageTimers.TimerRunsExactly` | crates/agent/src/heartbeat.rs:443-513 | while the computer is awake a timer runs exactly when a session of its user was last reported active, unlocked and not idle |
| `UsageTimers.SuspendedMeans` | crates/agent/src/heartbeat.rs:500-511 | the computer sleeps exactly when the last sleep event was a suspend |
| `UsageTimers.CountedAtMostRan` | crates/agent/src/heartbeat.rs:966-1003 | counted seconds and the running fraction never exceed the wall time the timer ran |
| `UsageTimers.BeatCountsWholeSeconds` | crates/agent/src/heartbeat.rs:985-992 | a covered beat counts the whole seconds its timer ran, up to one interval |
| `UsageTimers.RanIsCountedOrDropped` | crates/agent/src/heartbeat.rs:966-1003 | screen time is conserved: what a timer ran is counted, dropped by a stop or a late beat, or still running |
| `UsageTimers.BeatLeavesAFraction` | crates/agent/src/heartbeat.rs:59-72 | right after a beat at most an interval after the last, less than a second of what ran is neither counted nor dropped |
| `UsageTimers.CountedIsTheAdvance` | crates/agent/src/heartbeat.rs:59-72 | counted seconds are the timer's advance exactly when no beat came more than two intervals late |
| `UsageTimers.BeatMovesTimer` | crates/agent/src/heartbeat.rs:59-72 | a beat moves the timer by what it counts, and to now exactly after a gap of more than two intervals |
| `UsageClock.HeartbeatLoop.UpdateUsageTimer` | crates/agent/src/heartbeat.rs:40-57 | starts, stops or leaves the timer |
| `UsageClock.HeartbeatLoop.SessionStarted` | crates/agent/src/heartbeat.rs:456-465 | a new session counts only once its state is known |
| `UsageClock.HeartbeatLoop.SessionEnded` | crates/agent/src/heartbeat.rs:466-483 | the last session of a user takes the timer with it |
| `UsageClock.HeartbeatLoop.StateChanged` | crates/agent/src/heartbeat.rs:484-499 | a state update for an ended session is ignored |
| `UsageClock.HeartbeatLoop.PrepareForSleep` | crates/agent/src/heartbeat.rs:500-511 | suspend stops every timer; resume restarts exactly those that count |
| `UsageClock.HeartbeatLoop.CountBeat` | crates/agent/src/heartbeat.rs:979-1003 | a beat adds exactly the whole seconds each covered timer ran, up to one interval |
| `AppAccounting.Accounting.Seconds` | crates/agent/src/app_usage.rs:34-56 | whole seconds of the time since the last tick, at most two intervals, and of the remainder before, for users that count and have something running; other remainders are kept or dropped |
| `AppAccounting.TimeIsConserved` | crates/agent/src/app_usage.rs:34-56 | while a user counts, credited seconds plus the remainder are the capped elapsed time of the ticks with an app running |
| `AppAccounting.ConservedFromAFreshStart` | crates/agent/src/app_usage.rs:42-43 | a tick without counting drops the remainder; from there the account is exact with less than a second left over |
| `AppAccounting.CountGroups` | crates/agent/src/app_usage.rs:157-169 | exactly the groups of running apps get the tick, once each |
| `AppAccounting.GroupTimeIsBounded` | crates/agent/src/app_usage.rs:157-169 | a group gets at most the user's seconds and at least those of any member app |
| `AppScan.ProcScanner.Scan` | crates/agent/src/app_scan.rs:71-104 | an unreadable process table leaves the cache alone; otherwise each entry is reused or read once |
| `AppScan.ProcScanner.TakeEntry` | crates/agent/src/app_scan.rs:83-98 | a process that kept start time and name keeps its entry with its current parent; any other is read in full |
| `AppScan.ScanIsExact` | crates/agent/src/app_scan.rs:71-149 | a scan equals a fresh one exactly when the cache before it holds no process of the users asked for without its details |
| `AppScan.ScanEqualsFreshScan` | crates/agent/src/app_scan.rs:71-149 | over every run with stable details and no newly managed user each scan equals a fresh one |
| `AppScan.MissedExactly` | crates/agent/src/app_scan.rs:71-149 | over every run with stable details, a scan misses exactly the processes whose user was not managed at the look that first saw them |
| `AppScan.RunIsExact` | crates/agent/src/app_scan.rs:71-149 | so it equals a fresh scan exactly when every process was first seen while its user was managed |
| `AppScan.NewlyManagedIsMissed` | crates/agent/src/app_scan.rs:114-121 | what a user already runs when becoming managed is missed |
| `ScreenTime.CalculateRemaining` | crates/server/src/remaining.rs:26-140 | the server's action and remaining minutes: the limit, extra time and usage, cut at the earliest end of the windows that hold the instant; none outside all windows |
| `ScreenTime.OfflineMeans` | crates/agent/src/enforcement.rs:33-93 | the agent goes by the first window that holds the instant and by what is left of the limit |
| `ScreenTime.OutsideMeansLock` | crates/agent/src/enforcement.rs:62-65 | outside all windows the agent locks |
| `ScreenTime.FirstMatchIsOne` | crates/agent/src/enforcement.rs:40-60 | offline, the window that decides holds the instant, both ends included, and no earlier one does |
| `ScreenTime.ActiveEndIsEarliest` | crates/server/src/remaining.rs:258-273 | online, the earliest end of the windows that hold the instant decides, ends excluded |
| `ScreenTime.DecideAlike` | crates/agent/src/enforcement.rs:33-93 | with a limit set and windows that end together where they meet, both sides decide alike at every instant |
| `ScreenTime.AgreementIsExact` | crates/server/src/remaining.rs:50-128 | both sides agree for every order, instant, limit, usage and threshold exactly when windows that meet end together |
| `ScreenTime.OverlapDisagrees` | crates/agent/src/enforcement.rs:45-53 | at the end of a window that another outlasts, the agent may lock while the server allows |
| `ScreenTime.NoLimitIsExact` | crates/server/src/remaining.rs:55-75 | without a limit for the day the two sides agree exactly while a full day less the usage covers the window |
| `ScreenTime.OfflineIsNeverStricter` | crates/agent/src/enforcement.rs:33-93 | with no more local usage than the server's sum, offline is never stricter |
| `ScreenTime.NeverStricterIsExact` | crates/agent/src/enforcement.rs:33-93 | whatever was used here and elsewhere and in whatever order windows are stored, offline is never stricter exactly when windows that meet end together |
| `DnsFilter.ParseQname` | crates/agent/src/dns_proxy.rs:168-195 | the name in the packet or nothing, within bounds for any bytes |
| `DnsFilter.ReadsWhatIsWritten` | crates/agent/src/dns_proxy.rs:174-190 | the labels read are exactly those whose wire form stands in the packet (sections 3.1 and 4.1.2 of RFC 1035) |
| `DnsFilter.DottedNameIsExact` | crates/agent/src/dns_proxy.rs:190-194 | the dotted name keeps its labels apart exactly when none of them contains a dot |
| `DnsFilter.CoversMeansSuffix` | crates/agent/src/dns_proxy.rs:216-222 | the string test means label-wise subdomain matching, for any blocklist entry |
| `DnsFilter.TrimDotsDropsDots` | crates/agent/src/dns_proxy.rs:216-219 | trailing dots are dropped, and nothing else |
| `DnsFilter.ToLowerMeans` | crates/agent/src/dns_proxy.rs:187 | ASCII capitals become small letters, and nothing else changes |
| `DnsFilter.BlockedMeansSubdomain` | crates/agent/src/dns_proxy.rs:212-222 | a name is blocked exactly when the labels of some entry are its last labels |
| `DnsFilter.QueryIsBlockedByLabels` | crates/agent/src/dns_proxy.rs:138-152 | from packet to verdict: the name is the joined labels and the verdict is label-wise |
| `DnsFilter.VerdictIsLabelWiseExactly` | crates/agent/src/dns_proxy.rs:190-222 | for every blocklist the verdict is label-wise, exactly when no label contains a dot |
| `DnsFilter.HostNamesAreDotFree` | crates/agent/src/dns_proxy.rs:187 | labels of ASCII bytes other than a dot are non-empty and dot-free once decoded |
| `DnsFilter.DottedLabelReadsAsTwo` | crates/agent/src/dns_proxy.rs:187-194 | one label spelled with a dot reads as two |
| `DnsFilter.MakeNxdomain` | crates/agent/src/dns_proxy.rs:197-210 | a copy of the query with the response bit, the code and zeroed counts |
| `DnsFilter.NxdomainAnswersTheQuery` | crates/agent/src/dns_proxy.rs:197-210 | the answer keeps the query's id, name and question count, is a response with the code, and has no records |

## Left out

- Sockets, WebSockets, D-Bus, nftables, real signals, notifications and logging: foreign input and
  output. Signals and notices are outputs, and what the system answers is a parameter.
- SQL, connection pools and migrations v1 to v15: only the effect of each query on its table is
  modelled. Each call runs as one step on the tables; a call that fails keeps what it wrote before.
- NewApps.GuardStep: a new group gets an unused id, and the profile of a call exists; rules start out
  trimmed, as every call keeps them (`StepTrims`).
- Locking an armed user's screen again and unlocking it: they do not touch the set of armed users.
- Which agents are told of a new configuration version: the agent is taken to hold the configuration
  built from the state a statement names.
- LockTasks.KillIsJustified: says the uid was armed at the check, not at the kill itself;
  `ArmedWhenKilled` gives the exact condition for the kill.
- UsageArrival.SnapshotSettlesTheTotal: for snapshots of everything counted so far;
  `SnapshotSettlesExactly` covers every other. Heartbeats are dated alike by both sides.
- AppSyncLink.UsageServer.Ingest: names, icons and categories stored with an entry are not modelled.
- ScreenTime.CalculateRemaining: the answer for unmanaged users, storing the reported usage and
  converting the schedule to the agent's time zone are not modelled.
- AppSync.StoredIsTheLargest: names, icons and categories that travel with the totals are not modelled.
- ScreenTime.AgreementIsExact: equal time zones; converting a schedule between zones is not modelled,
  nor is the overflow of 32-bit minutes.
- DnsFilter.ParseQname: decoding bytes that are not ASCII is a parameter.
- AppGroups.SortIsDisplayOrder: names are compared in ASCII lower case, not in full Unicode.
- Pairing.StoredMeansPaired: says nothing of administrators who delete the agent or set its status;
  those calls are no events of the handshake.
- Pairing.RequestKeepsPairings: deleting agents, disabling them by hand and the tenant part of the
  map's key are not modelled.
- `verify_agent_token` and sign-in: who may call is decided before the modelled calls start.
- `group_usage_elsewhere`, `group_totals`, usage reports and the catalogue's names and icons: they show
  stored totals and change nothing; what an agent is told of usage elsewhere is a parameter.
- Process identification, `.desktop` files, translations, the tray, the HTML and JavaScript boards,
  passwords and tokens' cryptography: no independent specification to prove them against.

# StandSync service model

StandSync collects daily standups from the members of a team, sums them up in a digest, reminds
those who have not posted, and delivers both to a webhook. This project models the services
behind that, in Dafny, and proves what holds of them over every run.

A service call is split wherever it awaits, so that other calls, deliveries and deaths of
processes come between its check, its reads and its writes. What the code promises only while
nothing comes between is stated with the exact condition under which it holds, and with a run in
which it fails (`RefreshRaces`, `TeamRaces`).

- **Digests, reminders and deliveries** (`Outbox*`, `DedupeKeys`, `Attendance`,
  `DigestAttendance`). Any number of `generate`, `send`, `resend` and `deliver` calls interleave
  over the tables and the queue, with database failures, dying processes and webhooks that
  answer anything. `Outbox` is the step relation, `OutboxInvariant` what every step keeps,
  `OutboxLedger` an account of what really happened to each delivery, and `OutboxTheorems`,
  `OutboxContents` and `OutboxOrigins` the guarantees. `DigestAttendance` runs it beside submissions and edits.
- **Standups and their listings** (`Standups`, `LateStandups`, `StandupTexts`, `Listings`, `Keyset`,
  `Paging`, `LiveListing`). Pages are cut by cursor from the table as it then is, and compared with the whole filtered and
  sorted listing.
- **CSV export** (`Csv`): the printer, a reader for section 2 of RFC 4180 that also takes a bare
  line feed, and the round trip between them.
- **Refresh tokens** (`RefreshTokens`, `RefreshPaths`, `RefreshPathTheorems`, `RefreshSchedules`,
  `RefreshGuarantees`, `RefreshChecks`, `RefreshRaces`): rotation with reuse detection (section 4.14.2 of RFC 9700), logout and
  password resets.
- **Job schedulers** (`Scheduler*`, `ReminderTime`, `Calendar`): the registry as an index derived
  from the teams and their configurations, down to the minute each job fires.
- **Teams** (`Teams`, `TeamTheorems`, `SeatTheorems`, `TeamRaces`): ownership, roles, invitations.
- **Weekly report** (`Reports`, `ReportedBlockers`, `Rates`, `Blockers`, `WorkingDays`).

`OutboxService`, `AuthService` and `TeamService` are the services' own code over tables it updates
in place. Their `Valid` says that the tables are what a run of the steps has made of them, so that
every theorem about runs holds of them; every method keeps it, the methods for single steps say
which step they take, and the methods for whole calls say what they achieve when nothing
interrupts them. In `SchedulerOperations` and `Standups`, `Valid` is the agreement of the registry
and the unique index.

Points where the code promises less than one might expect, or where its sources disagree:

- The Prisma schema shows no unique key on standups, but the migration that creates the table adds
  a partial unique index. The model follows the migration; the index is what makes
  `Standups.OneStandupPerDay` true, since the check in `submit` alone would not
  (`Standups.TheCheckAloneIsNotEnough`).
- The five tries of the queue and the five attempts of a delivery are coupled only as long as no
  run is lost to a failing database. The account in `OutboxTheorems.DeliveryAccount` holds with
  failures too; `StrandedExactlyByLostRuns` and `LostRunsStrand` say when a delivery is left pending
  for good, and `UncommittedSuccessIsPostedAgain` when a webhook that answered ok is called again.
- A rotation that has passed its check carries on whatever happens to its family meanwhile, so two
  presentations of one token can leave two live ones, and reuse detection, logout and resets are
  final exactly if no rotation was in flight (`RefreshPathTheorems`, `RefreshGuarantees`,
  `ResetGuarantees`); `RefreshRaces` has the runs. If rotations of a family do not overlap, all is as
  intended (`RefreshSchedules`). A reset link is accepted again by calls that had checked it before.
- A standup created late can be edited after all if the team's clock is set back over the deadline,
  and only then (`LateStandups.LateFreezeExactly`).
- Overlapping updates of a team's configuration can leave the older one registered
  (`SchedulerTheorems.OverlapLeavesOlder`), and the reconciliation at boot repairs the registry if
  and only if no job of a deleted team is left in it (`Scheduler.BootRepairsExactly`).
- Overlapping invitations to one address can leave two pending, and an acceptance can overwrite a
  revocation (`TeamTheorems.OnePendingInvitation`, `TeamTheorems.InvitationsSettle`, `TeamRaces`).
- Role updates and removals read the actor's membership twice, in the guard and in the service. An
  administrator demoted in between can change another one's seat
  (`SeatTheorems.AdministratorsAtTheCheck`).
- A digest's missing count and its list of missing members are computed independently and agree
  only under the condition in `DigestAttendance.MissingListOfDigest`.

Run `dafny verify dfyconfig.toml` to check everything.

## Model

| member | source | states |
|---|---|---|
| `OutboxRuns.RunHasInv` | apps/api/src/modules/digest/digest.service.ts:52-179 | After every run of interleaved calls and delivery jobs: unique keys hold, digests and statistics exist for the same days with the same counts, rows refer to what exists, a digest is sent exactly with a successful delivery, attempts stay in their budget, and every job agrees with its row. |
| `OutboxTheorems.CreatedAtMostOnce` | apps/api/src/modules/digest/digest.service.ts:129-168 | However calls interleave, there is one digest per team and day, and one delivery per text of a dedupe key, so one reminder per team, day and kind. |
| `Outbox.TakenKeyByText` | apps/api/prisma/migrations/20260731065638_digests_and_outbox/migration.sql:59 | A key is taken in the database, which compares texts, exactly if it is taken as a value. |
| `OutboxTheorems.DigestsAndStatsCorrespond` | apps/api/src/modules/digest/digest.service.ts:130-165 | Each digest has exactly one daily statistic of its team and day, with equal submitted, missing and late counts, and each statistic has a digest. |
| `OutboxTheorems.CommitIsAllOrNothing` | apps/api/src/modules/digest/digest.service.ts:129-172 | A commit that finds a digest for its day leaves no row behind; any other writes the digest, the statistic and, with a webhook, the delivery, and awaits its enqueue. |
| `OutboxInvariant.OnlyTheDigestConflicts` | apps/api/prisma/migrations/20260731065638_digests_and_outbox/migration.sql:56-68 | Of the three unique keys the transaction could violate, the digest's alone decides: the other two are never taken without it. |
| `OutboxContents.DigestTellsWhatWasRead` | apps/api/src/modules/digest/digest.service.ts:87-165 | The committed digest and statistic say what the call had read: the standups in their order, the numbers of standups, of members and of late standups, participation, and exactly the members without a standup. |
| `OutboxContents.DigestsKeepTheirContent` | apps/api/src/modules/webhooks/webhooks.service.ts:93-100 | Over any continuation of a run a digest is never deleted or unsent, and only its status ever changes. |
| `OutboxContents.ReminderGoesToTheMissing` | apps/api/src/modules/reminders/reminders.service.ts:74-118 | A reminder is created exactly if some member has not posted and none of its kind exists for the day; its payload lists exactly the members who have not. |
| `OutboxContents.RunErrorsTell` | apps/api/src/modules/webhooks/webhooks.service.ts:105-118 | In every run a delivery carries an error exactly while its last attempt failed, of at most 500 characters. |
| `OutboxTheorems.SettledForGood` | apps/api/src/modules/webhooks/webhooks.service.ts:37-39 | A delivery that is SUCCESS or FAILED never changes again, and no delivery changes its identity or is deleted. |
| `OutboxTheorems.SentExactlyWhenDelivered` | apps/api/src/modules/webhooks/webhooks.service.ts:78-102 | A digest is SENT exactly when a delivery carrying its id is SUCCESS, however generate, resend, reminder and deliver steps interleave; it never becomes FAILED. |
| `OutboxTheorems.PayloadIsNeverMissing` | apps/api/src/modules/webhooks/webhooks.service.ts:41-62 | A reachable delivery can fail to be posted only for want of an address: the branch for a missing payload is dead. |
| `OutboxTheorems.DeliveryAccount` | apps/api/src/modules/webhooks/webhooks.service.ts:64-140 | The exact account of every delivery, faults included: requests, attempts, answers, lost outcomes and the queue's failed runs add up; a settled delivery has a job left only if a worker died after recording; and no job is started more than five times but for dead workers. |
| `OutboxTheorems.FaultlessDelivery` | apps/api/src/modules/webhooks/webhooks.service.ts:105-127 | Without lost outcomes at most five requests are made, at most one is answered ok, and one is if and only if the row says SUCCESS; also where workers die after recording and the job is run again. |
| `OutboxTheorems.StrandedExactlyByLostRuns` | apps/api/src/modules/webhooks/webhooks.module.ts:10-15 | A pending, enqueued delivery has a job, whose five tries are used up exactly when its attempts and its lost runs, less the runs the queue never heard of, make five; without lost runs they never are. |
| `OutboxTheorems.LostRunsStrand` | apps/api/src/modules/webhooks/webhooks.module.ts:10-15 | From any runnable job, runs that fail before the row can be read use up its tries and leave its delivery as it was: the coupling does fail with database failures. |
| `OutboxTheorems.UncommittedSuccessIsPostedAgain` | apps/api/src/modules/webhooks/webhooks.service.ts:102-127 | A request that was answered ok but could not be recorded leaves the delivery pending and its job to be run again, unless the attempts or tries are used up. |
| `OutboxTheorems.RunBalanced` | apps/api/src/modules/webhooks/webhooks.service.ts:28-128 | Row, job and account of each delivery agree after every run: the equations behind the account above. |
| `OutboxOrigins.DigestsAreCalledFor` | apps/api/src/modules/digest/digest.service.ts:30-62 | Whatever overlaps, every digest was called for while its team was configured and active, on a working day of the team's that had no digest yet. |
| `OutboxOrigins.DeliveriesAreCalledFor` | apps/api/src/modules/reminders/reminders.service.ts:25-64 | Every delivery was called for as its key says: a digest's and a reminder's while the team was active and had an address, on one of its working days; a resent one with an address and a text that reads as its digest's day. |
| `OutboxOrigins.ErrorsWereThrown` | apps/api/src/modules/webhooks/webhooks.service.ts:105-118 | The error text of a delivery is what its last failed request threw, cut to its first 500 characters. |
| `OutboxReached.ReachedIsRun` | apps/api/src/modules/webhooks/webhooks.service.ts:28-128 | A state that the class below has come to step by step is the state after the run of those steps, so that everything above holds of it. |
| `OutboxService.Backend.Generate` | apps/api/src/modules/digest/digest.service.ts:26-179 | An uninterrupted `generate` creates a digest exactly if the team is configured and active, the weekday is one of its working days and the day has none, and gives each refusal its own reason; the digest comes with its statistic, what was read, and, with an address, its delivery and job. |
| `OutboxService.Backend.CommitDigest` | apps/api/src/modules/digest/digest.service.ts:129-168 | The transaction, in any reachable state, succeeds exactly if the day has no digest; then all rows are there and say what was read, and otherwise none. |
| `OutboxService.Backend.CreateDelivery` | apps/api/prisma/migrations/20260731065638_digests_and_outbox/migration.sql:59 | The insert, which compares texts, is refused exactly if the dedupe key is taken, and then changes nothing. |
| `OutboxService.Backend.Resend` | apps/api/src/modules/digest/digest.service.ts:181-230 | An uninterrupted `resend` gives each error for its own reason and then changes nothing; or it adds one delivery, with a job, of the digest of the date. |
| `OutboxService.Backend.CheckResend` | apps/api/src/modules/digest/digest.service.ts:182-219 | The checks in their order; what passes them is the only digest of the team and day. |
| `OutboxService.Backend.Send` | apps/api/src/modules/reminders/reminders.service.ts:21-118 | An uninterrupted `send` creates a reminder, with a job, exactly for an active team with an address, on one of its working days, with none of the kind yet and someone who has not posted, and gives each refusal its own reason; it goes to those who have not. |
| `OutboxService.Backend.InsertReminder` | apps/api/src/modules/reminders/reminders.service.ts:74-118 | From the snapshot on, in any reachable state: a reminder is created exactly if someone has not posted and its key is free. |
| `OutboxService.Backend.BeginDelivery` | apps/api/src/modules/webhooks/webhooks.service.ts:28-62 | `deliver` up to its request, in any reachable state: a request is made exactly for a pending delivery with an address; one without fails, one settled is left alone. |
| `OutboxService.Backend.FinishRefused` | apps/api/src/modules/webhooks/webhooks.service.ts:105-127 | The catch branch leads to one state, whether the request was refused or its success could not be recorded: an attempt more, and the queue's try with it unless it was the last. |
| `OutboxService.Backend.Deliver` | apps/api/src/modules/webhooks/webhooks.service.ts:28-140 | An uninterrupted `deliver` settles its delivery with an ok answer, on the fifth attempt or without an address, notes the error or clears it, marks its digest sent on success, and touches nothing else; after any other attempt the queue keeps the job. |
| `DedupeKeys.KeyRoundTrip` | apps/api/src/modules/digest/digest.service.ts:226 | Every dedupe key can be read back from its text, if ids have no colon. |
| `DedupeKeys.KeyTextInjective` | apps/api/src/modules/reminders/reminders.service.ts:50 | Digest, resend and reminder keys have the same text only if prefix, team, day and kind or uuid agree. |
| `Attendance.MissingListAgainstCount` | apps/api/src/modules/digest/digest.service.ts:87-96 | The missing list is at least as long as the missing count, and as long exactly if the authors of the standups are distinct current members. |
| `Attendance.BothInOrder` | apps/api/src/modules/digest/digest.service.ts:93-96 | The missing members and the others are picked from the members at positions that go up. |
| `DigestAttendance.AuthorsAreDistinct` | apps/api/prisma/migrations/20260730162654_standups/migration.sql:30-32 | The standups of a team and day, as read at any moment of any run of submissions and edits, have distinct authors. |
| `DigestAttendance.MissingListOfDigest` | apps/api/src/modules/digest/digest.service.ts:62-96 | Whatever is submitted while it is composed: a digest's missing list is as long as its missing count exactly if every author it read was among the members it read, and else longer. |
| `Attendance.TodayBoard` | apps/api/src/modules/standups/standups.service.ts:188-234 | The board's loop: pending is the digest's missing list, submitted are the standups of the others, each author's last; both follow the order of the members, as positions in it, and together they account for them. |
| `Attendance.NobodyPendingMeansAllSubmitted` | apps/api/src/modules/reminders/reminders.service.ts:74-83 | The list a reminder is sent for is empty exactly if all members have posted. |
| `Standups.OneStandupPerDay` | apps/api/prisma/migrations/20260730162654_standups/migration.sql:30-32 | No member has two standups for a day, however submissions interleave between their check and their write. |
| `Standups.TheCheckAloneIsNotEnough` | apps/api/src/modules/standups/standups.service.ts:52-65 | Two submissions of one member can both pass the check, for the same day; the index refuses the second. |
| `LateStandups.LateFreezeExactly` | apps/api/src/modules/standups/standups.service.ts:26-123 | Standups created late are never edited, in any run, exactly if no team's clock is ever set back over its deadline within a working day, as may happen when summer time ends. |
| `LateStandups.LateStandupsAreFrozen` | apps/api/src/modules/standups/standups.service.ts:98-123 | So with clocks that do not run backwards a standup created late is never edited. |
| `LateStandups.FrozenExactly` | apps/api/src/modules/standups/standups.service.ts:78-123 | Any standup is never changed again exactly if no later instant is on its own local day and not past the deadline, and no edit that has passed its checks is still to change it. |
| `Standups.RowsEvolve` | apps/api/src/modules/standups/standups.service.ts:65-123 | From any moment of a run to any later one no row is lost or changes its id, team, user, day or flags. |
| `Standups.LateMeansPastDeadline` | apps/api/src/modules/standups/standups.service.ts:63 | The comparison of texts that sets the late flag is the comparison of the times of day. |
| `Standups.StandupTable.Submit` | apps/api/src/modules/standups/standups.service.ts:26-76 | Each error exactly in its case, on the tables and the clock; or a row with the texts, user and team of the request, the local day and the late flag is added. The index and the other rows are kept. |
| `Standups.StandupTable.Update` | apps/api/src/modules/standups/standups.service.ts:78-124 | Each error exactly in its case; or each text that was given is as given, and nothing else has changed. The index is kept, and a row whose window is shut is left alone. |
| `StandupTexts.TextsAreGiven` | apps/api/src/modules/standups/standups.service.ts:65-123 | Whatever overlaps, each text of a standup is the one given by its submission, or by the last edit written that gave one. |
| `StandupTexts.RowsAreSubmitted` | apps/api/src/modules/standups/standups.service.ts:26-76 | Every standup was submitted under its id by its user to its team, on the local day and with the lateness it has, when its checks passed. |
| `Listings.ListingIsUnique` | apps/api/src/modules/standups/standups.service.ts:339 | A set of rows has one listing only in descending order of day and id. |
| `Listings.RestOfListing` | apps/api/src/modules/standups/standups.service.ts:331-334 | What is past the position of a listing's n-th row is the rest of that listing. |
| `Keyset.PageCountIsQuotient` | apps/api/src/modules/standups/standups.service.ts:356-361 | The number of pages is one, or the number of rows divided by the limit and rounded up. |
| `Keyset.ReturnedAtMostOnce` | apps/api/src/modules/standups/standups.service.ts:302-367 | No row is returned twice by a walk over a table that changes between the fetches, finished or not. |
| `Keyset.WalkIsExact` | apps/api/src/modules/standups/standups.service.ts:302-367 | A finished walk returns each row that was there and matched throughout exactly once. |
| `Paging.CursorRoundTrip` | apps/api/src/modules/standups/standup-cursor.util.ts:8-40 | A cursor leads back to the position it was made from exactly if that position's id is not empty. |
| `Paging.AcceptedCursor` | apps/api/src/modules/standups/standup-cursor.util.ts:17-40 | A cursor is accepted exactly if it decodes to an id that is not empty and a text that reads as a day, and then for that position. |
| `Paging.WalkFollowsPositions` | apps/api/src/modules/standups/standups.service.ts:327-361 | Following cursor texts is following positions: every cursor given out is understood. |
| `Paging.FrozenWalk` | apps/api/src/modules/standups/standups.service.ts:302-367 | On an unchanging table, for any filter and limit, the pages put together are the whole filtered listing; all but the last are full, and their number is the listing's length divided by the limit and rounded up, or one. |
| `Paging.QueryAnswered` | apps/api/src/modules/standups/standups.service.ts:314-361 | On an unchanging table a request returns exactly the rows of its team that are not deleted, of the user and the day if they are given, with the text and the blocker in them, in small letters or capitals, if those are given and not blank; newest day first, and largest id. |
| `Paging.ReturnedRowsAnswer` | apps/api/src/modules/reports/reports.service.ts:151-229 | Over a table that changes, every row returned was in it at some request and answers the query so. |
| `Paging.LiveWalk` | apps/api/src/modules/reports/reports.service.ts:151-229 | For `search` as for `list`, over a table that changes: positions go strictly down, and a complete walk returns every row that matched throughout exactly once. |
| `Paging.ListMatchesForGood` | apps/api/src/modules/standups/standups.service.ts:314-325 | A row that matches a query of `list` at the first fetch matches at every fetch. |
| `LiveListing.RunsAreHistories` | apps/api/src/modules/standups/standups.service.ts:65-123 | What successive fetches see during a run of submissions and edits is a table that only grows and whose rows keep their keys. |
| `LiveListing.ListDuringRun` | apps/api/src/modules/standups/standups.service.ts:302-367 | `list` followed to its last page during any run of submissions and edits returns every standup that was there and asked for at the first request exactly once, in strictly descending order. |
| `Csv.EscapedField` | apps/api/src/modules/export/standups-csv.util.ts:11-16 | Any text at all, escaped, is read back as one field with that text. |
| `Csv.CsvRoundTrip` | apps/api/src/modules/export/standups-csv.util.ts:18-44 | Reading the export by section 2 of RFC 4180 gives the header and one record of eight fields per row, with the original values. |
| `Csv.ColumnsTell` | apps/api/src/modules/export/standups-csv.util.ts:18-44 | Read back, the export has a header, and every record has the values of its row under the names of the columns; the day and the instant are read back from their texts. |
| `Csv.CsvInjective` | apps/api/src/modules/export/standups-csv.util.ts:18-44 | Two exports are the same text exactly if their rows agree, absent and empty blockers counting as equal. |
| `RefreshPaths.IssuedIsFamily` | apps/api/src/modules/auth/auth.service.ts:205-229 | Whatever overlaps, the tokens issued to a family are its tokens, each once, all of one user. |
| `RefreshPaths.FamilySize` | apps/api/src/modules/auth/auth.service.ts:293-303 | Whatever overlaps, a used family has one token more than rotations have created in it. |
| `RefreshPaths.ReplacedIsRevoked` | apps/api/src/modules/auth/auth.service.ts:293-303 | Whatever overlaps, every replaced token is revoked. |
| `RefreshPathTheorems.FamilyIsPath` | apps/api/src/modules/auth/auth.service.ts:293-303 | The tokens of a family are one path in order of issue, each but the last replaced by the next and revoked, or just about to be, exactly if no token was given two successors and no call died between creating and linking one. |
| `RefreshPathTheorems.AtMostOneLive` | apps/api/src/modules/auth/auth.service.ts:249-303 | A family has at most one token that is live and not about to be replaced, at every moment of a run, exactly if no call overtaken between its steps has added one to another. |
| `RefreshSchedules.ApartKeepsOnePath` | apps/api/src/modules/auth/auth.service.ts:245-312 | If no two rotations of a family overlap and none dies between its two writes, whatever logouts, resets and reuse come between: the family is a path, one token at most can be rotated at every moment, and between rotations one at most is unrevoked. |
| `RefreshPathTheorems.OvertakingDoubles` | apps/api/src/modules/auth/auth.service.ts:249-303 | A rotation whose token was revoked or replaced since its check adds a second such token to a family that has one, as does a call that dies before its update. |
| `RefreshPathTheorems.OvertakenByOverlap` | apps/api/src/modules/auth/auth.service.ts:249-303 | A rotation waiting with a token that can no longer be rotated was overlapped: while it waited, another call was replacing the token or a step revoked it. |
| `RefreshRaces.OverlappingRotations` | apps/api/src/modules/auth/auth.service.ts:249-303 | Two overlapping presentations of one live token leave two tokens that can be rotated, with nothing in flight, and the family no path: of any live token, at any time. |
| `RefreshRaces.DyingRotation` | apps/api/src/modules/auth/auth.service.ts:293-303 | A process that dies between the two writes of a rotation leaves both tokens usable. |
| `RefreshGuarantees.DeadForGoodExactly` | apps/api/src/modules/auth/auth.service.ts:245-325 | A family without an unrevoked token never has one again, exactly if no rotation of it is past its check. |
| `RefreshGuarantees.ReuseKillsFamily` | apps/api/src/modules/auth/auth.service.ts:262-272 | Presenting a revoked token, and logging out, leave the family without an unrevoked token: for good exactly if no rotation of it was past its check. |
| `RefreshRaces.ReuseOvertaken` | apps/api/src/modules/auth/auth.service.ts:262-303 | A rotation in flight survives reuse detection: from any live token, a run in which reuse leaves the family without a live token and afterwards it has one. |
| `ResetGuarantees.ResetEndsSessions` | apps/api/src/modules/auth/auth.service.ts:428-442 | Every unrevoked token a user has after a reset is of a family opened since, at all times, exactly if no rotation of the user's tokens was past its check at the reset. |
| `ResetGuarantees.OldTokensAreRefused` | apps/api/src/modules/auth/auth.service.ts:245-272 | A token the user had at a reset and presents afterwards is refused, ever after, as reuse if its signature verifies. |
| `ResetGuarantees.UsedMeansCommitted` | apps/api/src/modules/auth/auth.service.ts:415-436 | A reset record is marked used exactly if it was accepted. |
| `ResetGuarantees.OnlyWaitersCommit` | apps/api/src/modules/auth/auth.service.ts:415-442 | Once used, a record is accepted again only by calls that had passed its check by then, each once at most. |
| `ResetGuarantees.UsedLinkIsSpent` | apps/api/src/modules/auth/auth.service.ts:415-442 | A used reset link works never again, exactly if no other call is between its check and its transaction. |
| `RefreshRaces.ResetOvertaken` | apps/api/src/modules/auth/auth.service.ts:249-303 | A rotation in flight survives a password reset: from any live token, a run in which the reset leaves the user no live token and afterwards a family from before has one. |
| `RefreshRaces.LinkUsedTwice` | apps/api/src/modules/auth/auth.service.ts:414-442 | Two overlapping resets with one link are both accepted. |
| `RefreshChecks.RotationsWerePresented` | apps/api/src/modules/auth/auth.service.ts:245-291 | Every rotation under way was let in with a signed and known token, unrevoked and not past its expiry then, of a user there is. |
| `RefreshChecks.TokensAreIssued` | apps/api/src/modules/auth/auth.service.ts:205-229 | Every token comes from a login or a rotation, in which an unrevoked and unexpired token of its user and family was presented; it expires when that said. |
| `RefreshChecks.AcceptedResetsWereInTime` | apps/api/src/modules/auth/auth.service.ts:415-442 | Every accepted reset presented its link before, unused then and not past the expiry the link was sent with. |
| `AuthService.AuthTables.IssueTokens` | apps/api/src/modules/auth/auth.service.ts:198-203 | A login gives its new family one token, which can be rotated, and leaves all others as they are. |
| `AuthService.AuthTables.RotateRefreshToken` | apps/api/src/modules/auth/auth.service.ts:245-312 | An uninterrupted rotation is granted exactly for a signed, known, unrevoked and unexpired token of a user there is, and each refusal has its own case; it hands the place in the family to the new token, which alone can be rotated if the presented one alone could; reuse leaves the family without a live token. |
| `AuthService.AuthTables.LogOut` | apps/api/src/modules/auth/auth.service.ts:314-325 | Leaves no live token in the family of the presented one, and every other family as it is. |
| `AuthService.AuthTables.CommitReset` | apps/api/src/modules/auth/auth.service.ts:428-442 | Uses up the record and leaves the user no live token, and other records and users as they are. |
| `AuthService.AuthTables.ResetPassword` | apps/api/src/modules/auth/auth.service.ts:414-445 | An uninterrupted reset is accepted exactly for a record that is there, unused and not past its expiry; it ends the user's sessions and spends the link, at all times, if nothing was in flight. |
| `SchedulerTheorems.IndexAgrees` | apps/api/src/modules/scheduler/scheduler.service.ts:34-76 | If nothing is written for a team while one of its reconciliations is midway, and none dies, then at rest every team that is there, not deleted and configured to be active has one digest and three reminders registered, each at its configured minute and zone, and every other team none. |
| `SchedulerTheorems.TeamAgreesApart` | apps/api/src/modules/teams/teams.service.ts:441-457 | The same for one team, whatever overlaps for the others. |
| `SchedulerRuns.AgreesExactly` | apps/api/src/modules/scheduler/scheduler.service.ts:34-76 | Whatever overlaps: at rest, and if none of its reconciliations has died, a team's jobs agree with its row exactly if for each of them the row was last read as it now is. |
| `SchedulerTheorems.OverlapLeavesOlder` | apps/api/src/modules/teams/teams.service.ts:441-457 | Two overlapping updates can leave all four jobs as the older configuration called for, with nothing in flight: from any moment at which the team is at rest. |
| `SchedulerRuns.RegisteredAsRead` | apps/api/src/modules/scheduler/scheduler.service.ts:98-138 | Whatever overlaps, a registered job is that of the configuration last read for it. |
| `SchedulerTheorems.RowsAreWritten` | apps/api/src/modules/teams/teams.service.ts:31-138 | A team has the configuration written last, at first the default one, and is deleted exactly if a deletion was written. |
| `SchedulerTheorems.JobsFireOnTime` | apps/api/src/modules/scheduler/scheduler.service.ts:98-143 | Whatever overlaps, a registered job fires each day at the minute, and in the zone, of the configuration last read for it, and at no other. |
| `SchedulerTheorems.ReconciliationApplies` | apps/api/src/modules/scheduler/scheduler.service.ts:43-75 | The eight operations of a reconciliation, with nothing between them, give the team the jobs of what was read and touch no others. |
| `Scheduler.ReconcileReconciles` | apps/api/src/modules/scheduler/scheduler.service.ts:34-76 | Reconciling a team gives it exactly the jobs it should have, and touches no other team's. |
| `Scheduler.ReconcileIsIdempotent` | apps/api/src/modules/scheduler/scheduler.service.ts:34-76 | Reconciling a team again changes nothing. |
| `Scheduler.BootRepairsExactly` | apps/api/src/modules/scheduler/scheduler.service.ts:145-157 | A reconciliation at boot that nothing overlaps repairs any registry exactly if it holds no job of a deleted or unknown team; such a job stays as it is. |
| `Scheduler.LostDeletionIsNotRepaired` | apps/api/src/modules/scheduler/scheduler.service.ts:145-157 | A deletion whose own reconciliation was lost leaves the team's jobs registered through any number of such boots. |
| `Scheduler.SlotTextInjective` | apps/api/src/modules/scheduler/scheduler.service.ts:26-32 | Job schedulers have the same id only if they are the same, for any team ids. |
| `SchedulerOperations.SchedulerService.RemoveReminderSchedulers` | apps/api/src/modules/scheduler/scheduler.service.ts:86-96 | The loop removes the three reminder jobs of the team and nothing else. |
| `SchedulerOperations.SchedulerService.RegisterReminders` | apps/api/src/modules/scheduler/scheduler.service.ts:62-75 | The loop registers the three reminder jobs at their times and touches nothing else. |
| `SchedulerOperations.SchedulerService.ReconcileTeam` | apps/api/src/modules/scheduler/scheduler.service.ts:34-76 | Removals and registrations one after the other leave a team that is there, not deleted and configured to be active with its four jobs, at their minutes and zone, and any other with none, and touch no other team's; a registry that agrees they leave as it is. |
| `SchedulerOperations.SchedulerService.ReconcileAll` | apps/api/src/modules/scheduler/scheduler.service.ts:145-162 | The loop over the query's result makes the registry agree exactly if it held no job of a deleted or unknown team. |
| `SchedulerOperations.SchedulerService.Create` | apps/api/src/modules/teams/teams.service.ts:31-56 | The new team has the default configuration and all four jobs by it, and the registry agrees. |
| `SchedulerOperations.SchedulerService.Delete` | apps/api/src/modules/teams/teams.service.ts:131-138 | Deletes a team that is there and not deleted; afterwards it has no job, and the registry agrees. |
| `SchedulerOperations.SchedulerService.Configure` | apps/api/src/modules/teams/teams.service.ts:441-457 | Replaces the configuration of a team that has one; afterwards its four jobs run by it, or none if it is inactive, and the registry agrees. |
| `TeamTheorems.OneOwnerForLife` | apps/api/src/modules/teams/teams.service.ts:31-52 | Whatever overlaps, a team has exactly one OWNER, the user who created it, after every continuation of a run. |
| `TeamTheorems.DeletedExactly` | apps/api/src/modules/teams/teams.service.ts:131-136 | A team is deleted exactly if a deletion was asked for once it was there, and stays so. |
| `TeamTheorems.OnePendingInvitation` | apps/api/src/modules/teams/teams.service.ts:168-194 | At every moment of a run at most one invitation per team and address is pending, exactly if no call creates one while another, created by another call since its own revocation, is pending. |
| `TeamTheorems.PendingIsSinceRevocation` | apps/api/src/modules/teams/teams.service.ts:168-177 | Every invitation that is pending when a call is about to create one to its address was created by another call since this one's revocation. |
| `TeamRaces.OverlappingInvitations` | apps/api/src/modules/teams/teams.service.ts:168-194 | Two overlapping invitations leave two pending to one address, with nothing in flight: in any team, at any time. |
| `TeamTheorems.InvitationsAreAskedFor` | apps/api/src/modules/teams/teams.service.ts:140-194 | Every invitation was asked for, to its team, its address in small letters and in its role, and of nobody who was a member then; it expires when was said. |
| `TeamTheorems.InvitationsSettle` | apps/api/src/modules/teams/teams.service.ts:216-269 | An invitation that has left PENDING never changes again, exactly if no acceptance or expiry that would give it another status is between its check and its write. |
| `TeamRaces.RevokedThenAccepted` | apps/api/src/modules/teams/teams.service.ts:168-269 | An acceptance overwrites a revocation: in any team, a run in which an invitation is revoked to make way for another and then accepted, and its user a member. |
| `TeamTheorems.SeatsComeFromInvitations` | apps/api/src/modules/teams/teams.service.ts:210-277 | Every member but the owner has joined by accepting an invitation to the team, which when it was checked was pending, not expired and to the user's own address. |
| `TeamTheorems.RolesAreGiven` | apps/api/src/modules/teams/teams.service.ts:253-269 | Every role but an owner's is the one last given, by an invitation that was accepted or by a role update. |
| `SeatTheorems.SeatsAreProtected` | apps/api/src/modules/teams/teams.service.ts:306-412 | A role update or removal changes one seat, whatever overlaps: never an owner's and never the actor's own; and when let in by the guard the actor was the owner or an administrator of a team not deleted. |
| `SeatTheorems.AdministratorsAtTheCheck` | apps/api/src/modules/teams/teams.service.ts:306-412 | The checks let a request that has passed the guard change an administrator exactly if its actor is the owner, or has lost the role of an administrator since the guard. |
| `SeatTheorems.AdministratorsAtTheWrite` | apps/api/src/modules/teams/teams.service.ts:306-412 | A request that writes an administrator's seat is the owner's; or its actor lost that role between the guard and the checks, or the target got it after them. |
| `TeamRaces.DemotedAdministratorActs` | apps/api/src/modules/teams/guards/team-membership.guard.ts:21-48 | An administrator demoted between the guard and the checks of a request removes another administrator: of any team with two, at any time. |
| `TeamRaces.PromotedSinceTheCheck` | apps/api/src/modules/teams/teams.service.ts:367-412 | A member promoted between the checks and the write of an administrator's request is removed all the same. |
| `TeamService.TeamTables.CreateTeam` | apps/api/src/modules/teams/teams.service.ts:31-52 | The new team's creator, and nobody else, is its OWNER; it has the default configuration. |
| `TeamService.TeamTables.Invite` | apps/api/src/modules/teams/teams.service.ts:140-204 | An uninterrupted `invite` answers each error exactly in its case, or leaves the new invitation the only one pending to its address, and all other invitations as they were. |
| `TeamService.TeamTables.AcceptInvitation` | apps/api/src/modules/teams/teams.service.ts:210-277 | An uninterrupted `acceptInvitation` answers each error exactly in its case, with an expired invitation marked; or the user is a member, in the invited role or the role they had, and the invitation is accepted. |
| `TeamService.TeamTables.ChangeMember` | apps/api/src/modules/teams/teams.service.ts:306-412 | An uninterrupted role update or removal, behind its guard, answers each error exactly in its case, or changes the target's seat and no other, an administrator's for the owner only; it leaves every team its owner. |
| `WorkingDays.FirstDayIsThursday` | apps/api/src/modules/standups/standup-time.util.ts:15-33 | Weekdays are those of the calendar: the local 1970-01-01 is a Thursday. |
| `WorkingDays.WeekdayAdvances` | apps/api/src/modules/reports/reports.service.ts:20-25 | Each day later is a weekday later. |
| `WorkingDays.CountWorkingDaysInRange` | apps/api/src/modules/reports/reports.service.ts:12-27 | The loop counts the working days among the days of the range. |
| `WorkingDays.ClosedForm` | apps/api/src/modules/reports/reports.service.ts:12-27 | A range of q weeks and r days has q times the distinct working weekdays and those of r days, from any instant and with any repetitions in the configuration. |
| `WorkingDays.ReportWeek` | apps/api/src/modules/reports/reports.service.ts:51-60 | The report's week counts each distinct working weekday once, whichever day it ends on. |
| `Reports.GroupByUser` | apps/api/src/modules/reports/reports.service.ts:84-89 | The grouping loop has lists for exactly the users who have written standups, each the user's own in their order. |
| `Reports.OfUserHoldsOwn` | apps/api/src/modules/reports/reports.service.ts:84-89 | A user's list holds exactly the standups the user has written. |
| `Rates.RateIsNearest` | apps/api/src/modules/reports/reports.service.ts:29-31 | A rate, computed exactly, is a whole number of hundredths, and no other such number is nearer to the exact share. |
| `Rates.DoublesAreNearest` | apps/api/src/modules/reports/reports.service.ts:29-31 | So it is in doubles, with the division and the product rounded, for any part that is the length of an array; and it is the exact rate, unless the share is midway between two hundredths. |
| `Reports.MemberStats` | apps/api/src/modules/reports/reports.service.ts:91-110 | Each member's line has the number of standups that are the user's and of those that are late, misses that make up the working days, and the rate of the two; the lines and the standups of others make up all standups. |
| `Reports.SubmissionsConserved` | apps/api/src/modules/reports/reports.service.ts:91-93 | The members' submitted counts and the standups of people no longer members make up all standups. |
| `Reports.CountsAddUp` | apps/api/src/modules/reports/reports.service.ts:129 | The members' counts add up to the report's total exactly if every author is a member still. |
| `Reports.CountBlockers` | apps/api/src/modules/reports/reports.service.ts:112-123 | The counting loop has one entry for each text, ignoring case and outer blanks, with its count, in the words and order of first mention; the counts sum to the standups with a blocker. |
| `Reports.FrequentBlockers` | apps/api/src/modules/reports/reports.service.ts:125-127 | At most five texts with their counts, by count and then by first mention; fewer than five only if nothing is left out, and nothing left out ranks above one of them. |
| `Reports.GetWeeklyReport` | apps/api/src/modules/reports/reports.service.ts:37-149 | The whole report from a snapshot: its period of seven days, working days, rates, each member's line, totals that add up, and the five blockers that most standups name, each with that number and in the words of the first, ties in order of first mention. |
| `ReminderTime.SubtractMinutes` | apps/api/src/modules/reminders/reminder-time.util.ts:2-9 | For any integer of minutes, the expression with truncating remainders prints the time that is earlier by as much on a 24-hour clock. |
| `ReminderTime.EarlierIsCongruent` | apps/api/src/modules/reminders/reminder-time.util.ts:2-9 | That time is valid, and it is the only valid time congruent to the difference modulo a day. |
| `ReminderTime.SubtractComposes` | apps/api/src/modules/reminders/reminder-time.util.ts:2-9 | Subtracting twice is subtracting the sum. |
| `ReminderTime.SubtractWholeDays` | apps/api/src/modules/reminders/reminder-time.util.ts:2-9 | Subtracting whole days changes nothing. |
| `ReminderTime.SubtractUndone` | apps/api/src/modules/reminders/reminder-time.util.ts:2-9 | Adding the minutes back restores the time. |
| `ReminderTime.CronFiresAtTime` | apps/api/src/modules/reminders/reminder-time.util.ts:12-15 | The cron pattern, read by an independent definition of such patterns, matches exactly the minute it was made from. |
| `Calendar.TextOrderIsTimeOrder` | apps/api/src/modules/standups/standups.service.ts:109 | Comparing two HH:mm texts compares the times. |
| `Calendar.YmdRoundTrip` | apps/api/src/modules/standups/standup-cursor.util.ts:10 | The text of a day has the pattern that is checked and reads back as that day. |
| `Calendar.YmdIsCanonical` | apps/api/src/modules/standups/standup-cursor.util.ts:38-40 | A text that reads as a day is the text of that day exactly if its month has so many days; else it is read as a day of the month after. |
| `Calendar.ReadableYmd` | apps/api/src/modules/standups/standup-cursor.util.ts:38-40 | The texts that read as a day are those of the pattern with a month of twelve and a day up to 31. |
| `Calendar.RollsOver` | apps/api/src/modules/standups/standup-cursor.util.ts:38-40 | Such a text is the day as many days after the first of its month as it says, in the days of the Gregorian calendar. |
| `Calendar.MonthsFollow` | apps/api/src/modules/standups/standup-time.util.ts:3-12 | The lengths of months are those of the Gregorian calendar, given in closed form, with 1970-01-01 as day zero. |
| `Calendar.TextOrderIsDayOrder` | apps/api/src/modules/standups/standups.service.ts:331-334 | Comparing the texts of two days compares the days. |
| `Calendar.IsoRoundTrip` | apps/api/src/modules/export/standups-csv.util.ts:39 | Every timestamp can be read back from its text. |
| `Calendar.IsoInjective` | apps/api/src/modules/export/standups-csv.util.ts:39 | Timestamps are printed differently if they differ. |
| `Text.LowerEach` | apps/api/src/modules/reports/reports.service.ts:116 | Lower-casing makes the capitals A to Z small and leaves every other character. |
| `Text.TrimmedExactly` | apps/api/src/modules/reports/reports.service.ts:114 | Trimming takes the white space and line ends of JavaScript off both ends, and nothing else. |

## Left out

- Outbox.Step: the queue is a table of jobs with an attempt budget. Its back-off, its stall limit and its clean-up of finished and failed jobs are not modelled; a worker that dies leaves its job to be run again without counting a try, and is never mistaken for dead while it runs.
- Outbox.GenerateCommit: a transaction is one step and unique keys are enforced when it commits; weaker isolation is not modelled. Nothing is claimed to be delivered eventually: a process may die between the commit and the enqueue, and the model has that state.
- Outbox.DeliverStart: the request's body and platform formats are not modelled, only whether there is content to send, and the address configured when the run starts.
- Outbox.Skip: the reasons of skipped calls are values of a datatype, not texts.
- OutboxContents.DigestTellsWhatWasRead: the names, addresses and pictures that the stored content copies from the users table are not in the row.
- RefreshTokens.RotateCheck: finding a token, and revoking its family if it has been revoked, are one step, at the moment of the revocation: no token changes its family or is unrevoked in between. A presented token is named by the row its hash finds, so signing and hashing are taken to be injective, and generated ids to be new.
- RefreshTokens.Logout: finding the token and revoking its family are one step, for the same reason.
- Teams.SeatCheck: the two memberships that the service's own checks look at are read at one moment; and the two methods that refuse a change to a member share one set of error names.
- Standups.StandupTable.Submit: check and write in one call; their interleaving is in `Standups.Step`, which the theorems are about.
- LateStandups.LateFreezeExactly: with a configuration that stays as it is, as the property needs; with a later deadline set afterwards a late standup can be edited.
- Paging.LiveWalk: a row whose text is edited between fetches of `search` so that it stops matching, or starts to, may or may not be returned.
- Paging.CursorRoundTrip: JSON and base64url are a codec that undoes itself and never prints an empty text.
- Listings.Later: ids are compared code unit by code unit; the collation of the database is not modelled.
- Calendar.ParseYmd: a day of up to 31 that its month does not have rolls over into the next month, as JavaScript engines such as V8 have it; years have four digits. Zones and their changes are a local clock per team, a function of the instant, and in `WorkingDays` a constant offset.
- Text.ToLower: letters of the ASCII range only.
- SchedulerRuns.Step: the operations of the queues succeed; the two queues' registries are one map by job; a team's row and its configuration are read at one moment.
- Reports.GetWeeklyReport: the rates in the report are the exact ones; what doubles make of them is in `Rates.DoublesAreNearest`. Members' names and addresses are not in the report.
- Sign-up, email verification, OAuth, access tokens, mail, guards other than that of role updates and removals, request validation beyond the preconditions above, read-only queries such as `findOne` and `listMembers`, the export job and its files, health checks, configuration and the web front end are not part of this model; they would add easy members or none.

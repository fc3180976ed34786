# Verification of the incident-operations platform

This project models eight cores of the platform in Dafny and proves what they keep. Each module
stands for one source component:

- `Luhn`, `CardScan`, `CardsFound` — card redaction: the backtracking digit-run matcher, the checksum that decides
  each run, and the scan that replaces cards.
- `PostText`, `Hashtags`, `PostFormatter`, `PostCuts`, `PostInk`, `PostRoundTrip` — the post formatter:
  hashtag block, lines and sentences, trimming, and what a second run does. Characters are classes: blanks of
  three kinds, word characters, digits, marks, emoji.
- `TextCodec`, `SignedLinks`, `LinkRewrite` — UTF-8, unpadded URL-safe base64 (RFC 4648, sections 5
  and 3.2), signed tokens, and the HTML link rewriter. The keyed digest is any function.
- `RetryQueue`, `Notifications`, `NoticeFloors` — retry passes over the notification queue, the fan-out,
  quiet hours and digests, and the severity floors of channels.
- `EmailLifecycle` — the send gate and ledger, enrolments, and the scheduler's passes.
- `MigrationFiles`, `Migrate` — file discovery, and any number of booting processes that migrate one
  database under one lock.
- `Incidents`, `HitlRuns`, `HitlOutcomes` — the approval gate and the pause, approve, resume protocol of the agents,
  interleaved statement by statement, with crashes and with approvals that race.
- `TokenBudget`, `CheckpointerLock`, `Worker` — check-then-record spending, the lock around the shared
  checkpoint saver, and the queue consumer.
- `SetupChecklist`, `StallAlert` — the batched checklist and the alerts built on it.

`Wrappers` holds `Option` and `Result`.

Objects that update fields are classes whose methods are proved equal to specification functions;
protocols are state machines over the same functions (`Enabled`, `Apply`, `IsRun`, `After`), and the
main results quantify over every run of those machines, or over every input.

## Where the code differs from what is said of it

- Verifying a token is documented to return None when it is malformed (core/click_tracking.py:44-46,
  core/unsubscribe_token.py:49-51). It raises instead: `SignedLinks.ClickVerifyRaisesExactlyWhen` and
  `SignedLinks.UnsubscribeVerifyRaisesExactlyWhen` say when, `ClickVerifyRaises` and
  `UnsubscribeVerifyRaises` give a token.
- Formatting is not idempotent when a credit line is added, except in two cases:
  `PostRoundTrip.CreditLineIdempotentExactlyWhen`, with `CreditLineRepeated` as the example.
- Two migration files with one number are applied in whatever order the directory lists them, although
  numeric order is promised: `MigrationFiles.ListingOrderDecidesExactlyWhen`, with `SevenTwice` as the
  example.
- Incidents of runs whose diagnosis failed are meant to be found by status failed (core/hitl.py:417-424).
  They are failed exactly until the run reaches the end of its graph, which marks them executed:
  `HitlRuns.FailedExactlyTillEnd`, with `FailedRunEndsExecuted` as the example.
- The gate records token usage before it pauses, and again on resume (`HitlRuns.ResumeChargesAgain`). An
  incident is charged exactly once exactly when no resume that takes the graph up at the gate gets past
  recording: `HitlRuns.ChargedOnceExactlyWhen`; in any case at most once more than it was approved:
  `HitlRuns.CallsAndChargesPerApproval`.
- A marketing mail can be recorded as sent for a recipient who is by then suppressed, since the
  suppression list is read before the mail goes out: `EmailLifecycle.SentRowsPassedTheGate` says exactly
  when, `SentWhileSuppressed` gives a run.
- `current_month_spend_usd` is NUMERIC(10,2) (db/schema.sql:19), so the spend equals the sum of the
  usage rows throughout exactly when each row is whole cents, and runs below half a cent are never
  counted: `TokenBudget.StoredSpendIsExactExactlyWhen`, `SmallCostsVanish`, `SpendFallsBehind`. Runs that all pass
  their checks can so overrun the budget by any amount, and exactly when they can:
  `TokenBudget.UnnoticedSpend`, `OverrunIsBoundedExactlyWhen`.
- The worker is documented to reset its backoff when a message arrives (job_queue/worker.py:19-21). It
  resets when one was processed: `Worker.ArrivalResetsExactlyWhen`, with `ArrivalDoublesBackoff` as the
  example. And a JSON body that is no object ends the poll: `Worker.DeletedExactlyWhen`,
  with `NotAnObjectEndsPoll` as the example.
- The customer's checklist and the admin's read different columns for the GitHub App:
  `SetupChecklist.ChecklistsAgreeExactlyWhen`, with `ChecklistsDisagree` as the example.
- A channel's severity floor is documented to keep lesser incidents from it, "PagerDuty critical-only,
  Slack all" (core/notifications.py:207-216). The gate's notices carry no severity
  (core/hitl.py:483-490), and without one no floor applies: `NoticeFloors.FloorsHoldExactlyWhen` says
  when that makes no difference, `LowIncidentPages` gives an incident for which it does. Severities
  outside the list rank 99 and floors outside it -1, as written.

## Model

| member | source | states |
|---|---|---|
| Luhn.LuhnValid | security/sanitizer.py:41-50 | the loop that doubles every other digit from the right decides the recursive checksum, for digit strings of any length |
| Luhn.WeightIsDigitSum | security/sanitizer.py:44-49 | a doubled digit adds the digits of its double, any other itself |
| Luhn.KnownNumber | security/sanitizer.py:41-50 | a number in common use for trials of the checksum is valid |
| Luhn.SingleDigitErrorDetected | security/sanitizer.py:41-50 | changing one digit of a valid number makes it invalid |
| Luhn.AdjacentSwapDetected | security/sanitizer.py:41-50 | swapping two different neighbours of a valid number keeps it valid exactly when they are 0 and 9 |
| Luhn.CheckDigitUnique | security/sanitizer.py:41-50 | every prefix has exactly one last digit that makes it valid |
| CardScan.GroupsSound | security/sanitizer.py:32 | what the backtracking matcher returns is a run of digits with single separators, of the right number of digits, that no digit follows |
| CardScan.GroupsMaximal | security/sanitizer.py:32 | no candidate at that place is longer than the match |
| CardScan.MatchIsLongestCandidate | security/sanitizer.py:32 | the greedy match is the longest stretch of 13 to 19 grouped digits not followed by a digit, and there is none exactly when no such stretch exists |
| CardScan.RedactNext | security/sanitizer.py:55-62 | one step of the scan emits the token for a card and counts it, and copies anything else |
| CardScan.RedactCards | security/sanitizer.py:53-65 | the loop computes the text and the count of the leftmost non-overlapping scan |
| CardsFound.CandidateIsDecided | security/sanitizer.py:32-65 | a longest candidate at the start or behind a foreign character becomes the token, and counts once, exactly when its digits are valid, and stays otherwise; text in front and behind is scanned as if alone |
| CardsFound.CardAloneIsRedacted | security/sanitizer.py:53-65 | a text that is a valid card becomes the token |
| CardScan.RedactionChangesOnlyCards | security/sanitizer.py:53-65 | the input is cut into pieces, each copied or a run of 13 to 19 digits with a valid checksum that becomes the token |
| CardScan.RedactionIdempotent | security/sanitizer.py:53-65 | a second pass changes nothing and counts nothing, on every text |
| PostFormatter.SplitIntoLines | assets_library/post_formatter.py:80-94 | the loop yields the lines and sentences of the body in order |
| PostFormatter.LinesAreGood | assets_library/post_formatter.py:80-94 | every line is stripped, without breaks, and without a sentence break unless it starts with a marker; the last ends the body |
| PostCuts.LinesAreCutApart | assets_library/post_formatter.py:68-94 | the lines stand in the body in order with only whitespace around them, and two neighbours are cut apart only at a line break or where a sentence ends |
| PostCuts.TwoSentences | assets_library/post_formatter.py:68-94 | a line of two sentences gives two lines, and no more |
| PostFormatter.NoLinesMeansBlank | assets_library/post_formatter.py:80-94 | a body yields no lines only if it is blank |
| PostFormatter.JoinedLinesSurvive | assets_library/post_formatter.py:80-94 | splitting joined good lines gives them back |
| Hashtags.BodyHasNoBlock | assets_library/post_formatter.py:71-77 | what is left in front of the hashtag block ends in no hashtag block |
| Hashtags.TagsSurvive | assets_library/post_formatter.py:71-77 | the tags of a printed tag line are read back, in order |
| PostFormatter.TrimHashtags | assets_library/post_formatter.py:110-116 | keeps at most five tags and warns exactly when some are dropped |
| PostFormatter.TrimKeepsTheSpecific | assets_library/post_formatter.py:110-116 | trimming drops no more than it must and keeps a broad tag only when every specific one is kept |
| PostFormatter.TrimKeepsTheOrder | assets_library/post_formatter.py:110-116 | kept tags stand in the order found, but for specific ones going first when some are dropped |
| PostFormatter.WarningsExactlyWhen | assets_library/post_formatter.py:128-160 | each warning is given exactly when its limit is passed or its mark is there, with that number |
| PostFormatter.EmojisCounted | assets_library/post_formatter.py:143-147 | the emoji count is how many approved emojis there are |
| PostFormatter.FormatPost | assets_library/post_formatter.py:119-162 | the method computes the formatted text and all its warnings in order |
| PostRoundTrip.ParsedIsLaidOut | assets_library/post_formatter.py:71-94 | every text is read as good lines and real tags with no block hidden in the lines |
| PostRoundTrip.LaidOutPostSurvives | assets_library/post_formatter.py:119-162 | such a post, printed, is read back as the same lines and tags |
| PostRoundTrip.FormatIdempotent | assets_library/post_formatter.py:119-162 | without a credit line a second run returns the same text, and the same warnings but for trimmed hashtags |
| PostRoundTrip.FormattedShape | assets_library/post_formatter.py:119-162 | every formatted text is good lines followed by at most five tags |
| PostInk.LinesKeepInk | assets_library/post_formatter.py:80-94 | splitting into lines neither loses, adds nor reorders a visible character |
| PostInk.HashtagsKeepInk | assets_library/post_formatter.py:71-77 | body and tags together hold every visible character of the text, in order |
| PostRoundTrip.FormatKeepsInk | assets_library/post_formatter.py:119-162 | formatting keeps every visible character in order, but for trimmed hashtags |
| PostRoundTrip.CreditLineIdempotentExactlyWhen | assets_library/post_formatter.py:149-162 | with a credit line a second run changes nothing exactly when the credit line is blank or is hashtags that trimming discards |
| PostRoundTrip.CreditLineRepeated | assets_library/post_formatter.py:150-162 | an ordinary credit line is repeated by a second run |
| TextCodec.Utf8RoundTrip | core/click_tracking.py:38-52 | decoding what was encoded restores any string |
| TextCodec.Utf8Examples | core/click_tracking.py:38 | examples of section 7 of RFC 3629 |
| TextCodec.Base64RoundTrip | core/click_tracking.py:40-52 | padding back and decoding what was encoded without padding restores any bytes |
| TextCodec.Base64Examples | core/click_tracking.py:40 | examples of section 10 of RFC 4648, unpadded, and the two letters of its section 5 |
| TextCodec.EncodedIsUrlSafe | core/click_tracking.py:40 | the encoding uses letters, digits, hyphen and underscore only |
| SignedLinks.UnsubscribeTokenRoundTrip | core/unsubscribe_token.py:42-62 | a token made for an address with any whitespace around it verifies as the address alone, in lower case |
| SignedLinks.ClickTokenRoundTrip | core/click_tracking.py:37-61 | a token gives back id and destination exactly when the id is not empty and has no bar and there is a destination |
| SignedLinks.AcceptedClickIsSigned | core/click_tracking.py:44-61 | whatever is accepted decodes to, and carries the digest of, exactly the id and destination returned |
| SignedLinks.HexIsInjective | core/click_tracking.py:39 | different digests are written differently |
| SignedLinks.ClickVerifyRaisesExactlyWhen | core/click_tracking.py:44-61 | verification raises exactly when the signature part is not ASCII and the payload part decodes |
| SignedLinks.UnsubscribeVerifyRaisesExactlyWhen | core/unsubscribe_token.py:49-62 | verification raises exactly when the payload part decodes to bytes and the signature part is not ASCII, or is the right one of bytes that are no text |
| SignedLinks.UnsubscribeVerifyRaises | core/unsubscribe_token.py:49-62 | a token on which it raises |
| SignedLinks.ClickVerifyRaises | core/click_tracking.py:44-61 | a token on which it raises |
| LinkRewrite.RewriteTwice | core/click_tracking.py:69-72 | rewriting links twice is rewriting once with the composed function; no rewrite makes or hides a link |
| LinkRewrite.LinkExactlyWhen | core/click_tracking.py:34 | the pattern captures an address exactly where a quoted http or https address stands in an href |
| LinkRewrite.EveryLinkIsRewritten | core/click_tracking.py:69-72 | a link that no earlier one covers is rewritten wherever it stands, the text in front and behind as if alone |
| LinkRewrite.RewritingIsInvertible | core/click_tracking.py:64-72 | every http link becomes a tracked link of its own destination, and reading the tracked links back restores the HTML exactly |
| RetryQueue.PassAddsUp | core/notification_retry.py:189-242 | attempted is succeeded plus rescheduled plus exhausted, and the table shrinks and fills accordingly |
| RetryQueue.RetryDiscipline | core/notification_retry.py:48-242 | over every run a row is gone exactly after one success, exhausted exactly after five failures, pending otherwise, and no attempt is early, the fifth not before 321 minutes |
| RetryQueue.NextAttemptIsExact | core/notification_retry.py:48-240 | over every run a pending row is due exactly 1, 5, 15, 60 or 240 minutes after it was last tried, by its failures, or 1 minute after it was enqueued |
| RetryQueue.EnqueueLandsBehind | core/notification_retry.py:89-98 | a new row is ordered behind every row already due |
| RetryQueue.PassShrinksAhead | core/notification_retry.py:205-240 | a pass that passes a due row over takes a full batch from ahead of it and puts nothing back there |
| RetryQueue.BoundedWait | core/notification_retry.py:189-242 | a due row with r rows ahead is attempted within r / 100 + 1 passes |
| Notifications.QuietWindowIsModular | core/notification_retry.py:245-257 | the window test that wraps at midnight is (t - start) mod day < (end - start) mod day |
| Notifications.Delivery.NotifyIncidentChannels | core/notifications.py:158-243 | per channel in order: below the floor nothing, in quiet hours held, sent delivered, failed queued |
| Notifications.FatesAfterFanOut | core/notifications.py:204-243 | after a fan-out a notification awaits its digest, is delivered, is retried or is nowhere exactly as its channel's floor and quiet hours and its send say |
| Notifications.DeliveredExactlyWhenSent | core/notifications.py:228-243 | over every run a notification is delivered exactly when its first send or a retry succeeded |
| Notifications.VisitDigestsExactly | core/notification_retry.py:309-381 | a digest pass digests exactly what is held for the channel, out of its quiet hours, when the digest goes out |
| Notifications.FloorKeepsOff | core/notifications.py:207-216 | a floor keeps off exactly the severities below it |
| Notifications.Delivery.SettleAttempt | core/notification_retry.py:215-240 | success deletes the row, a last failure exhausts it, any other reschedules it |
| Notifications.Delivery.RunPendingRetries | core/notification_retry.py:189-242 | a pass over a claimed batch leaves the queue of the pass specification, with its summary |
| Notifications.Delivery.RunQuietHoursDigests | core/notification_retry.py:309-381 | sends one digest per channel out of its quiet hours with held rows, marks exactly those, and counts them |
| Notifications.NoNotificationIsLost | core/notifications.py:204-243 | in every committed state each notification owed is in exactly one of delivered, retrying, given up, awaiting digest and digested, and only moves forward |
| Notifications.OwedAtOrAboveFloor | core/notifications.py:204-243 | a Slack, PagerDuty or e-mail notification at or above the floor is always owed |
| NoticeFloors.FloorsHoldExactlyWhen | core/hitl.py:177-198 | creating an incident fires one notice, whose fan-out owes what the incident's severity calls for exactly when every channel below its floor has no sender, is readable and is outside its quiet hours |
| NoticeFloors.LowIncidentPages | core/notifications.py:207-216 | a PagerDuty channel for critical incidents only that is paged for a low one |
| EmailLifecycle.EmailTables.Enroll | core/email_enrollment.py:52-71 | a first or repeated enrolment starts at step 0, active and due now |
| EmailLifecycle.EmailTables.ExitEnrollment | core/email_enrollment.py:74-81 | exactly an active enrolment exits, and keeps its step |
| EmailLifecycle.EmailTables.ExitAllEnrollments | core/email_enrollment.py:84-96 | exactly the active enrolments of the subscriber outside the excepted sequences exit |
| EmailLifecycle.EmailTables.SendMarketingEmail | core/marketing_email.py:134-213 | with nothing in between: a template not approved raises first; a call that returns an outcome writes exactly one ledger row with it, one that raises writes none; suppression comes before the cap, and both before the send |
| EmailLifecycle.SentExactlyWhen | core/marketing_email.py:83-213 | a mail is sent exactly when the mailer takes it, the address is not suppressed and nothing went to the recipient in the last 24 hours |
| EmailLifecycle.EmailTables.ProcessOne | core/email_scheduler.py:143-193 | the branches in order: inactive sequence, exit rule, no template, skip, send; each with its row update |
| EmailLifecycle.RowAfterProcessing | core/email_scheduler.py:79-193 | the enrolment's status, step and due time after processing, from sequence, workspace and templates; the trust sequence enrols in the newsletter |
| EmailLifecycle.EmailTables.RunPendingSends | core/email_scheduler.py:196-251 | outside the window or without the lock nothing; else the claim in order up to a missing signing key, with the whole summary; as many "sent" rows as it counts |
| EmailLifecycle.TallyCounts | core/email_scheduler.py:201-248 | the summary counts the rows of a pass and those of each outcome |
| EmailLifecycle.UninterruptedIsProcessed | core/email_scheduler.py:185-193 | gate, hand-over and record of one claim, with nothing in between, come to the processing of one call |
| EmailLifecycle.LedgerDiscipline | core/marketing_email.py:90-213 | in every reachable ledger two "sent" rows of a recipient are more than 24 hours apart |
| EmailLifecycle.SentRowsPassedTheGate | core/marketing_email.py:171-213 | each "sent" row's recipient was neither suppressed nor at the cap at the gate, and is suppressed when the row is written exactly when the last thing to happen to the address in between was a suppression |
| EmailLifecycle.SentWhileSuppressed | core/marketing_email.py:171-213 | a run with such a row |
| EmailLifecycle.EachStepOnce | core/email_scheduler.py:169-193 | since its last enrolment the mails of an enrolment are of strictly rising steps up to the current one |
| EmailLifecycle.OnlyEnrollingRestartsEver | core/email_enrollment.py:52-96 | over any run without an enrolment, a completed or exited row stays so and the step never falls |
| EmailLifecycle.EnrolmentEnds | core/email_scheduler.py:143-193 | with n consecutive approved steps ahead, n + 1 processings that do not raise end the enrolment |
| MigrationFiles.NumberOfReads | db/migrate.py:71 | a name has a number exactly when it reads as digits, underscore, anything, ".sql" |
| MigrationFiles.NumberedAsWritten | db/migrate.py:81-87 | a file is numbered as its name is written in decimal, with or without a zero in front |
| MigrationFiles.ValueOrders | db/migrate.py:87-88 | numbers written with as many digits are ordered as their texts are |
| MigrationFiles.OneStableSort | db/migrate.py:88 | there is one stable ascending order |
| MigrationFiles.SortIsStable | db/migrate.py:88 | the sort keeps files of one number in listing order |
| MigrationFiles.DiscoverMigrations | db/migrate.py:74-89 | an error exactly when some name breaks the convention, else every file once in ascending number |
| MigrationFiles.NinetyNineFirst | db/migrate.py:74-89 | 99 comes before 100, with and without a zero in front |
| MigrationFiles.ListingOrderDecidesExactlyWhen | db/migrate.py:74-89 | the result depends on the directory's listing order exactly when two files share a number |
| MigrationFiles.SevenTwice | db/migrate.py:74-89 | two such files, discovered in either order |
| Migrate.Database.RunPendingMigrations | db/migrate.py:92-142 | all or nothing: every missing file run in order and recorded, or schema and record untouched |
| Migrate.StepKeepsValid | db/migrate.py:92-142 | only the lock's holder is past it, on the committed schema with the files it has done |
| Migrate.OnlyCommitsChange | db/migrate.py:103-142 | a commit is the whole batch of that process on what was committed before; no other step, crash or rollback changes anything |
| Migrate.RunIsSerial | db/migrate.py:103-142 | every interleaving commits what the committing boots do one after the other |
| Migrate.SchemaIsItsRecord | db/migrate.py:103-142 | in every committed state the schema is the recorded files run in record order, and no file is recorded twice |
| Migrate.CommitAddsMissing | db/migrate.py:117-140 | a commit adds exactly that process's missing files in ascending number, any other step none |
| Migrate.SecondBootAppliesNothing | db/migrate.py:92-142 | booting again on the same files changes nothing |
| Incidents.HITLGate.CreateIncident | core/hitl.py:56-199 | a second call with one id is no second row and no second notice |
| Incidents.HITLGate.ApproveIncident | core/hitl.py:320-351 | records the choice; a hold holds, anything else executes |
| Incidents.HITLGate.MarkExecuted | core/hitl.py:353-381 | sets executed and adds the tokens, whatever the status was |
| Incidents.HITLGate.GetApprovedOption | core/hitl.py:285-318 | never an option for an incident nobody approved, and never a hold |
| Incidents.ApprovalReachesTheAgent | core/hitl.py:285-318 | what the gate reads back after an approval that passed the route's checks is the choice made, nothing for a hold, and nothing before it |
| Incidents.PassesChecksExactlyWhen | api/routes/incidents.py:298-347 | the route lets an approval through exactly for a pending incident and a hold, a text or an option on offer |
| HitlRuns.EveryReachableState | agents/agent_01_cicd_triage/workflow.py:226-455 | the protocol's invariant holds in every interleaving of runs, approvals, resumes and crashes |
| HitlRuns.OneRowPerRun | agents/agent_01_cicd_triage/workflow.py:291-304 | a run whose diagnosis succeeded owns exactly the row with its thread id; a failed one at most one row, under no thread's id |
| HitlRuns.OneNoticePerIncident | core/hitl.py:182-199 | no notice is sent twice, and "created" goes out for exactly those incidents |
| HitlRuns.ReplayAddsNothing | core/hitl.py:107-187 | the gate node of a resumed run inserts nothing and notifies nobody |
| HitlRuns.ResumeFindsItsRun | agents/agent_01_cicd_triage/workflow.py:396-455 | a resume always finds the checkpoint of a run that reached the gate under the same id |
| HitlRuns.OnlyApprovedOptionsRun | agents/agent_01_cicd_triage/workflow.py:327-360 | the tools are called only in a resume, with an option approved under that id, its own if it took the graph up at the gate; no two resumes share an approval |
| HitlRuns.CallsAndChargesPerApproval | agents/agent_01_cicd_triage/workflow.py:306-319 | an incident's option is called at most once per approval, and it is charged at most once more |
| HitlRuns.ResumeChargesAgain | agents/agent_01_cicd_triage/workflow.py:306-319 | a run with one approval and two charges |
| HitlRuns.ChargedExactlyWhen | agents/agent_01_cicd_triage/workflow.py:291-316 | an invocation has a usage row exactly when it goes through the gate, did not fail, and has got past recording |
| HitlRuns.ChargedOnceExactlyWhen | agents/agent_01_cicd_triage/workflow.py:306-319 | an incident whose first invocation got past recording is charged once exactly when no resume that takes the graph up at the gate gets past recording |
| HitlRuns.FailedIncidentEndsExecuted | agents/agent_01_cicd_triage/workflow.py:362-375 | a failing run that reaches its end marks its own failed incident executed, without calling the tools |
| HitlRuns.FailedExactlyTillEnd | core/hitl.py:409-460 | over every run in which nobody closes it, the incident of a failing run is failed exactly as long as the run is not at its end |
| HitlRuns.FailedRunEndsExecuted | agents/agent_01_cicd_triage/workflow.py:280-289 | a run whose failed incident ends executed |
| HitlOutcomes.LastWordStands | core/hitl.py:320-407 | over every run an incident has the status that the last step to say anything of it says: insert, approval, finish, raising resume or close |
| HitlOutcomes.ApprovedRunTells | agents/agent_01_cicd_triage/workflow.py:362-375 | the incident of a sound run approved at most once, not closed and with no resume raising, is pending until approved, then held or executing as chosen until the run ends, then executed, or held exactly if the tools held it |
| HitlOutcomes.EndedRunCalledTheTools | agents/agent_01_cicd_triage/workflow.py:327-360 | a sound run behind its execute node has called the tools |
| HitlOutcomes.ApprovedRunEndsExecuted | agents/agent_01_cicd_triage/workflow.py:274-375 | a run approved, resumed and executed from start to end |
| TokenBudget.TokenBudgetGuard.AssertBudgetAvailable | core/token_budget.py:60-92 | passes exactly when spend plus tokens times price is within the budget |
| TokenBudget.TokenBudgetGuard.RecordUsage | core/token_budget.py:94-136 | row and spend move together, by tokens times price, and an unknown workspace changes neither |
| TokenBudget.TokenBudgetGuard.ResetMonthlySpend | core/token_budget.py:138-147 | the spend is zero, and counts the rows from now on |
| TokenBudget.RunsAtMostSlots | core/execution_semaphore.py:41-86 | runs in flight over all processes never outnumber the slots |
| TokenBudget.SpendIsBounded | core/token_budget.py:60-147 | in any interleaving the spend is the sum of usage since the last reset and exceeds the budget by at most one largest cost per slot and per recording that followed no check |
| TokenBudget.StoredSpendIsExactExactlyWhen | db/schema.sql:18-19 | the cents column equals the sum of the usage rows throughout exactly when every row is whole cents |
| TokenBudget.SmallCostsVanish | db/schema.sql:18-19 | any number of costs below half a cent leaves the column at zero |
| TokenBudget.UnnoticedSpend | core/token_budget.py:60-136 | for every budget and amount, runs of one such cost that all pass their check against the column while their usage rows exceed the budget by more than the amount |
| TokenBudget.OverrunIsBoundedExactlyWhen | core/token_budget.py:60-136 | runs at allowed costs overrun the budget by a bounded amount exactly when no allowed cost is below half a cent and yet shows in its row |
| TokenBudget.WholeCentsKeepBudget | core/token_budget.py:60-136 | runs whose rows are whole cents overrun the budget by at most the last row |
| TokenBudget.SpendFallsBehind | db/schema.sql:18-19 | one run whose row says a tenth of a cent and whose column says nothing |
| CheckpointerLock.NewestFirst | core/checkpointer_lock.py:115-129 | a listing is all matching rows, the last to come first |
| CheckpointerLock.UpsertIs | core/checkpointer_lock.py:76-109 | behind an upsert the row is there in place of the one with its key, and the others are as before |
| CheckpointerLock.LockedSaver.AGet | core/checkpointer_lock.py:68-74 | the newest row of the thread, or the one with the id asked for, and nothing exactly when there is none |
| CheckpointerLock.LockedSaver.APutWrites | core/checkpointer_lock.py:86-109 | row by row comes to the whole upsert |
| CheckpointerLock.LockedSaver.AList | core/checkpointer_lock.py:115-129 | the items are the listing, or its front if the consumer stops |
| CheckpointerLock.AsIfOneByOne | core/checkpointer_lock.py:63-129 | one operation in flight at most; store and results are those of the operations run whole in lock order; a listing is a snapshot taken at the lock |
| CheckpointerLock.OrderIsStrict | core/checkpointer_lock.py:63-129 | a call made after another was over comes later in that order |
| Worker.SQSWorker.ProcessMessage | job_queue/worker.py:120-137 | deletes after the handler returned or for an unparseable body, leaves the message when the handler fails, raises otherwise |
| Worker.SQSWorker.PollOnce | job_queue/worker.py:101-118 | the count of successes, and exactly the deletions up to a message that raises |
| Worker.SuccessesCount | job_queue/worker.py:114-118 | the count is how many messages were handled |
| Worker.SQSWorker.RunForever | job_queue/worker.py:139-146 | deletions, sleeps and final backoff of any sequence of polls |
| Worker.DeletedExactlyWhen | job_queue/worker.py:101-137 | a message is deleted exactly when its handler returned or it has no JSON body, and neither it nor one ahead of it raises |
| Worker.NotAnObjectEndsPoll | job_queue/worker.py:120-137 | a batch in which such a body keeps a good job from being run |
| Worker.FailureIsIsolated | job_queue/worker.py:130-134 | a failing message changes nothing for the rest of its batch |
| Worker.BackoffAfterIdling | job_queue/worker.py:139-146 | after k idle polls in a row the backoff is min(min 2^k, max), and min after a success |
| Worker.ArrivalResetsExactlyWhen | job_queue/worker.py:139-146 | after polls of which the last received something, the backoff is min exactly when a message of that poll was processed, or min is max |
| Worker.ArrivalDoublesBackoff | job_queue/worker.py:139-146 | a message that arrives and doubles the backoff |
| SetupChecklist.GroupsAgree | core/setup_checklist.py:132-156 | looking a workspace up in the grouped minima gives its own minimum, missing group and NULL minimum alike |
| SetupChecklist.ComputeBulk | core/setup_checklist.py:121-158 | the batched form gives every workspace what the single form gives; of two with one id, the later |
| SetupChecklist.FirstAtIs | core/setup_checklist.py:105-113 | the minimum is a time of one of the workspace's rows and no other is earlier; NULL exactly when none has a time |
| SetupChecklist.ItemIsTheFirst | core/setup_checklist.py:52-58 | an item is completed when the first of its signals came |
| SetupChecklist.DetailsAreWellFormed | core/setup_checklist.py:52-78 | items are done exactly when they have a time, and the last activity is the latest of those times |
| SetupChecklist.ChecklistsAgreeExactlyWhen | core/setup_checklist.py:161-195 | the customer's ticks and the admin's details agree exactly when the two GitHub App columns do, or another repository credential is verified, and no table has rows without a time only |
| SetupChecklist.ChecklistsDisagree | core/setup_checklist.py:161-195 | a workspace on which they do not |
| StallAlert.Workspaces.RunStalledSetupCheck | core/setup_checklist_stall_alert.py:55-113 | exactly the workspaces due whose mail went out are alerted and marked |
| StallAlert.AlertedExactlyWhen | core/setup_checklist_stall_alert.py:73-110 | a pass alerts exactly about paying, unfinished workspaces whose mail goes out, silent for 72 hours or more and longer than their last alert is ago |
| StallAlert.AlertsAreFarApart | core/setup_checklist_stall_alert.py:73-110 | two alerts for a workspace are more than 72 hours apart, with an item completed after the first and at least 72 hours before the second |
| StallAlert.AtMostFiveAlerts | core/setup_checklist_stall_alert.py:73-110 | a workspace whose items are completed once, at times that stay, is alerted about at most five times |

## Left out

- The other patterns of the sanitiser (social security numbers, phones, e-mail, custom YAML patterns): only the card scan is modelled.
- `rewrite_cta_text` and `append_utm`: one substitution each.
- The digest function behind signatures is any function; equality only. A missing secret is not part of the token functions.
- Lone surrogates in strings, and non-ASCII digits in card numbers and migration names.
- LinkRewrite.EveryLinkIsRewritten: a link that begins inside the address or the closing quote of an earlier one is no link to the pattern.
- LinkRewrite.RewritingIsInvertible: asks for a base URL that starts with http and has no quote, as the platform's own has, and an id that is not empty and has no bar, as a UUID has.
- Senders, mail, tickets and models are nondeterministic success or failure; message texts are not modelled.
- Clocks are abstract and one clock serves database and application; time zones are a local time of day that may be unknown.
- A pass whose transaction rolls back leaves no trace and is no event: mails it had sent may go out again. Likewise a database error inside a pass.
- Notifications.Delivery.RunPendingRetries: the read of a channel's configuration before each attempt counts as part of the attempt's outcome.
- Subscriber rows (`get_or_create_subscriber`), sunset and unsubscribe flags, the claim's order and its limit by sequence: a scheduler pass may claim any active due rows. Rows of inactive sequences can fill the claim, so no bounded wait is stated for e-mail.
- EmailLifecycle.EnrolmentEnds: supposes that the enrolment is not already claimed or being sent at another step when the count begins. A row claimed before a re-enrolment may still be processed at its old step.
- The daily send window in runs: passes may start at any time of day.
- A ledger row and the step it moves its enrolment to are one event; they are written in one transaction.
- SQL that itself commits, or touches `schema_migrations`; changes of a file between discovery and reading; other writers to the schema.
- Test incidents, read-only connections and roles in the approve route; deduplication of alerts (`find_open_incident`, `bump_occurrence`); audit rows; ticketing.
- The checkpoint library: a node's result is saved in one step, for the last node together with its status update, and a resume starts the saved node from its top with the choice as the answer to its interrupt.
- The retention job (core/retention.py), which deletes incident rows past a tier's age: rows stay for good. A replay after its row was deleted would insert it again and send a second notice.
- CardsFound.CandidateIsDecided: candidates behind a lone separator are covered by the matcher's and the scan's lemmas only.
- `core/engine.py`, whose gate passes no incident id.
- TokenBudget.SpendIsBounded: costs are exact numbers and budgets stay fixed; what rounding to cents does is stated separately, on costs in hundred-millionths of a dollar, of which every price is a whole number.
- The order in which waiting runs get a slot, and the warnings about waiting.
- Cancellation or failure in the middle of a saver operation other than a listing.
- The random part of the worker's sleep, and visibility timeouts.
- A crash between a stall alert's mail and its mark, deleted workspaces, overlapping stall checks, and NULL creation times in `StallAlert`.
- StallAlert.AlertsAreFarApart: supposes a clock that does not go back from pass to pass and workspaces created no later than they are first read.

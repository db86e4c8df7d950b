# Proofs about the AI-SCRM backend

This project models the parts of the AI-SCRM backend where a mistake is hardest to see: the router
that degrades from one AI provider to the next, the replay evaluation that judges new replies against
old ones, the handlers that race for something that may be had only once, the counting of scans and
funnel numbers, and two small pieces of state that must agree with what they summarise. `dafny verify
dfyconfig.toml` checks everything.

| file | what it is about |
|---|---|
| `Router.dfy`, `RouterRuns.dfy`, `RouterState.dfy` | the degradation chain: one pass as a function, whole runs, and the objects updated in place |
| `Stratify.dfy`, `Judge.dfy`, `ReplayEval.dfy` | choosing samples in turns, reading blind ballots, accounting for every sample |
| `ResetCode.dfy`, `FirstTouch.dfy`, `AdvisorClaim.dfy`, `FreePackage.dfy`, `Takeover.dfy` | handlers as sequences of separate statements on shared rows, under every schedule |
| `AcquisitionPolicy.dfy`, `Scans.dfy` | the rules of acquisition codes, and the scan table |
| `Contribution.dfy`, `Funnel.dfy`, `Paging.dfy` | numbers on cards, the lists behind them, and their pages |
| `TenantGate.dfy`, `EnvAudit.dfy` | the cached tenant verdict, and the credential audit |
| `Common.dfy`, `Text.dfy`, `Sorting.dfy` | optional values and durations, Go's string operations, Go's sort |

Code that changes objects or loops over variables is a class or a method here (`AIRouter`, `EvalReport`,
`ScanLog`, `ChannelTenantGate`, `StratifySamples`, `AuditCredentialPlaceholders` and so on). Each is tied
by its postcondition to a function or a predicate, and the theorems are about that function, over all
inputs or all runs. Time is an integer number of nanoseconds. What the code cannot decide itself is an
argument: how long a statement takes, what a provider, a judge or a query answers, and which of the
interleaved requests moves next.

## Where the code does not do what it says

Each of these has a lemma with an input that shows it, and a lemma that says exactly when the code does
meet the promise.

- *Credential audit, unset chain.* "A chain that is not configured at all is not reported"
  (`config/envaudit_test.go`) fails for reranking when an embedding key is configured: the borrowed key counts
  as half of a configuration, and `RERANK_API_URL` is reported missing (`EnvAudit.UnconfiguredReranking`). It
  holds exactly when reranking has a value of its own or there is no embedding key to borrow
  (`EnvAudit.UnsetIsQuietIff`).
- *Credential audit, placeholder.* The comment at `config/envaudit.go:153` says that a placeholder is not
  replaced by the borrowed key; the code replaces it (`EnvAudit.PlaceholderIsReplaced`). The findings differ
  from those of an audit that keeps to the comment exactly when the reranking key is a placeholder, its address
  is not set and the embedding key is usable; with an address both note the placeholder and nothing else
  (`EnvAudit.PlaceholderBorrowIff`).
- *Tenant gate.* A verdict is stamped after the query that produced it, so it is trusted for thirty seconds
  plus the time from reading the row to taking the stamp. The thirty-second promise holds over all runs
  exactly when that time is zero (`TenantGate.PromiseIff`, `TenantGate.LateStamp`).
- *Takeover.* The handlers write single columns so that a stale copy of the conversation does not overwrite a
  takeover, but what they write still follows from the copy. A flip of the AI switch read before a takeover
  hands the conversation back after it (`Takeover.StaleFlip`), and so does a timeout that had seen a silent
  advisor (`Takeover.StaleTimeout`). A write undoes a takeover exactly when the request hands back by the row
  it read (`Takeover.UndoesTakeoverIff`); for which of these writes the current row would have said otherwise
  is `Takeover.UndoesOnStaleReadIff`; and how a takeover is lost over whole schedules, the silence timeout only
  by a copy older than the takeover, is `Takeover.TakeoverLostIff`.
- *Advisor sends a message.* The block commented as making sure of human mode writes the mode only if the
  mode it had read was not human; after a concurrent switch back to AI the conversation stays in AI mode,
  though with replies off (`Takeover.SendAfterStaleRead`, `Takeover.SendEndsOutsideHumanIff`).
- *Advisor in charge.* The conditional claim lets one advisor win an unassigned customer, but the customer form
  and the detection of a lead write the column without a condition. A form opened before a claim and saved
  after it takes the customer away, and a second advisor can claim it (`AdvisorClaim.StaleForm`). An advisor
  stays in charge exactly as long as no such write names somebody else (`AdvisorClaim.OneAdvisorIff`), and two
  claims always have a write of "nobody" between them (`AdvisorClaim.TwoClaims`).
- *Page windows.* The product `(page - 1) * size` is computed in a machine integer. The window is the page
  asked for exactly when the product fits, or wraps to a place beyond the list, or the list is empty
  (`Paging.Window`); page 4611686018427387905 of size 20 shows the first page again
  (`Paging.FarPageRepeats`).
- *Router.* A pass may fail without an error. It does exactly when nobody was asked, or the last one asked said
  nothing and reported nothing (`Router.SilentFailureIff`; before the pass, `Router.SilentFailureForeseen`), as
  with no eligible model (`Router.NobodyEligible`) or a single mute one (`Router.MuteModel`). Failure has to be
  read off the reply.

Selecting samples is deterministic as promised, for a pool as a sequence. As a collection the pool determines the
selection exactly when no two different samples of a listed bucket share both sort keys
(`Stratify.OrderShowsIffTies`), which distinct attribution ids guarantee (`Stratify.DistinctIdsNeverTie`).

## Model

| member | source | states |
|---|---|---|
| `RouterState.AIRouter.MarkSuccess` | internal/ai/ai_router.go:342-348 | the model is open, without failures and without a failure time; no other object changes |
| `RouterState.AIRouter.MarkFailure` | internal/ai/ai_router.go:351-362 | one failure more, stamped now; closed from the fifth in a row, otherwise as open as before |
| `RouterState.AIRouter.MarkAuthFailure` | internal/ai/ai_router.go:367-375 | one failure more, stamped now, and closed at once |
| `RouterState.AIRouter.RecoverCoolingModels` | internal/ai/ai_router.go:393-405 | exactly the closed models whose last failure is at least the cooldown old are opened, nothing else changes |
| `RouterState.AIRouter.CountActive` | internal/ai/ai_router.go:247-257 | the loop counts the models eligible at the start of the pass |
| `RouterState.AIRouter.PlanChain` | internal/ai/ai_router.go:215-260 | budget shrunk to the parent's deadline, floored at one second, its deadline, the capped base context and the slice per live candidate |
| `RouterState.AIRouter.Visit` | internal/ai/ai_router.go:261-329 | one iteration stops, skips, or calls and leaves exactly the mark of the answer on that model alone |
| `RouterState.AIRouter.RunChain` | internal/ai/ai_router.go:210-339 | the loop over the mutable models replies and leaves the models as the recursive pass does |
| `RouterState.AIRouter.GenerateTextForStage` | internal/ai/ai_router.go:148-167 | a stage model is tried first without touching any counter, then the chain under the same deadline |
| `Router.SharedDeadline` | internal/ai/ai_router.go:148-166 | no call, of the override or of the chain, gets a deadline after start + total budget or after the caller's own, whatever the one-second floor does; a provider that honours its context is not running after it |
| `Router.DefaultDeadline` | internal/ai/ai_router.go:170-175 | unless configured otherwise no call gets a deadline later than 110 seconds after the start |
| `Router.StageModelFirst` | internal/ai/ai_router.go:152-166 | a configured stage model is the first call, under the shared deadline; if it answers it is the only call, its text with its provider and name is the reply and every model is unchanged; if not, the rest is the chain begun when it ended |
| `Router.NoStageModel` | internal/ai/ai_router.go:164-166 | without one, calls, models and reply are those of the chain alone |
| `Router.ReplyIsTheWinners` | internal/ai/ai_router.go:307-339 | the reply is the last attempt's text with the provider and the name of the model asked, or nothing with the last error |
| `Router.SomebodyIsAsked` | internal/ai/ai_router.go:227-238 | whatever the caller has left, even nothing, the first eligible model is asked if less than a second is lost between statements |
| `Router.NoModelStarved` | internal/ai/ai_router.go:227-305 | with budget B of a second or more and n eligible models, every eligible model up to the first answering one is tried, in order, each under a deadline of floor(B/n) less at most the time lost between statements (exactly floor(B/n) when none is lost), and the timeouts sum to at most B |
| `Router.FirstAnswerWins` | internal/ai/ai_router.go:259-334 | the winner is the first eligible model in priority order that answers; each eligible one before it gains exactly one failure, it is reset, skipped and later ones keep their state |
| `Router.PassFacts` | internal/ai/ai_router.go:259-339 | in every pass, honest providers or not: attempts are an initial part of the eligible models, all but the last failed, each model carries the mark of its own attempt or none, and the error returned is the last one |
| `Router.NobodyEligible` | internal/ai/ai_router.go:216-216 | with no eligible model nobody is asked, nothing changes, and both reply and error are empty |
| `Router.SilentFailureIff` | internal/ai/ai_router.go:216-339 | in every pass the reply is empty and the error nil exactly when nobody was asked, or the last one asked gave an empty reply without an error |
| `Router.SilentFailureForeseen` | internal/ai/ai_router.go:216-339 | with time to ask everybody, before the pass: exactly when no model is eligible, or no eligible one answers and the last of them is mute |
| `Router.MuteModel` | internal/ai/ai_router.go:307-339 | one eligible model with the whole budget that is asked, marked failed, and leaves neither reply nor error |
| `RouterRuns.FailuresSpacedOut` | internal/ai/ai_router.go:267-282 | over every run of passes and recoveries, from any state: after an account error or a third or later failure in a row the next attempt on that model is no earlier than the cooldown after it |
| `RouterRuns.ClosedExactly` | internal/ai/ai_router.go:342-405 | over every run from the initial list, read off the history: a model has its failures in a row as counter, is closed only by an account error or the fifth failure in a row as its last attempt, and then stays closed until the cooldown is over |
| `RouterRuns.AllowedIsAsked` | internal/ai/ai_router.go:247-305 | over every run, read off the history: a model not closed by its last attempt that has failed less than three times in a row, or has sat out its cooldown, is asked by the next pass, when there is time to ask everybody and nobody before it answers |
| `RouterRuns.EligibleByHistory` | internal/ai/ai_router.go:247-282 | the history allows a model exactly as the two tests do, except for one reopened after its cooldown |
| `RouterRuns.NoModelBricked` | internal/ai/ai_router.go:342-405 | after any interleaving of marks and recoveries: no failures exactly when no failure time, closed only with a failure time, and a recovery opens exactly the cooled-down models, which are eligible from then on |
| `RouterRuns.PassIsItsMarks` | internal/ai/ai_router.go:307-324 | a pass changes the models only through the marks of its attempts, so passes are covered by the interleavings of marks |
| `Stratify.ClassifyOutcome` | cmd/replayeval/stratify.go:40-51 | every row falls into one listed bucket, no weaker than any of its signals |
| `Stratify.GroupByBucket` | cmd/replayeval/stratify.go:71-74 | the map holds for each bucket its samples in pool order |
| `Stratify.SortGroups` | cmd/replayeval/stratify.go:75-82 | each slice is stably sorted, whatever the order in which the map yields its keys |
| `Stratify.TakeRound` | cmd/replayeval/stratify.go:86-99 | one round takes from each bucket in turn, stops at the limit, and reports whether it took anything |
| `Stratify.StratifySamples` | cmd/replayeval/stratify.go:67-102 | the three loops together yield the first `limit` samples of the whole rotation |
| `Stratify.SelectionIsFair` | cmd/replayeval/stratify.go:71-100 | size is the smaller of limit and samples in listed buckets; per bucket an initial part of newest-first; a bucket that got less than another is exhausted or one turn behind it; all taken from the pool, none more often than it is there |
| `Stratify.NewestFirst` | cmd/replayeval/stratify.go:75-82 | within a bucket of the output times never rise, nor ids at equal times; and a sample left out, or taken less often than it is in the pool, is no newer than any taken one of its bucket |
| `Stratify.FirstRound` | cmd/replayeval/stratify.go:29-97 | with all four buckets filled the first four selected are converted, lead, hooked and none, in this order |
| `Stratify.NoRepeats` | cmd/replayeval/stratify.go:71-100 | with distinct attribution ids no id is selected twice |
| `Stratify.ContentsDecide` | cmd/replayeval/stratify.go:67-102 | without ties any permutation of the pool gives the same output, and the output for a limit begins the output for any larger one |
| `Stratify.OrderShowsIffTies` | cmd/replayeval/stratify.go:66-82 | the output depends on the contents of the pool alone exactly when no two different samples of a listed bucket tie |
| `Stratify.DistinctIdsNeverTie` | cmd/replayeval/stratify.go:76-81 | with distinct attribution ids no two samples tie |
| `Sorting.SortMeans` | cmd/replayeval/stratify.go:76-81 | the sort is an ordered permutation |
| `Sorting.SortedUnique` | cmd/replayeval/stratify.go:76-81 | without ties an ordered sequence is determined by its contents |
| `Judge.FirstStandalone` | cmd/replayeval/stratify.go:149-165 | the scan finds the first A or B with no letter or digit beside it |
| `Judge.FirstFromMeans` | cmd/replayeval/stratify.go:147-148 | the letter found is the first that stands alone, and none is found exactly when none stands alone |
| `Judge.ParseJudgeVerdict` | cmd/replayeval/stratify.go:125-145 | tie words first, then the first lone letter seen from the replay's side, otherwise an invalid tie |
| `Judge.VerdictMeans` | cmd/replayeval/stratify.go:118-145 | by positions in the text: any of the five tie words is a valid tie whatever letters stand beside it; without one the first lone letter wins or loses; only without either is the vote an invalid tie |
| `Judge.AloneExamples` | cmd/replayeval/stratify.go:120-170 | AB and A1 hold no lone letter, a letter between other characters is one |
| `Judge.SidesMirror` | cmd/replayeval/stratify.go:125-145 | any raw text gives the two sides opposite win and loss or both a tie, with the same validity, and an invalid vote is a tie |
| `Judge.PositionNeutral` | cmd/replayeval/main.go:369-381 | a judge that names the letter of the reply it prefers gives the same verdict wherever the replay is placed, and that verdict is its preference |
| `Judge.NeutralIff` | cmd/replayeval/main.go:369-381 | for any judge at all, the two placements get the same verdict and validity exactly when the two ballots mirror each other |
| `ReplayEval.EvalReport.constructor` | cmd/replayeval/stratify.go:221-230 | the four tallies exist and are blank |
| `ReplayEval.EvalReport.RecordSelected` | cmd/replayeval/stratify.go:233-237 | one selected sample more in its bucket, nothing else |
| `ReplayEval.EvalReport.RecordVerdict` | cmd/replayeval/stratify.go:240-259 | one vote more of that kind, one invalid more if it is one, and a valid vote marks the judging as done |
| `ReplayEval.EvalReport.RecordJudgeError` | cmd/replayeval/stratify.go:262-267 | one judge error more, in total and in its bucket |
| `ReplayEval.EvalReport.Total` | cmd/replayeval/stratify.go:270-282 | the sum over the buckets of what the entries recorded so far add up to |
| `ReplayEval.TallyCounts` | cmd/replayeval/stratify.go:233-267 | each field of a tally is the number of samples of that bucket with that fate |
| `ReplayEval.RunSample` | cmd/replayeval/main.go:203-236 | the loop body drives a sample to the one fate its answers determine and records just that |
| `ReplayEval.FateMeans` | cmd/replayeval/main.go:203-236 | which answers lead to which fate: errors before the judge, blank texts, errors of the judge, and votes read from the prompt with the two replies on their sides |
| `ReplayEval.RunReplayEval` | cmd/replayeval/main.go:170-238 | error cases in order; otherwise the report accounts for exactly the fair selection from the pool, with fates in a real run and without in a dry run |
| `ReplayEval.RunConserves` | cmd/replayeval/main.go:203-236 | Selected = Win + Tie + Loss + JudgeErrors + GenerateFailed + SkippedNoInput; Unparsed at most Tie in each bucket; judging executed exactly when votes exceed invalid votes |
| `ResetCode.CodeIsSingleUse` | internal/api/auth_password.go:259-298 | under every schedule of any number of requests: attempts are at most five and equal the requests that reached the comparison; at most one request claims a code, it holds a matching one, and every password update has its own claim |
| `ResetCode.ClaimedWasLive` | internal/api/auth_password.go:259-264 | under every schedule whoever claims a code looked it up when it was unused, expired later than the clock, and no newer code was like that |
| `ResetCode.ExpiredIsNeverClaimed` | internal/api/auth_password.go:259-264 | a request that has not got hold of a code when it expires never claims it, whatever follows |
| `ResetCode.AloneMeans` | internal/api/auth_password.go:259-317 | an undisturbed request resets the password exactly with the code of the latest live row and an attempt left; a wrong code costs an attempt; without one left the code is voided |
| `ResetCode.AloneWithoutCode` | internal/api/auth_password.go:259-265 | without a live code a request is turned away and changes nothing |
| `ResetCode.UsedIsForever` | internal/api/auth_password.go:277-298 | a used code stays used, and nobody claims it afterwards |
| `AcquisitionPolicy.NormalizeCode` | internal/acquisition/policy.go:51-62 | the result is empty or eight characters of the alphabet |
| `AcquisitionPolicy.NormalizeForgives` | internal/acquisition/policy.go:51-62 | normalising twice changes nothing, and blanks around a text or lower case in it never change its code |
| `AcquisitionPolicy.NormalizeFinds` | internal/acquisition/policy.go:51-62 | exactly the texts that are a code but for blanks and case have one, and it is that code |
| `AcquisitionPolicy.AlphabetIs` | internal/acquisition/policy.go:26-30 | the alphabet is the capital letters without I, L and O and the digits without 0 and 1 |
| `AcquisitionPolicy.CountsAtTheEdge` | internal/acquisition/policy.go:98-114 | a known visitor's scan counts exactly from 600 seconds after the last one on |
| `AcquisitionPolicy.DecideApply` | internal/acquisition/policy.go:154-175 | each reason exactly when its red line is the first crossed, and applied exactly when none is |
| `FirstTouch.FirstTouchWins` | internal/acquisition/service.go:454-497 | under every schedule a customer has a code exactly when exactly one request reported it applied, it is that request's code and of the customer's tenant, and neither it nor the source ever changes again |
| `FirstTouch.AloneIsApplied` | internal/acquisition/service.go:454-498 | an undisturbed request with an active code of the customer's tenant on a customer without one is applied: the customer gets the code and its channel as source, nobody else changes |
| `AdvisorClaim.OneAdvisorIff` | internal/api/advisor.go:1353-1385 | over every schedule of sends, saved forms and detected leads, an advisor once in charge stays exactly as long as no unconditional write names somebody else; no claim and no send takes a customer away |
| `AdvisorClaim.TwoClaims` | internal/api/advisor.go:1362-1384 | two successful claims of one customer have a write of nobody between them |
| `AdvisorClaim.SenderWasInCharge` | internal/api/advisor.go:1353-1385 | every request that gets to send passed the check at a moment when its advisor was in charge |
| `AdvisorClaim.TwoAdvisors` | internal/api/advisor.go:1353-1385 | two advisors pass the check on one customer only with an unconditional write in between that takes it from the first |
| `AdvisorClaim.FormKeepsIff` | internal/api/customer.go:216-316 | a form that names no advisor restores the one it read, so it leaves the customer alone exactly when that one is in charge again |
| `AdvisorClaim.StaleForm` | internal/api/customer.go:274-309 | a schedule in which two advisors claim one customer and both send |
| `AdvisorClaim.WritesMean` | internal/chatflow/chat_lead.go:86-107 | a saved form puts in charge whom it names or whom it read; a detected lead assigns a customer it read unassigned and leaves any other alone |
| `AdvisorClaim.SendAlone` | internal/api/advisor.go:1353-1385 | an undisturbed send goes through to a customer of its own, claims one of nobody's, and is turned away from anybody else's |
| `FreePackage.GrantedOnce` | internal/api/billing_package.go:61-91 | under every schedule of the transactions, with rollbacks at any statement: as many committed grants as claim rows, at most one, and one exactly when one request reported success |
| `FreePackage.AloneMeans` | internal/api/billing_package.go:61-91 | an undisturbed request is granted an unclaimed package, and turned away from a claimed one without a change |
| `FreePackage.FailedGrantLeavesNothing` | internal/api/billing_package.go:67-84 | a grant that fails takes the claim row with it |
| `Takeover.LockedMeansHuman` | internal/api/advisor.go:216-240 | over every interleaving of reads, decisions and updates of all kinds of handler a locked conversation is in human mode |
| `Takeover.WritesWhatItRead` | internal/chatflow/human_takeover.go:64-112 | whatever happens between a request's read, its decision and its write, it decides and writes by the row it read |
| `Takeover.WritesLeave` | internal/api/advisor.go:216-240 | for every kind of handler, whatever happened in between: mode, lock, switch, pending flag and time stamps after its write |
| `Takeover.TimeoutsWait` | internal/chatflow/human_takeover.go:64-93 | when the timeouts go on, in the columns of the row: the silence timeout strictly after its time, the reopening one from it on and only for a pending handover with the switch off |
| `Takeover.UndoesTakeoverIff` | internal/chatflow/chat_state.go:51-85 | a request writes on a locked conversation, whoever locked it since its read: the lock and human mode are lost exactly when it was asked to hand back, flips a switch it saw off, or saw an advisor silent for the timeout |
| `Takeover.UndoesOnStaleReadIff` | internal/chatflow/human_takeover.go:78-110 | exactly which of these writes the same request would not make by the row it overwrites: every silence timeout, a flip after somebody else's switching on, a reopening whose warrant is gone |
| `Takeover.TakeoverLostIff` | internal/chatflow/chat_state.go:51-85 | over every schedule from any reachable locked moment: the lock is lost if and only if some request is asked to, flips a switch it saw off, or acts on a silence it saw; a silence timeout only by a copy from before that moment |
| `Takeover.StaleFlip` | internal/api/advisor.go:216-240 | a schedule in which a flip read before a takeover hands the conversation back after it |
| `Takeover.StaleTimeout` | internal/chatflow/chat_state.go:70-83 | a schedule in which a timeout read before a takeover hands the conversation back after it |
| `Takeover.SilenceEndsIff` | internal/channel/inbound.go:126-129 | a write lets a silenced AI answer again exactly when the request hands back by the row it read, unless a silence timeout finds the switch off |
| `Takeover.WritesSilence` | internal/api/advisor.go:1276-1292 | a takeover, a human reply, a send, a safety takeover and a customer's request silence the AI, whatever they read and whatever has happened since |
| `Takeover.SendEndsOutsideHumanIff` | internal/api/advisor.go:1390-1411 | a send ends outside human mode exactly when it read human mode and finds another when it writes, and then a request has handed the conversation back in between |
| `Takeover.SendAfterStaleRead` | internal/api/advisor.go:1390-1411 | a schedule that ends in AI mode with the AI switched off |
| `Scans.ScanLog.RecordScan` | internal/acquisition/service.go:389-430 | error without tenant or code; otherwise one row is added, or none for a known visitor within the window, and the answer says which |
| `Scans.LastSeen` | internal/acquisition/service.go:401-415 | the query yields the time of the visitor's latest row, or nothing exactly when there is none |
| `Scans.CountedIsGreedy` | internal/acquisition/service.go:389-430 | whatever else is scanned in between, the rows of a visitor are the greedy filter of that visitor's scans |
| `Scans.CountedIsOptimal` | internal/acquisition/policy.go:98-114 | counted scans are pairwise ten minutes apart, every scan has a counted one less than ten minutes before it, and no selection of scans that far apart is larger |
| `Scans.AnonymousAllCounted` | internal/acquisition/policy.go:100-109 | scans without a visitor key are all counted |
| `Contribution.StagesNest` | internal/analytics/contribution.go:86-107 | ordered implies arrived implies lead |
| `Contribution.ClassifyContributionCounts` | internal/analytics/contribution_drill.go:72-95 | each of the six numbers is the length of the list of its metric |
| `Contribution.FilterContributionCustomers` | internal/analytics/contribution_drill.go:98-106 | the loop collects the matching customers in their order |
| `Contribution.CountsNarrow` | internal/analytics/contribution_drill.go:49-95 | ordered ≤ arrived ≤ leads ≤ served by the AI, assisted leads ≤ served by humans, and the two add up to everybody |
| `Contribution.RatesAreShares` | internal/analytics/contribution.go:54-117 | every rate lies in [0, 1], later stages have smaller rates, and the two shares of service add up to one |
| `Contribution.RatesGiveCounts` | internal/analytics/contribution.go:54-83 | every rate times its own denominator is its own numerator, also where nobody was served |
| `Contribution.GetAIContributionCustomers` | internal/api/ai_contribution_drill.go:83-206 | unknown metrics are refused; the total is the number on the card; the list shows the rows of the page asked for, with parameters defaulted and capped, when the start of the page fits |
| `Contribution.OrderNeverShows` | internal/api/ai_contribution_drill.go:112-114 | the sorted list does not depend on the order of the rows |
| `Contribution.ListIsTheNumber` | internal/api/ai_contribution_drill.go:112-143 | the list has as many customers as the number, just those of the metric, by falling id; its pages concatenate to it and none is on two pages |
| `Contribution.ListsMean` | internal/analytics/contribution_drill.go:49-64 | who is on each of the six lists, with the stages written out; nobody on a list of the AI has a human reply |
| `Contribution.RowsShow` | internal/api/ai_contribution_drill.go:181-204 | the rows are the page's visible customers in order, each with its own profile and who served it |
| `Contribution.PageSizes` | internal/api/ai_contribution_drill.go:96-106 | twenty rows by default, as many as asked for, a hundred at most |
| `Paging.PagesConcatenate` | internal/api/ai_contribution_drill.go:135-143 | consecutive pages are the whole list, and every later page is empty |
| `Paging.OnOnePage` | internal/api/ai_contribution_drill.go:135-143 | nothing is on two pages of a list without repeats |
| `Paging.Window` | internal/acquisition/service.go:300-309 | in machine integers the window is the page exactly when the start fits or wraps beyond the list; otherwise it is another stretch of the list or a slice out of bounds |
| `Paging.FarPageRepeats` | internal/acquisition/service.go:300-309 | a page number that fits but whose start wraps to zero |
| `Funnel.ClassifyFunnelCounts` | internal/acquisition/policy.go:282-295 | the map has exactly the five metrics, each with the length of its list |
| `Funnel.FunnelNarrows` | internal/acquisition/policy.go:251-295 | ordered ≤ arrived ≤ lead ≤ new, which is everybody, and spoke ≤ new |
| `Funnel.DrillCustomers` | internal/acquisition/service.go:274-333 | unknown metrics before missing codes; the total is the number of hits; the list is the page in the order of the hits, each with its own hit's flag, without rows that are gone, when the start of the page fits |
| `Funnel.FetchInOrder` | internal/acquisition/service.go:315-320 | the second query, sorted by itself, keeps the order of the page |
| `Funnel.FunnelListIsTheNumber` | internal/acquisition/service.go:287-313 | the list has as many customers as the funnel says, just those of the metric; its pages concatenate to it and none is on two pages |
| `Funnel.FunnelListsMean` | internal/acquisition/policy.go:251-265 | who is on each of the five lists, with the stages written out |
| `Funnel.ShownMeans` | internal/acquisition/service.go:310-331 | the rows are the page's remaining hits in order, each with its own profile and flag |
| `TenantGate.ChannelTenantGate.ChannelTenantUsable` | internal/api/channel_callback.go:41-63 | the cached verdict if younger than thirty seconds, otherwise the verdict on the row read now, which is then cached with its stamp |
| `TenantGate.RefusedIff` | internal/api/channel_callback.go:47-57 | refused exactly with one of the four statuses or a cancellation in the past; a tenant that cannot be found is not |
| `TenantGate.VerdictStands` | internal/api/channel_callback.go:44-61 | for thirty seconds after its stamp a verdict is repeated whatever happens to the row, and from then on the row is asked again |
| `TenantGate.NeverStale` | internal/api/channel_callback.go:41-63 | over every run of calls and row changes each answer is the verdict on the row at some instant less than thirty seconds plus the stamping delay old |
| `TenantGate.PromiseIff` | internal/api/channel_callback.go:39-40 | a tenant blocked for thirty seconds is always refused exactly when entries are stamped at the instant their row was read |
| `EnvAudit.IsPlaceholderCredential` | config/envaudit.go:88-99 | the scan decides whether a value is blank or begins like a template |
| `EnvAudit.PlaceholderIff` | config/envaudit.go:36-99 | blank, or beginning with one of the ten template forms written out, whatever the case |
| `EnvAudit.MissingOf` | config/envaudit.go:144-166 | the key is missing when the URL is set and neither the chain's own key nor its stand-in is usable; the URL is missing when it is unset and one of them is |
| `EnvAudit.KeyReasonIff` | config/envaudit.go:121-135 | which values make a key a placeholder or a factory default |
| `EnvAudit.MainMissingIff` | config/envaudit.go:136-143 | the main key is missing exactly outside mock mode with a blank or template value |
| `EnvAudit.PlainChainIff` | config/envaudit.go:144-166 | a chain without a stand-in is reported exactly when one half is there without the other |
| `EnvAudit.AuditCredentialPlaceholders` | config/envaudit.go:104-175 | one finding for every flagged key and no other, with the reason of the earliest stage that flags it, in strictly increasing order of keys |
| `EnvAudit.OrderNeverShows` | config/envaudit.go:104-175 | reordering or repeating the keys or the chains does not change the result |
| `EnvAudit.UnsetIsQuietIff` | config/envaudit.go:144-166 | no chain that is entirely unset is reported exactly when reranking is not such a chain beside a usable embedding key |
| `EnvAudit.UnconfiguredReranking` | config/envaudit.go:146-166 | an environment where an unconfigured chain is reported |
| `EnvAudit.PlaceholderBorrowIff` | config/envaudit.go:144-166 | the findings differ from those of an audit that never replaces a placeholder exactly when the reranking key is one, its address is not set and the embedding key is usable |
| `EnvAudit.PlaceholderIsReplaced` | config/envaudit.go:150-165 | an environment where the placeholder is replaced and the address reported |

## Left out

- Concurrency inside the router: passes of `RouterRuns.FailuresSpacedOut` and `Router.FirstAnswerWins` run one at a time; only the marks and recoveries themselves are interleaved freely, in `RouterRuns.NoModelBricked`.
- The token usage returned with a reply, the log lines, and `classifyAIError`: an error is an account error or any other.
- Clock readings between two statements are lags in the model, but creating a context and reading the total budget share one instant; the clock never goes back.
- `GetModels`, `CooldownSeconds` and the assembly of the priority list read or build the list and decide nothing.
- `pickReplaySide`, bcrypt and the code hash are arbitrary functions; the fixed wording of the judge's prompt is not modelled.
- Upper and lower case and white space are ASCII only; the byte scan for lone letters reads characters.
- `conclusion`, `winRate`, `tieRate` and the report's text present numbers that are already modelled.
- The pool's size and distribution on the evaluation report, and the multiplication of the limit beyond the machine integer.
- Handlers of `ResetCode`, `FirstTouch`, `AdvisorClaim`, `FreePackage` and `Takeover` are transition functions rather than methods, because their theorems are about all interleavings; SQL statements, unique indexes and transactions are taken as atomic.
- The sixty-second limit on sending reset codes and the sending itself: a code is simply issued. One user name is modelled, as requests never touch another's rows.
- The scan recorded after a code was applied, which cannot undo it; and drawing new codes at random.
- Administrators skip the ownership check of an advisor's send; only the other roles race for a customer. Whom a lead is assigned to is arbitrary, permission checks on the form are not modelled, and customers are neither created nor deleted during a schedule.
- Handlers of a conversation that write the same columns share a kind: routing to a human and the flow engine's human node write as the safety takeover does, the staff's transfer to a human as the customer's request, the flow engine's AI node as the hand-back. The soft timeout clears the pending flag alone; it, new messages and every other writer of the pending flag and of the two time stamps are one arbitrary step.
- Scans.ScanLog.RecordScan: calls run one at a time, because reading the last scan and adding a row are two statements; a zero time means that the caller's clock is passed; times are not rounded to the database's microseconds.
- Rates are real numbers, so the rounding of `float64` and the text of timestamps are not modelled.
- Contribution.GetAIContributionCustomers: the two queries that name customers and advisors are one table of visible rows, and the data scope of the caller is part of it.
- Funnel.DrillCustomers: the first query's order by falling id is required of its result; clamping the days and the window of the query are its caller's concern; both queries see the same customers.
- `sort.Slice` is modelled by the stable sort; on the distinct keys sorted here every sort gives the same result.
- TenantGate.NeverStale: the query and the comparison with the cancellation time read the clock at one instant.
- EnvAudit.AuditCredentialPlaceholders: a missing lookup falls back on the process environment, which is then the lookup.
- Payment webhooks, order confirmation, provider clients, prompt texts, metrics, message queues and the front end.

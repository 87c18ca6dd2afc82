# Usage quota guard: a verified model

The plugin meters downstream API keys by period and steers requests away from rate-limited
upstreams. This project models its four stateful cores and proves what they promise over whole runs.

- **Quota cycle** (`QuotaCycle`, `StoredCycle`): the weekly cycle is a small state machine moved by two
  parties, readers of the active period and observers of an upstream reset header. It is stated on
  instants (integer nanoseconds) and again on the stored text row, and the second refines the first.
- **Ledger** (`Ledger`, `LedgerRuns`, `Billing`): an event table and an incremental aggregate that must agree,
  with duplicate deliveries dropped by request ID and key, and events pruned by age.
- **Whole store runs** (`Quota`, `QuotaRuns`, `Overshoot`): each store call is one step that first moves the
  cycle and then changes the ledger under the label it resolved. For the overshoot bound authentication is
  split where the code leaves the cycle's mutex.
- **Streams** (`Convert`, `Streams`): response bodies are searched for usage objects; streamed chunks are kept
  in one shared table with eviction until a terminal chunk arrives.
- **Route bans and scheduling** (`Bans`, `RouteHealth`, `Scheduler`): a failed record becomes a clamped ban,
  stored as text times, that the scheduler must respect.
- **Time as text** (`Calendar`, `Timestamp`): the RFC 3339 form (section 5.6) with trimmed fractions is
  printed, parsed back and compared as text.
- **The imperative parts** (`Store`, `Runtime`): classes whose fields are the tables and the stream map, and
  whose methods are proved against the functions that the run theorems are about.
- **Callbacks** (`Deliveries`, `Callbacks`): a run of host callbacks is a run of store calls, a delivery of
  stream chunks and a run of ban operations, side by side; from this follows what the plugin charges, whichever
  path reports a request first and however the store calls interleave.
- **Admission and attribution** (`Admission`, `Attribution`): who is let in and which settings are in force over
  runs of calls; which row a delivery leaves, and which cycle a delayed callback is charged to.
- **Key extraction** (`Extract`): the authentication and the interception path find the same key.

Assumptions, all visible as parameters or preconditions: the clock does not run backwards;
observations, authentication and management calls use the current clock, while reads and usage
callbacks may ask about an earlier instant (`Timely`); fallback period labels never look like upstream
cycle labels (`PlainLabels`) and, for the overshoot bound, do not return once they have changed
(`LabelsAdvance`); JSON validity and decoding, floating-point percentages, formatted reset times, HTTP
dates and the keyed hash are given functions; text with a line starting `data:` is not valid JSON; for
what a stream accounts for, its chunks cut the text cleanly, for example at line ends (`CleanCuts`).

Where the code and its documents differ the model follows the code. The repository's README.md:27 describes the
total metric as input + output + reasoning; store.go:463 also adds cache reads and cache creation. The
weekly-reset design says a delayed callback is attributed by its request time; the code remembers
one prior cycle, so this holds up to one rollover (`AttributionStable` says what happens after more).
The same design ignores invalid reset times, but a boundary whose year has five digits is accepted and
cannot be read back, which blocks the store for good (`UnreadableBlocksForGood`).

Properties that are false of the code, each with an input that shows it and its exact condition:

| property | input that fails | exact condition |
|---|---|---|
| stored text is ordered as time within one second | `TextOrderFails` | `TextOrderWithinSecond` |
| every instant can be read back | `FiveDigitYearBlocksReads`, one header | `ParseUndoesPrint`, `FourDigitYears`, `UnprintableBoundaryBlocksReads` |
| a new period starts without usage | `SharedSecondCarriesUsage` | `NewLabelUnused` |
| no passed boundary is lost, none rolls twice | observed with a stale instant: `StaleObservationRollsTwice` | `StaleObservationLosesRollover`; with the current clock `NoPassedBoundaryLost`, `EachBoundaryRollsOnce` |
| the input columns conserve raw input | `CachedBeyondInput` | `ChargeConserves` |
| a request is charged once | `PrunedRepeatIsCharged` | `ChargedOnceIffPruneSafe` |
| in-flight requests counted from the decision bound the overshoot | `StragglerExceeds` | counted from the resolved period, `OvershootBound`, which that input reaches |
| a stream accounts for all its usage | `OverdueStreamLosesUsage` | `StreamRefinesWholeText`, `AccountsOwnChunks`; for the table at all times `FaithfulIffUnexpired` |
| chunks have the candidates of the text they are cut from | `CutLineLosesUsage` | `CutKeepsCandidates` |
| the join of chunks keeps their usage | `TwoDocumentsLoseUsage` | `JoinLosesDocuments` |
| a further ban never shortens a target's expiry | `AddingShortens` | `AddingShortensIffPrefix` |
| a Retry-After is obeyed within the bounds | `RetryAfterWraps` | `RetryAfterDecides` |
| different routes have different keys | `CollidingRoutes` | `ColonsCollide` for a pair, `TargetAlone` for one route |

Lemmas switch automatic induction off, so each inductive proof is the one written.

## Model

| member | source | states |
|---|---|---|
| Timestamp.ParseUndoesPrint | internal/store/store.go:628 | Parsing a printed instant gives exactly that instant, if and only if its year has four digits; otherwise parsing fails |
| Timestamp.TextOrderAcrossSeconds | internal/store/store.go:504-522 | For printable instants in different whole seconds, text order of the stored values is time order |
| Timestamp.TextOrderWithinSecond | internal/store/store.go:504-522 | Inside one second text order is right exactly unless the earlier printed fraction is a prefix of the later one |
| Timestamp.TextOrderFails | internal/store/store.go:504-522 | A whole second sorts after the half second that follows it |
| Timestamp.FourDigitYears | internal/store/store.go:628 | The instants that can be read back lie from 0000-01-01 up to, not including, 10000-01-01 |
| Timestamp.TextDecisionsWithinOneSecond | internal/store/store.go:504-522 | A decision on texts errs by strictly less than one second |
| Timestamp.TsInjective | internal/store/store.go:628 | Different printable instants have different texts |
| Timestamp.LeapDayText | internal/store/store.go:628 | The text of a leap day to half a second, character by character |
| Text.FoldingIsLowering | internal/auth/extract.go:53 | ASCII texts are equal up to case exactly when their lower-case forms are equal |
| QuotaCycle.UpstreamTextInjective | internal/store/store.go:411-413 | Cycle labels of different seconds differ, and every one has the upstream prefix |
| QuotaCycle.LabelOfSeventhSecond | internal/store/store.go:411-413 | The label of a boundary is the fixed prefix and its whole second |
| QuotaCycle.FirstBoundaryKeepsLabel | internal/store/store.go:366-371 | The first boundary learned leaves the fallback label in force until it passes |
| QuotaCycle.RunSound | internal/store/store.go:315-393 | Over any run the start has passed, labels the period, and precedes the next boundary |
| QuotaCycle.LateDiscoveryAgrees | internal/store/store.go:336-344 | A rollover found by a reader and then observed equals one found by the observer |
| QuotaCycle.ReadsDoNotSteer | internal/store/store.go:315-393 | Erasing any reads from a run leaves the same period, next boundary, previous period and start once due rollovers are applied |
| QuotaCycle.EachBoundaryRollsOnce | internal/store/store.go:331-392 | Over any run the rolled boundaries strictly increase from the initial start, and the last is the recorded start |
| QuotaCycle.NoPassedBoundaryLost | internal/store/store.go:331-392 | In a run that ends with a read past the awaited boundary, that boundary rolls exactly unless an observation put a later one in its place before it had passed |
| QuotaCycle.AttributionStable | internal/store/store.go:336-354 | An instant of the current cycle keeps its label through any steps with at most one rollover; after more it gets the cycle before the active one |
| QuotaCycle.StaleObservationLosesRollover | internal/store/store.go:357-392 | From every sound state whose boundary has passed, an observation made with an earlier instant does what the current clock would exactly if that instant is not before the boundary; otherwise the rollover is lost |
| QuotaCycle.StaleObservationRollsTwice | internal/store/store.go:357-392 | After a reader has rolled a boundary over, a stale observation of it makes it roll again and forgets the cycle before it |
| StoredCycle.ResolveRefines | internal/store/store.go:319-354 | Reading the period on text columns leaves and returns what the machine on instants does, and never errs |
| StoredCycle.ObserveRefines | internal/store/store.go:366-392 | Observing a boundary on text columns does what the machine on instants does |
| StoredCycle.RunSurvivesReopening | internal/store/store.go:315-393 | After any run with printable boundaries the row alone decodes to the exact state, so reopening loses nothing |
| StoredCycle.DecodeUndoesEncode | internal/store/store.go:331-349 | The stored row can be read back exactly when its instants are printable |
| StoredCycle.UnprintableBoundaryBlocksReads | internal/store/store.go:332-335 | The next read, or observation of a further boundary, fails exactly when the stored boundary's year has not four digits |
| Quota.StoredDoRefines | internal/store/store.go:315-501 | One store call on text columns leaves the encoding of what it leaves on instants, without error |
| Quota.StoredCallsRefine | internal/store/store.go:315-501 | So does every run of store calls with printable boundaries |
| Quota.UnreadableBlocksForGood | internal/store/store.go:332-335 | Once the stored boundary does not parse, every run of calls leaves the row and the aggregates, accepts no event, and every later lookup fails |
| Quota.AddedKeyIsRecognised | internal/store/store.go:171-247 | An added key is the one authentication looks up, up to surrounding white space, and is active unless another status was given |
| Admission.AllowedExactly | internal/store/store.go:177-223 | A key is let in exactly when it is not blank and registered, active and below its limit, or unregistered where unknown keys are let in; each refusal gives its reason |
| Admission.RegistersExactly | internal/store/store.go:187-204 | An unknown key is registered exactly where configured, with the default limit, active only where unknown keys are let in; no other key is touched |
| Admission.KeyAfterCall | internal/store/store.go:226-270 | What each call makes of each key's row |
| Admission.StrangersStayOut | internal/store/store.go:187-204 | Where unknown keys are denied, a key no management call has made active is refused at every authentication of every run |
| Admission.SettingsInForce | internal/store/store.go:260-270 | Over any run a key's limit is the last given, its name and status the last given that are not empty |
| Admission.LastLimitDecides | internal/store/store.go:210-223 | After any run a key is let in exactly when its last status is active and its usage below its last limit |
| Ledger.PruneErrsWithinOneSecond | internal/store/store.go:504-507 | Pruning keeps or deletes a row on the right side of the cutoff up to less than one second, exactly when seconds differ |
| Ledger.RemainingAgreesWithAdmission | internal/store/store.go:272-303 | A registered active key shows zero remaining exactly when authentication refuses it as over quota, while the difference fits in 64 bits |
| Ledger.ChargeConserves | internal/store/store.go:465-472 | The input and cache-read columns conserve raw input plus raw cache reads exactly unless cached tokens exceed the input or the difference leaves 64 bits |
| Ledger.CachedBeyondInput | internal/store/store.go:465-472 | Three input tokens of which five are cached fill the two columns with eight |
| Ledger.FilledTotalCoversColumns | internal/store/store.go:462-472 | A filled-in total is the sum of the input, cache, output and reasoning counts, whichever column cached tokens went to |
| Ledger.TotalFilledOnlyIfMissing | internal/store/store.go:462-464 | A reported total stays, a missing one becomes the sum of the parts, nothing else changes |
| LedgerRuns.LedgerAgreement | internal/store/store.go:451-502 | Over any run each aggregate row exists exactly when it has accepted events since its last reset, and equals their sum and count; pruning, deletion and rollover change nothing |
| LedgerRuns.TableIsHistory | internal/store/store.go:488-507 | Over a run without resets the accepted events are the event table itself exactly as long as no prune has deleted a row |
| LedgerRuns.ColumnsConserveInput | internal/store/store.go:465-472 | The two input columns of a cell sum to the raw input plus raw cache reads of its events |
| LedgerRuns.ColumnsAreSums | internal/store/store.go:465-497 | Each aggregate column is the plain sum of what the events report for it: input less cached tokens, output, cache reads, cache writes, total, requests and errors |
| LedgerRuns.MetricIsSum | internal/store/store.go:214-221 | Over any run what a limit is compared with is the sum of the accepted output or total tokens, by the configured metric |
| LedgerRuns.AdmissionCountsHistory | internal/store/store.go:210-223 | After any run a registered active key is let in exactly when that sum is below its limit or it has none |
| LedgerRuns.ViewShowsHistory | internal/store/store.go:272-303 | After any run the view of a key shows its settings and the sums of its accepted events |
| Billing.KeptIsOnce | internal/store/store.go:478-487 | Of consistent deliveries exactly each new identified request once and every anonymous one is charged, as multisets |
| Billing.KeptOnce | internal/store/store.go:478-487 | Where deliveries of a request differ, its first one is charged and no other |
| Billing.RunTotals | internal/store/store.go:478-507 | Over any run without resets a cell gains each new request once, every anonymous delivery, and those repetitions whose row was pruned |
| Billing.ChargedOnceIffPruneSafe | internal/store/store.go:478-507 | Every cell ends with each new request charged once exactly when no prune deletes the row of a request that is delivered again later |
| Billing.PrunedRepeatIsCharged | internal/store/store.go:478-507 | A delivery repeated after its row was pruned is charged twice |
| Billing.RetentionSuffices | internal/store/store.go:504-507 | That is so when every repetition comes while the stamps of the earlier deliveries are a second or more after each prune's cutoff |
| Billing.ExactlyOnce | internal/store/store.go:455-507 | Two runs with the same identified requests, in any order and repetition, and the same anonymous deliveries end with the same counters in every cell, through all prunes that lose no row needed later |
| QuotaRuns.CallsRunTheCycle | internal/store/store.go:177-393 | The cycle part of a run of store calls is a monotone run of the cycle machine |
| QuotaRuns.CrossesExactly | internal/store/store.go:177-507 | Which calls apply a boundary that is due, and which do not |
| QuotaRuns.NoRowBeforeItsCycle | internal/store/store.go:315-393 | Over every orderly run no aggregate row carries a cycle label before that cycle starts |
| QuotaRuns.NewLabelUnused | internal/store/store.go:336-343 | The label of a boundary not yet applied has no usage, unless it shares the second of the current start, where the usage carries over |
| QuotaRuns.SharedSecondCarriesUsage | internal/store/store.go:336-343 | Two boundaries in one second, with an event between them: the second period starts with the first one's usage |
| QuotaRuns.CrossingGivesFreshAllowance | internal/store/store.go:336-392 | The call that crosses a boundary makes its label active and leaves each key only what that call records |
| QuotaRuns.FreshAllowance | internal/store/store.go:315-393 | The same after any run from a database without a cycle, when observed boundaries lie at least a second apart |
| QuotaRuns.StoredFreshAllowance | internal/store/store.go:315-393 | The same for what the store resolves and sums on its text columns |
| QuotaRuns.AdmittedAtBoundary | internal/store/store.go:210-223 | At a due boundary an active key is let in exactly when it has no limit or a limit of at least one |
| Overshoot.ActiveShift | internal/store/store.go:305-355 | As the clock advances the active label is kept or moves to one without usage for the key |
| Overshoot.AuthenticationIsTwoSteps | internal/store/store.go:210-221 | Authenticating a registered active key in one step is resolving the period and then deciding on its totals |
| Overshoot.OvershootBound | internal/store/store.go:210-221 | With at most n requests in flight of at most m each, counted from the moment authentication has resolved the period, usage of the active period never exceeds limit - 1 + n * m, at every point of every interleaving |
| Overshoot.StragglerExceeds | internal/store/store.go:210-221 | Counted from the decision the bound fails: an authentication that resolved the old period and decides after the rollover |
| Store.Store.CurrentPeriod | internal/store/store.go:315-355 | Leaves the row and returns the label or error of the row machine; monthly mode never fails |
| Store.Store.ObserveUpstreamWeeklyReset | internal/store/store.go:357-393 | Leaves the row of the row machine and fails exactly when it does |
| Store.Store.RecordUsage | internal/store/store.go:451-502 | Leaves the tables of the record step, which the ledger theorems are about |
| Store.Store.PruneUsageEvents | internal/store/store.go:504-507 | Leaves the tables of the prune step |
| Store.Store.ResetKeyUsage | internal/store/store.go:395-409 | Deletes the active cell only; fails for an unknown key without touching anything |
| Store.Store.LookupKey | internal/store/store.go:177-209 | The answer that no period can change, or the row of a registered active key; registers an unknown key as configured |
| Store.Store.DecideKey | internal/store/store.go:214-223 | Lets the key in exactly when it has no limit or the totals of the resolved period are below it |
| Store.Store.AuthenticateKey | internal/store/store.go:177-224 | Lookup, period and decision without another call between them: leaves the tables of the authentication step and answers by the usage of the resolved period |
| Store.Store.PeriodUsage | internal/store/store.go:305-313 | The aggregate row, or zeros if there is none |
| Store.Store.GetAPIKey | internal/store/store.go:272-303 | The view whose remaining count RemainingAgreesWithAdmission relates to authentication |
| Store.Store.AddAPIKey | internal/store/store.go:226-247 | Inserts a new key and returns its view; refuses a registered one and changes nothing |
| Store.Store.UpdateAPIKey | internal/store/store.go:260-270 | Keeps the stored name and status where empty ones are given, always overwrites the limit |
| Store.Store.DeleteAPIKey | internal/store/store.go:249-258 | Removes the key row only; fails exactly for an unknown key |
| Store.Store.AddOrExtendBan | internal/store/store.go:509-519 | Appends an open row; refuses a ban without target and changes nothing |
| Store.Store.ActiveBan | internal/store/store.go:521-531 | An open row of the target beyond now that no other such row expires later than by text; nothing exactly when there is none; which of equal ones is left open |
| Store.Store.UnbanRoute | internal/store/store.go:557-563 | Every open row of the target gets the time and the reason, by default "manual"; every other row is as before |
| Bans.ActiveRow | internal/store/store.go:521-531 | A ban is found exactly when some open row of the target expires after now, and it is such a row |
| Bans.AddedBanSays | internal/store/store.go:509-519 | A ban is refused exactly without a target; otherwise one open row says what the ban says, dated by the clock if undated |
| Bans.LiftedSays | internal/store/store.go:557-563 | A lifted row gets the time and the reason, "manual" without one, and is otherwise the same |
| Bans.ActiveRowIsLatest | internal/store/store.go:522 | By text no matching row expires later than the one found |
| Bans.LatestUpToOneSecond | internal/store/store.go:522 | In time a matching row may outlast the one found by less than a second, and only within one whole second |
| Bans.ActiveAnswers | internal/store/store.go:521-531 | Whatever row the query picks among equal ones, whether there is a ban and how long it lasts are determined |
| Bans.AddingNeverShortens | internal/store/store.go:509-531 | By text adding a ban never shortens a target's effective expiry |
| Bans.AddedRowDecides | internal/store/store.go:509-531 | An added row is the one reported exactly when it matches and expires later by text; otherwise the reported row stays |
| Bans.AddingShortensIffPrefix | internal/store/store.go:509-531 | In time a matching row that expires earlier takes the other's place exactly when both expire in one second and its printed fraction is a prefix of the other's; so by less than a second |
| Bans.AddingShortens | internal/store/store.go:509-531 | Adding a ban that expires on the whole second to one that expires half a second later |
| Bans.UnbanIsExact | internal/store/store.go:557-563 | Lifting ends the target's bans at once and leaves the row reported for every other target |
| Bans.OpenBanHolds | internal/store/store.go:521-522 | In any other whole second than the expiry's, an open row is active exactly before its expiry |
| Bans.OpenRowStays | internal/store/store.go:509-563 | An open row survives every run that does not lift its target |
| RouteHealth.TargetKeyInjective | internal/routehealth/routehealth.go:15-24 | For colon-free IDs, providers and auth types two targets share a key exactly when they are the same normalised route; the two families never meet |
| RouteHealth.ColonsCollide | internal/routehealth/routehealth.go:20-22 | Two auth routes with IDs of different length share a key exactly when the longer ID continues the shorter by a part of its marker and model |
| RouteHealth.CollidingRoutes | internal/routehealth/routehealth.go:20-22 | Two pairs of routes that share a key, one with overlapping markers |
| RouteHealth.TargetAlone | internal/routehealth/routehealth.go:15-24 | A target shares its key with no other normalised route exactly when its key text can be read in one way only, for auth and for provider keys |
| RouteHealth.KeyForms | internal/routehealth/routehealth.go:15-24 | The two forms of a target key, character by character |
| RouteHealth.FullByNumber | internal/routehealth/routehealth.go:107-108 | A window is full by the number in its own header, with or without a per cent sign or white space |
| RouteHealth.ResetsOfFullWindows | internal/routehealth/routehealth.go:109-119 | The full window's reset counts, or both if both or none are full |
| RouteHealth.MillisecondsFromThere | internal/routehealth/routehealth.go:172-177 | 10^12 is the last number read as seconds |
| RouteHealth.FormattedReset | internal/routehealth/routehealth.go:166-183 | A reset that is no integer is read as a formatted time, blank text as none |
| Decimal.ParseIntLimits | internal/routehealth/routehealth.go:145 | Header numbers beyond 64 bits are refused, a plus sign is allowed |
| RouteHealth.ResetUnitsAgree | internal/routehealth/routehealth.go:166-183 | A reset in seconds and the same one in milliseconds are one instant |
| RouteHealth.CodexResetDuration | internal/routehealth/routehealth.go:105-131 | The distance to the latest reset among the counting windows, saturated, or zero if it is not ahead |
| RouteHealth.DurationForRule | internal/routehealth/routehealth.go:81-103 | The strategy's duration with fallback and bounds; within [min, max] whenever 0 < min <= max |
| RouteHealth.ObservationFromUsage | internal/routehealth/routehealth.go:37-67 | The ban of the first matching rule with a positive duration, and none exactly when no rule gives one |
| RouteHealth.ObservationIsUnique | internal/routehealth/routehealth.go:37-67 | The observation to make of a record is determined |
| RouteHealth.BanNamesItsRule | internal/routehealth/routehealth.go:37-79 | A ban names the first rule that gives one for the record's status and provider, and says what the record says |
| RouteHealth.MatchedIsBanned | internal/routehealth/routehealth.go:37-79 | A failed record that a rule with proper bounds is for is banned |
| RouteHealth.BanLengthWithinBounds | internal/routehealth/routehealth.go:81-103 | For every header content a ban lasts within its rule's bounds |
| RouteHealth.ResetDecidesBan | internal/routehealth/routehealth.go:105-131 | A latest reset that is ahead decides the end exactly within the bounds, and the nearer bound outside |
| RouteHealth.RetryAfterDecides | internal/routehealth/routehealth.go:81-150 | Seconds (section 10.2.3 of RFC 9110) are obeyed within the bounds exactly when their nanoseconds fit in 64 bits, or what replaces the wrapped product reaches the upper bound anyway, or the bounds are one; always within the bounds |
| RouteHealth.RetryAfterWraps | internal/routehealth/routehealth.go:81-150 | The first value that does not fit yields the fallback, a later one the lower bound |
| RouteHealth.RetryAfterDateDecides | internal/routehealth/routehealth.go:140-156 | A Retry-After that is an HTTP date ahead ends the ban then, within the bounds; a past one or other text leaves the fallback |
| RouteHealth.FallbackDecides | internal/routehealth/routehealth.go:81-103 | Other strategies and missing headers leave the fallback, within the bounds |
| RouteHealth.UnsetBoundsDoNotLimit | internal/routehealth/routehealth.go:96-101 | A bound that is not set does not limit |
| Scheduler.SortStableSorts | internal/plugin/runtime.go:318-324 | In the candidate order priorities fall and among equal ones IDs do not; it is a permutation |
| Scheduler.PickIsBest | internal/plugin/runtime.go:318-349 | A pick is a candidate of usable status without an open ban such that no other usable one has a higher priority, or an equal one and a smaller ID; none is made exactly when none is usable |
| Scheduler.SharesProviderTarget | internal/routehealth/routehealth.go:26-35 | A candidate without an ID is banned with its provider, model and type, in any case and white space |
| Scheduler.PickIgnoresOrder | internal/plugin/runtime.go:318-338 | The answer is the same for every order and repetition of the same candidates |
| Scheduler.BannedAuthIsNotPicked | internal/plugin/runtime.go:297-338 | After a failed record bans its auth ID for a model, no pick for it in a whole second before the expiry's returns that ID unless its target is lifted |
| Runtime.Runtime.Pick | internal/plugin/runtime.go:306-339 | An eligible candidate no other eligible one is ahead of; unhandled exactly when none is eligible |
| Runtime.Runtime.UpdateStream | internal/plugin/runtime.go:207-228 | Leaves the stream table of one delivery and returns the chunks kept for the stream |
| Runtime.Runtime.InterceptStreamChunk | internal/plugin/runtime.go:184-239 | Leaves what the chunk callback leaves: the observed reset, the stream table, and the accounted stream's calls until one fails |
| Runtime.Runtime.RecordInterceptedUsage | internal/plugin/runtime.go:241-273 | Observes before it records, records only identified and attributed usage, then prunes |
| Runtime.Runtime.HandleUsage | internal/plugin/runtime.go:275-304 | Leaves what the usage callback leaves: observes, records, bans and prunes in that order; a storage error stops before the ban |
| Runtime.Runtime.InterceptResponse | internal/plugin/runtime.go:173-182 | Leaves what the response callback leaves |
| Runtime.Runtime.AuthenticateRequest | internal/plugin/runtime.go:150-157 | Leaves what the authentication callback leaves and answers for the extracted key |
| Callbacks.CallbacksAreCalls | internal/plugin/runtime.go:184-304 | A run of callbacks with printable boundaries never fails and is a run of store calls, a delivery of its chunks and a run of ban operations |
| Attribution.UsagePosts | internal/usage/convert.go:16-47 | A usage callback with a key posts exactly one row, stamped with the request's time and labelled with the period of that time after the announced reset, and none without a key |
| Attribution.LabelKept | internal/store/store.go:336-354 | An instant of the current cycle keeps its label through any calls with at most one rollover |
| Attribution.DelayedCallbackChargesItsCycle | internal/plugin/runtime.go:275-304 | A callback that comes after any other calls charges the cycle of its request's time after at most one rollover, and the cycle before the active one after more |
| Attribution.InterceptionPosts | internal/plugin/runtime.go:241-273 | An interception posts exactly one row, stamped with its clock and marked by the reset header, and prunes by the retention cutoff, if the response names a request and a caller and reports usage |
| Attribution.StreamPosts | internal/plugin/runtime.go:184-239 | A chunk callback is known by its request and caller, and posts at the end of its stream the accounted text's row as a stream with status 200 |
| Attribution.AuthenticatesCarriedKey | internal/plugin/runtime.go:150-157 | A request is authenticated with the key in the configured place |
| Callbacks.TryIsRun | internal/plugin/runtime.go:241-304 | Store calls of callbacks that do not fail are a run of calls |
| Callbacks.FiveDigitYearBlocksReads | internal/plugin/runtime.go:194-198 | After one response header with the year 10000, whatever calls follow, no aggregate changes and every period lookup fails |
| Callbacks.InterleavedChargesOnce | internal/plugin/runtime.go:184-304 | However the store calls of callbacks interleave, repeat and mix with other calls: each delivered request without a row is charged once, with the host's counts for its whole text, to the period its first delivery resolved, exactly when no prune loses a row needed later |
| Callbacks.PluginChargesOnce | internal/plugin/runtime.go:184-304 | The same for callbacks handled one after another, from chunks, responses and usage records to the stored totals |
| Convert.ResponseJSONCandidates | internal/usage/convert.go:263-284 | The whole body if it is JSON, otherwise its event-stream payloads in order |
| Convert.ParseResponseUsage | internal/usage/convert.go:166-190 | The merge of all non-empty usage objects, found exactly when there is one |
| Convert.HasTerminalStreamUsage | internal/usage/convert.go:197-214 | True exactly when some candidate decodes to a payload that ends the stream |
| Convert.GoesOnExactly | internal/usage/convert.go:197-232 | A stream goes on exactly while no payload has a usage value, plain or under `response`, and none has Gemini metadata with a finish reason on the same level |
| Convert.LineForms | internal/usage/convert.go:263-284 | Which event-stream lines have a payload, and that the end mark has none |
| Convert.MergeAllIsMaximum | internal/usage/convert.go:235-248 | The merge is the fieldwise least usage at least zero and at least every object |
| Convert.ParseIsLeastCover | internal/usage/convert.go:166-190 | What is parsed is the least usage that covers every counter a payload reports, plain, under `message`, under `response` or as Gemini metadata in either spelling and level; something is found exactly when some payload reports anything |
| Convert.ParsedUsageLaws | internal/usage/convert.go:235-248 | The merge of usage objects never falls as objects are added and does not depend on order or repetition |
| Convert.ParsedChunksLaws | internal/usage/convert.go:166-190 | What is parsed from joined chunks never falls as chunks are added and does not depend on their order or repetition |
| Convert.EventTextCandidates | internal/usage/convert.go:263-284 | Trimming an event-stream body does not change its candidates |
| Convert.JoinParsesChunks | internal/usage/convert.go:263-284 | The candidates of the newline-join are the chunks' candidates one after another, and so are the usage objects |
| Convert.JoinLosesDocuments | internal/plugin/runtime.go:232-236 | Chunks that are whole JSON documents drop out of the join, so its usage is that of the chunks exactly when none of them carries usage |
| Convert.TwoDocumentsLost | internal/plugin/runtime.go:232-236 | The join of two chunks that are whole documents, if it is not one itself, has no usage objects |
| Streams.TwoDocumentsLoseUsage | internal/plugin/runtime.go:232-236 | Two documents that carry five and seven tokens, and their join that carries none |
| Convert.CutKeepsCandidates | internal/plugin/runtime.go:205-220 | A text cut in two has the candidates of its pieces exactly when the one line cut has those of its own two pieces |
| Convert.WholeTextParsesChunks | internal/usage/convert.go:263-284 | The usage of an event-stream text cut cleanly is that of its chunks exactly when no chunk that is a whole document carries usage |
| Convert.DroppedChunksChangeNothing | internal/plugin/runtime.go:205-220 | Leaving out chunks without usage keeps the usage objects |
| Convert.KeptChunksSuffice | internal/plugin/runtime.go:218-235 | Parsing the join of the kept chunks gives what parsing the whole text, cleanly cut, gives |
| Convert.InterceptedCountersNotNegative | internal/usage/convert.go:63-104 | Interception never records a negative counter, but for a total exactly when none was reported and its parts wrap to a negative sum |
| Convert.FirstSpellingDecides | internal/usage/convert.go:68-88 | A counter in both spellings is taken from the first unless that is zero |
| Host.RequestIDOrder | internal/usage/convert.go:54-61 | The request ID is the first of the three headers that is not blank |
| Deliveries.CountersAreTheHosts | internal/usage/convert.go:63-104 | In each response spelling, however spread over objects, the intercepted counters are the host's |
| Deliveries.PathsBillAlike | internal/usage/convert.go:16-104 | For a successful request reported as the host counted it, the interceptor and the callback ask for the same bill |
| Streams.StateKeyInjective | internal/plugin/runtime.go:204 | A state key determines its request and caller |
| Streams.FaithfulIffUnexpired | internal/plugin/runtime.go:207-228 | For every interleaving the table stays faithful to a stream exactly when it is never overdue while another stream delivers |
| Streams.OverdueStreamLosesUsage | internal/plugin/runtime.go:211-216 | A stream dropped by another's chunk then accounts for less than its whole text tells |
| Streams.AccountsOwnChunks | internal/plugin/runtime.go:217-235 | At a terminal chunk the body accounted for is the join of the stream's own usage-bearing chunks since its previous terminal one exactly when it was not overdue in between; no other chunk accounts for anything |
| Streams.CutLineLosesUsage | internal/plugin/runtime.go:205-220 | A data line cut in two is found in neither chunk, though the whole text has its usage |
| Streams.TerminalEndsEventStream | internal/usage/convert.go:197-214 | Event-stream chunks cut cleanly, the last of them terminal, make up an event-stream text |
| Streams.NoLongGapIsUnexpired | internal/plugin/runtime.go:211-216 | A stream without a gap over one hour is never overdue, at any time and since its previous terminal chunk |
| Streams.StreamRefinesWholeText | internal/plugin/runtime.go:184-239 | For every interleaving the usage objects accounted for at a terminal chunk are those of the stream's whole text exactly when it was not overdue since its previous terminal chunk; then what is recorded is what parsing that text finds, and nothing exactly when it has none |
| Streams.GrowingCountsAccountedOnce | internal/plugin/runtime.go:184-239 | A stream of growing Gemini counts with a finish reason in its last chunk only is accounted for once, there, with the last counts |
| Streams.DroppedAfterAnHour | internal/plugin/runtime.go:211-216 | Another stream's state is dropped exactly when idle for more than an hour, to the nanosecond |
| Extract.BearerTakesTwoWords | internal/auth/extract.go:47-57 | An Authorization header yields the second of exactly two words if the first is Bearer in any case |
| Extract.SourcesKnowTheirPlaces | internal/auth/extract.go:17-46 | Each source finds a key in its own place and in no other |
| Extract.CarriedKeyIsTrimmed | internal/auth/extract.go:22-42 | White space around a carried key is not a part of it and a blank value carries none |
| Extract.SourceNamesAreLenient | internal/auth/extract.go:21-22 | Source names may have white space around them and be in upper case |
| Extract.EarliestSourceDecides | internal/auth/extract.go:17-46 | The first configured source that finds a key decides |
| Extract.AllSourcesInOrder | internal/auth/extract.go:18-20 | Without configured sources all five are tried, headers first |
| Extract.AgreementIffHeaderSources | internal/auth/extract.go:17-46 | A non-empty source list finds the same key and source with and without the query for all requests exactly when it has no query source |
| Extract.LoadedSourcesAgree | internal/config/config.go:119-244 | Every accepted configuration agrees on both paths, and every refused source list would not |

## Left out

- SQLite itself: tables are maps and sequences, each statement or locked region is one step, and database failures do not occur; only binary text comparison is kept.
- Sums beyond 63 bits in the aggregate columns: SQLite turns them into floating point, the model's columns are unbounded. Additions done in Go wrap as there.
- Store.Store.AuthenticateKey: lookup, period and totals follow one another without another call between them; Overshoot separates the period from the decision, which is where a rollover can come between.
- Runtime.Runtime.InterceptStreamChunk: one callback at a time, like the other callbacks; that their store calls may interleave is left to Callbacks.InterleavedChargesOnce, with the streams still completed in order.
- QuotaRuns.FreshAllowance: weekly mode only, because monthly labels come from the calendar library.
- Store.Store.RecordUsage: error type, auth columns and latency of an event row and the last-seen and updated columns are not kept, because nothing depends on them.
- Runtime.Runtime.AuthenticateRequest: requests for the model list, which are let through without a key.
- Parsing stored times: only the UTC form the store writes, not offsets or comma fractions.
- Letter case: lower-casing and case-insensitive comparison cover ASCII letters and the other characters that map to one; rule providers that differ in the case of further letters are not matched.
- Headers: the first value of each canonical name; bodies are text, not bytes that fail to decode.
- Interception clocks: a distance to an HTTP date uses the callback's clock instead of reading the time again.
- Hashing, the secret file, key fingerprints, configuration loading other than accepted sources, listing calls, the management routes, envelopes and the dashboard: plumbing or one-branch functions.
- Reconfiguring while streams are open, and switching between monthly and weekly mode on one database.

# Verified core of a multi-tenant unified-communications backend

This project models the parts of a Django backend that hold state or do arithmetic, and proves what
they promise:

- call recordings fetched per extension in bounded prefixes, merged, sorted and paged again
  (`Recordings`, over the sorting theory in `Ordering`), what the rows read say about the page
  (`RecordingContinuations`), and what the pages show (`RecordingPages`);
- call statistics deep-merged over extensions, dates and hours (`NumericTree`, `DailySummary`,
  `DailyTotals`, `HourlyStats`) and the choice of extensions a report covers (`RequestedExtensions`);
- Team Lead scope resolution against its per-entry roster (`TlScoping`);
- the transactional outbox, first as an interleaving protocol (`Outbox`), then for runs that do not
  overlap (`OutboxSerial`), for repeated sends when they do (`OutboxResends`), then as the Celery
  job's own loop (`OutboxWorker`) and from the listeners' side (`OutboxDelivery`);
- who holds which extension (`Assignments`), which DIDs a user works (`DidSync`) and of which tenant
  (`TenantRule`), the provisioning command and its number counter (`Allocator`, `Provisioning`,
  `ProvisionedUsers`, `ProvisioningReads`) and the cached label map (`LabelCache`, `LabelTexts`);
- message threads, request by request (`Conversations`), over runs (`ConversationRuns`) and by the
  numbers written (`ThreadNumbers`), QR login (`QrLogin`), fax paging (`FaxPaging`) and the contact index (`Contacts`).

`Wrappers`, `Text`, `Ordering` and `Tables` hold what the others share. Objects whose methods update
fields are classes; each method is tied to a specification function of the old state, and the
properties are lemmas about those functions and about all runs of them. Running
`dafny verify dfyconfig.toml` checks everything.

## How the model stands to the code

- Upstream services, clocks, random tokens, uuid4 values and the answers of unordered queries are
  parameters; theorems hold for all of them, under stated assumptions such as "a token is never
  drawn twice".
- Row ids, tenant ids and user ids are opaque integers. `.first()` among rows that tie in the query's
  ordering takes the least id, or, in `Assignments` and `Conversations`, any row the query could return.
- `strip`, `lower`, `isdigit` and `\D` are modelled on ASCII. JSON numbers and rates are reals; a rate is
  rounded half to even at one decimal.
- None results of the merge functions stand for the exception the code raises. A string or list in
  the place of an answered count counts as such a failure even where Python would manage to add two
  of them.
- Requests are atomic (the project sets ATOMIC_REQUESTS) except in `Outbox`, where every database
  statement and every send is a step of its own.

Where the code does something its documentation does not say, the model follows the code:

- a Team Lead whose entries reach no DID gets a query that matches every assignment
  (`TlScoping.ConfinedIff`), and one granted group without entries lifts the division restriction
  (`TlScoping.EmptyGroupUnrestricts`);
- all department entries share one pool of DIDs, so the batched resolver can show more than the
  roster (`TlScoping.AgreesIff`);
- a recordings request of type "log" may name extensions freely but only "logs" is filtered;
- a caller with role "user" and no extension is not scoped at all (`RequestedExtensions.Granted`);
- an allowed set that is empty becomes the one empty name (`RequestedExtensions.EmptyScope`);
- events can leave creation order when a transaction commits late (`OutboxSerial.LateCommitExample`);
- the logs filter runs after the 200-row cut, so 200 blocked rows hide the kept ones behind them
  (`Recordings.UnsafePageFails`, `RecordingContinuations.PageCertainIff`);
- a silent `update()` or user deletion can leave an old label in the cache until it expires
  (`LabelCache.SilentStepStaleIff`);
- the dry run and the run count differently when two spellings of one email meet
  (`ProvisionedUsers.DryRunPredictsIff`);
- provisioning looks users up by email in all tenants, so it can grant a DID to a user of another
  tenant, against the rule in apps/dids/models.py:31 (`ProvisionedUsers.TenantRuleIff`);
- an update that moves a user to another tenant without did_assignments leaves the user's DIDs behind,
  against the same rule (`TenantRule.StepRuleIff`);
- did.deleted takes the threads and messages of the DID with it (`ConversationRuns.ThreadLivesIff`), and a
  webhook redelivered after that finds its id free (`Conversations.DeletionForgets`);
- the manager refuses every user without a tenant that the serializer creates, also one with the superadmin
  role, for which the serializer asks for no tenant (`Assignments.CreatedTenant`);
- "Safe to re-run" holds for roster emails that are stored as written (`Provisioning.RerunSucceedsIff`);
- create and update treat a row without a division differently (`DidSync.CreateMatchesUpdateIff`).

## Model

| member | source | states |
|---|---|---|
| Recordings.Envelope.FilterLogs | apps/common/recording_views.py:41-51 | rewrites `results` to the rows the logs page keeps and lowers `count` by the rows removed, never below zero |
| Recordings.FilterLogsIdempotent | apps/common/recording_views.py:41-51 | filtering an already filtered list removes nothing |
| Recordings.FetchAll | apps/common/recording_views.py:138-148 | collects the batches in request order; a failed call contributes none |
| Recordings.RouteOf | apps/common/recording_views.py:88-136 | a request that is not for logs is locked to the caller's own extension (an empty page without one); at most one name in the comma list goes through as a single call, two or more fan out to exactly those names (or are refused for malformed paging); the page is the one asked for (1 by default), the page size the one asked for (20 by default), and exactly 100 when more is asked |
| Recordings.Get | apps/common/recording_views.py:88-165 | each route answers as stated; the fan-out page is the cut of the stable sort of the filtered batches, and the single-call path filters only the logs envelope |
| Recordings.PageOfPrefixesExact | apps/common/recording_views.py:138-155 | a page cut from the merged 200-row prefixes is the page of the full sorted lists, ties included, when every list is read whole or keeps page * page_size rows of its prefix; with and without the logs filter |
| Recordings.PageExactIff | apps/common/recording_views.py:138-155 | for every page and page_size, with the logs filter and without it: the page is right for all sorted lists if and only if the parameters are safe - the page is blank (size or page 0, or a negative size off page 1), or the filter is off and 0 < page * page_size <= 200 |
| Recordings.UnsafePageFails | apps/common/recording_views.py:149-155 | every unsafe page, filtered or not, has lists it shows wrongly |
| Recordings.FanOutServesFullPage | apps/common/recording_views.py:129-155 | end to end from the upstream calls, filter on or off: every safe page equals the page cut from the full lists of all extensions |
| Recordings.NextFlagExactIff | apps/common/recording_views.py:149-165 | for all lists and parameters, filter on or off: `next` is right unless the page ends at or after the last kept row read and before the last kept row there is |
| Recordings.UnfilteredNextFlagIff | apps/common/recording_views.py:149-165 | without the filter, for page * page_size <= 200: `next` is wrong exactly when the page ends at the 200th row read and more rows exist upstream |
| RecordingContinuations.PageCertainIff | apps/common/recording_views.py:138-155 | from the rows read alone, filter on or off, for page and page_size above 0: the page is right for every continuation of the lists read if and only if for every list read to 200 rows at least page * page_size kept rows stand before the slot after its last row (newer, or of the same stamp in the same or an earlier list) |
| RecordingContinuations.CertainPageRight | apps/common/recording_views.py:138-155 | such a page is the page of the full lists |
| RecordingContinuations.UncertainPageWrong | apps/common/recording_views.py:138-155 | any other page has a continuation that makes it wrong |
| RecordingContinuations.FanOutCertain | apps/common/recording_views.py:129-155 | end to end from the upstream calls: a certain page is the page of the full lists of all extensions |
| RecordingContinuations.NextCertainIff | apps/common/recording_views.py:149-165 | from the rows read alone: `next` is right for every continuation if and only if kept rows beyond the page were read or every list was read whole |
| RecordingPages.PageDescends | apps/common/recording_views.py:151 | every fan-out page, whatever its parameters, shows rows with later start stamps first, a missing stamp counting as the oldest; said of the stamps themselves |
| RecordingPages.LaterPagesAreOlder | apps/common/recording_views.py:149-155 | no row on a later page has a later stamp than one on an earlier page |
| RecordingPages.PagesShowAll | apps/common/recording_views.py:148-165 | walking enough pages of any size shows every kept row read, as often as it was read, and no other |
| RecordingPages.ShownIff | apps/common/recording_views.py:138-155 | a row is on some page if and only if an answered call returned it and, for logs, it is not left out |
| RecordingPages.BlockedLeftOut | apps/common/recording_views.py:25-34 | a call from or to 9142215776 or 9295679099 is left out of the logs |
| RecordingPages.ExtensionLeftOut | apps/common/recording_views.py:35-38 | any other call is left out if and only if its extension, blanks and leading zeros aside, is three digits starting with 1 |
| RecordingPages.NoExtensionKept | apps/common/recording_views.py:35-38 | a call without extension is kept unless a blocked number is in it |
| RecordingPages.FlagsTell | apps/common/recording_views.py:153-165 | next says whether the following page shows anything, previous whether the page is not the first, count how many kept rows were read |
| RecordingPages.UnlockedIff | apps/common/recording_views.py:104-105 | the lock is lifted by log and logs in any case, while only logs itself filters |
| Ordering.SortIsStableSort | apps/common/recording_views.py:151 | the model's sort is sorted, a permutation, and keeps the order of equal keys |
| Ordering.StableSortUnique | apps/common/recording_views.py:151 | that guarantee of `list.sort` determines the result |
| Ordering.SortConcat | apps/common/recording_views.py:148-151 | sorting a concatenation is merging the sorted parts |
| Outbox.StepSafe | apps/outbox/tasks.py:39-66 | every atomic step of producers and dispatcher runs keeps the safety invariant |
| Outbox.RunSafe | apps/outbox/tasks.py:39-66 | over every interleaving with crashes: an event marked dispatched or carrying a dispatch time was published; every send went to its own group with its own payload after its commit; open transactions stay invisible |
| Outbox.RunGrows | apps/outbox/tasks.py:39-66 | over every interleaving no event disappears, changes, returns to pending or loses its dispatch time |
| OutboxDelivery.GroupReachesIff | apps/outbox/tasks.py:48 | an event's group is the one a consumer joined if and only if the event's target type and id name that consumer, the groups being written as the consumers join them |
| OutboxDelivery.SendReachesIff | apps/outbox/tasks.py:47-55 | over every interleaving with crashes: a send reaches a user, conversation or tenant listener if and only if its event names that listener, and it carries the event's own type and payload |
| OutboxDelivery.HeardIff | apps/outbox/consumers.py:28-45 | a listener hears exactly the published events meant for it |
| OutboxDelivery.StatusTells | apps/outbox/tasks.py:54-64 | over every interleaving with crashes: a row is pending until its first mark, then dispatched at the time of its last mark or failed, as the send before that mark returned or raised |
| OutboxSerial.SerialAtMostOnce | apps/outbox/tasks.py:39-68 | when runs neither overlap nor die no event is sent twice, and while idle the unsent events are exactly the pending ones |
| OutboxResends.SentAgainIff | apps/outbox/tasks.py:39-66 | over every interleaving with crashes an event is sent again if and only if a second run fetched it before any run had marked it, and both runs reached its send |
| OutboxResends.AttemptedAgainIff | apps/outbox/tasks.py:47-66 | the same of the sends on record |
| OutboxResends.OncePerFetch | apps/outbox/tasks.py:39-66 | one fetch sends an event at most once |
| OutboxResends.FetchUnmarked | apps/outbox/tasks.py:40-44 | whoever fetches an event does so before any run marks it |
| OutboxSerial.TimelyRunOrder | apps/outbox/tasks.py:40-44 | sends within a group follow creation order when no commit is late |
| OutboxSerial.CreationOrderIff | apps/outbox/tasks.py:40-44 | a drained serial run followed creation order in every group if and only if no transaction committed an event stamped earlier than one already fetched for its group |
| OutboxSerial.LateCommitExample | apps/outbox/tasks.py:40-44 | a concrete reachable run with a late commit sends out of creation order |
| OutboxWorker.FirstBatchIsBatch | apps/outbox/tasks.py:40-44 | the modelled query answer is a legal answer of the ordered, limited query |
| OutboxWorker.Dispatcher.Publish | apps/outbox/tasks.py:47-66 | one pass over fetched events: the sends, the marked rows and the count of sends that returned, event by event |
| OutboxWorker.Dispatcher.DispatchPending | apps/outbox/tasks.py:28-68 | without a channel layer nothing happens; otherwise the pass handles the oldest pending events up to the batch size |
| OutboxWorker.PassIsSerialRun | apps/outbox/tasks.py:28-68 | an uninterrupted pass of the Celery job is a run of the step-by-step protocol |
| OutboxWorker.PassAdvancesQueue | apps/outbox/tasks.py:39-66 | a pass leaves exactly the events after its batch pending, in order |
| OutboxWorker.PassesServeQueue | apps/outbox/tasks.py:39-66 | after k passes exactly the 500 * k oldest events have been sent, each once and in creation order |
| OutboxWorker.PassLowersPending | apps/outbox/tasks.py:39-66 | a pass lowers the pending count by exactly min(500, pending) |
| OutboxWorker.BacklogDrains | apps/outbox/tasks.py:39-66 | a backlog of n events is empty after k passes if and only if k >= ceil(n / 500) |
| TlScoping.TlDidAndDeptIds | apps/common/tl_scoping.py:43-70 | the direct DIDs and the DIDs of named departments of the lead's tenant |
| TlScoping.GroupByDivision | apps/common/tl_scoping.py:97-107 | entries grouped by division, a department entry contributing the pooled DIDs of all departments |
| TlScoping.CombineClauses | apps/common/tl_scoping.py:109-122 | one clause per division that reached a DID |
| TlScoping.QueryIsBatch | apps/common/tl_scoping.py:109-131 | the combined query admits exactly the assignments some entry admits, or every assignment when no DID is reached |
| TlScoping.ResolveTlExtensions | apps/common/tl_scoping.py:73-131 | None without grants; otherwise the non-empty extension numbers of the admitted callers |
| TlScoping.ResolveTlDidIds | apps/common/tl_scoping.py:134-152 | None without entries; otherwise the direct DIDs and the department DIDs |
| TlScoping.ResolveTlDivisionIds | apps/common/tl_scoping.py:181-203 | the divisions of the entries, and no restriction at all as soon as one entry has none |
| TlScoping.Roster | apps/dids/views.py:449-493 | the roster lists each (caller, DID, division) of the granted assignments once, sorted, resolving one entry at a time |
| TlScoping.RosterShowsNumbers | apps/dids/views.py:449-493 | the numbers a roster shows are those of its granted assignments |
| TlScoping.RosterReads | apps/dids/views.py:456-491 | a row is there exactly for an assignment some entry grants, by its DID or by that DID's department and by its division, and shows the email, DID number, division name and extension number of what it is about |
| TlScoping.RosterOrder | apps/dids/views.py:493 | rows stand by division name, then by DID number, then by email |
| TlScoping.BatchCoversRoster | apps/common/tl_scoping.py:91-131 | the batched resolver never misses an extension the roster shows |
| TlScoping.AgreesIff | apps/common/tl_scoping.py:91-131 | for entries naming exactly one of DID and department that reach a DID, resolver and roster agree on all assignments if and only if pooling the departments is harmless: every division paired with the pool covers it by itself |
| TlScoping.OneDivisionHarmless | apps/common/tl_scoping.py:97-107 | pooling is harmless when all department entries carry the same division |
| TlScoping.ConfinedIff | apps/common/tl_scoping.py:111-122 | the resolver stays within the lead's DIDs if and only if some entry reaches a DID or no entry names a DID or department; otherwise the empty query matches every assignment |
| TlScoping.AdmittedDivisionVisible | apps/common/tl_scoping.py:91-131 | an admitted assignment's division is one the division list shows |
| TlScoping.EmptyGroupUnrestricts | apps/common/tl_scoping.py:181-203 | one granted group without entries lifts the division restriction |
| NumericTree.LeavesOfSum | apps/common/cdr_views.py:201-220 | wherever the first tree has a number the merge has the sum over all trees at that path; other leaves come from the first tree; no path is added or lost |
| NumericTree.NumbersAdd | apps/common/cdr_views.py:214-218 | where the first tree has a number the merge has the plain sum of what the trees have there: numbers as they are, 1 for True, nothing for what is missing, null, False or empty |
| NumericTree.SumSucceedsIff | apps/common/cdr_views.py:214-219 | the merge raises if and only if something that cannot be added faces a number of the first tree |
| NumericTree.SumIgnoresOrder | apps/common/cdr_views.py:201-220 | numbers of the merge do not depend on the order of the trees |
| NumericTree.UniformMerges | apps/common/cdr_views.py:201-220 | trees of one shape always merge, into that shape |
| NumericTree.SumInParts | apps/common/cdr_views.py:201-220 | merging all trees at once equals merging the merges of any two non-empty parts |
| DailySummary.RoundingBounds | apps/common/cdr_views.py:223-235 | rounding to one decimal moves a value by at most 0.05 and keeps 0..100 |
| DailySummary.RateInRangeIff | apps/common/cdr_views.py:223-235 | a rate lies in 0..100 if and only if the exact share does up to rounding, or the total is zero |
| DailySummary.RateShown | apps/common/cdr_views.py:234 | the rate is 0 without calls, else the tenth of a percent nearest to the share, the even one of two equally near |
| DailySummary.GroupByDate | apps/common/cdr_views.py:251-259 | rows filed under their dates with the dates in first-seen order; fails exactly when a row or date is malformed |
| DailySummary.MergeDays | apps/common/cdr_views.py:261-269 | each date's rows summed and given a rate, in date order |
| DailySummary.MergeDailySummary | apps/common/cdr_views.py:238-277 | the whole merge, including the empty and single-payload cases and failure |
| DailySummary.DatesDistinct | apps/common/cdr_views.py:251-259 | no date is listed twice |
| DailySummary.DatesCover | apps/common/cdr_views.py:251-259 | a date is listed if and only if it has rows |
| DailySummary.FirstSeenOrder | apps/common/cdr_views.py:251-259 | when a row arrives every date listed before its own has already been seen |
| DailySummary.DayCounts | apps/common/cdr_views.py:261-263 | each count of a day is the sum of that date's rows |
| DailySummary.DayRate | apps/common/cdr_views.py:223-235 | a day's (or a merged summary's) rate is the rate of the summed counts |
| DailySummary.DayDate | apps/common/cdr_views.py:261-269 | a textual date survives the merge: day k carries the k-th date |
| DailySummary.DatesPartition | apps/common/cdr_views.py:251-259 | summing per date and then over dates gives the sum over all rows |
| DailySummary.SummaryConserves | apps/common/cdr_views.py:238-277 | merged rows: one per date, each the sum of its rows, totals over merged rows equal totals over all rows read; asks for a number only in the first row of each date |
| DailySummary.SummaryConservesIff | apps/common/cdr_views.py:238-277 | for any rows: totals over the merged rows miss exactly the amounts of the rows after the first of each date whose first row has no number there, so they equal the totals over the rows read if and only if those amounts sum to zero |
| DailySummary.HeadTotals | apps/common/cdr_views.py:271-272 | every number at the head is the sum over the payloads |
| DailySummary.SummaryConsistent | apps/common/cdr_views.py:271-272 | payloads whose totals are the sums of their rows merge into such a payload |
| DailySummary.OverallRate | apps/common/cdr_views.py:273-277 | the overall rate compares all answered calls of the rows with the total at the head |
| DailySummary.OverallRateInRangeIff | apps/common/cdr_views.py:273-277 | the overall rate is a percentage if and only if the answered calls fit the payload totals |
| DailySummary.DayRatesFair | apps/common/cdr_views.py:263-268 | when answered <= total in every row each day's rate is in 0..100 and within 0.05 of the exact percentage |
| DailySummary.OverallRateFair | apps/common/cdr_views.py:273-277 | the same for the overall rate when payload totals are sums of their rows |
| DailyTotals.ReadsAll | apps/common/cdr_views.py:253-259 | every row of every payload is read, payload after payload |
| DailyTotals.NoRows | apps/common/cdr_views.py:253 | a payload without results, or with empty ones, has no rows |
| DailyTotals.RowsFailIff | apps/common/cdr_views.py:253-254 | reading a payload fails if and only if its results are neither a list of objects nor empty |
| DailyTotals.DayRows | apps/common/cdr_views.py:253-259 | the rows filed under a day are, in order, the rows that carry its text as their date |
| DailyTotals.OtherDates | apps/common/cdr_views.py:254-258 | a missing date is filed as a null one, True as 1 and False as 0; a list or object as a date fails |
| DailyTotals.DayShows | apps/common/cdr_views.py:261-269 | a day of counted rows shows the plain sums of the numbers in them at total_calls, outgoing.answered and incoming.answered, and the rate of those sums |
| DailyTotals.HeadShows | apps/common/cdr_views.py:271-277 | the head of a merge of several payloads shows the plain sum of their total_calls, and the rate of the calls answered in their rows against it |
| HourlyStats.TallyPayload | apps/common/cdr_views.py:296-301 | the inner loop adds a payload's buckets to the hours seen so far |
| HourlyStats.MergeHourlyStats | apps/common/cdr_views.py:280-312 | the whole merge, including the empty and single-payload cases |
| HourlyStats.HoursExact | apps/common/cdr_views.py:295-303 | strictly ascending hours, exactly those that occur, each with all calls of that hour |
| HourlyStats.TotalConserved | apps/common/cdr_views.py:306 | the total is all calls of all payloads |
| HourlyStats.MergedSums | apps/common/cdr_views.py:296-306 | the total and each hour are plain sums of the numbers written in the buckets, a bucket without one counting for nothing |
| HourlyStats.LabelIsFirst | apps/common/cdr_views.py:299-300 | an hour is labelled as its first bucket labels it |
| HourlyStats.ListedAs | apps/common/cdr_views.py:308-311 | a payload is listed under its extension, or under # and its position |
| HourlyStats.CountsIgnoreOrder | apps/common/cdr_views.py:295-306 | hours, counts and total do not depend on the order of the payloads |
| HourlyStats.BreakdownTotal | apps/common/cdr_views.py:308-311 | the breakdown holds all calls except those of payloads whose name comes again |
| HourlyStats.BreakdownAgreesIff | apps/common/cdr_views.py:308-311 | the breakdown adds up to the total if and only if the replaced payloads held no calls |
| HourlyStats.DistinctNamesLoseNothing | apps/common/cdr_views.py:308-311 | distinct extension names replace nothing |
| RequestedExtensions.Dedup | apps/common/cdr_views.py:192-198 | the loop keeps first occurrences |
| RequestedExtensions.Resolve | apps/common/cdr_views.py:124-198 | the effective list of a request, through scoping, joining and splitting |
| RequestedExtensions.RecoveredIff | apps/common/cdr_views.py:141-144 | joining and splitting the allowed set recovers it if and only if it is non-empty and comma-free |
| RequestedExtensions.EmptyScope | apps/common/cdr_views.py:141-144 | an empty allowed set turns into the single empty name |
| RequestedExtensions.AllowedIsGranted | apps/common/cdr_views.py:124-180 | the allowed set is the caller's scope exactly for the scopes the parameter can carry |
| RequestedExtensions.UnfilteredIff | apps/common/cdr_views.py:182-185 | None comes back if and only if nothing is named and no scope applies |
| RequestedExtensions.NothingNamed | apps/common/cdr_views.py:182-185 | naming nothing gives the sorted scope |
| RequestedExtensions.NamedExactly | apps/common/cdr_views.py:187-198 | naming extensions gives exactly requested and allowed, each once |
| RequestedExtensions.RequestOrder | apps/common/cdr_views.py:187-198 | the result keeps the first-occurrence order of the request |
| RequestedExtensions.ScopeListed | apps/common/cdr_views.py:182-185 | naming nothing lists every extension of the scope once, in dictionary order |
| RequestedExtensions.OneParameterDecides | apps/common/cdr_views.py:169-174 | one parameter decides, the first non-empty one of extension__in, extension_ids and extension, and which of them it came in makes no difference |
| RequestedExtensions.ListedNames | apps/common/cdr_views.py:158-198 | names listed between commas give, each once, those in the caller's scope, without surrounding blanks and empty names |
| Assignments.ClearedIsWritable | apps/users/serializers.py:521-522 | clear-then-set is never refused by the one-to-one column |
| Assignments.Accounts.SetUser | apps/users/serializers.py:522 | the update is refused exactly while another row names the user |
| Assignments.Accounts.Reassign | apps/users/serializers.py:611-612 | clear, then set, in two statements, always succeeds |
| Assignments.Accounts.Create | apps/users/serializers.py:445-522 | user creation with its tenant and extension rules; a failure rolls back |
| Assignments.CreatedTenant | apps/users/serializers.py:462-491 | an accepted creation stores the user in the caller's own tenant whatever tenant_id says; for a superadmin in the tenant named, else in that of the extension named; otherwise in the tenant named; never without one |
| Assignments.CreateAcceptedIff | apps/users/serializers.py:445-522 | a creation is accepted if and only if its email is there and free once normalised, some tenant may be given to it, and the extension asked for, if any, is found in a tenant with calling |
| Assignments.Accounts.Update | apps/users/serializers.py:551-612 | user update with tenant reassignment and the extension field; a failure rolls back |
| Assignments.Accounts.Assign | apps/users/views.py:494-525 | extension assignment endpoint, statement by statement, with its error answers |
| Assignments.Accounts.Unassign | apps/users/views.py:527-530 | extension removal endpoint |
| Assignments.Accounts.GrantDid | apps/users/views.py:582-610 | granting a DID gives a user without a tenant the DID's tenant and refuses a DID of another tenant |
| Assignments.Accounts.Sync | apps/webhooks/views.py:155-244 | extension.created and extension.updated: update by object id or create, refused when the number is taken in the tenant |
| Assignments.Accounts.Drop | apps/webhooks/views.py:246-250 | extension.deleted removes the tenant's row with that object id |
| Assignments.SyncExact | apps/webhooks/views.py:196-244 | extension events write the row of their tenant and object id, or add one, and touch no other; numbers are cut to 20 characters |
| Assignments.DropExact | apps/webhooks/views.py:246-250 | extension.deleted removes the row of its tenant and object id and no other |
| Assignments.TakeExact | apps/users/serializers.py:599-612 | a successful request for an extension leaves its user holding exactly that one, frees what the user held before, and touches no other extension and no other user |
| Assignments.TakenIsNamed | apps/users/serializers.py:295-306 | the extension taken is in the user's tenant and is named by the reference, by identity or by number |
| Assignments.UpdateIff | apps/users/serializers.py:582-612 | an update keeps the directory invariant if and only if it does not move a user who holds an extension to another tenant leaving the extension field out |
| Assignments.ProvisionKeeps | apps/users/management/commands/provision_rcm_data.py:255-271 | a provisioned user keeps the directory invariant |
| Assignments.ProvisionExact | apps/users/management/commands/provision_rcm_data.py:255-271 | a provisioned user gets an unassigned extension of the tenant with the number if there is one, else a new one; nothing else changes |
| Assignments.StepKeepsIff | apps/users/serializers.py:445-612 | each request keeps one extension per user, extension tenant = user tenant and unique numbers, if and only if it does not strand an extension |
| Assignments.RunValid | apps/users/serializers.py:445-612 | over every run without stranding updates the invariant holds throughout |
| DidSync.AccessTables.Place | apps/users/serializers.py:540-546 | drop other rows of the DID, then get or create the stated one |
| DidSync.AccessTables.Update | apps/users/serializers.py:614-649 | the did_assignments part of update, with its errors and rollback |
| DidSync.AccessTables.Create | apps/users/serializers.py:524-548 | the did_assignments part of create, with its errors and rollback |
| DidSync.LastRowWins | apps/users/serializers.py:639-649 | the last row naming a DID decides its division and department |
| DidSync.UpdateExact | apps/users/serializers.py:614-649 | after an update the grants are exactly the listed DIDs, each worked exactly as its last row says (or not at all), and no other user is affected |
| DidSync.EmptyClears | apps/users/serializers.py:616-619 | an empty list takes all the user's DIDs away and nobody else's |
| DidSync.UpdateIdempotent | apps/users/serializers.py:614-649 | repeating an update changes nothing |
| DidSync.UpdatesCommute | apps/users/serializers.py:614-649 | updates of different users do not interfere |
| DidSync.CreateMatchesUpdateIff | apps/users/serializers.py:524-548 | create and update agree for a new user if and only if no DID ends on a row without a division after one with a division |
| DidSync.DistinctDidsAgree | apps/users/serializers.py:524-548 | in particular for pairwise distinct DIDs |
| Allocator.SkipTaken | apps/users/management/commands/provision_rcm_data.py:227-228 | the while loop terminates for every finite taken set at the first free number |
| Allocator.NextFreeIsFirst | apps/users/management/commands/provision_rcm_data.py:227-228 | that number is free and all before it are taken |
| Allocator.AllocatesSmallest | apps/users/management/commands/provision_rcm_data.py:216-231 | numbers are handed out ascending, untaken, and with no untaken number passed over |
| Allocator.AllocatesLeast | apps/users/management/commands/provision_rcm_data.py:216-231 | no other ascending list of untaken numbers is lower at any position |
| Text.DecimalInjective | apps/users/management/commands/provision_rcm_data.py:227-229 | different numbers have different texts, so the taken set compares like numbers |
| Provisioning.EnsureAll | apps/users/management/commands/provision_rcm_data.py:160-194 | the get_or_create loops over label names |
| Provisioning.TagTwice | apps/users/management/commands/provision_rcm_data.py:196-209 | tagging the DIDs twice is tagging them once |
| Provisioning.Command.TagDids | apps/users/management/commands/provision_rcm_data.py:196-209 | the tagging loop; absent DIDs are skipped, a missing label fails |
| Provisioning.Command.CreateUser | apps/users/management/commands/provision_rcm_data.py:226-274 | the branch for a new email: number, user row, reused or created extension |
| Provisioning.Command.ProvisionUsers | apps/users/management/commands/provision_rcm_data.py:211-301 | the roster loop with the DID access backfill |
| Provisioning.Command.PlanUsers | apps/users/management/commands/provision_rcm_data.py:226-236 | the dry-run loop changes nothing and prints one number per email without a user |
| Provisioning.Command.Handle | apps/users/management/commands/provision_rcm_data.py:125-156 | the command: a dry run or a failed run leaves the tables as they were |
| Provisioning.RunTwice | apps/users/management/commands/provision_rcm_data.py:160-301 | a second run, from any starting number, leaves all tables as after the first when every entry can be recognised (normalised email, or a user already stored under it) |
| Provisioning.RerunSucceedsIff | apps/users/management/commands/provision_rcm_data.py:160-301 | after a successful run a rerun succeeds if and only if every entry can be recognised |
| Text.LowerStripIdempotent | apps/users/managers.py:30-49 | email normalisation is idempotent |
| Text.NormalIs | apps/users/managers.py:30-49 | addresses that differ in surrounding blanks and in the case of their letters are one address |
| ProvisioningReads.LabelsAdded | apps/users/management/commands/provision_rcm_data.py:160-194 | labels that are there stay, missing ones are added, and nothing else is |
| ProvisioningReads.TagsRead | apps/users/management/commands/provision_rcm_data.py:196-209 | tagging writes a tag's department and account on the tenant's DID with the tag's number and leaves every other DID alone |
| ProvisioningReads.BackfillReads | apps/users/management/commands/provision_rcm_data.py:281-299 | an entry with a department and an account gives its user the tenant's DID tagged with both, to use and to work under the dental division and the DID's department; other entries give nothing |
| ProvisioningReads.UserReads | apps/users/management/commands/provision_rcm_data.py:223 | an entry finds a user stored under exactly its email, if and only if there is one |
| ProvisioningReads.NumbersHanded | apps/users/management/commands/provision_rcm_data.py:216-231 | new users get decimal numbers from the starting one on, rising, none assigned in the tenant before, none passed over that was not |
| ProvisionedUsers.UsersAllocate | apps/users/management/commands/provision_rcm_data.py:216-274 | new users receive, in roster order, the counter's numbers |
| ProvisionedUsers.PlanAllocates | apps/users/management/commands/provision_rcm_data.py:226-236 | the dry run prints the counter's numbers in roster order |
| ProvisionedUsers.EmailsAfter | apps/users/management/commands/provision_rcm_data.py:223-247 | the emails stored after a run are those before it and the normal forms of the entries without a user |
| ProvisionedUsers.DryRunPredictsIff | apps/users/management/commands/provision_rcm_data.py:226-236 | for every roster a run accepts: the dry run prints exactly what the run does if and only if no entry without a user is spelled like the normal form of an earlier entry without a user |
| ProvisionedUsers.SpellingsExample | apps/users/management/commands/provision_rcm_data.py:226-236 | Amit@x.com before amit@x.com: the dry run prints two new users, the run creates one |
| ProvisionedUsers.UsersSucceedIff | apps/users/management/commands/provision_rcm_data.py:211-301 | on sound tables a run succeeds if and only if every entry that reaches no user (before it, or by then) has a non-empty email whose normal form is neither stored nor produced earlier; it then never writes a second extension with the same tenant and number and keeps the directory invariant |
| ProvisionedUsers.CommandSucceedsIff | apps/users/management/commands/provision_rcm_data.py:125-156 | the same condition for the whole command, with its label and tag constants; the tables stay sound for the next run |
| ProvisionedUsers.NormalEmailsStorable | apps/users/management/commands/provision_rcm_data.py:223-247 | in particular every roster of non-empty normalised emails is accepted |
| ProvisionedUsers.TenantRuleIff | apps/users/management/commands/provision_rcm_data.py:223-295 | a run keeps the rule that a user works only DIDs of the user's own tenant if and only if no entry with a DID carries the email of a user of another tenant |
| TenantRule.Update | apps/users/serializers.py:551-649 | the serializer's update with all its parts: a refused extension or DID undoes everything |
| TenantRule.Create | apps/users/serializers.py:445-548 | the serializer's create, likewise |
| TenantRule.RowsAcceptedIff | apps/users/serializers.py:614-633 | listed DIDs are accepted only for a user of a tenant with calling or messaging and only if every one is found; an empty list always |
| TenantRule.RowsFollow | apps/users/serializers.py:614-649 | after an accepted did_assignments the user's grants follow the rule that a user works only DIDs of the user's own tenant, whatever they were before |
| TenantRule.StepRuleIff | apps/users/serializers.py:582-649 | of user creations, updates, deletions, extension requests, DID grants and revocations and DID events, exactly those updates break the rule that are accepted, give a user who has DIDs another tenant and leave did_assignments out |
| TenantRule.RunRuleIff | apps/users/serializers.py:582-649 | a run of such requests follows the rule in every state if and only if none of them is such an update |
| ProvisionedUsers.UsersAccess | apps/users/management/commands/provision_rcm_data.py:281-299 | the backfill adds only grants and division rows of roster entries: their user, their DID, the Dental division and the DID's department |
| ProvisionedUsers.CreatedHold | apps/users/management/commands/provision_rcm_data.py:255-274 | every reported user holds the extension with the reported number |
| LabelCache.BuildMap | apps/common/cdr_views.py:50-66 | the map is built row by row, later rows overwriting |
| LabelCache.BuildSays | apps/common/cdr_views.py:50-66 | every entry is the label of an assigned extension with that number or SIP name |
| LabelCache.NamedIsLabelled | apps/common/cdr_views.py:50-66 | every assigned extension of a named user is labelled under its number and its SIP name |
| LabelTexts.NameShown | apps/common/cdr_views.py:60 | the name is first and last name with a blank between, or the one there is, without surrounding blanks |
| LabelTexts.LabelSays | apps/common/cdr_views.py:50-66 | a key is labelled if and only if an extension of a named user has it as number or SIP name, with that name and number; of several the one with the greatest number decides |
| LabelCache.Labels.Get | apps/common/cdr_views.py:30-40 | serves the cached map or builds and stores it; a raising cache falls back to building |
| LabelCache.Labels.Save | apps/extensions/signals.py:7-12 | saving an extension drops its tenant's entry |
| LabelCache.Labels.Delete | apps/extensions/signals.py:7-12 | deleting an extension drops its tenant's entry |
| LabelCache.Labels.SaveUserRow | apps/users/signals.py:7-29 | saving a user drops the tenant's entry exactly when an existing user's name changed |
| LabelCache.ServedWasCurrent | apps/common/cdr_views.py:30-47 | over every run each map served equals the map rebuilt at a moment no earlier than the last signal for its tenant |
| LabelCache.LoudStepKeepsMap | apps/users/signals.py:7-29 | with the tenant invariant every signalling kind of write either signals the tenant or leaves its map unchanged |
| LabelCache.CurrentUnlessSilent | apps/common/cdr_views.py:30-47 | a served map is current when no silent step happened since it was built |
| LabelCache.NoSilentStepsAlwaysCurrent | apps/common/cdr_views.py:30-47 | runs without silent steps serve only current maps |
| LabelCache.CurrentIff | apps/common/cdr_views.py:30-66 | over every run, silent steps or not: a map served is current if and only if every extension of the tenant shows the name it showed when the map was built |
| LabelCache.SameMapIff | apps/common/cdr_views.py:43-66 | two states of the tables with the same extensions build the same map if and only if every extension shows the same name in both |
| LabelCache.SilentStepChangesNamesIff | apps/users/serializers.py:521-522 | a silent step changes a name some extension of the tenant shows if and only if it touches the tenant: it clears or deletes a named user who holds an extension there, or gives an extension there to a user of another name |
| LabelCache.SilentStepStaleIff | apps/common/cdr_views.py:30-47 | for each of the three silent steps and any number of extensions: a current cache entry is stale afterwards if and only if the step touches the tenant |
| LabelCache.SilentStepGoesStale | apps/common/cdr_views.py:30-47 | in particular unassigning a named user's extension by `update()` leaves the old label in the cache, whatever the tables |
| Conversations.Messaging.Resolve | apps/messaging/services.py:43-77 | finds the thread of the exact participant set in whatever order candidates come, or creates it; an empty set raises |
| Conversations.Messaging.BroadcastEvent | apps/messaging/services.py:148-196 | one event for the thread and one per user of the DID |
| Conversations.Messaging.SendMessage | apps/messaging/views.py:176-244 | a send stores its message in the resolved thread, as failed without an id when Telnyx rejects it, and broadcasts only when accepted; a Telnyx id already stored rolls everything back |
| Conversations.Messaging.ReceiveMessage | apps/webhooks/views.py:436-478 | an inbound message: skipped without sender, recipients or DID, rolled back when its Telnyx id is already stored, else stored in the resolved thread and broadcast |
| Conversations.Messaging.UpdateStatus | apps/webhooks/views.py:411-434 | a delivery report changes the status of the message with its id and nothing else |
| Conversations.Messaging.SyncLine | apps/webhooks/views.py:264-299 | did.created and did.updated: renumber the row with this object id and tell its users, or create it |
| Conversations.Messaging.DeleteLine | apps/webhooks/views.py:301-305 | did.deleted removes the row, its threads and its messages |
| Conversations.StepSound | apps/messaging/services.py:43-77 | every request keeps one row per DID, one thread per tenant, DID and participant set with is_group exactly for several members, one message per Telnyx id, and every thread and message with its DID and tenant |
| Conversations.StepDids | apps/webhooks/views.py:264-305 | a request removes a DID exactly when it deletes it, never changes its tenant or object id, and adds at most the one it drew an id for |
| Conversations.StepThreads | apps/messaging/services.py:43-77 | a request removes a thread exactly with its DID, never changes one, and adds at most the one it drew an id for |
| ConversationRuns.RunSound | apps/messaging/services.py:43-77 | over every serial run of sends, Telnyx webhooks and DID events the same holds in every state: in particular one thread per participant set, and is_group exactly for several members |
| ConversationRuns.DidLivesIff | apps/webhooks/views.py:301-305 | over every run a DID is there later if and only if it was not deleted in between |
| ConversationRuns.ThreadLivesIff | apps/messaging/models.py:20 | over every run a thread is there later, unchanged, if and only if its DID was not deleted in between |
| ConversationRuns.DeletedThreadSilent | apps/messaging/models.py:76-77 | once its DID is deleted no message ever names a thread again |
| ConversationRuns.MessagesLive | apps/messaging/models.py:76-77 | over every run the messages of the DIDs still there stand first and in order in every later state, changed at most in delivery status, and every stored message has its DID |
| ConversationRuns.StoredOnce | apps/messaging/models.py:92 | over every run at most one message carries a Telnyx id |
| Conversations.RedeliveryIff | apps/webhooks/views.py:458-467 | an inbound message that reaches a DID changes nothing if and only if its Telnyx id is already stored |
| Conversations.DeletionForgets | apps/webhooks/views.py:301-305 | after a deletion a Telnyx id is stored if and only if a message of another DID has it |
| ConversationRuns.RedeliveryInRun | apps/webhooks/views.py:436-478 | over every run a message delivered again changes nothing if and only if its id is stored, which it is as long as the DID of the first delivery was not deleted |
| Conversations.SameKeyIff | apps/messaging/services.py:35-49 | two number lists name the same participants if and only if each rewrites the other |
| Conversations.ResolvesAgain | apps/messaging/services.py:43-77 | any order, repetition or formatting of the numbers resolves to the thread already there |
| Conversations.ThreadsSeparate | apps/messaging/services.py:43-77 | different participant sets never share a thread |
| ThreadNumbers.FormattingIgnored | apps/messaging/services.py:35-56 | a character that is no digit may be put into or taken out of any number: the same thread is found, and one opened under one writing is found under the other |
| ThreadNumbers.DigitsApart | apps/messaging/services.py:35-56 | numbers of digits only open one thread if and only if they are the same |
| ThreadNumbers.ListedAsWritten | apps/messaging/services.py:58-77 | a new thread lists the non-empty numbers as written, each once |
| ThreadNumbers.ListedInOrder | apps/messaging/services.py:67-75 | in the order in which they were first written |
| ThreadNumbers.InboundParticipants | apps/webhooks/views.py:436-455 | a stored inbound message lies in a thread of the DID addressed whose participants are, digit for digit, the sender and every other number addressed |
| ThreadNumbers.SyncedLine | apps/webhooks/views.py:264-299 | did.created and did.updated write the row of their tenant and object id, or add one, and touch no other; numbers are cut to 20 characters |
| ThreadNumbers.DeletedLine | apps/webhooks/views.py:301-305 | did.deleted removes the row of its tenant and object id and no other |
| Conversations.ReplyLandsIff | apps/webhooks/views.py:443-467 | a message addressed first to a uniquely owned DID changes nothing when its Telnyx id is stored, and otherwise lands in an earlier send's thread if and only if its counterparties are the send's recipients |
| ConversationRuns.ReplyInRun | apps/webhooks/views.py:443-467 | over every run, however much happened between: a reply to a send's DID that is still there and uniquely numbered changes nothing when its Telnyx id is stored, and otherwise lands in the send's thread if and only if its counterparties are the send's recipients |
| QrLogin.QrTokens.InitiateLogin | apps/users/views.py:832-843 | a pending token with five minutes to live |
| QrLogin.QrTokens.ConfirmLogin | apps/users/views.py:855-876 | binds the user to a pending, unexpired token; an expired one is deleted |
| QrLogin.QrTokens.PollLogin | apps/users/views.py:889-923 | hands out the session once, deletes an expired token, refuses a consumed one |
| QrLogin.YieldsOnce | apps/users/views.py:889-923 | a token yields at most one session in any run |
| QrLogin.ConfirmedOnce | apps/users/views.py:855-876 | at most one confirmation of a token is accepted in any run |
| QrLogin.SessionStory | apps/users/views.py:832-923 | a session is handed out only after initiation and a confirmation while pending, only for the one user who confirmed, only before expiry |
| QrLogin.SpentNeverYields | apps/users/views.py:889-923 | a consumed or deleted token never yields again |
| QrLogin.ApprovedYields | apps/users/views.py:889-923 | an approved token polled in time does yield its user's session |
| FaxPaging.FetchAll | apps/common/fax_views.py:126-161 | the loop ends because some page does and returns what its pages hold |
| FaxPaging.FaithfulStops | apps/common/fax_views.py:133-161 | an upstream that pages one list has a page that ends the loop |
| FaxPaging.FetchesWhole | apps/common/fax_views.py:133-161 | from such an upstream the loop returns the whole list in order |
| FaxPaging.CappedFetchIff | apps/common/fax_views.py:133-161 | from an upstream that puts at most c faxes on a page the whole list comes back if and only if c >= 1000 or the list has at most c entries; otherwise its first c entries do |
| FaxPaging.FailsWhole | apps/common/fax_views.py:147-152 | a failed page before the end fails the whole fetch |
| FaxPaging.List | apps/common/fax_views.py:215-259 | the assigned-to-me listing with its clamped paging parameters |
| FaxPaging.PagesArePrefix | apps/common/fax_views.py:246-257 | the first n pages are the first n * page_size entries, without gap or overlap |
| FaxPaging.ShownIsMine | apps/common/fax_views.py:215-259 | walking the pages of any requested size shows exactly the user's faxes of the whole upstream list, in order |
| FaxPaging.MineIs | apps/common/fax_views.py:228-231 | of any list exactly the faxes tagged for the user count, in the order of the list |
| FaxPaging.ListingParams | apps/common/fax_views.py:239-259 | page 1 of 25 by default or when malformed, never below page 1 and size 1, never above 1000 |
| Contacts.BuildKeys | apps/contacts/services.py:35-39 | the index of match keys holds each number under its key |
| Contacts.BuildLookup | apps/contacts/services.py:27-54 | the index answers like scanning the stored numbers for each number |
| Contacts.Annotate | apps/contacts/services.py:57-79 | each record is flagged with the first stored match of its number |
| Contacts.MatchIff | apps/contacts/services.py:19-54 | a number is flagged if and only if some stored number shares its non-empty key |
| Contacts.SameKeySameMatch | apps/contacts/services.py:19-54 | numbers with the same key get the same answer |
| Contacts.MatchIsFirst | apps/contacts/services.py:51-53 | the contact is that of the first such stored number |
| Contacts.FormattingIgnored | apps/contacts/services.py:19-24 | a character that is no digit may come or go in the number or in a stored one |
| Contacts.DigitsMatch | apps/contacts/services.py:19-54 | of numbers written in digits the first stored one that is the same, or has the same last ten of at least ten digits, is found, and nothing else |

## Left out

- HTTP proxying, streaming, email, media download, thread pools: each upstream is a given function.
- Passwords, JWT contents, Fernet and Ed25519: sessions and secrets are opaque.
- Role checks, feature flags beyond the calling and messaging checks of the modelled requests, admin, plain
  CRUD listings and icontains filters: small decision tables.
- Email changes by update, fax and voicemail boxes, SIP passwords and transports, audit fields and
  timestamps: no modelled property reads them.
- Cascading deletion of tenants: PROTECT keys keep tenants with users or extensions.
- Overlapping requests outside the outbox: two simultaneous first messages can create two threads.
- Contact ids of thread participants, unread counts, error texts and media of messages.
- Telnyx and FreeSWITCH webhook logging and tenant auto-creation; extension.updated with a failed fetch does nothing.
- resolve_tl_department_ids and is_scoped_team_lead: variants of the modelled resolvers.
- Values longer than their database column: the write would fail and roll the request back.
- Saving an extension under another tenant: no modelled code does, and the cache theorems assume none does.
- Keys of an hourly payload other than extension, hours and total are carried along unread.
- Assignments.Accounts.Create: the inferred tenant and the resolved extension are answers of the database given to the method.
- Assignments.Accounts.Sync: the row is found by tenant and object id, which the unique constraint makes one row.
- Provisioning.Command.Handle: printed lines other than the new users of a run or plan, and the team-lead flag, are not kept.
- TenantRule.StepRuleIff: the provisioning command is not among the requests; ProvisionedUsers.TenantRuleIff says when it keeps the rule.
- LabelCache.ServedWasCurrent: assumes that deleting a cache entry works; a cache whose delete fails can stay stale until expiry.
- FaxPaging.FetchAll: for an upstream whose pages never end the original loop does not terminate; the method asks for one ending page.
- QrLogin.QrTokens.PollLogin: an approved row without a user would raise; no run reaches one, and the model refuses it.

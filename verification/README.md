# Verified core of the field-service backend

A Dafny model of the parts of a NestJS/MySQL field-service backend whose
correctness does not follow from reading one function: the compiler from filter
objects to SQL, the query scopes that feed it, refresh-token rotation, the two
fixed-window rate limiters, quote and invoice numbering, money and billing runs,
the inventory ledger, the privacy-request workflow, calendar and CIDR arithmetic,
the permission-scope cache and the migration runner.

How the model is built:

- A table is a map, a set or a sequence; an SQL statement is one atomic step; a
  request is a program of such steps. Where requests can overlap, a run is any
  interleaving of their statements, and the theorems range over every run.
- Code that changes tables or fields in place is a class or a method with a loop,
  proved against a step function. What the repository promises is then proved of
  every sequence of steps.
- Emitted SQL is a sequence of tokens with anonymous `?` marks. Values are bound
  left to right, the bound text is read by a grammar in which AND binds tighter
  than OR, and the reading is evaluated with SQL's three truth values. The
  compiler is proved against a direct meaning of the filter object that mentions
  neither tokens nor values.
- Randomness, clocks, hashes, the collation (ordering and LIKE) and statement
  outcomes are parameters. Where a result needs fresh tokens or an injective
  hash, its contract says so.

| file | part of the system |
|---|---|
| `Sql`, `WhereCompiler`, `WhereMeaning`, `WhereRejection`, `WhereLimits`, `WhereColumns`, `WhereBuilder` | the generic `where` compiler |
| `AssetQueries`, `ScopeBuilders` | asset queries and the scopes handed to them |
| `SessionRotation` | refresh-token rotation |
| `RateLimit`, `LimiterReports` | database and in-memory rate limiter |
| `Numbering`, `Decimal`, `Money`, `Billing`, `ConversionReads` | quotes and invoices |
| `Inventory` | stock counters and transaction log |
| `Privacy` | privacy requests |
| `Calendar`, `Cidr` | due dates, address blocks |
| `ScopeCache` | permission-scope cache |
| `Migrations` | migration runner |
| `Prelude` | shared datatypes |

## Where the code departs from its comments or from the obvious claim

- OR branches with several entries are flattened: `OR: [{a: 1, b: 2}]` selects
  rows with `a = 1` or `b = 2`. `WhereLimits.EmittedMeaning` gives the exact
  meaning of every tree, `WhereLimits.BranchEntriesBecomeAlternatives` its
  distance from the filter, `WhereLimits.TwoEntryBranchCounterexample` a row.
- Of `gte` and `lte` in one object only `gte` is compiled
  (`WhereLimits.UpperBoundLost`).
- A `contains` value is not escaped: `%` and `_` in it are wildcards
  (`WhereColumns.ContainsMeans` is for parts without them).
- A relation filter without entries leaves `AND )` behind, which the server
  rejects; `WhereRejection.AcceptedIffComplete` says exactly when it accepts.
- `findMany` with `skip` and no `take` emits OFFSET without LIMIT and is rejected.
- `mergeScopes` drops entries that stand beside an AND array, and puts an OR array
  under AND as soon as there are two conditions, where the query reads it as a
  column and is rejected. Merging merged parts differs from merging the
  concatenation exactly when a part comes down to one empty condition beside others.
- The rate limiter's block never outlives its window, whatever the block
  duration, because the next hit at or after the end of the window clears it. Any interval as long as the window admits at most
  `2 * limit - 1` hits, one fewer than the usual `2 * limit`, and that is reached.
- Recording a payment of 0 with status PAID or VOID leaves a balance
  (`Billing.SettledExactly` is the exact condition).
- Conversion of a quote, the legal-hold check, the confirmation of a request, the
  stock check and loading of the scope cache are check-then-act. For each there is
  a run that breaks the claim which holds for one request at a time, and a theorem
  that says exactly which interleavings keep it.
- The database limiter reports from a SELECT after its upsert: a hit within the
  limit can be reported as blocked, and one past it as free once its block is over
  (`LimiterReports`).
- A migration that throws after its name is in the table, at a later statement of
  its own or at the bookkeeping INSERT or DELETE, keeps its failure row for good,
  because later runs skip it (`Migrations.RunsAccountForFailures`).
- Reserved stock can be used only if as much again is free, since the check for
  USE looks at the available stock (`Inventory.UseAfterReserve`).
- A quote edit without lines changes the rate or discount but not the totals
  (`Billing.RunsKeepAmounts` says exactly when that shows).
- A limit of 0 acts as 1 in the database limiter and as 100 in the in-memory one,
  whose constructor falls back on its defaults.
- When a stored hash is presented as a legacy token, the history records the hash of
  that hash, and reuse of the original token is not reported
  (`SessionRotation.ReplayExactly`).
- Two racing completions can add two deletion jobs or artifacts
  (`Privacy.AddedUnderInterleaving` has the exact count).
- A conversion reads the row and the lines of a quote separately, and an edit writes
  the lines before the totals, so an invoice can mix the two (`ConversionReads`).
- The cache comments say LRU; eviction goes by insertion order.
- A prefix that is not a number (as in `10.0.0.1/x`) compares whole addresses.

## Model

| member | source | states |
|---|---|---|
| `WhereMeaning.WhereCompilerCorrect` | src/database/database.service.ts:2783-2835 | For every supported filter tree, database and row: as many `?` as pushed values through nested OR and EXISTS, the text is accepted, and it selects the row exactly when the tree holds. |
| `WhereColumns.CreatedByMeans` | src/database/database.service.ts:2797-2802 | For every database, ticket and supported user filter: the text of `createdBy` selects the ticket if and only if some user whose id is the ticket's createdById meets the filter. |
| `WhereColumns.TimelineTicketMeans` | src/database/database.service.ts:2790-2795 | The same for the `ticket` of a timeline entry, over Ticket.id and the entry's ticketId. |
| `WhereColumns.PlainColumnMeans` | src/database/database.service.ts:2769-2772 | Any other entry but an OR array, of any table and with any value, tests the cell of its own name, `group` of Permission the cell `grp`. |
| `WhereColumns.ContainsMeans` | src/database/database.service.ts:2808-2811 | Under a LIKE that knows `%`, `contains` selects exactly the rows whose text contains the part, for parts without wildcards. |
| `WhereColumns.IdentifierExactly` | src/common/security/sql-identifier.ts:3-10 | A column name is accepted if and only if it is made of letters, digits and underscores and does not start with a digit. |
| `WhereColumns.NumberReadsBack` | src/database/database.service.ts:2808-2811 | The text of a number in a `contains` pattern reads as that number. |
| `WhereColumns.ListText` | src/database/database.service.ts:2808-2811 | The text of a list is that of its values with one comma between two of them, null as nothing. |
| `WhereMeaning.ConditionsMean` | src/database/database.service.ts:2783-2835 | At any nesting depth, the clauses of a supported filter evaluate together to TRUE exactly when the filter holds of the current row, NULL cells included. |
| `WhereMeaning.FilterMatches` | src/database/database.service.ts:2783-2835 | Running the emitted text over any table returns exactly the rows that meet the filter, in table order. |
| `WhereMeaning.GenericCountCorrect` | src/database/database.service.ts:2910-2919 | The count is the number of rows that meet the filter, the empty filter included. |
| `WhereCompiler.EmittedReads` | src/database/database.service.ts:2783-2835 | Every clause binds exactly the values pushed for it and is read, in front of any following text, as its own condition. |
| `WhereRejection.AcceptedIffComplete` | src/database/database.service.ts:2783-2835 | For every filter tree, supported or not: marks equal values, and the server accepts the text if and only if some clause is emitted and no relation filter at any depth is without clauses. |
| `WhereRejection.IncompleteBroken` | src/database/database.service.ts:2790-2802 | A tree with a relation filter that emits nothing has a clause that cannot be read whatever follows it; otherwise every clause can be read. |
| `WhereLimits.EmittedMeaning` | src/database/database.service.ts:2783-2835 | The meaning of the emitted text for every filter tree, with no restriction: rejected exactly without clauses or with an empty relation filter, and otherwise a row is selected exactly when each entry selects it, OR entries at any depth being alternatives and the first operator of an object counting alone. |
| `WhereLimits.BranchEntriesBecomeAlternatives` | src/database/database.service.ts:2785-2788 | OR branches with any positive number of entries, at any depth, nested in relations too: every row that meets the filter is selected, the entries of a branch become alternatives, and the text agrees with the filter on a row if and only if these alternatives imply the filter. |
| `WhereLimits.TwoEntryBranchCounterexample` | src/database/database.service.ts:2785-2788 | A two-entry branch selects a row that does not meet the filter. |
| `WhereLimits.UpperBoundLost` | src/database/database.service.ts:2812-2819 | For every collation, row and pair of bounds, in either order: an object with `gte` and `lte` compiles like the one with `gte` alone, and the text agrees with the filter on the row if and only if there the lower bound implies the upper one. |
| `WhereLimits.ParenthesesMatter` | src/database/database.service.ts:2787 | The same clauses with and without the OR parentheses: on every row where the first alternative holds and the other conjunct does not, one selects the row and the other does not. |
| `WhereBuilder.BuildWhereClauses` | src/database/database.service.ts:2783-2835 | The walk that pushes onto one shared list appends exactly the values of its clauses in order, and throws exactly when some column at some depth is not an identifier. |
| `WhereBuilder.BuildEntry` | src/database/database.service.ts:2784-2834 | The same for one entry: group, relation subquery with its own list, or column. |
| `WhereBuilder.BuildBranches` | src/database/database.service.ts:2786 | The same for the flattened branches of an OR. |
| `Sql.BindCounts` | src/database/database.service.ts:2910-2919 | Binding left to right succeeds exactly when there are as many values as marks. |
| `Sql.BindAppend` | src/database/database.service.ts:2783-2835 | Joining clauses and appending their value lists binds each value to its own clause. |
| `Sql.ReadWhere` | src/database/database.service.ts:2915 | Clauses joined by AND are read as the conjunction of their conditions. |
| `Sql.Parenthesised` | src/database/database.service.ts:2787 | A parenthesised group is one condition that following text cannot tear apart. |
| `Sql.Subquery` | src/database/database.service.ts:2790-2802 | An EXISTS subquery over a link and non-empty clauses is one condition. |
| `AssetQueries.FindManyCorrect` | src/database/database.service.ts:1463-1515 | For every supported filter, table and paging: the page of exactly the matching rows; OFFSET without LIMIT is the only rejected form. |
| `AssetQueries.CountCorrect` | src/database/database.service.ts:1560-1604 | The count is the length of the unpaged result of the same filter. |
| `Sql.PageMeans` | src/database/database.service.ts:1512-1513 | A page holds the rows from `skip` on, in their order, as many as there are up to `take`. |
| `AssetQueries.StatementReads` | src/database/database.service.ts:1467-1514 | The whole statement binds its filter values and then its paging values, and is read as the intended condition with that paging. |
| `ScopeBuilders.ScopeToRows` | src/database/query-builders.ts:65-91 | For every company, filter set, table and page, `findMany` on the asset scope returns the page of exactly that company's rows meeting every supplied filter, and `count` is their number. |
| `ScopeBuilders.AssetScopeMeans` | src/database/query-builders.ts:65-91 | The scope is a supported filter and holds of a row exactly when the row is the company's and meets each supplied filter. |
| `ScopeBuilders.BuildAssetScope` | src/database/query-builders.ts:65-91 | The conditions pushed one by one are those of the supplied, non-empty filters. |
| `ScopeBuilders.BuildCompanyScope` | src/database/query-builders.ts:31-46 | One AND group with the company and every non-null additional entry, in order. |
| `ScopeBuilders.MergeScopes` | src/database/query-builders.ts:174-192 | The loop computes the packed list of all contributions in order. |
| `ScopeBuilders.MergeMeansConjunction` | src/database/query-builders.ts:174-192 | For scopes each with an AND array, entries beside it included, or AND-free, OR arrays included: the merged scope asks for every gathered condition and for nothing beside an AND array, and holds of no row when there are several conditions and one has an OR array; hence exactly when it means the conjunction, and always without OR arrays and entries beside. |
| `ScopeBuilders.MergedOrIsLost` | src/database/query-builders.ts:174-192 | A company scope and an OR scope that both hold of a row: merged, the OR lands under AND, the row is lost and the text of the query names a column OR, which the server rejects on a table without one. |
| `ScopeBuilders.MergeOfMerged` | src/database/query-builders.ts:174-192 | For AND-free conditions, merging merged parts equals merging the concatenation if and only if neither part is one empty condition beside conditions of the other. |
| `ScopeBuilders.MergeOfMergedMeans` | src/database/query-builders.ts:174-192 | In meaning, merging merged parts and merging the concatenation agree on a row if and only if it is not the case that one part is one empty condition and the other one OR condition that holds. |
| `ScopeBuilders.EntriesBesideAndAreDropped` | src/database/query-builders.ts:177-183 | A scope with any entries beside its AND array keeps only the array when merged; the merged scope means the same on a row if and only if, provided the conditions hold, all the entries beside hold. |
| `ScopeBuilders.MergedScopeToRows` | src/database/database.service.ts:1463-1515 | For every list of AND groups and AND-free scopes without OR arrays whose merged scope is in the supported language: findMany on the merged scope returns the page of exactly the rows that meet every scope, and count is their number. |
| `SessionRotation.ConsumedAtMostOnce` | src/database/repositories/session.repository.ts:55-85 | In every interleaving of logins, rotations, logouts and family revocations, no refresh token is consumed by two rotations. |
| `SessionRotation.PastAndCurrentDistinct` | src/database/repositories/session.repository.ts:55-85 | A session's past tokens and its current one are pairwise distinct. |
| `SessionRotation.ConsumedIsAccounted` | src/database/repositories/session.repository.ts:46-85 | Every consumed token is in the history under its session and user, or its request is between its two statements. |
| `SessionRotation.ReplayIsDetected` | src/database/repositories/session.repository.ts:87-97 | A consumed token opens no session any more, and after its request has finished it is reported as reused for the right session and user exactly until the history row expires. |
| `SessionRotation.ReplayExactly` | src/database/repositories/session.repository.ts:46-97 | Of the tokens that match what a finished rotation consumed, the history has the presented one and no other: when a stored hash itself was presented as a legacy token, reuse of the original token is never reported. |
| `SessionRotation.TokenNamesOneSession` | src/database/repositories/session.repository.ts:9-23 | At most one session matches a presented token, in its hashed or legacy form. |
| `SessionRotation.RevokedForever` | src/database/repositories/session.repository.ts:29-85 | From any state, a revoked session is never changed or rotated again. |
| `SessionRotation.ExpiredForever` | src/database/repositories/session.repository.ts:74-80 | With the clock past its expiry, a session keeps its token and is never rotated again. |
| `SessionRotation.OnlyOwnersRotate` | src/database/repositories/session.repository.ts:74-80 | Over every run, each rotation was asked for by the user of its session, and sessions never change hands. |
| `SessionRotation.StepKeeps` | src/database/repositories/session.repository.ts:29-85 | Each statement keeps the invariant behind these results. |
| `SessionRotation.SessionRepository.Rotate` | src/database/repositories/session.repository.ts:55-85 | Succeeds if and only if the session is there, belongs to the user, stores the hash of the token or the token itself, is not revoked and has not expired; then exactly its row is swapped and the old token is in the history, otherwise nothing changes. |
| `SessionRotation.ValidRotates` | src/database/repositories/session.repository.ts:74-84 | From any state and after any steps that neither revoke the session nor consume its token: whoever presents the token behind the stored value, hashed or legacy, before it expires rotates the session, and the rotation is logged. |
| `SessionRotation.RevocationTakesEffect` | src/database/repositories/session.repository.ts:29-44 | Logout and family revocation can run in every state and afterwards every session they name is revoked. |
| `SessionRotation.SessionRepository.FindByRefreshToken` | src/database/repositories/session.repository.ts:9-23 | Finds a matching session if there is one, a hashed match before a legacy one. |
| `SessionRotation.SessionRepository.RevokeByRefreshToken` | src/database/repositories/session.repository.ts:29-36 | Each session is revoked if it was or if it matches the token, in hashed or legacy form; nothing else changes, and the token can rotate no session afterwards. |
| `SessionRotation.SessionRepository.RevokeActiveFamily` | src/database/repositories/session.repository.ts:38-44 | Each session is revoked if it was or if it is the user's; nothing else changes, and the user can rotate no session afterwards. |
| `SessionRotation.SessionRepository.RecordRotation` | src/database/repositories/session.repository.ts:46-53 | The token's hash is in the history afterwards and, if new, reported as reused until the given expiry; no earlier row and no session changes. |
| `RateLimit.LimitersRefineWindow` | src/common/services/database-throttler-storage.service.ts:19-46 | For every timed sequence of hits and cleanups both limiters report the hit number of one abstract fixed window; the database form blocks exactly the hits past the limit, for any block duration, and the in-memory form marks the client exactly on them, with its default in place of a limit of 0. |
| `RateLimit.BlockStartsWithFirstExcess` | src/common/services/database-throttler-storage.service.ts:19-36 | In every run the first hit past the limit reports a block of the configured length, or of the window when none is configured. |
| `RateLimit.BlocksAgree` | src/common/services/database-throttler-storage.service.ts:19-31 | After every run, cleanups included, the row of a key tells when its block ends as computed from the hit times alone. |
| `RateLimit.CleanupsDoNotMatter` | src/common/services/database-throttler-storage.service.ts:49-56 | Cleanups, wherever they stand, change no hit result: the whole database report, remaining times included, and the count and mark of the in-memory limiter. |
| `RateLimit.RateBound` | src/common/services/database-throttler-storage.service.ts:19-46 | Every half-open interval as long as the window lets at most `2 * limit - 1` hits of a key through. |
| `RateLimit.RateBoundIsReached` | src/common/services/database-throttler-storage.service.ts:19-46 | For every limit, every block duration and every window of at least two milliseconds, a run reaches this bound. |
| `LimiterReports.RateBoundInterleaved` | src/common/services/database-throttler-storage.service.ts:20-47 | With the upserts and SELECTs of any requests interleaved, the hits let through exceed the bound by at most those past the limit whose block was over before their SELECT. |
| `LimiterReports.PromptReports` | src/common/services/database-throttler-storage.service.ts:32-47 | When each SELECT runs at the clock time of its upsert there are none of these, whatever runs in between, and the bound holds as it is. |
| `LimiterReports.ReportedTruth` | src/common/services/database-throttler-storage.service.ts:32-47 | In every interleaving, for every limit and block duration, a SELECT reports a key as blocked if and only if by the times of its hits so far a block still runs. |
| `LimiterReports.ReportsRight` | src/common/services/database-throttler-storage.service.ts:20-47 | Exactly which interleavings report every hit as blocked if and only if it was past the limit: those in which at each report a block of the key runs if and only if the reported hit was past it. |
| `LimiterReports.CountedPast` | src/common/services/database-throttler-storage.service.ts:20-31 | A hit is past the limit exactly by its number in the abstract window at its upsert. |
| `LimiterReports.OvertakenIsBlocked` | src/common/services/database-throttler-storage.service.ts:20-47 | An instance: a first hit whose SELECT comes after a second upsert is reported as blocked, for every window and block duration and a limit of 1. |
| `LimiterReports.LateReportPasses` | src/common/services/database-throttler-storage.service.ts:32-47 | An instance: a SELECT that runs after a block of one millisecond is over lets the second hit of a limit of 1 through. |
| `RateLimit.LimitersAgree` | src/common/middleware/rate-limit.middleware.ts:59-96 | After every run each key's row and quota hold the count and end of its current window, or are gone only after that window. |
| `RateLimit.NextHit` | src/common/middleware/rate-limit.middleware.ts:63-75 | The abstract window: a hit at or after the end opens a new one, any other hit is the next number. |
| `RateLimit.MemoryLimiter.constructor` | src/common/middleware/rate-limit.middleware.ts:47-49 | A missing or zero window or limit falls back on one minute or a hundred requests, so neither is ever zero. |
| `RateLimit.SecondsUntil` | src/common/services/database-throttler-storage.service.ts:33-36 | The reported seconds are the least whole number that reaches the end, 0 once it has passed. |
| `RateLimit.DatabaseLimiter.Increment` | src/common/services/database-throttler-storage.service.ts:11-47 | The stepwise upsert, assignments left to right, and its report: the next number of a live window or number one of a new one, which starts unblocked; past the limit in a live window the hit is blocked; both remaining times are the least whole seconds that reach the end of the window and of the block; no other key changes. |
| `RateLimit.WindowEndReported` | src/common/services/database-throttler-storage.service.ts:32-36 | For every sequence of hits and cleanups the reported seconds are the least whole number that reaches the end of the abstract window of the hit. |
| `RateLimit.DatabaseLimiter.CleanupExpiredState` | src/common/services/database-throttler-storage.service.ts:49-56 | A row is deleted if and only if its window ended more than a day ago and it blocks nobody; the rest stays, and no later hit of any key can tell the difference. |
| `RateLimit.MemoryLimiter.Handle` | src/common/middleware/rate-limit.middleware.ts:59-96 | Counts the request in its quota, reports what is left, refuses nothing. |
| `RateLimit.MemoryLimiter.CleanupExpiredQuotas` | src/common/middleware/rate-limit.middleware.ts:126-140 | The loop deletes exactly the expired quotas and counts them. |
| `Numbering.NumbersAreDense` | src/modules/quotes-invoices/quotes-invoices.service.ts:384-394 | For every interleaving of COUNT reads and guarded INSERTs, the stored numbers of each company, kind and year are exactly 1..n. |
| `Numbering.RacersGetOneNumber` | src/modules/quotes-invoices/quotes-invoices.service.ts:497 | Of two requests that read the same count, only the first stores. |
| `Numbering.PadInjective` | src/modules/quotes-invoices/quotes-invoices.service.ts:393 | The padded text determines the number, for all naturals. |
| `Numbering.NumberTextInjective` | src/modules/quotes-invoices/quotes-invoices.service.ts:393 | So does the whole document number. |
| `Numbering.PrefixSelectsYear` | src/modules/quotes-invoices/quotes-invoices.service.ts:389-392 | The LIKE pattern of a year finds exactly the numbers of that year, for years of any length. |
| `Numbering.NumberedDocuments.NextNumber` | src/modules/quotes-invoices/quotes-invoices.service.ts:384-394 | `Q-` or `INV-`, the year, a dash and at least five digits that read as the next number; on dense tables it is free and every smaller one of the company, kind and year is taken. |
| `Numbering.NumberedDocuments.Insert` | src/modules/quotes-invoices/quotes-invoices.service.ts:546 | A duplicate changes nothing; on dense tables a number from a count read at any earlier time is stored if and only if no row was stored since, and the tables stay dense. |
| `Decimal.ParseOfDigits` | src/modules/quotes-invoices/quotes-invoices.service.ts:393 | Reading the decimal text of a number gives it back. |
| `Money.NormalizeLines` | src/modules/quotes-invoices/quotes-invoices.service.ts:332-352 | Fails if and only if there is no line or some line has no description or no positive quantity, the discarded ones included; otherwise the first hundred, each with what was sent, its place, and its product to the nearest cent with halves upwards. |
| `Money.PricedLines` | src/modules/quotes-invoices/quotes-invoices.service.ts:342-350 | Every kept line carries its rounded product and there are at most a hundred. |
| `Money.TotalsAreClose` | src/modules/quotes-invoices/quotes-invoices.service.ts:354-360 | Subtotal within half a cent per line of the exact sum, within 50 cents for a hundred lines; the tax is the rate in percent of what the taxable lines leave after the discount, to the nearest cent with halves upwards. |
| `Money.TotalIsBalance` | src/modules/quotes-invoices/quotes-invoices.service.ts:357-358 | For every discount, fractions of a cent included: tax and total are non-negative, total is within half a cent of subtotal - discount + tax while that is not negative and 0 otherwise, and equal to it if and only if the discount is in whole cents and at most subtotal + tax, in particular for whole cents up to the subtotal. |
| `Money.AntitoneInDiscount` | src/modules/quotes-invoices/quotes-invoices.service.ts:357-358 | A larger discount never gives a larger tax or total. |
| `Money.TotalsIgnoreOrder` | src/modules/quotes-invoices/quotes-invoices.service.ts:355-356 | Any permutation of the lines gives the same totals. |
| `Billing.BillingRuns` | src/modules/quotes-invoices/quotes-invoices.service.ts:143-253 | Over every run of requests: at most one invoice per quote, 0 <= balanceDue <= total, and the balance is 0 or what is left to pay. |
| `Billing.ConversionIsFinal` | src/modules/quotes-invoices/quotes-invoices.service.ts:143-186 | Whatever follows, a set convertedInvoiceId and an invoice's quote, amounts and lines never change. |
| `Billing.ConversionCarries` | src/modules/quotes-invoices/quotes-invoices.service.ts:143-186 | After conversion and any later requests, the invoice has the amounts and lines the quote had when converted. |
| `Billing.ConvertOnce` | src/modules/quotes-invoices/quotes-invoices.service.ts:143-186 | Converting again under any identifier changes nothing; the first conversion changes only the status and link of the quote and adds one invoice with the whole total due. |
| `Billing.AmountsFollowLines` | src/modules/quotes-invoices/quotes-invoices.service.ts:121-141 | Over every run in which a new rate or discount comes with lines, the totals of every quote and invoice are those of its own lines, rate and discount. |
| `Billing.DiscountAloneIsNotPriced` | src/modules/quotes-invoices/quotes-invoices.service.ts:133-138 | For every stored quote: a discount changed alone leaves totals that are right if and only if it is the same or was and stays at least the subtotal. |
| `Billing.RateAloneIsNotPriced` | src/modules/quotes-invoices/quotes-invoices.service.ts:133-138 | A rate changed alone leaves totals that are right if and only if the rounded tax is the same. |
| `Billing.EditWithoutLines` | src/modules/quotes-invoices/quotes-invoices.service.ts:133-138 | Any edit without lines leaves totals that are right if and only if the rounded tax is the same and the discount is the same or takes the total to nothing before and after. |
| `Billing.RunsKeepAmounts` | src/modules/quotes-invoices/quotes-invoices.service.ts:121-141 | Exactly which runs keep the totals of every quote and invoice those of its lines, rate and discount in every state: those in which each edit without lines meets that condition. |
| `Money.SameTotalsExactly` | src/modules/quotes-invoices/quotes-invoices.service.ts:354-360 | Exactly when two rates and two whole-cent discounts give the same totals of the same lines. |
| `Billing.PaymentReconciles` | src/modules/quotes-invoices/quotes-invoices.service.ts:239-250 | After a recorded payment, what counts towards the total and what is due add up to it; paid, partly paid or the requested status by where the payment lies between 0 and the total. |
| `Billing.SettledExactly` | src/modules/quotes-invoices/quotes-invoices.service.ts:222-253 | An edit keeps "paid or void means nothing due" if and only if it does not record a payment of zero or less on a positive total while the status is paid or void. |
| `Billing.PaidMeansNothingDue` | src/modules/quotes-invoices/quotes-invoices.service.ts:222-253 | Over every run in which recorded payments are positive, a paid or void invoice has no balance. |
| `Billing.ConvertedQuoteStays` | src/modules/quotes-invoices/quotes-invoices.service.ts:121-141 | While no edit sets its status, a converted quote keeps the lines and totals of its invoice. |
| `Billing.QuoteStaysExactly` | src/modules/quotes-invoices/quotes-invoices.service.ts:121-141 | Exactly which runs keep a converted quote equal to its invoice in lines and totals, in every state: those in which no accepted edit changes the lines or totals of the quote. |
| `Billing.ReopenedQuoteDiverges` | src/modules/quotes-invoices/quotes-invoices.service.ts:124-132 | An instance: setting the status first gets round the guard on converted quotes, for every converted quote and every change of its lines. |
| `Billing.RacingConversions` | src/modules/quotes-invoices/quotes-invoices.service.ts:145-184 | In every state in which two conversions can both read the quote, an interleaving of their statements leaves two invoices for it. |
| `Billing.InterleavingsConvertOnce` | src/modules/quotes-invoices/quotes-invoices.service.ts:143-186 | Exactly which interleavings of conversions, with any other requests in between, never store two invoices for one quote: those in which every insert meets a quote still unlinked with no other conversion between its insert and its link. |
| `Billing.UnconvertedMeansNone` | src/modules/quotes-invoices/quotes-invoices.service.ts:145-184 | In every reachable state that condition says that no invoice of the quote is stored yet. |
| `ConversionReads.InterleavingsAdd` | src/modules/quotes-invoices/quotes-invoices.service.ts:121-186 | With creation, edits and conversions statement by statement, lines cleared and inserted one by one: every invoice has the totals of its lines, in every state, if and only if the lines that each conversion reads add up to the row that it has read before. |
| `ConversionReads.QuotesAtRestAdd` | src/modules/quotes-invoices/quotes-invoices.service.ts:81-141 | When edits of one quote do not overlap, every quote without a request under way has the totals of its lines, after every interleaving. |
| `ConversionReads.EditAlone` | src/modules/quotes-invoices/quotes-invoices.service.ts:121-141 | An edit whose statements run without interference leaves its lines and the header priced for them, and nothing else changes. |
| `ConversionReads.SameAsWholeEdit` | src/modules/quotes-invoices/quotes-invoices.service.ts:121-141 | That header is the one of the whole edit in `Billing`. |
| `ConversionReads.UndisturbedReads` | src/modules/quotes-invoices/quotes-invoices.service.ts:145-180 | A conversion between whose two reads nothing is written of its quote reads matching lines if and only if the quote added up at the first. |
| `ConversionReads.MixedInvoice` | src/modules/quotes-invoices/quotes-invoices.service.ts:133-141 | A conversion that runs after an edit has replaced the lines and before it writes the totals stores an invoice that does not add up, for every such quote and edit. |
| `Billing.QuotesInvoicesService.Create` | src/modules/quotes-invoices/quotes-invoices.service.ts:81-119 | Exactly with acceptable lines, stores the quote with its lines, its rate and discount when positive and else zero, and their totals; every other quote and invoice stays. |
| `Billing.QuotesInvoicesService.Update` | src/modules/quotes-invoices/quotes-invoices.service.ts:121-141 | Refuses missing quotes and new lines that are not acceptable or meet a converted quote; given fields change, the others stay, and totals are recomputed only with lines, at the rate and discount as they are afterwards. |
| `Billing.QuotesInvoicesService.Convert` | src/modules/quotes-invoices/quotes-invoices.service.ts:143-186 | Leaves a linked quote as it is; else, with a line at least, links exactly one new draft invoice with the quote's rate, discount, amounts and lines, nothing paid and all of it due. |
| `Billing.QuotesInvoicesService.Pay` | src/modules/quotes-invoices/quotes-invoices.service.ts:222-253 | Field by field: a status of paid or void clears the balance, a recorded amount then decides amount, balance and status; nothing else of the invoice and no other invoice or quote changes. |
| `Billing.LineTable.ReplaceLines` | src/modules/quotes-invoices/quotes-invoices.service.ts:362-382 | Delete and insert one by one: the document has exactly the new lines in order, every other document keeps its own. |
| `Inventory.LogExplainsStock` | src/modules/inventory/inventory.service.ts:74-163 | Over every run of part creations and movements: 0 <= reserved <= onHand, onHand is the signed sum of the log and reserved its truncated replay, initial stock included. |
| `Inventory.MovementKeeps` | src/modules/inventory/inventory.service.ts:136-163 | Each allowed movement keeps these relations for every part. |
| `Inventory.MovementsUndo` | src/modules/inventory/inventory.service.ts:142-160 | A return undoes any allowed reservation, and a transfer out undoes whatever brought the stock in; each is allowed and restores the part. |
| `Inventory.UseAfterReserve` | src/modules/inventory/inventory.service.ts:143-158 | Using what was just reserved takes it from both counters, and is allowed if and only if as much again was available. |
| `Inventory.NoLostUpdates` | src/modules/inventory/inventory.service.ts:138-161 | However read, update and log statements interleave, onHand is the signed logged sum plus what is updated and not yet logged, and reserved is never negative. |
| `Inventory.InterleavingsInRange` | src/modules/inventory/inventory.service.ts:138-161 | Exactly which interleavings keep 0 <= reserved <= onHand for every part in every state: those in which each update meets a row that its movement fits. |
| `Inventory.CheckedFits` | src/modules/inventory/inventory.service.ts:143-152 | The row that passed the checks fits, so only another update in between can break the range. |
| `Inventory.OverdrawnByTwo` | src/modules/inventory/inventory.service.ts:138-160 | Two movements that both read the whole stock drive it negative. |
| `Inventory.InventoryService.CreatePart` | src/modules/inventory/inventory.service.ts:74-95 | A new part with its initial stock logged as received. |
| `Inventory.InventoryService.CreateMovement` | src/modules/inventory/inventory.service.ts:136-163 | Refused if and only if the part is missing, the quantity is not positive, a use, transfer out or reservation exceeds the free stock or a return the reserved stock; otherwise the counters move as the movement type says and the movement is logged. |
| `Privacy.GuardsSurviveInterleaving` | src/modules/privacy-requests/privacy-requests.service.ts:50-161 | Under every interleaving: completed implies identity verified, a completed deletion is approved, denied implies notes, and each verification token and export artifact is consumed at most once and only by the token that was issued for it. |
| `Privacy.AtomicRuns` | src/modules/privacy-requests/privacy-requests.service.ts:90-148 | Over every run of whole requests: a completed deletion is never under legal hold, completedAt is set exactly in the terminal statuses, there is one deletion job for each entry of a deletion into COMPLETED, and one export artifact for each entry of an access or export request. |
| `Privacy.InterleavingsKeepGuards` | src/modules/privacy-requests/privacy-requests.service.ts:50-129 | Exactly which interleavings never show a completed deletion under legal hold: those in which every update that completes a deletion meets a row without a hold or releases it. Exactly which ones set completedAt in the terminal statuses only: those in which no confirmation takes effect on a row in a terminal status. |
| `Privacy.AddedUnderInterleaving` | src/modules/privacy-requests/privacy-requests.service.ts:90-148 | Under every interleaving: deletion jobs, stored or due, are the entries of deletions into COMPLETED, plus the writes that saw the request open when it no longer was, less those that saw it completed when it had been reopened; the same for export artifacts. With nothing due the numbers are equal if and only if as many were doubled as missed. |
| `Privacy.EntersExactly` | src/modules/privacy-requests/privacy-requests.service.ts:110-129 | A step takes a request into COMPLETED exactly when it is the write of a completing update on a row that is not completed. |
| `Privacy.OnlyTargetEnters` | src/modules/privacy-requests/privacy-requests.service.ts:90-148 | A request changes no row but its own, so nothing else can enter COMPLETED. |
| `Privacy.RowsGrow` | src/modules/privacy-requests/privacy-requests.service.ts:57-129 | No statement changes the type of a request, or a confirmation or approval time once set, or clears the identity check. |
| `Privacy.FirstTimesStick` | src/modules/privacy-requests/privacy-requests.service.ts:57-129 | The same over every interleaving, from any state. |
| `Privacy.HoldStays` | src/modules/privacy-requests/privacy-requests.service.ts:110-129 | Over every interleaving without an update that asks for its release, a legal hold stays with its time. |
| `Privacy.HoldRacesCompletion` | src/modules/privacy-requests/privacy-requests.service.ts:93-129 | A hold written between the read and the write of a completion leaves a completed deletion under legal hold. |
| `Privacy.ConfirmationRacesCompletion` | src/modules/privacy-requests/privacy-requests.service.ts:51-61 | A late confirmation reopens a completed request and leaves completedAt set. |
| `Privacy.PrivacyService.CreateRequest` | src/modules/privacy-requests/privacy-requests.service.ts:24-39 | A new request waits for its confirmation for a day, with the hash of its token and nothing verified, approved, held or completed; other requests stay. |
| `Privacy.PrivacyService.VerifyToken` | src/modules/privacy-requests/privacy-requests.service.ts:50-65 | Finds an unconfirmed, unexpired request that stores the hash of the token if and only if there is one; exactly that request is then received with its identity verified and its token gone. |
| `Privacy.PrivacyService.UpdateRequest` | src/modules/privacy-requests/privacy-requests.service.ts:90-148 | Field by field: refused exactly by the guards; first times stay, notes, hold and completion follow the update; leaving an open status for COMPLETED adds an export for a day or a deletion job; nothing else changes. |
| `Privacy.PrivacyService.DownloadExport` | src/modules/privacy-requests/privacy-requests.service.ts:150-161 | Finds an unused, unexpired artifact that stores the hash of the token if and only if there is one; exactly that artifact is then marked as downloaded. |
| `Calendar.DueDateAdvances` | src/modules/maintenance/maintenance.service.ts:403-412 | For every time value, zone offset, frequency and interval the due date is a whole number of days later: the month and year lengths passed over, 28..31, 89..92, 181..184, 365 or 366; hence strictly later. |
| `Calendar.NextDayAdvances` | src/modules/maintenance/maintenance.service.ts:403-412 | Every frequency moves every day by exactly the lengths of the months or years from its own. |
| `Calendar.MonthsAhead` | src/modules/maintenance/maintenance.service.ts:406-408 | Setting the month n ahead, overflow and year end included, adds the lengths of n consecutive months. |
| `Calendar.YearAhead` | src/modules/maintenance/maintenance.service.ts:409 | Setting the year one ahead adds 365 or 366 days, by whether a leap day lies between. |
| `Calendar.FieldsRoundTrip` | src/modules/maintenance/maintenance.service.ts:403-412 | Splitting a day number into year, month and date and putting it together gives the day back. |
| `Calendar.DateRoundTrip` | src/modules/maintenance/maintenance.service.ts:403-412 | Every calendar date is the date of its own day number. |
| `Calendar.Epoch` | src/modules/maintenance/maintenance.service.ts:403-412 | Day 0 is the first of January 1970. |
| `Calendar.MonthlyKeepsTheDate` | src/modules/maintenance/maintenance.service.ts:406 | A monthly step keeps the day of the month if and only if the next month has that day. |
| `Calendar.PlanBook.CompletePlan` | src/modules/maintenance/maintenance.service.ts:197-234 | The given run, or an open run that was due first, becomes completed at that time and keeps its due date, or one is recorded; no other run changes; a run that is not the plan's is refused; the defaulted due date is after the completion. |
| `Cidr.BlockMatchIsPrefixEquality` | src/common/guards/permissions.guard.ts:192-200 | For all dotted quads and prefixes 0..32, shift-and-mask with 32-bit wraparound is equality of the addresses divided by 2^(32-p), as in section 3.1 of RFC 4632. |
| `Cidr.LongerPrefixMatchesLess` | src/common/guards/permissions.guard.ts:192-200 | What matches a longer prefix matches every shorter one. |
| `Cidr.OddPrefixes` | src/common/guards/permissions.guard.ts:195-196 | A prefix that is not a number compares whole addresses; one outside 0..32 matches nothing. |
| `Cidr.MalformedOctet` | src/common/guards/permissions.guard.ts:197 | An octet that is not a number makes the address read as the octets after it, and as 0 when it is the last. |
| `Cidr.ExactRule` | src/common/guards/permissions.guard.ts:193 | A rule without a slash matches its own text and no other. |
| `Cidr.QuadNumber` | src/common/guards/permissions.guard.ts:197 | The shifted fold gives the address although its last shift wraps to a negative number. |
| `Cidr.MaskClears` | src/common/guards/permissions.guard.ts:198-199 | ANDing with a prefix mask clears exactly the lower bits, for words of any width. |
| `Cidr.PrivateIsUnionOfBlocks` | src/modules/platform-security/platform-security.service.ts:657-663 | The two-octet test is membership, as the block matcher decides it, in the union of its eight CIDR blocks (section 3 of RFC 1918, section 7 of RFC 6598 among them). |
| `ScopeCache.CacheAgreesWithTruth` | src/common/services/permission-scope-cache.service.ts:50-109 | Over every run in which each change is followed by invalidation, with colon-free user ids: what get returns is the current truth and at most TTL old, the size stays within the limit, and hits + misses is the number of gets. |
| `ScopeCache.KeyInjective` | src/common/services/permission-scope-cache.service.ts:142-144 | A key determines user and company when user ids have no colon. |
| `ScopeCache.KeyShared` | src/common/services/permission-scope-cache.service.ts:142-144 | Two user ids can share a key if and only if one, with a colon, starts the other with a colon. |
| `ScopeCache.ColonsCollide` | src/common/services/permission-scope-cache.service.ts:142-144 | With a colon two pairs share a key. |
| `ScopeCache.CleanupKeepsLookups` | src/common/services/permission-scope-cache.service.ts:149-165 | Cleanup changes no result of a get then or later. |
| `ScopeCache.EvictionIgnoresUse` | src/common/services/permission-scope-cache.service.ts:76-82 | Reading the oldest entry does not save it from eviction. |
| `ScopeCache.StaleLoad` | src/common/services/permission-scope-cache.service.ts:73-109 | In every state without changes under way, a value loaded before a change and stored after its invalidation is returned, stale, with no invalidation to come. |
| `ScopeCache.InterleavingsNeverStale` | src/common/services/permission-scope-cache.service.ts:50-109 | Exactly which interleavings of loads, changes, gets and cleanups never leave a stale entry that no invalidation still to come deletes: those in which each load stores what is still the truth or what such an invalidation deletes. |
| `ScopeCache.StaleByChangeBetween` | src/common/services/permission-scope-cache.service.ts:73-109 | A load stores something else than the truth if and only if the last change of its pair between its read and its store was to another value. |
| `ScopeCache.QuietGetsAreCurrent` | src/common/services/permission-scope-cache.service.ts:50-68 | In a state without stale entries and with no invalidation to come, every get at any time returns the truth. |
| `ScopeCache.PermissionScopeCache.Get` | src/common/services/permission-scope-cache.service.ts:50-68 | Returns the entry if and only if it is at most five minutes old, drops an older one and nothing else, counts one hit or miss. |
| `ScopeCache.PermissionScopeCache.Set` | src/common/services/permission-scope-cache.service.ts:73-88 | Stores the entry with its time, evicting the first inserted key exactly when ten thousand entries are there and the key is new; an existing key keeps its place, a new one goes last. |
| `ScopeCache.PermissionScopeCache.Invalidate` | src/common/services/permission-scope-cache.service.ts:93-109 | Deletes exactly one key, or exactly the keys that start with the user id. |
| `ScopeCache.PermissionScopeCache.KeysStartingWith` | src/common/services/permission-scope-cache.service.ts:100-105 | The pass over the map collects exactly the keys with that start. |
| `ScopeCache.PermissionScopeCache.Cleanup` | src/common/services/permission-scope-cache.service.ts:149-165 | The pass over the map in insertion order deletes exactly the entries older than five minutes and keeps the order of the rest. |
| `Migrations.RunsAccountForFailures` | src/database/migrations/migrations.service.ts:34-73 | After any number of runs with arbitrarily failing statements, bookkeeping INSERT and DELETE included: a migration is tried until its first try that puts its name into the table, it is applied exactly when that try has come, it has a failure row exactly when its last try threw, and the attempts are the number of its tries. |
| `Migrations.AppliedGrows` | src/database/migrations/migrations.service.ts:46-72 | The applied set only grows, whatever fails, bookkeeping included. |
| `Migrations.RunOnName` | src/database/migrations/migrations.service.ts:46-72 | A run, whatever fails in it, changes a name's bookkeeping only through its own migration, and how. |
| `Migrations.ErrorsByNumber` | src/database/migrations/migration-state.ts:37-47 | By error number: 1060 and 1061 never stop a migration, 1072 and 1069 do not for an index statement, every other error does and is recorded. |
| `Migrations.CleanExactly` | src/database/migrations/migrations.service.ts:62-71 | A try keeps "no name is applied and failed at once" if and only if it does not both put its name into the table and throw, at a statement after its own mark, at the INSERT or at the DELETE. |
| `Migrations.MarkedTooEarly` | src/database/migrations/migrations.service.ts:62-71 | A migration that inserts its own name before a failing statement is applied and failed at once. |
| `Migrations.PendingAreFailed` | src/database/migrations/migration-state.ts:50-63 | After a run every pending name reported has a failure row; pending and failed are the same for a name if and only if its last try did not both pass and throw. |
| `Migrations.NeverTwoLoops` | src/database/migrations/migrations.service.ts:24-32 | However calls, ends of loops by success or error and the first callers' `finally` follow each other: at most one loop is at work, and a call starts one if and only if no `finally` is still to come. |
| `Migrations.StartedLoopsWork` | src/database/migrations/migrations.service.ts:24-32 | In every run the loops at work are exactly those started and not settled, a call can always come, and a call that starts a loop puts it to work. |
| `Migrations.MigrationsService.RunMigrations` | src/database/migrations/migrations.service.ts:34-73 | The loop computes the specified run; with nothing pending it executes no statement and changes nothing. |
| `Migrations.MigrationsService.RunOne` | src/database/migrations/migration-state.ts:21-48 | One try sends the statements up to the first error that counts and no further; tolerated error numbers are skipped, any other error records a failure. |

## Left out

- Connection pool, table bootstrap, `ensure*Columns`, `createSchema` and the embedded migration SQL: I/O and fixed data.
- The per-entity copies of find, create, update and delete in `DatabaseService`, and `enrichTicket`: repetition of an equality-only compiler.
- ORDER BY and column selection of `asset.findMany`; errors for unknown columns and resolution of unqualified names to outer tables in subqueries.
- `undefined` values in filters, and arrays, strings or null where a filter object is expected: an OR branch or relation filter that is not an object is treated as having no entries.
- Objects and arrays bound to a `?` (mysql2 expands them), an `AND` key given to `buildWhereClauses` (a column of that name), and in the asset form a top-level `in` or an `OR` nested under `AND` (read as a column, which the table does not have; the server's error for it is not modelled).
- Floating point: amounts are exact reals rounded to whole cents, without the `Number.EPSILON` nudge. Entered discounts and payments are whole cents in the billing runs.
- Daylight saving, time-zone tables and invalid dates: the zone is a fixed offset.
- Cryptography: the hash is a parameter, injective where a result says so.
- `getStats` of the limiters and the response headers other than the remaining count; in `RateLimit` the SELECT is part of the step of its upsert, in `LimiterReports` a step of its own.
- A failure between the two statements of `rotate`, `mfaVerifiedAt`, and revocations made by other services.
- Fractional or infinite prefixes, the text form of addresses, and IPv6.
- Ticket generation and the other fields of plans; runs are due, scheduled or completed, the only statuses the service writes or reads.
- In the overlapping conversions of `Billing` every other request is one step; in `ConversionReads` creation and edits of quotes are split into their statements, while the checks on status and link and edits without lines are left to `Billing`. The number and the lines of an invoice belong to its insert.
- Text fields, ticket links and dates of quotes and invoices.
- `updatePart` setting the stock directly, deletion of parts, locations.
- Tenant scoping of single requests, privacy events, audit log, deadline notices, e-mails and the exported content.
- `clear` and `getStats` of the cache.
- Loading of migration files, comment stripping, statement splitting and the rewriting of IF NOT EXISTS: whether a statement is an index statement and whether it marks a name are parameters. Errors of the bookkeeping SELECT and of the statement that records a failure are not modelled; a migration writes no other name than its own into the table.
- Controllers, DTOs, modules, other guards, search, reporting summaries, health and logging.

# Verification of the Civora core

This project models the parts of Civora that carry real logic and proves what they promise. Civora is a
case-management server: its migration runner splits and applies SQL scripts, its audit log is a hash chain, its HTTP
layer limits request rates, locks out failed logins and replays idempotent requests, its case service moves cases
through workflows guarded by required forms, its context builder collects facts under a budget, and its web client
escapes text and checks workflow drafts.

Code that changes state is modelled by classes and methods with loops; each is proved against a specification
function or predicate, and the main results are lemmas about those functions over every input, every run or every
history. `dafny verify dfyconfig.toml` checks everything.

| file | subject |
|---|---|
| `Text.dfy` | optional values; text, UTF-8 lengths and white space |
| `SqlLexer.dfy`, `SqlSplitter.dfy` | the grammar of migration scripts; the scanner proved against it |
| `SqlRoundTrip.dfy`, `SqlFixpoint.dfy` | nothing is lost, literals stay whole, splitting and joining are inverse |
| `SqlScripts.dfy` | what scripts mean, told from their characters |
| `SqlOverrun.dfy` | what the overrun behind a dollar-quoted literal does to the statements |
| `Migrations.dfy`, `MigrationRecords.dfy` | the migration runner as a protocol that may stop at any database operation; what it executes |
| `AuditEncoding.dfy`, `AuditChain.dfy` | the hashed text and what it determines; the chain verifier |
| `AuditOrder.dfy` | the recorder, and when its log verifies in the order of time |
| `RateLimiter.dfy`, `RateTimes.dfy` | token buckets with eviction; what they grant in nanoseconds |
| `LoginLockout.dfy` | the lockout state machine |
| `Idempotency.dfy`, `IdempotentReplays.dfy` | the replay cache and its eviction loop; what its clients see |
| `Submissions.dfy`, `SubmissionMeanings.dfy` | validation of submitted forms; what acceptance means, type by type |
| `CaseStore.dfy`, `CaseWorkflow.dfy` | the gate of a transition and the report about it; what the transactions do |
| `CaseRuns.dfy`, `CaseMoves.dfy` | safety of every run of transactions with stale reads and rollbacks |
| `CaseOperations.dfy` | the case service, every operation of which takes a safe step |
| `CaseMeanings.dfy` | what the decisions about cases ask for, field by field |
| `CaseReports.dfy` | when the report about a case agrees with the gate |
| `WorkflowDrafts.dfy` | the workflow validators of the client and of the server, and how they differ |
| `ContextBuilder.dfy`, `ContextPhases.dfy` | the budgeted builder and its phases |
| `ContextMeanings.dfy`, `ContextCosts.dfy` | what the phases offer, row by row; what facts cost |
| `ContextAccess.dfy`, `ContextOptions.dfy` | whether facts come from rows the actor may see; asking for evidence and for verified evidence |
| `Escaping.dfy`, `HandlerAttributes.dfy` | the escapers of the web client; strings that pass through attributes |

## Assumptions

- The audit hash is injective and yields non-empty text without `|`; JSON is injective on metadata; the time format
  keeps microseconds and holds no `|` (`AuditEncoding.Sound`).
- Clocks never go back. Every method that holds a lock is one atomic step.
- A database transaction commits or leaves no trace. Updates of workflow instances compare versions. Records that are
  read outside a transaction may be old: `first`, `listed` and `seen` are arbitrary earlier stores.
- No JSON text of metadata ends in a bar followed by another JSON text (`AuditEncoding.TextsStandAlone`): a bar stands
  inside a string literal. Only the results about one clean event or log rest on this.
- Rows have unique keys: an observation belongs to one piece of evidence, a form version to one form.
- Regular expressions, e-mail, phone and date formats, JSON parsing and address normalization are parameters.

## Where the code and its documentation differ

- Dollar-quoted literals are documented as atomic. The jump past the closing fence adds a byte offset to a character
  index, so a body that is not ASCII makes the splitter skip text behind the literal. `SqlOverrun.LiteralSafeIffAscii`
  gives the exact condition, `SqlRoundTrip.OverrunMergesStatements` an input.
- `VerifyAllOrganizations` is documented to keep going and never to return an error. It returns one, with zero counts,
  exactly when the organizations cannot be listed or one of them fails (`AuditChain.VerifyAllOrganizations`);
  `AuditChain.VerifyingAllCanFail` gives inputs.
- Audit events are linked and verified in the order of their times, which are read before the lock is taken. A log that
  was recorded honestly can fail: `AuditOrder.HonestLogVerifiesIff` gives the exact condition, `AuditOrder.HonestLogCanFail`
  an input.
- `GetWorkflowRequirements` can report that a case may proceed while the gate refuses: it does not see missing forms
  that are archived or unpublished. Assignments are checked for this when they are created, forms are not when they are
  archived. `CaseReports.AgreeIffTidy` gives the exact condition, `CaseReports.ReportIsReliable` and
  `CaseReports.DisagreementHasCause` carry it through runs, `CaseStore.ReportCanDisagree` is an input.
- The options of a context that ask both for evidence and for verified evidence, as the default options do, yield
  verified evidence only, although filtering is documented for another option. `ContextOptions.AskingForVerifiedIff` gives
  the exact condition, `ContextOptions.DefaultOptionsDropUnverified` an input.
- Facts are documented to be checked for access before they are included. Observations are not: those of evidence that
  the actor may not see are offered too. `ContextAccess.PermittedUnderEveryBudgetIff` gives the exact condition,
  `ContextAccess.HiddenObservationIsCollected` an input. The one checker that ships answers by membership of the
  organization, alike for a case and all its evidence: with it the difference can show only if a query fails or a
  membership ends while the context is built (`ContextAccess.UniformCheckerKeepsGuard`).
- Idempotent requests are cached under a text that joins their parts with colons, so that different requests can share a
  record. `Idempotency.KeyTextIsOwnIff` says exactly which requests have a text of their own,
  `Idempotency.ColonsMakeKeysAmbiguous` finds for every other one a different request with its text, and
  `Idempotency.ColonInPrincipal` is an input.
- `escapeJS` is used inside double-quoted attributes, where a backslash does not protect a quote.
  `HandlerAttributes.ArgumentArrivesIff` gives the exact condition, `HandlerAttributes.QuoteDoesNotArrive` an input.
- The server can refuse a workflow that the client accepts: it recognizes repeated transitions by a text in which two
  different transitions can coincide. `WorkflowDrafts.ClientAgainstServer` gives the exact relation.

## Model

| member | source | states |
|---|---|---|
| SqlSplitter.SplitSQL | internal/database/migrations.go:179-275 | the one-pass scanner with four mode flags returns, for every script, the statements of the script's token sequence: comments dropped, cut at top-level semicolons, trimmed, blanks dropped; the index arithmetic of the dollar-quote jump included |
| SqlSplitter.ParseDollarQuoteTag | internal/database/migrations.go:284-306 | the tag reader finds exactly the tag that the grammar's opening fence defines |
| SqlLexer.DollarTagIsExact | internal/database/migrations.go:277-318 | every well-formed opening fence is recognized with exactly its tag |
| SqlScripts.StatementsHaveNoSpaceAround | internal/database/migrations.go:261-273 | no statement of any script is empty or begins or ends with one of the white space characters, which are listed |
| SqlScripts.BlankScriptIsEmpty | internal/database/migrations.go:261-273 | a script of those characters and semicolons alone has no statements |
| SqlScripts.PlainTextIsOneStatement | internal/database/migrations.go:236-273 | a text without quotes, dashes, slashes, dollar signs and semicolons that neither begins nor ends with white space is one statement, unchanged |
| SqlScripts.LineCommentVanishes | internal/database/migrations.go:194-198 | a line comment leaves the statements of what follows its line break |
| SqlScripts.BlockCommentVanishes | internal/database/migrations.go:200-205 | a block comment leaves the statements of what follows its first end mark; it does not nest |
| SqlScripts.QuotedTextIsOneStatement | internal/database/migrations.go:207-219 | every text, quoted with its quotes doubled, is one statement |
| SqlScripts.DollarQuotedIsOneStatement | internal/database/migrations.go:249-257 | every text between fences whose tag is made of letters, digits and underscores, not beginning with a digit, is one statement |
| SqlScripts.DollarQuotedThenMore | internal/database/migrations.go:221-264 | with an ASCII body, a semicolon behind the closing fence ends the statement, and the rest is split on its own |
| SqlScripts.DollarOpensNothing | internal/database/migrations.go:284-293 | a dollar sign before a digit or another character that no tag begins with is an ordinary character |
| SqlScripts.BrokenTagOpensNothing | internal/database/migrations.go:295-306 | so is one whose tag is broken off |
| SqlLexer.LexCoversScript | internal/database/migrations.go:188-275 | the tokens cover the script end to end; no character is invented or lost by reading |
| SqlLexer.ReadAsIntendedIffAscii | internal/database/migrations.go:221-233 | the script is read as the grammar intends if and only if every dollar-quoted literal closed before the end has an ASCII body |
| SqlRoundTrip.SplitsAsIntended | internal/database/migrations.go:170-178 | with ASCII bodies the statements are those of the intended grammar |
| SqlOverrun.LiteralSafeIffAscii | internal/database/migrations.go:221-233 | behind every prefix that is read as intended and ends between two tokens, a dollar-quoted literal leads to the intended statements before every continuation that is itself read as intended if and only if its body is ASCII |
| SqlOverrun.ClosedStatementEndsBefore | internal/database/migrations.go:179-275 | a closed statement with its semicolon is such a prefix for every literal |
| SqlOverrun.OverrunCanBeHarmless | internal/database/migrations.go:221-233 | a script with an overrun whose statements are the intended ones: for one script the reading decides only in one direction |
| SqlOverrun.OverrunCounts | internal/database/migrations.go:224-227 | as many characters are lost as the body has bytes more than characters, counted by three bounds |
| SqlRoundTrip.OverrunMergesStatements | internal/database/migrations.go:224-227 | a concrete script in which one accented letter in a body merges two statements |
| SqlRoundTrip.PiecesHoldAllKeptText | internal/database/migrations.go:190-274 | before trimming, the pieces are one more than the separators and together hold all text that is no comment, separator or overrun, in order |
| SqlRoundTrip.TokensStayWhole | internal/database/migrations.go:170-178 | every literal that the scanner reads to its end lies whole inside one of the statements, overrun or not |
| SqlRoundTrip.LiteralsStayWhole | internal/database/migrations.go:170-178 | if dollar-quoted bodies are ASCII, every terminated literal of the intended grammar lies whole inside one of the statements |
| SqlRoundTrip.NextStable | internal/database/migrations.go:207-257 | a complete token is read the same whatever white space or semicolon follows it |
| SqlRoundTrip.JoinThenSplit | internal/database/migrations.go:179-275 | every list of trimmed, non-empty, closed, comment-free statements comes back unchanged from splitting its semicolon join; the last may hold an unterminated literal |
| SqlFixpoint.TrimKeepsReading | internal/database/migrations.go:261-273 | trimming a statement keeps it free of comments and separators, and keeps it closed, even at an unterminated literal |
| SqlFixpoint.StatementsAreSplittable | internal/database/migrations.go:179-275 | the statements of every comment-free script satisfy the conditions of the round trip |
| SqlFixpoint.SplitJoinSplit | internal/database/migrations.go:179-275 | on comment-free scripts, split, join and split again equals split |
| Migrations.Migrator.RunOne | internal/database/migrations.go:128-168 | one migration in a transaction, stopped at any operation: the new database and the outcome are those of the specification |
| Migrations.Migrator.Migrate | internal/database/migrations.go:88-126 | the loop over stored state computes the specified run for every stopping point |
| Migrations.MigrationIsAtomic | internal/database/migrations.go:128-168 | from the effect of the first k migrations, running the next leaves the database untouched or holds exactly the first k+1 |
| Migrations.LoopExtendsPrefix | internal/database/migrations.go:93-105 | the loop only ever extends the recorded prefix, and a loop that finishes has extended it to all migrations |
| Migrations.CrashSafety | internal/database/migrations.go:88-168 | after any sequence of runs, each stopped at any operation, recorded versions and database contents are those of one prefix of the list |
| Migrations.FreshHoldsNothing | internal/database/migrations.go:110-119 | a new database satisfies the invariant with the empty prefix |
| Migrations.CompletedRunIsFinal | internal/database/migrations.go:88-108 | after a completed run the database equals the fold of all scripts, and no later sequence of runs changes it |
| Migrations.RestartCompletes | internal/database/migrations.go:88-168 | from every state a crash can leave, a run that is not stopped again completes if the scripts succeed in order |
| Migrations.EveryScriptCountsIffDistinct | internal/database/migrations.go:93-100 | the fold is over every script if and only if no version occurs twice |
| MigrationRecords.StoppedRunsExecutePrefix | internal/database/migrations.go:88-168 | on a database that writes down what it executes, any runs stopped anywhere have executed exactly the statements of the first migrations, all, once and in order |
| MigrationRecords.CompletedRunExecutesAll | internal/database/migrations.go:88-168 | a completed run has executed exactly the statements of all migrations |
| MigrationRecords.FailingMigrationLeavesNothing | internal/database/migrations.go:149-153 | a migration with a statement that fails ends the run and leaves everything as it was |
| MigrationRecords.RunsName | internal/database/migrations.go:155-160 | every recorded version carries the name of a migration of that version |
| AuditEncoding.ComputeHash | internal/audit/domain/event.go:66-110 | the hasher is fed exactly the ten fields joined by bars, and fails exactly when metadata cannot be marshalled |
| AuditEncoding.HashedTextIs | internal/audit/domain/event.go:66-110 | the text that is hashed, field by field and bar by bar |
| AuditEncoding.EncodingDeterminesContent | internal/audit/domain/event.go:66-110 | for events without bars in the five free-text fields the encodings are equal if and only if the contents are, up to nil against empty and below a microsecond; metadata may hold bars, the event id is not covered |
| AuditEncoding.CleanEventIsUnmistakable | internal/audit/domain/event.go:66-110 | it is enough that one event holds no bars in its free-text fields: whatever the other holds, equal encodings mean equal content |
| AuditEncoding.EncodingDeterminesPrevious | internal/audit/domain/event.go:104-107 | the previous hash can be recovered from every encoding, bars or not |
| AuditEncoding.BarsMakeEncodingAmbiguous | internal/audit/domain/event.go:66-110 | every event with a bar in a free-text field shares its encoding with an event of different content |
| AuditChain.VerifyIntegrity | internal/audit/domain/event.go:112-118 | true exactly when the stored hash is the hash of the event |
| AuditChain.VerifyChain | internal/audit/domain/event.go:120-152 | counts failures with the reset after each failure; verified plus failed is the length; an error if and only if something failed |
| AuditChain.NoFailureIffIntact | internal/audit/domain/event.go:127-152 | nothing fails if and only if every event is present and self-consistent and every present link equals its predecessor's hash |
| AuditChain.ChainIffVerified | internal/audit/domain/event.go:127-152 | a rooted, fully linked log passes the verifier if and only if it is a chain |
| AuditChain.NewAuditEvent | internal/audit/domain/event.go:35-64 | the new event holds the given fields and hashes to its own hash; fails exactly when metadata cannot be marshalled |
| AuditChain.RecordingExtendsChain | internal/audit/domain/event.go:35-64 | appending an event that names the last hash of a chain as its predecessor keeps a chain a chain; which hash the recorder names is in `AuditOrder` |
| AuditChain.LastHashDeterminesLog | internal/audit/domain/event.go:66-152 | two chains that end in the same hash have the same length and the same encoding at every position |
| AuditChain.LastHashDeterminesContent | internal/audit/domain/event.go:66-152 | and the same content, where the free-text fields hold no bar |
| AuditChain.LastHashDeterminesCleanLog | internal/audit/domain/event.go:66-152 | every chain that ends in the last hash of a chain without bars has its length and contents, whatever bars it may hold itself |
| AuditChain.HashesAreDistinct | internal/audit/domain/event.go:127-152 | no two events of a chain share a hash |
| AuditChain.ChangedEventFailsAlone | internal/audit/domain/event.go:127-152 | changing the encoding of any one event without rehashing gives exactly one failure |
| AuditChain.DeletionNoticedIffInterior | internal/audit/domain/event.go:127-152 | deleting one event gives exactly one failure if it is interior and none if it is first or last |
| AuditChain.ReverseRows | internal/audit/infrastructure/maintenance.go:88-90 | the two-index swap loop reverses the array in place |
| AuditChain.VerifyOrganization | internal/audit/infrastructure/maintenance.go:72-101 | reversal in place, then verification: counts and error are those of the rows in the reversed order of their listing |
| AuditChain.NewestFirstVerifies | internal/audit/infrastructure/maintenance.go:72-101 | a chain whose listing is its reverse verifies in full; when the listing is that is in `AuditOrder` |
| AuditChain.VerifyAllOrganizations | internal/audit/infrastructure/maintenance.go:38-66 | an error exactly when the organizations cannot be listed or some organization fails, then with zero counts; otherwise the sum of all rows |
| AuditChain.RowsAddUp | internal/audit/infrastructure/maintenance.go:60-62 | the rows of organizations are counted together, those of each by their number |
| AuditChain.VerifyingAllCanFail | internal/audit/infrastructure/maintenance.go:45-66 | no list of organizations, and next to any sound ones an organization with one event that does not hash to itself, are inputs with an error |
| AuditOrder.AuditLog.WriteEvent | internal/audit/infrastructure/postgres/audit_repository.go:60-113 | the recorder links an event to the row the database lists first and hashes it; an honest log stays honest |
| AuditOrder.HonestLogVerifiesIff | internal/audit/infrastructure/postgres/audit_repository.go:60-177 | an honestly recorded log, listed latest first, verifies in full if every event came, in the order of time and identifier, after all recorded before it or before all others, and, where no two events share a hash, only if |
| AuditOrder.DifferentContentsDifferentHashes | internal/audit/domain/event.go:66-110 | in an honest log whose events hold no bars, events of different content have different hashes |
| AuditOrder.EqualHashesHideDisorder | internal/audit/infrastructure/postgres/audit_repository.go:60-177 | four honestly recorded events, two of one content within a microsecond, that verify although the last is out of order: where events share a hash the condition is not needed |
| AuditOrder.HonestLogCanFail | internal/audit/infrastructure/postgres/audit_repository.go:60-113 | three honestly recorded events whose log does not verify |
| AuditOrder.BackdatedEventCanPass | internal/audit/infrastructure/postgres/audit_repository.go:60-113 | two honestly recorded events whose times do not rise and whose log verifies |
| AuditOrder.RisingLogIsChain | internal/audit/infrastructure/postgres/audit_repository.go:60-113 | if times rise as events are recorded, the log is a chain |
| RateLimiter.Limiter.SetMaxEntries | internal/middleware/ratelimit.go:50-56 | only positive limits are taken |
| RateLimiter.Limiter.CheckRate | internal/middleware/ratelimit.go:77-101 | a request is served exactly when refill up to the burst leaves a token, which it takes; the new visitor map in full |
| RateLimiter.Limiter.Cleanup | internal/middleware/ratelimit.go:103-128 | keeps exactly the unexpired entries if they fit, else as many of them as fit, in any map order |
| RateLimiter.RunKeepsSane | internal/middleware/ratelimit.go:77-128 | in every run every bucket stays between nothing and the burst |
| RateLimiter.BucketBound | internal/middleware/ratelimit.go:77-101 | in every stretch from a to b in which a client is not deleted it is allowed at most burst + floor(limit * (b - a)) requests |
| RateLimiter.SteadyClientNeverRefused | internal/middleware/ratelimit.go:77-101 | a client whose every pause earns a token is never refused, cleanups and other clients included |
| RateLimiter.HastyClientGetsBurst | internal/middleware/ratelimit.go:88-94 | a client whose pauses each earn nothing gets at most the burst, however long the run |
| RateLimiter.ExpiryInvisibleIffRefilled | internal/middleware/ratelimit.go:103-111 | dropping expired entries changes no answer of any run if and only if an expired bucket would have been full |
| RateLimiter.EvictionNeverRefuses | internal/middleware/ratelimit.go:103-128 | deleting any entries at any time never turns an allowed request of any run into a refused one |
| RateTimes.RefillMirrors | internal/middleware/ratelimit.go:88-90 | when the clock has gone back, a client loses as many tokens as it would have gained |
| RateTimes.RefillIsPaid | internal/middleware/ratelimit.go:88-90 | the refill is the greatest number of tokens that pause times limit, in nanoseconds, pays for |
| RateTimes.LongPausesAreServed | internal/middleware/ratelimit.go:77-101 | a client whose every pause times the limit makes a second is never refused |
| RateTimes.ShortPausesGetBurst | internal/middleware/ratelimit.go:77-101 | a client whose every pause times the limit is short of a second gets at most the burst |
| RateTimes.RequestsArePaid | internal/middleware/ratelimit.go:77-101 | beyond the burst, every allowed request is paid for by the time that has passed, in nanoseconds |
| RateTimes.ExpiryInvisibleIffPaid | internal/middleware/ratelimit.go:103-111 | expiry is invisible if and only if the time to live and a nanosecond pay for the burst |
| RateTimes.NewClientGetsBurst | internal/middleware/ratelimit.go:81-99 | of any number of requests at once, a new client is served exactly its burst |
| RateTimes.CleanupKeeps | internal/middleware/ratelimit.go:103-111 | an entry is kept exactly up to the end of its time to live |
| LoginLockout.UserRateLimiter.RecordFailedAttempt | internal/middleware/ratelimit.go:196-219 | the new attempt map after a failure, for the normalized address |
| LoginLockout.UserRateLimiter.IsLocked | internal/middleware/ratelimit.go:221-242 | whether and for how long an address is locked |
| LoginLockout.UserRateLimiter.RecordSuccessfulAttempt | internal/middleware/ratelimit.go:244-250 | forgets the address and nothing else |
| LoginLockout.UserRateLimiter.Cleanup | internal/middleware/ratelimit.go:252-261 | drops exactly the stale entries |
| LoginLockout.CleanupInvisible | internal/middleware/ratelimit.go:196-261 | in every run the answers, remaining times included, are those of a limiter that never cleans up |
| LoginLockout.CounterMeansRun | internal/middleware/ratelimit.go:206-214 | the counter reaches m if and only if the last m failures lie within the window of one another |
| LoginLockout.LockMeansRun | internal/middleware/ratelimit.go:206-218 | the stored lock is in force if and only if some failure ended a long enough run and its lockout is not over |
| LoginLockout.LockedIffRunOfFailures | internal/middleware/ratelimit.go:196-261 | in every run an address is locked if and only if its failures since the last success say so, told from the history alone |
| LoginLockout.RemainingFromHistory | internal/middleware/ratelimit.go:221-242 | in every run the reported remaining time is that of the longest lockout of a run of failures, or the rest of the window, told from the history alone |
| LoginLockout.CleanupForgets | internal/middleware/ratelimit.go:252-261 | a cleanup forgets exactly the accounts out of window and lock |
| Idempotency.IdempotencyStore.Get | internal/middleware/idempotency.go:101-109 | finds a record exactly while it has not expired |
| Idempotency.IdempotencyStore.Set | internal/middleware/idempotency.go:111-115 | stores one record and changes nothing else |
| Idempotency.IdempotencyStore.Oldest | internal/middleware/idempotency.go:84-96 | the inner selection loop finds a record that is as old as any, in any map order and for any clock reading |
| Idempotency.IdempotencyStore.Cleanup | internal/middleware/idempotency.go:74-99 | keeps the newest unexpired records, exactly as many as fit: no dropped record is newer than a kept one |
| Idempotency.NewestAreUnique | internal/middleware/idempotency.go:80-98 | if no two records are of one age, what is kept is determined |
| Idempotency.CleanupInvisibleToGet | internal/middleware/idempotency.go:74-109 | if all unexpired records fit, no later lookup can tell that a cleanup took place |
| Idempotency.HandleRequest | internal/middleware/idempotency.go:117-160 | replay or execution under the digest of method, path, key and principal, and what the store holds afterwards |
| Idempotency.RecordOutputs | internal/middleware/idempotency.go:162-183 | the recording writer gathers the whole body and the last status |
| Idempotency.RecordedIsSentIff | internal/middleware/idempotency.go:162-183 | what is recorded is what was sent if and only if the last status written is the one that was sent |
| Idempotency.StoreHoldsLatest | internal/middleware/idempotency.go:101-154 | in every serial history the store holds the reply of the latest execution until that expires |
| Idempotency.OneExecutionPerEpoch | internal/middleware/idempotency.go:101-154 | in every serial history the handler does not run twice for a digest within the time to live, and every request in between gets the recorded status and body of that execution |
| Idempotency.KeyTextDeterminesRequest | internal/middleware/idempotency.go:156-160 | two cached requests that both have no colon in path and key share their text if and only if they are the same request |
| Idempotency.KeyTextIsOwnIff | internal/middleware/idempotency.go:156-160 | a cached request shares its text with no different cached request, of any kind, if and only if path and principal hold no colon and the key holds none or is a colon alone |
| Idempotency.ColonsMakeKeysAmbiguous | internal/middleware/idempotency.go:156-160 | every cached request outside that condition shares its text with a different cached request |
| Idempotency.ColonInPrincipal | internal/middleware/idempotency.go:156-160 | two different requests with one text, the first of which has no colon in path and key |
| Idempotency.OneExecutionPerRequest | internal/middleware/idempotency.go:101-160 | under an injective hash, once a request has run, the same request is answered from its record until the time to live has passed |
| Idempotency.ReplayIsOfSameRequest | internal/middleware/idempotency.go:101-160 | a replayed reply to a request with a text of its own is the unexpired record of an earlier execution of the same request, whatever else the history holds |
| IdempotentReplays.RepeatedRequestIsReplayed | internal/middleware/idempotency.go:117-146 | in a serial history a POST or PUT with a key that was executed is replayed to the same request until the time to live has passed |
| IdempotentReplays.OthersAreExecuted | internal/middleware/idempotency.go:120-129 | every other method, and every request without a key, is always executed and stores nothing |
| IdempotentReplays.ExpiredRequestRunsAgain | internal/middleware/idempotency.go:101-146 | when the time to live has passed since all earlier requests under its digest, a request is executed again |
| IdempotentReplays.RecordLives | internal/middleware/idempotency.go:101-109 | a record is found up to and at the end of its time to live |
| IdempotentReplays.ResponsesGrow | internal/middleware/idempotency.go:162-183 | what is recorded and what is sent, output by output |
| Submissions.ValidatePattern | internal/cases/application/service.go:1503-1516 | accepts exactly the texts that match, refuses when the pattern does not compile |
| Submissions.ValidateFieldValue | internal/cases/application/service.go:1345-1457 | accepts exactly the values that meet the declarative validity of their field type, bounds, formats and options |
| Submissions.ValidateSubmissionData | internal/cases/application/service.go:1316-1343 | accepts exactly the valid submissions; reports unknown fields exactly when there are any |
| SubmissionMeanings.EmptyAcceptedIff | internal/cases/application/service.go:1346-1352 | null and the empty text are accepted exactly by optional fields |
| SubmissionMeanings.TextAcceptedIff | internal/cases/application/service.go:1354-1381 | texts: exact bounds on bytes under either spelling, form of addresses and phone numbers, pattern |
| SubmissionMeanings.NumberAcceptedIff | internal/cases/application/service.go:1383-1393 | numbers: exactly those within the bounds under either spelling |
| SubmissionMeanings.OtherAcceptedIff | internal/cases/application/service.go:1395-1454 | dates, flags and choices; an unknown type accepts everything |
| SubmissionMeanings.SubmissionAcceptedIff | internal/cases/application/service.go:1316-1343 | keys are those of fields, and every field is optional or present and accepts its value |
| CaseStore.CheckRequiredForms | internal/cases/application/service.go:399-426 | reports exactly the missing versions of active required assignments; none if and only if the gate passes |
| CaseStore.GetWorkflowRequirements | internal/cases/application/service.go:1153-1314 | required, missing and submitted forms and the verdict, each exactly as declared |
| CaseMeanings.GatePassesIff | internal/cases/application/service.go:399-426 | the gate asks for a submission for every active required assignment of workflow and state, field by field |
| CaseMeanings.CanProceedIff | internal/cases/application/service.go:1185-1313 | the report asks for the same where the form is not archived and the version published |
| CaseReports.AgreeIffTidy | internal/cases/application/service.go:1185-1313 | gate and report agree on all cases and states, whatever is submitted, if and only if no active required assignment asks for an archived form or an unpublished version |
| CaseReports.ReportIsReliable | internal/cases/application/service.go:399-1313 | if no administrative change of a run leaves such an assignment, gate and report agree in every store of the run |
| CaseReports.DisagreementHasCause | internal/cases/application/service.go:399-1313 | before every store of a run in which they disagree, an administrative change left such an assignment |
| CaseStore.ReportCanDisagree | internal/cases/application/service.go:1185-1313 | a store in which report and gate disagree |
| CaseOperations.CaseService.CreateCase | internal/cases/application/service.go:198-292 | creation with retries, instance and synchronized status commits as specified or changes nothing; from a consistent store the step is safe |
| CaseOperations.CaseService.OnTransition | internal/cases/application/service.go:609-658 | the observer gates the state being left and writes the target to status and workflow state |
| CaseOperations.PlanTransition | internal/workflow/application/service.go:632-711 | the reads and checks before a transition find what the specification plans |
| CaseOperations.UpdateInstance | internal/workflow/application/service.go:742-753 | the two compare-and-set updates of the instance, in sequence |
| CaseOperations.FindTarget | internal/workflow/application/service.go:811-846 | the first active transition to a known state that leads to the wanted status |
| CaseOperations.CaseService.ExecuteTransition | internal/workflow/application/service.go:632-799 | the engine step with compare-and-set and observer commits as specified or changes nothing; from a consistent store the step is safe, whatever earlier stores were read |
| CaseOperations.CaseService.ChangeStatus | internal/cases/application/service.go:309-397 | the status change through the workflow commits as specified or changes nothing; from a consistent store the step is safe, whatever earlier stores were read |
| CaseOperations.CaseService.SubmitForm | internal/cases/application/service.go:796-929 | a submission commits as specified or changes nothing; from a consistent store the step is safe |
| CaseRuns.CreatedMirrorsIffNamed | internal/cases/domain/case.go:180-191 | a new case agrees with its instance if and only if the workflow names its initial state |
| CaseRuns.TransitionIsSafe | internal/workflow/application/service.go:632-799 | a transition planned on stale records is harmless: if it commits, the gate of the state really left has passed and all invariants hold |
| CaseRuns.SubmittingIsSafe | internal/cases/application/service.go:825-913 | a committed submission is the first for its case and version, for a published, unarchived form, and valid |
| CaseRuns.RunIsSafe | internal/cases/application/service.go:198-929 | in every run of creations, transitions, status changes, submissions and administration, with stale reads and rollbacks: status equals the instance's state, one submission per case and version, every departure gated at commit, every submission valid |
| CaseRuns.SubmissionHasStep | internal/cases/application/service.go:825-913 | every submission in the last store of a run was accepted by a step of the run |
| CaseMeanings.SubmissionCommitsIff | internal/cases/application/service.go:796-913 | a submission commits if and only if the version is actively assigned to workflow and state of the instance that was read, is published and unarchived, nothing was submitted for it, the data are valid for both reads of the fields, and nothing unmodelled fails |
| CaseMeanings.SubmissionAdds | internal/cases/application/service.go:870-913 | it adds one submission and changes nothing else |
| CaseMeanings.SubmissionWasAssigned | internal/cases/application/service.go:855-868 | every submission in the last store of a run was stored at a step at which its version was assigned to the state in which some earlier store had the case |
| CaseMeanings.CreationCommitsIff | internal/cases/application/service.go:198-292 | when a case is created, and the records it starts with |
| CaseMeanings.StaleStatusChangeCommitsIff | internal/cases/application/service.go:309-397 | from whatever records it reads, a status change commits if and only if the gate passes for the state read first, some transition out of the state listed is the first that leads to the status, whose target is known, and the engine takes it under its key |
| CaseMeanings.StatusChangeCommitsIff | internal/cases/application/service.go:309-397 | on current records, where a key names one transition, a status change commits if and only if the first transition to the status is open to the role, the state not terminal and the target known, the gate passes and nothing unmodelled fails |
| CaseMoves.PlannedIffOffered | internal/workflow/application/service.go:632-711 | what is planned is an active transition that the workflow offers from the current, non-terminal state under the key to the role; where a key names one transition, nothing is planned only if none is offered |
| CaseMoves.TransitionCommitsIff | internal/workflow/application/service.go:632-799 | on current records, where a key names one transition, a transition commits if and only if it is offered to the role, the gate passes and nothing unmodelled fails |
| CaseMoves.TransitionMovesAlong | internal/workflow/application/service.go:632-799 | a committed transition takes instance and case to its target, completes the instance and closes the case exactly at terminal states, counts both versions on, and touches no other case |
| CaseMoves.EveryStepIsLawful | internal/workflow/application/service.go:632-799 | in every run every change of state follows an active transition of the instance's workflow, and every client step concerns one case only |
| CaseMoves.ChangeReachesStatus | internal/cases/application/service.go:309-397 | a status change that commits reaches the status asked for, although the instance, its transitions and the transition taken come from three reads, if a key names one transition and the definition stays the same between the last two |
| WorkflowDrafts.ValidateWorkflowDraft | web/js/app.js:2250-2299 | reports exactly the problems of the draft, each with its declared meaning |
| WorkflowDrafts.ValidateWorkflowDefinition | internal/workflow/domain/workflow.go:243-323 | reports exactly the problems of the definition; problems of the head hide the others |
| WorkflowDrafts.ServerAcceptsIff | internal/workflow/domain/workflow.go:243-323 | the server accepts exactly the well-formed definitions whose descriptors differ |
| WorkflowDrafts.ClientAcceptsIff | web/js/app.js:2250-2299 | the client accepts exactly the drafts that are well-formed and presentable |
| WorkflowDrafts.ClientAgainstServer | web/js/app.js:2301-2347 | for every draft: accepted by the client with different descriptors if and only if its payload is accepted by the server and it is presentable |
| WorkflowDrafts.AcceptedTextsShow | web/js/app.js:2250-2276 | in an accepted draft every key and name holds a character that is no white space |
| WorkflowDrafts.PayloadKeepsTransitions | web/js/app.js:2322-2338 | every transition is sent as drafted, active unless it was switched off |
| WorkflowDrafts.DescriptorsDifferWithoutParentheses | internal/workflow/domain/workflow.go:297-301 | descriptors differ whenever no transition key holds a parenthesis |
| WorkflowDrafts.ServerCanRefuse | internal/workflow/domain/workflow.go:297-301 | a draft that the client accepts and the server refuses |
| WorkflowDrafts.AcceptedDefinitionIsSound | internal/workflow/domain/workflow.go:243-323 | an accepted definition gives the engine a named initial state, unique transition keys, known targets and no way out of terminal states: what the results about cases ask of definitions |
| ContextBuilder.EstimateValueTokens | internal/casecontext/domain/context.go:286-311 | the estimate of a value, whatever the order in which a map is visited |
| ContextBuilder.EntriesInAnyOrder | internal/casecontext/domain/context.go:286-311 | any entry of a map may be counted first |
| ContextBuilder.EstimateTokens | internal/casecontext/domain/context.go:264-284 | the estimate of a fact |
| ContextCosts.PlainValuesCost | internal/casecontext/domain/context.go:286-311 | a text costs a quarter of its bytes, nil one token, any other value ten |
| ContextCosts.ArraysCost | internal/casecontext/domain/context.go:286-311 | an array costs what its items cost |
| ContextCosts.ObjectsCost | internal/casecontext/domain/context.go:286-311 | an object costs what its keys and values cost |
| ContextCosts.ContextLoadIsPaid | internal/casecontext/domain/context.go:217-284 | the texts and keys of a context, but for up to three bytes of each, take at most four bytes per token of its estimate |
| ContextBuilder.Builder.constructor | internal/casecontext/domain/context.go:198-215 | limits that are not positive take their defaults |
| ContextBuilder.Builder.AddFact | internal/casecontext/domain/context.go:217-229 | takes a fact exactly when it fits both limits; the running counts equal those of the facts |
| ContextBuilder.PushTakesLongestPrefix | internal/casecontext/domain/context.go:217-229 | offering facts in order takes the longest prefix that fits: a prefix fits if and only if it is no longer |
| ContextPhases.BuildEvidenceFacts | internal/casecontext/application/service.go:284-352 | the evidence phase takes its eligible facts in order until one does not fit |
| ContextPhases.BuildDocumentFacts | internal/casecontext/application/service.go:354-417 | the document phase, across all evidence |
| ContextPhases.BuildRowFacts | internal/casecontext/application/service.go:419-522 | the phases over submissions, evaluations and decisions |
| ContextPhases.BuildWorkflowFacts | internal/casecontext/application/service.go:524-601 | the workflow phase: if the instance does not fit, the history is not offered |
| ContextPhases.BuildObservationFacts | internal/casecontext/application/service.go:674-742 | the observation phase, across all evidence |
| ContextPhases.BuildContext | internal/casecontext/application/service.go:91-160 | succeeds exactly when the case and person fit, some fact was found and saving works; then the estimate is the sum over the facts, within both limits, and there is at least one fact |
| ContextPhases.PhaseTakesLongestPrefix | internal/casecontext/application/service.go:284-742 | each list phase contributes exactly the longest prefix of its eligible facts that fits what earlier phases left |
| ContextPhases.VerifiedFactsAreBacked | internal/casecontext/application/service.go:284-742 | every fact marked as verified by a human comes from verified evidence, a document of it, or an accepted observation |
| ContextMeanings.EvidenceInOrder | internal/casecontext/application/service.go:303-350 | the evidence phase takes its rows one after the other |
| ContextMeanings.OneEvidence | internal/casecontext/application/service.go:303-345 | one piece of evidence is offered exactly if visible and verified or not asked to be, and marked by its status |
| ContextMeanings.DocumentRowsInOrder | internal/casecontext/application/service.go:364-416 | the document phase takes the documents of its evidence one after the other |
| ContextMeanings.OneDocument | internal/casecontext/application/service.go:364-416 | one document is offered exactly if visible, readable, and its evidence verified or not asked to be |
| ContextMeanings.ObservationRowsInOrder | internal/casecontext/application/service.go:684-740 | the observation phase takes the observations of evidence one after the other |
| ContextMeanings.OneObservation | internal/casecontext/application/service.go:684-740 | one observation is offered exactly if accepted or not asked to be |
| ContextMeanings.OneRow | internal/casecontext/application/service.go:419-522 | one row of another list is offered exactly if visible |
| ContextMeanings.HeadIs | internal/casecontext/application/service.go:192-282 | case and person, if asked for, readable and, for the person, visible |
| ContextMeanings.WorkflowIs | internal/casecontext/application/service.go:524-601 | the instance and every entry of the history, in order |
| ContextMeanings.LimitsAre | internal/casecontext/domain/context.go:198-206 | 8000 tokens and 200 facts unless positive limits are given |
| ContextMeanings.OnlyVerifiedIsKept | internal/casecontext/application/service.go:284-742 | with only verified evidence wanted, every collected fact of evidence or a document comes from verified evidence and is marked so; with only facts verified by a human wanted, every observation is |
| ContextAccess.CollectedFactsArePermitted | internal/casecontext/application/service.go:192-742 | whatever the budget, every fact but an observation was read from a row the actor may see, a document's from readable content; every observation too if hidden evidence has none that passes the filter |
| ContextAccess.ObservationsPermittedIff | internal/casecontext/application/service.go:674-742 | the offer of the observation phase is permitted if and only if evidence that the actor may not see has no observation that passes the filter |
| ContextAccess.PermittedUnderEveryBudgetIff | internal/casecontext/application/service.go:192-742 | the contexts of all budgets hold only permitted facts if and only if that guard holds |
| ContextAccess.UniformCheckerKeepsGuard | internal/casecontext/infrastructure/auth/checker.go:19-29 | under a checker that answers alike for a case and all its evidence the guard holds, and with it every fact of a context is permitted |
| ContextAccess.HiddenObservationIsCollected | internal/casecontext/application/service.go:674-742 | an input: the observation of evidence the actor may not see is collected as verified by a human |
| ContextOptions.AskingForVerifiedIff | internal/casecontext/application/service.go:284-310 | next to evidence, asking for verified evidence changes the offer of the evidence phase unless only verified evidence is wanted anyway or all visible evidence is verified, and only then |
| ContextOptions.DefaultOptionsDropUnverified | internal/casecontext/domain/context.go:105-122 | under the default options visible evidence that is not verified is not offered |
| Escaping.ChainIsSubstitution | web/js/app.js:37-61 | a chain of global replacements in which none rewrites an earlier one's text is one simultaneous substitution, for every string |
| Escaping.EscapeJSRoundTrip | web/js/app.js:47-61 | the escaped form of every string is the inside of one string literal in either quotes, whose value by section 12.9.4 of ECMA-262 is the string |
| Escaping.EscapeJSRemoves | web/js/app.js:47-61 | no markup character and no line break of any kind is left |
| Escaping.EscapesAre | web/js/app.js:47-61 | the escape of every character with a meaning, written out; every other unit stays |
| Escaping.EscapeHTMLRoundTrip | web/js/app.js:37-45 | decoding the entities of the escaped form gives back every string |
| Escaping.EscapeHTMLRemoves | web/js/app.js:37-45 | no angle bracket and no quote is left |
| Escaping.EntitiesAre | web/js/app.js:37-45 | the entity of every character with a meaning, written out; every other unit stays |
| HandlerAttributes.ArgumentIs | web/js/app.js:1326-1374 | read as markup up to the closing quote, with null characters replaced and entities decoded, then as a script: nothing arrives of a string with a double quote, and any other arrives with its null characters replaced |
| HandlerAttributes.ArgumentArrivesIff | web/js/app.js:1326-1374 | the argument of a handler is the string if and only if the string holds no double quote and no null character |
| HandlerAttributes.QuoteDoesNotArrive | web/js/app.js:1326-1374 | a string that does not arrive |

## Left out

- RateLimiter.Limiter.CheckRate: the refill is exact; rounding of the float product is not modelled, nor are trusted proxies
  and the extraction of addresses.
- Submissions.ValidateFieldValue: bounds are compared exactly, without rounding; number literals are converted before the
  model begins, and the texts of errors are left out.
- Overflow of 64-bit integers.
- LoadMigrations: reading, parsing and sorting files. The results about migrations hold for every list in any order.
- Migrations.Migrator.Migrate: the scripts cannot touch the table of applied versions themselves, and two runners at once
  are not modelled.
- Idempotency.OneExecutionPerEpoch: for serial histories without eviction by size; overlapping requests for one key can
  both run the handler, as nothing marks a request in flight.
- Idempotency.IdempotencyStore.Cleanup: the empty key, which the loop takes for no key; digests are never empty.
- Idempotency.HandleRequest: headers, of which the program replays the last value only, and informational statuses.
- CaseOperations.CaseService.CreateCase: only with an explicit workflow; the lookup by service type is not modelled, nor are
  titles, persons and case numbers; that a failed insert can abort the surrounding database transaction is not modelled.
- CaseOperations.CaseService.SubmitForm: that the form is assigned to the current state is claimed for the state read before
  the transaction, as in the program.
- CaseStore.CheckRequiredForms: repository errors other than a missing submission, which the program ignores.
- CaseRuns.RunIsSafe: administrators may store any definition with a named initial state; assignment of cases to users,
  the unused `SyncCaseStatus` and paging limits of repositories are not modelled.
- AuditChain.VerifyAllOrganizations: retention and background scheduling.
- AuditOrder.HonestLogVerifiesIff: which logs with two equal hashes verify although the condition fails; two events share
  a hash only with equal content and predecessor within a microsecond.
- ContextAccess.PermittedUnderEveryBudgetIff: workflow rows have no access check of their own, as in the program, and are
  permitted to everyone who may see the case.
- CaseOperations.PlanTransition: instance, definition, states and transitions are read from one earlier store, where the
  program reads them one after the other.
- LoginLockout: the fixed limits chosen at start-up and the combined status query.
- ContextPhases.BuildContext: the fields inside the values of facts, references, the record of authorizations, and the
  checks of actor and case before the phases; the list of evidence is read once, where the program reads it in three phases.
- Escaping.EscapeJSRoundTrip: template literals, where `${` is not escaped, and the octal and code point escapes of the
  decoder, which the escaper never produces.
- WorkflowDrafts.ValidateWorkflowDraft: versions that are not integers, and the wording of messages.
- Transport, tokens, configuration, repositories, AI providers, rendering and the rule-condition editor: input, output
  and user interface.
- Status methods of reviews, assistance requests and decisions: one-branch facts only.

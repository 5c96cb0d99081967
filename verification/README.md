# Niyam AI: a verified model of the backend's core protocols

This project models, in Dafny 4.11, the parts of the Niyam AI backend whose correctness depends on more
than one function, and proves what they keep over every input and every run:

- **Number honesty.** A narrator prints money with Indian digit grouping into prose; a scanner, a normaliser
  and a membership test read the numbers back. `IndianGrouping`, `NumberScanner`, `Validator`, `MockNarrator`
  and `NarratorService` prove that the guard fires on the template narrator's text only because of a blocker
  description (or a malformed period), and that nothing ever persisted is refused by the PDF renderer.
- **GSP sessions and pulls.** `GspConsent`, `GspLedger` and `GspPull` model the requests in flight, the session
  ledger, the bounded retry loop, the attempt row and the call log against an arbitrary script of vendor replies.
- **Limiters.** `RateLimit` is the sliding window over a Redis sorted set with key expiry; `Cooldown` is the
  INCR / EXPIRE / DECR / TTL counter under every interleaving of callers, and `CooldownHour` measures it against
  the clock; `OtpLockout` is the fixed-window failure counter with its lock marker. `Timeline` holds what they
  share about sequences of instants.
- **Filings.** `Filings` is the draft / approved / filed state machine with its audit trail; `Gstr1` is the
  GSTR-1 generator.
- **Ingestion.** `Canonical` is the invoice-number normaliser and the dedup tuple; `Money` is the conversion of
  rupees to paise in 28-digit decimal arithmetic; `Gstr2b` is the GSTR-2B parser.
- **Reminders.** `Calendar` is the due-date arithmetic; `Reminders` is the sweep of one firm.
- **Tokens.** `Tokens` is refresh-token rotation with a revocation set that forgets; `RefreshRace` lets the requests
  that present one token overlap.

Where the source updates state step by step the model is a class or a loop; each such method is proved equal to
a specification function, and the theorems are lemmas about that function over whole runs (`Run`, `Table`,
`Sweep`). Where the source interleaves (the cooldown, the refresh race), the model is a state machine over single Redis
commands.

Conventions. Strings are ASCII `seq<char>` (plus the rupee sign, the bullet and the dash of the templates).
Money is `int` paise. Each request is atomic, except the cooldown's and the refresh race's commands. Uncaught
vendor or database failures outside the modelled error types are not part of this model.

## Where the code and its documentation disagree

- `lockout.py` documents a cap of three reservations an hour. The counter bounds one life of its Redis key, not an
  hour, and not even that when a DECR lands after the key it belongs to has expired. Exactly: without a tick, the
  hour that ends now can come to hold more than three if and only if the reservations it already holds, with the
  stray DECRs landed or still owed, outnumber those of the open window (`CooldownHour.HourCapExactly`), and the
  open window itself can be granted a fourth if and only if there is such a DECR
  (`CooldownHour.WindowCapExactly`; `Cooldown.CapFailsAfterStrayDecr` is a schedule). If no key expires between a
  caller's INCR and its DECR, a key grants at most three (`Cooldown.AtMostThreePerWindow`) and any hour holds at
  most five (`CooldownHour.AtMostFivePerHour`), which are reached (`CooldownHour.FiveAreReached`).
- `lockout.py` documents five wrong guesses per 15 minutes. The counter's window is fixed, not sliding, and a right
  guess deletes it. Exactly: at an unlocked instant, the last 15 minutes can come to hold more than five judged
  wrong guesses if and only if they already hold more than the live counter counts
  (`OtpLockout.FiveExceededExactly`). Since the last success they never hold more than eight
  (`OtpLockout.AtMostEightGuesses`), which are reached (`OtpLockout.EightAreReached`); across successes there is no
  bound (`OtpLockout.SuccessesLiftTheBound`).
- `_maybe_send_admin_whatsapp` documents one WhatsApp per threshold; the row is keyed by the email recipient, so
  a threshold sends at most one if and only if it has at most one new recipient whose email gets through
  (`Reminders.TaskWhatsapps`, `Reminders.TwoRecipientsTwoWhatsapps`).
- `refresh` documents that a password change invalidates every outstanding refresh token. It compares whole
  seconds, so exactly the tokens issued in the second of the change survive (`Tokens.SameSecondSurvives`,
  `Tokens.TokenOutlivesPasswordChange`).
- The validator's notes say that a token which does not tokenise cleanly is rejected; a match is dropped if and only
  if it holds a decimal point (`NumberScanner.EmitExactly`), so a decimal states any value unchecked
  (`Validator.DecimalsAreIgnored`).
- `pull_period` leaves `next_retry_at` standing on a failed row (`GspPull.FinalRowIs`).
- `content_hash` joins its fields with `|` without escaping. With bar-free profile ids the hashed texts are equal if
  and only if profile, date and total agree and so do counterparty and number joined by a bar
  (`Canonical.HashPairExactly`). An invoice has a different partner with the same hash if and only if that joined
  text can be cut at another bar with a normal form to its right (`Canonical.CollidesExactly`,
  `Canonical.BarsCollide`); bar-free GSTINs rule that out (`Canonical.HashInputExactly`).
- `gstr2b_parser.py` handles a bad amount as a reject, catching `ValueError`. Python's decimals raise
  `InvalidOperation` instead on the amount `NaN`, on positive infinity and from 99999999999999999999999999.995 rupees
  up (`Money.RaisesExactly`), and nothing catches that: a single invoice with `"val": "NaN"` ends the parse with no
  entry and no reject (`Gstr2b.NanPoisons`). The parse aborts if and only if some document that is otherwise complete
  meets such an amount before any refusable one, column by column and item by item (`Gstr2b.ParseGstr2b`,
  `Gstr2b.AbortsExactly`); on every other input nothing is lost (`Gstr2b.SectionConserves`).
- `rupees_to_paise` documents HALF_UP rounding. Amounts of up to 28 digits become their nearest paisa; longer ones are
  rounded twice, stay within one paisa, and can miss the nearest (`Money.PaiseIsNearest`, `Money.TwoRoundingsMiss`).
- `refresh` promises single use. Its EXISTS and SET are separate: while the token lasts it can come to yield two pairs
  if and only if no SET has landed yet or two requests already got past the check (`RefreshRace.TwoPairsExactly`);
  requests that do not overlap there, and do not straddle the expiry, share one pair (`RefreshRace.SingleUse`), while two that straddle it can each get one
  (`RefreshRace.TwoPairsAcrossExpiry`).
- An in-flight consent request is documented to live 15 minutes. Only an initiate collects it, so it lives until it
  is confirmed or an initiate finds it older than that (`GspConsent.InFlightExactly`).
- `_derive_tax_rate_pct` recovers every slab if and only if the taxable value is at least 10,000 paise (20,000 for
  two heads); below that two neighbouring slabs have the same rounded tax (`Gstr1.SingleHeadExactly`,
  `Gstr1.TwoHeadExactly`). A given slab is recovered if and only if its rounded tax is within half a hundredth of a
  percent of it (`Gstr1.SingleSlabExactly`, `Gstr1.DoubleSlabExactly`); 0.25% is lost on 98 rupees
  (`Gstr1.QuarterSlabLost`).

## Model

| member | source | states |
|---|---|---|
| IndianGrouping.IndianGrouped | backend/app/narrator/validator.py:79-97 | the string-accumulator loop computes the one grouping specification, sign kept, short numbers untouched |
| IndianGrouping.GroupByReversedParts | backend/app/narrator/mock_adapter.py:31-41 | the append-then-reverse loop (the same in the PDF renderer and the chase template) computes the same grouping |
| IndianGrouping.GroupByUnshift | frontend/lib/format.ts:90-101 | the unshift loop computes the same grouping |
| IndianGrouping.RemoveGroup | backend/app/narrator/validator.py:122-126 | deleting the commas of a grouped numeral gives the numeral back, at every length |
| IndianGrouping.GroupShape | frontend/lib/format.ts:81-89 | counted from the right, commas stand at positions 3, 6, 9 and so on and nowhere else |
| IndianGrouping.RupeesOfIsNearest | backend/app/narrator/validator.py:70-76 | the printed rupees are the nearest whole rupee, the tie upward |
| IndianGrouping.FormatRupees | backend/app/narrator/mock_adapter.py:23-43 | the printed amount is sign, rupee symbol and grouped nearest rupees, zero included |
| IndianGrouping.ReadRupeesText | backend/app/narrator/mock_adapter.py:23-43 | a printed amount reads back as its nearest whole rupees, sign included |
| IndianGrouping.NumberReads | frontend/lib/format.ts:65-73 | integers are accepted at their own value and fractions refused |
| IndianGrouping.TextReads | frontend/lib/format.ts:74-78 | a text of digits with an optional minus, padded with blanks, is accepted at its value |
| IndianGrouping.OnlyThatTextReads | frontend/lib/format.ts:74-78 | and no other text is |
| IndianGrouping.FormatPaise | frontend/lib/format.ts:35-44 | accepts integers of any size and integer strings, rejects fractions and other text, formats every accepted amount exactly |
| IndianGrouping.ReadPaiseText | frontend/lib/format.ts:24-44 | an explicit reader inverts the formatter on every amount |
| IndianGrouping.FormatPaiseInjective | frontend/lib/format.ts:24-44 | two amounts display alike exactly when they are equal |
| NumberScanner.MatchIsLongest | backend/app/narrator/validator.py:44-47 | the greedy match is in the language of the regular expression and no longer prefix is |
| NumberScanner.NormaliseMatch | backend/app/narrator/validator.py:58-67 | on a match, normalisation deletes the commas and has nothing else to strip |
| NumberScanner.EmitExactly | backend/app/narrator/validator.py:166-173 | a match contributes no token exactly when it holds a decimal point, and otherwise one numeral, commas deleted |
| NumberScanner.ExtractNumberTokens | backend/app/narrator/validator.py:162-174 | the loop returns exactly the scanner's token list |
| NumberScanner.TokensAreNumerals | backend/app/narrator/validator.py:162-174 | every token is a plain numeral, no sign and no comma |
| NumberScanner.TokensConcat | backend/app/narrator/validator.py:47-47 | scanning distributes over a seam whose right side cannot extend a number, a swallowed comma included |
| NumberScanner.TokensAfterSeparator | backend/app/narrator/validator.py:47-47 | scanning distributes over a seam whose left side ends outside any number |
| NumberScanner.TokensOfRupees | backend/app/narrator/mock_adapter.py:23-43 | a printed amount of either sign reads back as the one token of its rupee value |
| Validator.BuildAllowedForms | backend/app/narrator/validator.py:100-159 | the grown set holds exactly the allowed forms: small numbers, money, counts, the year |
| Validator.TokenAllowedExactly | backend/app/narrator/validator.py:100-159 | a token is allowed exactly when it is canonical and its value is 0 to 100, one of the three counts, or the paise or rounded rupees of one of the nine money facts or of a blocker, or it is the period's first four characters |
| Validator.NegativeForms | backend/app/narrator/validator.py:110-143 | the signed forms in the set: up to a hundred, and the negative facts and counts |
| Validator.FindHallucinated | backend/app/narrator/validator.py:177-194 | returns exactly the set of disallowed tokens, in order of appearance, no two neighbours equal |
| Validator.ValidateOutputBlocks | backend/app/narrator/validator.py:197-217 | accepts exactly when every token of every block is allowed; otherwise reports exactly the block and token pairs that are not |
| Validator.AcceptedNumbersAreFacts | backend/app/narrator/validator.py:3-13 | an accepted text states no whole number outside the fact sheet |
| Validator.DecimalsAreIgnored | backend/app/narrator/validator.py:168-174 | a decimal of any value, between two texts, never changes the verdict |
| MockNarrator.Narrate | backend/app/narrator/mock_adapter.py:46-137 | the adapter returns the four templates, and each block states exactly its own facts' numbers, in order |
| MockNarrator.HealthStates | backend/app/narrator/mock_adapter.py:49-53 | the numbers of the label, then sales, purchases and margin |
| MockNarrator.DueLineStates | backend/app/narrator/mock_adapter.py:55-62 | days left before the return's name, or days past after it |
| MockNarrator.TaxPositionStates | backend/app/narrator/mock_adapter.py:63-68 | tax paid, tax due, the score out of 100, then the due line's numbers |
| MockNarrator.BulletStates | backend/app/narrator/mock_adapter.py:70-76 | the description's numbers, then the impact |
| MockNarrator.AttentionStates | backend/app/narrator/mock_adapter.py:70-81 | the numbers of the first three blockers in order |
| MockNarrator.AskYourCaStates | backend/app/narrator/mock_adapter.py:83-89 | the number of defaulting suppliers and the credit at risk, when there are any |
| MockNarrator.MockStates | backend/app/narrator/mock_adapter.py:109-137 | in every language the four blocks state exactly those numbers |
| MockNarrator.LabelReads | backend/app/narrator/mock_adapter.py:94-106 | year and month read as the month's name and the year, anything else as it is |
| MockNarrator.OwnersAreNamed | backend/app/narrator/mock_adapter.py:73-76 | the bullet names who has to act |
| MockNarrator.MockPassesExactly | backend/app/narrator/mock_adapter.py:3-6 | for all facts and languages the mock output passes exactly when the period label and the printed descriptions pass on their own |
| MockNarrator.MockNeverHallucinates | backend/app/narrator/mock_adapter.py:3-6 | on a well-formed period only a printed blocker description can make the guard fire |
| MockNarrator.WellFormedLabelAccepted | backend/app/narrator/mock_adapter.py:94-106 | a well-formed period's label is honest |
| NarratorService.FactsRoundTrip | backend/app/pdf/service.py:43-75 | reloading persisted facts gives the same facts, zeros and empty strings included |
| NarratorService.RowRenders | backend/app/pdf/service.py:116-133 | a row holding validated output passes the render-time check |
| NarratorService.EveryPersistedNarrationRenders | backend/app/pdf/service.py:89-96 | after any history of requests no persisted row is refused by the renderer |
| NarratorService.OutcomeExactly | backend/app/narrator/service.py:231-253 | for every pair of replies: the plain answer if honest, else the strict one if that is, failure of the adapter, or two dishonest answers reported; and the number of calls |
| NarratorService.NoCallWithoutFacts | backend/app/narrator/service.py:221-229 | a disabled narrator and a missing fact sheet end a request before any call |
| NarratorService.RowIs | backend/app/narrator/service.py:98-203 | the persisted row's columns, and that it reloads to the request's facts and the output's blocks under their names |
| NarratorService.MockRequestOutcome | backend/app/narrator/service.py:231-253 | with the mock adapter a request succeeds in one call exactly when label and descriptions are clean, and fails after two otherwise |
| NarratorService.Service.NarrateForPeriod | backend/app/narrator/service.py:205-265 | outcome, number of adapter calls (at most two), the one appended row and audit entry, and nothing on failure |
| NarratorService.Service.RenderNarration | backend/app/pdf/service.py:82-133 | unavailable, refused or rendered exactly by the persisted text, never refused on an honest table |
| RateLimit.RateLimiter.Check | backend/app/auth/rate_limit.py:60-95 | the verdict, the retry time and the whole new store of one check |
| RateLimit.LiveIsWindow | backend/app/auth/rate_limit.py:73-76 | what a check counts is exactly the admissions inside the window: trimming and key expiry drop none |
| RateLimit.SlotStepKeeps | backend/app/auth/rate_limit.py:73-95 | a check at a later time keeps the tracking invariant, whether it admits or denies |
| RateLimit.WindowBound | backend/app/auth/rate_limit.py:3-7 | in every run no half-open window of the policy's length holds more than max_hits admissions of a key |
| RateLimit.NamedBounds | backend/app/auth/rate_limit.py:42-52 | the five policies' bounds in every run, by name and number |
| RateLimit.SharedBucketExactly | backend/app/auth/rate_limit.py:55-57 | identifiers share a bucket exactly when they differ in letter case only |
| RateLimit.DeniedExactlyWhenFull | backend/app/auth/rate_limit.py:78-86 | a check is denied exactly when max_hits admissions lie in the window ending now |
| RateLimit.RetryAfterIsExact | backend/app/auth/rate_limit.py:79-86 | retry_after is between 1 and window_s + 1, waiting that long admits, and it over-waits by at most a second |
| Cooldown.NextKeepsInv | backend/app/gsp/lockout.py:92-114 | every single command of every caller keeps counter = grants - strays + pending roll-backs |
| Cooldown.CallersAdvance | backend/app/gsp/lockout.py:103-114 | each command moves its own caller one step on along the source's path, and no other caller |
| Cooldown.GrantBound | backend/app/gsp/lockout.py:92-114 | under every interleaving a window grants at most three plus the stray DECRs that landed in it |
| Cooldown.RefusedOnlyWhenFull | backend/app/gsp/lockout.py:106-113 | a caller over-increments only when its window already granted three |
| Cooldown.QuiescentCount | backend/app/gsp/lockout.py:106-113 | with no roll-back pending the counter is the grants less the strays |
| Cooldown.AtMostThreePerWindow | backend/app/gsp/lockout.py:92-114 | if no window closes between a caller's INCR and DECR, at most three grants in one life of the key, and the settled counter equals them |
| CooldownHour.FillsUp | backend/app/gsp/lockout.py:98-114 | from every reachable state the open window can be brought to exactly three grants plus the stray DECRs landed or owed, and no further |
| CooldownHour.WindowCapExactly | backend/app/gsp/lockout.py:98-114 | the open window can be granted a fourth exactly when a DECR of an earlier window has landed in it or is owed |
| CooldownHour.HourCapExactly | backend/app/gsp/lockout.py:64-75 | the hour ending now can come to exceed three exactly when it holds, with the stray DECRs, more than the open window has counted |
| CooldownHour.AtMostFivePerHour | backend/app/gsp/lockout.py:64-75 | if no window closes between a caller's INCR and DECR, no half-open hour holds more than five |
| CooldownHour.FiveAreReached | backend/app/gsp/lockout.py:98-114 | a concrete schedule without stray DECRs in which an hour holds five |
| Cooldown.CapFailsAfterStrayDecr | backend/app/gsp/lockout.py:107-111 | a concrete schedule in which a window grants four |
| Cooldown.BlockLiftsWithinAnHour | backend/app/gsp/lockout.py:104-113 | a refused caller is told between 1 and 3600 seconds, and a settled positive counter expires within the hour |
| Cooldown.Store.TryReserveInitiate | backend/app/gsp/lockout.py:92-114 | alone, a caller is reserved exactly below three, the window starts with the first, and a refusal changes nothing |
| OtpLockout.Lockout.Record | backend/app/gsp/lockout.py:45-52 | one failure: count, window start, and the lock from the fifth on |
| OtpLockout.StepKeeps | backend/app/gsp/lockout.py:41-56 | every confirm keeps: the counter counts the batch its first failure opened, the lock outlives it, and at most three earlier failures still matter |
| OtpLockout.AtMostEightGuesses | backend/app/gsp/lockout.py:3-12 | in every run, since the last success no half-open window of 900 seconds holds more than eight judged wrong guesses |
| OtpLockout.AtMostEightWithoutSuccess | backend/app/gsp/lockout.py:41-52 | in a run without a success no half-open window of 900 seconds holds more than eight |
| OtpLockout.FiveExceededExactly | backend/app/gsp/lockout.py:8-9 | at an unlocked instant the last 15 minutes can come to exceed five judged wrong guesses exactly when they hold more than the live counter counts |
| OtpLockout.FailuresAreLatest | backend/app/gsp/lockout.py:55-56 | what the counters remember is the tail of all judged guesses, all of it when there was no success |
| OtpLockout.SuccessesLiftTheBound | backend/app/gsp/lockout.py:55-56 | four wrong and one right guess, any number of times at one instant, are all judged |
| OtpLockout.EightAreReached | backend/app/gsp/lockout.py:45-52 | a concrete run in which such a window holds eight |
| OtpLockout.LockHoldsForAWindow | backend/app/gsp/lockout.py:41-52 | after the fifth counted failure every confirm of the next 900 seconds is refused unjudged, and then the counter is fresh |
| GspLedger.ConfirmIs | backend/app/gsp/service.py:409-478 | a confirm never violates the live-row index, makes its profile live, and audits a reconnect exactly when a live row existed |
| GspLedger.RunInv | backend/alembic/versions/0007_gsp_session_and_call_log.py:78-86 | in every run at most one live session per profile, live exactly when the last session action replayed is a connect or reconnect |
| GspLedger.RowsOnlyGetRevoked | backend/app/gsp/service.py:505-512 | over any continuation a row changes only by being revoked, and a revoked row never changes |
| GspLedger.StepLiveness | backend/app/gsp/service.py:494-599 | a profile is live after an operation exactly when it was confirmed, or was live and was not cut or marked dead |
| GspLedger.DeadStaysDead | backend/app/gsp/service.py:613-651 | a cut or dead session is not offered at any later time until a new confirm of its profile |
| GspLedger.LoadLiveExactly | backend/app/gsp/service.py:613-651 | a session is offered exactly while a row of the profile is unrevoked and unexpired, and it is such a row |
| GspLedger.ConfirmedIsOffered | backend/app/gsp/service.py:409-478 | a confirmed session is offered until its own expiry |
| GspLedger.RevokedBecause | backend/app/gsp/service.py:424-599 | the reason each operation revokes a row with |
| GspLedger.AuditedAs | backend/app/gsp/service.py:465-599 | what each operation writes to the audit trail |
| GspLedger.ConsentAfter | backend/app/gsp/service.py:441-599 | which operations log a grant and which its end |
| GspLedger.LiveHasConsent | backend/app/gsp/service.py:441-599 | in every run a live session's last consent entry is a grant |
| GspPull.CallsExactly | backend/app/gsp/retry.py:85-131 | outages and rate limits are retried within the limit; a payload, any other error or the last attempt is the last call |
| GspPull.WaitsExactly | backend/app/gsp/retry.py:69-82 | the gap between two calls: positive header or default after a rate limit, the attempt's backoff entry after an outage |
| GspPull.SucceedsExactly | backend/app/gsp/retry.py:85-131 | a pull succeeds exactly when a call within the limit returned a payload after outages and rate limits only |
| GspPull.PullKillsExactly | backend/app/gsp/service.py:816-844 | a pull ends its session exactly on an expired session or revoked consent, audited apart |
| GspPull.LockoutAfterExactly | backend/app/gsp/service.py:334-398 | which replies count against the pair, which forget its failures, and which do neither |
| GspPull.RowAtIs | backend/app/gsp/service.py:767-778 | while retrying the row is retry_scheduled, counts the attempt to come, names the last error, and holds the true time of the next call |
| GspPull.FinalRowIs | backend/app/gsp/service.py:816-869 | the final row: status by the decisive call, count = calls made, last error kind, retry time cleared on success only |
| GspPull.LoggedCalls | backend/app/gsp/service.py:780-810 | the call-log rows number the attempt count, and at most the last is a success |
| GspPull.NoCallOnDeadSession | backend/app/gsp/service.py:816-822 | after the vendor declares a session dead no later pull uses it without a new confirm |
| GspPull.Service.PullPeriod | backend/app/gsp/service.py:716-875 | for every script: result, attempt row, call log, ledger, stored pull and clock; no other attempt row touched; none left unfinished |
| GspPull.Service.RunWithRetry | backend/app/gsp/retry.py:89-131 | the loop stops at the decisive call, having logged every call and rewritten only its own row |
| GspConsent.ConfirmedOnce | backend/app/gsp/service.py:310-318 | a request that was confirmed is never confirmed again, whoever tries |
| GspConsent.ConfirmedByStarter | backend/app/gsp/service.py:314-318 | only the user who started a request confirms it, and only after its initiate |
| GspConsent.InFlightExactly | backend/app/gsp/service.py:139-147 | a request is in flight exactly until it is confirmed or an initiate finds it older than 15 minutes |
| GspPull.Service.InitiateConsent | backend/app/gsp/service.py:223-295 | sweep first, then membership, cooldown and vendor in that order; the call log of each outcome; a fresh id in flight only on success |
| GspPull.Service.ConfirmConsent | backend/app/gsp/service.py:298-482 | who may confirm, the lockout before the vendor is asked, what each reply does to the ledger, the call log, the request, the pair's lockout and its audit |
| GspPull.Service.CutOff | backend/app/gsp/service.py:485-542 | a disconnect revokes the live row and audits it, for a profile of the firm only |
| Filings.Service.DoTransition | backend/app/filings/service.py:48-84 | the whitelist decides; status and audit row change together or nothing does |
| Filings.Service.GenerateFiling | backend/app/filings/service.py:100-205 | inserts or overwrites the one draft row of its key, and is locked otherwise |
| Filings.TransitionExactly | backend/app/filings/service.py:39-97 | approve takes a draft, unlock and mark-filed an approved row; each changes that status alone under its own audit name, and is refused on anything else |
| Filings.GenerateExactly | backend/app/filings/service.py:121-205 | a new key opens a draft, a draft's payload is rewritten, a later row is locked; no other row changes |
| Filings.StepOnRow | backend/app/filings/service.py:39-45 | a payload changes only on a draft, and a status only along the whitelist |
| Filings.RunUnique | backend/alembic/versions/0012_filing_run.py:55-55 | one row per gstin, period and return type in every run |
| Filings.FiledIsAbsorbing | backend/app/filings/service.py:39-45 | a filed row is the same row after every continuation |
| Filings.FiledIsWhatWasApproved | backend/app/filings/service.py:48-97 | an approved or filed row carries the payload it had when last approved, and left neither status nor payload since |
| Filings.AuditReplaysTable | backend/app/filings/service.py:74-82 | folding the audit trail gives every row's status and which rows exist |
| Filings.RegenerateExactlyWhileDraft | backend/app/filings/service.py:133-137 | regeneration succeeds exactly while the row is a draft, and a locked one changes nothing |
| Gstr1.SingleHeadExactly | backend/app/filings/gstr1_generator.py:49-73 | every inter-state slab is recovered exactly when the taxable value is at least 10,000 paise |
| Gstr1.SingleSlabExactly | backend/app/filings/gstr1_generator.py:49-73 | a given slab comes back from a given inter-state invoice exactly when its rounded tax is within half a step of it |
| Gstr1.DoubleSlabExactly | backend/app/filings/gstr1_generator.py:49-73 | the same with the tax in two rounded heads |
| Gstr1.QuarterSlabLost | backend/app/filings/gstr1_generator.py:49-73 | the 0.25% slab is lost on a 98-rupee invoice |
| Gstr1.SingleHeadRecovery | backend/app/filings/gstr1_generator.py:49-73 | the error bound on an inter-state slab at every taxable value |
| Gstr1.TwoHeadExactly | backend/app/filings/gstr1_generator.py:49-73 | every intra-state slab is recovered exactly when the taxable value is at least 20,000 paise |
| Gstr1.TwoHeadRecovery | backend/app/filings/gstr1_generator.py:49-73 | the error bound on an intra-state slab at every taxable value |
| Gstr1.NeighboursShare | backend/app/filings/gstr1_generator.py:49-73 | below those values two neighbouring slabs round to the same tax |
| Gstr1.RupeesRoundTrip | backend/app/filings/gstr1_generator.py:34-46 | paise can be rendered exactly up to 28 digits, and reading the rendered rupees back is the identity, negatives refused |
| Gstr1.GroupRows | backend/app/filings/gstr1_generator.py:130-137 | the dictionary holds each counterparty once with exactly its rows in source order; the turnover is the total |
| Gstr1.GenerateGstr1 | backend/app/filings/gstr1_generator.py:91-202 | strictly increasing counterparties, exactly those that occur, each with its own lines in order; every money column conserved; fails exactly on a counterparty without a state code |
| Gstr1.B2bConserves | backend/app/filings/gstr1_generator.py:130-176 | every b2b row appears exactly once and no other row |
| Gstr1.B2bMoney | backend/app/filings/gstr1_generator.py:130-184 | value, taxable value and each tax add up over the filed lines to the rows with a counterparty, and the turnover is the filed value plus the B2C value left out |
| Gstr1.LineIs | backend/app/filings/gstr1_generator.py:140-166 | a line carries its row's number, readable day, month and year, state code and money column by column, and a rate tied to its own tax and value |
| Gstr1.LessExactly | backend/app/filings/gstr1_generator.py:175-176 | the section's order is that of the first differing characters |
| Canonical.NormalizeInvoiceNumber | backend/app/ingestion/canonical.py:40-76 | the nested loops print the runs of the cleaned text, "0" when empty |
| Canonical.SameInvoiceExactly | backend/app/ingestion/canonical.py:40-56 | two numbers normalise alike exactly when their letter and number runs agree, for all inputs |
| Canonical.CleanOfChar | backend/app/ingestion/canonical.py:37-47 | what cleaning does to each character: whitespace, dash, slash and dot go, lower case turns upper, the rest stays |
| Canonical.CleanConcat | backend/app/ingestion/canonical.py:60-61 | cleaning is a homomorphism |
| Canonical.StripIs | backend/app/ingestion/canonical.py:61-61 | stripping takes whitespace off both ends, all of it and nothing else |
| Canonical.NormIdempotent | backend/app/ingestion/canonical.py:40-76 | normalising twice changes nothing |
| Canonical.NormIgnoresSeparator | backend/app/ingestion/canonical.py:46-47 | a separator inserted anywhere changes nothing |
| Canonical.NormIgnoresCase | backend/app/ingestion/canonical.py:41-47 | letter case changes nothing |
| Canonical.NormIgnoresPadding | backend/app/ingestion/canonical.py:48-56 | zero-padding any digit run changes nothing |
| Canonical.HashPairExactly | backend/app/ingestion/canonical.py:139-160 | with bar-free profile ids the hashed texts are equal exactly when profile, date, total and the joined counterparty and number agree |
| Canonical.CollidesExactly | backend/app/ingestion/canonical.py:152-160 | an invoice shares its hash with a different one exactly when its joined counterparty and number can be cut at another bar before a normal form |
| Canonical.HashInputExactly | backend/app/ingestion/canonical.py:139-160 | with bar-free profile ids and GSTINs two invoices share a dedup tuple exactly when the five normalised fields agree |
| Canonical.BarsCollide | backend/app/ingestion/canonical.py:152-160 | two different invoices with the same joined text when a counterparty holds a bar |
| Money.PaiseIsNearest | backend/app/ingestion/canonical.py:79-94 | an amount of at most 28 digits becomes its nearest paisa, ties upward; a longer one stays within one paisa |
| Money.TwoRoundingsMiss | backend/app/ingestion/canonical.py:93-94 | an amount of 29 digits that becomes a paisa although zero is nearer |
| Money.TiesGo | backend/app/ingestion/canonical.py:93-94 | half-up ties go away from zero on either side, half-even ties to the even neighbour |
| Money.TooWideExactly | backend/app/ingestion/canonical.py:93-94 | the quantization is too wide exactly from half a paisa below 10^28 paise, the 28-digit product notwithstanding |
| Money.RaisesExactly | backend/app/ingestion/canonical.py:85-94 | which amounts raise InvalidOperation and which ValueError, both directions |
| Gstr2b.SumRounding | backend/app/ingestion/gstr2b_parser.py:292-314 | a summed column is within half a paisa per item of the exact rupee sum when no amount has more than 28 digits, and within a paisa per item always |
| Gstr2b.SumFailsExactly | backend/app/ingestion/gstr2b_parser.py:292-314 | a breakdown is refused exactly when a refusable amount comes before any that raises, and raises exactly the other way round, in column then item order |
| Gstr2b.EntryIs | backend/app/ingestion/gstr2b_parser.py:171-280 | what an entry says of its document: identity, heads, the credit flag, credit or debit note by its letter, the IMS texts |
| Gstr2b.HeadsAre | backend/app/ingestion/gstr2b_parser.py:292-314 | each head is the sum of its own column over the items, or over the document's own amounts without items |
| Gstr2b.SourceIs | backend/app/ingestion/gstr2b_parser.py:301-314 | which amount of an item each column takes |
| Gstr2b.RefusalExactly | backend/app/ingestion/gstr2b_parser.py:128-262 | why a document is refused, and when it is not |
| Gstr2b.AllDocsAre | backend/app/ingestion/gstr2b_parser.py:115-131 | the documents parsed are those of the well-formed blocks, under the GSTIN in upper case |
| Gstr2b.SchemaRejects | backend/app/ingestion/gstr2b_parser.py:115-127 | a schema reject for each malformed block under its index, and for no other |
| Gstr2b.RefusalRows | backend/app/ingestion/gstr2b_parser.py:128-170 | a refusal is reported under its own reason and position |
| Gstr2b.AbortsExactly | backend/app/ingestion/gstr2b_parser.py:128-169 | a document aborts the parse exactly when it is complete and its amounts raise first |
| Gstr2b.NanPoisons | backend/app/ingestion/gstr2b_parser.py:157-169 | an otherwise complete invoice with the value NaN aborts the parse |
| Gstr2b.NothingLost | backend/app/ingestion/gstr2b_parser.py:129-196 | entries and refusals number the documents exactly when none aborts, and every entry is some document's |
| Gstr2b.SectionConserves | backend/app/ingestion/gstr2b_parser.py:116-196 | in a section without a poisoning document, entries and rejects number the documents and the malformed blocks |
| Gstr2b.NoteTypes | backend/app/ingestion/gstr2b_parser.py:169-280 | an entry carries a note type exactly when it comes from the notes section |
| Gstr2b.ParseSection | backend/app/ingestion/gstr2b_parser.py:116-196 | the nested loops abort exactly when some document does, and otherwise return the accepted entries in source order, every reject with its position, and the count |
| Gstr2b.ParseGstr2b | backend/app/ingestion/gstr2b_parser.py:104-289 | aborts exactly when some document of either section poisons the parse; otherwise entries plus rejects equal invoices plus notes plus malformed blocks, and note types are exactly on the notes |
| Calendar.DueDate | backend/app/reminders/sweep.py:58-72 | the due date is a valid date of the next month: the configured day, or that month's last if shorter |
| Calendar.CandidatePeriods | backend/app/reminders/sweep.py:75-93 | the borrowing loop yields the date's month and the two before it |
| Calendar.CandidatesDistinct | backend/app/reminders/sweep.py:89-93 | no candidate is repeated |
| Calendar.FirstOfNext | backend/app/reminders/sweep.py:66-72 | months follow each other without gap or overlap, leap years and year ends included |
| Calendar.MonthLengths | backend/app/reminders/sweep.py:66-72 | the length of every month, February by the Gregorian rule |
| Calendar.NextDay | backend/app/reminders/sweep.py:233-236 | day numbers, whose difference is the days to go, count the days one by one |
| Calendar.UpcomingIsCandidate | backend/app/reminders/sweep.py:76-81 | any period due within 27 days is one of the first two candidates |
| Calendar.NoDueDateMissed | backend/app/reminders/sweep.py:75-93 | a period due at a threshold is a candidate; the third candidate is always overdue |
| Reminders.Sweeper.SweepFirm | backend/app/reminders/sweep.py:188-216 | the nested loops visit every gstin, return type and candidate period, each with the specified effect |
| Reminders.Sweeper.MaybeDispatch | backend/app/reminders/sweep.py:219-258 | one task adds to exactly one skip counter or dispatches to every recipient in order |
| Reminders.Sweeper.DispatchOne | backend/app/reminders/sweep.py:261-373 | a planted row sends once, an existing row counts a duplicate, a failed send keeps its row |
| Reminders.NeverEmailedTwice | backend/app/reminders/sweep.py:9-12 | over any sequence of sweeps no key is emailed twice |
| Reminders.OneWhatsappPerEmail | backend/app/reminders/sweep.py:389-421 | the WhatsApps sent correspond one to one to the emails |
| Reminders.TaskWhatsapps | backend/app/reminders/sweep.py:389-421 | a threshold sends as many WhatsApps as it has new recipients whose email gets through, at most one exactly when there are no two |
| Reminders.TwoRecipientsTwoWhatsapps | backend/app/reminders/sweep.py:389-421 | swept on any date, a firm with one return due and two users sends two WhatsApps |
| Reminders.RepeatedSweepIsIdle | backend/app/reminders/sweep.py:276-302 | repeating a sweep on unchanged data sends nothing and counts exactly its recipients as duplicates |
| Reminders.SweepAddsUp | backend/app/reminders/sweep.py:47-55 | skips plus reached tasks are gstins x 2 x 3; dispatches, duplicates and failures are all recipients reached |
| Reminders.FateExactly | backend/app/reminders/sweep.py:230-258 | what becomes of each gstin, return and period, in the data's own terms |
| Reminders.SkipCounters | backend/app/reminders/sweep.py:47-55 | each skip counter counts the tasks without a day, off the thresholds, or filed |
| Reminders.EveryDueReturnIsNudged | backend/app/reminders/sweep.py:3-7 | a return with a configured day, due in 7, 3, 1 or 0 days and itself unfiled, has a row for each recipient of its client after a sweep |
| Reminders.OnlyDueReturnsAreNudged | backend/app/reminders/sweep.py:230-258 | and a sweep adds no other email row |
| Reminders.EveryEmailWasDue | backend/app/reminders/sweep.py:230-258 | in every run each email row was due so at one of its sweeps |
| Tokens.AuthServer.DoRefreshRequest | backend/app/api/auth.py:405-435 | the reply and the whole new state of one refresh, the token burned before the user is checked |
| Tokens.AuthServer.DoLogoutRequest | backend/app/api/auth.py:443-461 | which tokens a logout revokes, and when it is refused |
| Tokens.AuthServer.RevokeJti | backend/app/auth/revocation.py:28-32 | no key when nothing of the lifetime remains |
| Tokens.PairExactly | backend/app/api/auth.py:405-435 | the exact condition for a new pair: signed, unexpired, unrevoked refresh token of a present, active and confirmed user whose password has not changed since |
| Tokens.RevokedForTheRest | backend/app/api/auth.py:416-419 | an accepted refresh sets a key that outlives the token by less than a second, and touches no other key |
| Tokens.PairIs | backend/app/auth/tokens.py:59-107 | the two new tokens: subject, type, issue time and lifetimes of 15 minutes and 14 days |
| Tokens.LoginExactly | backend/app/api/auth.py:156-223 | a login yields such a pair exactly for a present, active and confirmed user |
| Tokens.BarredUserGetsNothing | backend/app/api/auth.py:424-427 | a deactivated or unconfirmed user gets no pair at any later time until made active and confirmed again |
| Tokens.LogoutExactly | backend/app/api/auth.py:443-461 | when a logout goes through, and which of the two tokens it kills, and no other |
| Tokens.BearerDiesToo | backend/app/api/auth.py:449-453 | the access token a logout was sent with never authorizes another |
| Tokens.RefreshKills | backend/app/api/auth.py:416-419 | every accepted presentation of a refresh token kills it, whether or not a pair is issued |
| Tokens.DeadForever | backend/app/auth/revocation.py:5-8 | a dead token stays dead over every continuation, although its key evaporates |
| Tokens.AtMostOnePair | backend/app/auth/tokens.py:8-9 | a refresh token that yielded a pair yields nothing at any later time |
| RefreshRace.PassesOnlyBeforeSet | backend/app/api/auth.py:413-419 | a request passes the check only before the first SET landed, or after the token expired under it |
| RefreshRace.PassesThen | backend/app/api/auth.py:413-419 | and it does pass before the first SET, and again a second after the expiry |
| RefreshRace.IssuedTo | backend/app/api/auth.py:424-435 | a pair is issued to an eligible user and to no other |
| RefreshRace.TwoPairsAcrossExpiry | backend/app/api/auth.py:406-435 | a schedule in which two requests that straddle the expiry each get a pair |
| RefreshRace.PairsBounded | backend/app/api/auth.py:413-435 | once a SET has landed, no more pairs are issued while the token lasts than requests were past the check |
| RefreshRace.AnyNumberOfPairs | backend/app/api/auth.py:413-435 | before that, any number of overlapping requests are all issued pairs |
| RefreshRace.TwoPairsExactly | backend/app/api/auth.py:413-435 | exactly when a lasting token can come to yield two pairs |
| RefreshRace.SingleUse | backend/app/auth/tokens.py:8-9 | requests that do not overlap between check and SET, nor pass after the expiry, yield one pair at most |
| Tokens.LoggedOutForGood | backend/app/api/auth.py:443-461 | after a logout its refresh token is never accepted again |
| Tokens.LoginNeverForks | backend/app/auth/tokens.py:8-9 | of all refresh tokens descending from one login at most one is usable, in every run |
| Tokens.OldTokensDieWithPassword | backend/app/api/auth.py:428-432 | after a password change at time c no token issued before second floor(c) is ever accepted |
| Tokens.SameSecondSurvives | backend/app/api/auth.py:428-432 | right after a change a live token is accepted exactly when it was issued in the same second |
| Tokens.TokenOutlivesPasswordChange | backend/app/api/auth.py:428-432 | a concrete run in which a token outlives a later password change |

## Left out

- Non-ASCII digits and letters (Python's Unicode `isdigit`, `\d` and `upper`): strings are modelled as ASCII.
- The debugging sample of allowed forms in `NumberHallucination`, and the Anthropic adapter: text only, or an external call that `NarratorService` covers as an arbitrary reply.
- The fact sheet's builder and JSON values of unexpected type (a number stored as text): persisted rows are written by the modelled writer only; JSON keys are an enumeration named after their spelling.
- GspPull.Service.ConfirmConsent: one confirm is atomic; OTPs, tokens, encryption and the vendor's request id are not modelled.
- GspPull.Service.InitiateConsent: one initiate is atomic; ids are taken to be fresh, as `uuid4` promises, and the vendor's expiry is not modelled.
- GspPull.Service.PullPeriod: ingestion of a fetched payload is assumed to succeed and the vendor call to take no time; tokens, encryption and latency are not modelled.
- The consent log records the profile instead of its client, and timestamps are kept only where a decision reads them.
- RateLimit.RateLimiter.Check: one check is atomic and Redis shares the caller's clock; the gap between its two pipelines is not modelled. The Redis key is the pair it is rendered from, and the policies are the five in the table.
- Crashes between INCR and EXPIRE in the cooldown, and Redis rounding of TTLs to seconds.
- Filing payloads are opaque text; the GSTR-3B generator, rule packs and generated-at stamps are not part of this model.
- Gstr1.RupeesRoundTrip: rupees are exact; the final conversion to a float is not modelled.
- Gstr1.GenerateGstr1: the header (GSTIN and filing period) is not part of the modelled payload; the empty scaffold sections and the metadata are constants; rates and amounts are exact (28-digit decimal division and the final float conversion are not modelled); the SQL query's filter and order are the input.
- Amounts: the exponents beyond which Python's decimal overflows or underflows, and the traps of a context other than the default.
- RefreshRace.SingleUse: the key's lifetime is computed in the step that sets it; computed earlier it is only longer.
- Gstr2b.ParseGstr2b: locating the sections in the JSON, the period field and date parsing are inputs (a date arrives parsed, missing or unreadable); rejects carry reason and row index, not the echoed path.
- SHA-256 is taken to be injective, so statements about `content_hash` are made about the text that is hashed.
- `paise_display`, which goes through a float.
- Calendar.CandidatePeriods: years outside 2 to 9998, where Python's `date` overflows.
- Reminders: one firm's sweep; the loop over firms, aborted firm transactions and concurrent sweeps (serialised by the endpoint's lock) are not modelled.
- Tokens: one request is atomic, except in `RefreshRace`; decoding is assumed to reject from `exp` on; setup tokens, TOTP and rate limits of the login endpoint are not modelled.
- WhatsApp delivery, SMTP, PDF layout, connection status and panel state: transports, libraries or single-branch functions.

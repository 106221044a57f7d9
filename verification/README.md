# FactorSage: a verified model of its core

FactorSage lets users write trading strategies, backtest them and watch them with Monitors. This project models the
parts of it whose correctness is hardest to see, and proves what they promise for every input, every interleaving
and every run:

- **Digest** (`Words`, `Utf8`, `Padding`, `Bits`, `Fips180`, `Sha256`, with `HexText`, `Arithmetic`): the hand-written
  SHA-256, loop by loop over JavaScript's signed 32-bit operators and wrapping arrays, refines FIPS 180-4.
- **Dates** (`Calendar`, `DecimalText`, `DateTexts`, `Dates`): clamped year and month arithmetic on a mutated `Date`
  (ECMA-262, section 21.4.1), its two mirrored bounds, and the search for the years a period covers.
- **Sampling, annual returns, snapshots** (`Sampling`, `AnnualReturns`, `ReturnsOrder`, `JsonText`, `JsonReader`,
  `CanonicalSnapshot`, `SnapshotDocuments`): a thinned series that keeps every extreme, returns that compound to the
  run's index, and a canonical document that identifies a configuration.
- **Signatures** (`Delimited`, `Vocabulary`, `Signatures`, `SignatureTexts`, `SignatureRoundTrip`, `Fingerprints`): the
  printer, parser, canonical form and digested fingerprint of an alternative-data metric.
- **Queue** (`LockQueues`, `BacktestQueue`, `QueueLocks`, `QueueCapacity`, `QueueLeases`, `QueueOwners`,
  `QueueNumbers`, `QueueAdmission`, `QueueLifecycle`, `QueueServer`, `LateHeartbeat`, with `SoloRuns` and `Limits`):
  submissions, claims, plan changes, recoveries and heartbeats as transactions that interleave statement by statement.
- **Supervisor** (`Supervisor`, `SupervisorRuns`, `SupervisorBackoff`): the worker supervisor as an event-driven machine.
- **Monitors** (`Monitors`): which of a user's Monitors hold the plan's slots.

`JsText`, `Wrappers`, `Sorting`, `TextSorting` and `Collections` hold what the others share. Code that changes things
step by step is a method or a class proved against a specification function; the promises are lemmas about that
function or about the runs of a state machine. `dafny verify dfyconfig.toml` checks the whole project.

## How the queue is modelled

A transaction is a program and a stage. A lock request joins the lock's queue, whose head holds it; a transaction goes
on once it is at the head; commit and rollback release everything it holds. A statement reads what is committed when it
runs; a commit publishes the transaction's writes at once. The step order of a submission, a claim, a plan change and
the single-statement updates is that of `apps/api/src/backtests/backtests.service.ts:1437-1495`,
`apps/worker/src/backtest/job-repository.ts:284-1111` and `apps/api/src/billing/billing-reconciliation.service.ts:184-190`.
The assumptions are: plans change only under the owner's lock, as billing does it; a worker's clock reading is not ahead
of the present; and all workers are given the same cap. The hash from users to lock keys is arbitrary.

The `Record` program, a closed run created under the counter row without the owner's lock, is an over-approximation:
no transaction of the API or the worker does this, but the allocator asks its callers only for a transaction
(`packages/database/src/backtest-run-numbers.ts:27-32`), and every result holds with it. `LockQueues.Server` is the lock
table and the counters as the statements see them, and `QueueServer` shows that it goes through the same states.

## Where the code and its documentation part

The model follows the code. These are the places where a stated promise does not hold of it, each with a lemma:

- A heartbeat renews any lease its worker still owns, lapsed or not (`job-repository.ts:437-459`, and likewise
  `claimHeld`), while `ai/architecture/backtest-execution.md:584-587` expects a stalled worker's next heartbeat to find
  the lease lost. If the slot went to another job meanwhile, the deployment stays above its cap
  (`LateHeartbeat.LateHeartbeatExceedsCap`); `QueueLeases.CapHolds` says exactly when it does not.
- For the same reason the owner count that a claim's query reads can be an undercount, which `job-repository.ts:306-310`
  rules out, and a claim can exceed its owner's plan (`LateHeartbeat.LateHeartbeatExceedsPlan`);
  `QueueOwners.CountIsNoUndercount` says exactly when the comment holds.
- `addYears` and `subtractYears` are called exact mirrors; they part at one leap-day boundary, and `Date.UTC` reads the
  years 0 to 99 as 1900 to 1999, which loses the leap day of the year 0 (`Dates.BoundsAgree`, `Dates.BoundsDisagree`).
  Years above 9999 print with a sign and sort before every four-digit year, so a period ending late in 9999 may have no
  number of years (`Dates.CoverableWhen`), and shifting dates may reverse them (`Dates.AddYearsMonotone`).
- The order of the points does matter to the annual returns when a year ends on different readings of one date;
  `ReturnsOrder.RowsForgetOrder` says exactly when it does not, with and without a benchmark.
- The signature parser looks a measure up in an object literal, so it accepts names every object inherits, such as
  `constructor` (`SignatureRoundTrip.InheritedNamesParse`); `SignatureRoundTrip.ParsedIsWellTyped` says that nothing else
  slips through.
- Building a metric leaves its signature unchanged only if its filter lists nothing twice
  (`SignatureRoundTrip.BuildKeepsSignature`).

## Model

| member | source | states |
|---|---|---|
| Utf8.Utf8Bytes | packages/contracts/src/digest.ts:29-53 | The loop returns the operator-by-operator encoding of the string's characters |
| Utf8.EncodePointIs | packages/contracts/src/digest.ts:33-50 | For every character the shifts, masks and ors give exactly the one to four bytes of section 3 of RFC 3629 |
| Utf8.DecodeInvertsEncode | packages/contracts/src/digest.ts:29-53 | A decoder written from section 4 of RFC 3629 reads back the encoded characters; a strict one accepts the bytes exactly when no lone surrogate was encoded |
| Utf8.FromCodePointsInverts | packages/contracts/src/digest.ts:31-32 | The characters a string iterator visits determine the string |
| Utf8.CodePointsAre | packages/contracts/src/digest.ts:31-32 | They are the only characters that spell the string in UTF-16 and leave no surrogate pair split |
| Utf8.EncodeInjective | packages/contracts/src/digest.ts:29-53 | No two strings, lone surrogates included, have the same bytes |
| Padding.PadBytes | packages/contracts/src/digest.ts:61-77 | The padding loop terminates and returns the marker, the least number of zeros that leaves 56 modulo 64, and the two length words |
| Bits.LengthBytesAre | packages/contracts/src/digest.ts:66-77 | The two words, one by division and one by `>>> 0`, recompose the low 64 bits of the bit length |
| Bits.PaddingIsFips | packages/contracts/src/digest.ts:61-77 | Bit for bit, the padded bytes are the padded message of section 5.1.1 of FIPS 180-4, whose zero count is the least solution |
| Bits.PaddingInjective | packages/contracts/src/digest.ts:61-77 | Below 2^61 bytes no two messages have the same padding |
| Sha256.PaddedTextInjective | packages/contracts/src/digest.ts:59-77 | No two strings are hashed from the same padded blocks |
| Sha256.WordOfRotate | packages/contracts/src/digest.ts:55-57 | Modulo 2^32, `>>>` joined to `<<` by `|` on signed results is the rotation of FIPS 180-4 |
| Sha256.WordOfChoice | packages/contracts/src/digest.ts:120 | Modulo 2^32 the signed expression is Ch of section 4.1.2 |
| Sha256.WordOfMajority | packages/contracts/src/digest.ts:129 | Modulo 2^32 the signed expression is Maj of section 4.1.2 |
| Sha256.LoadBlock | packages/contracts/src/digest.ts:90-98 | Shifting and joining four bytes at a time stores the sixteen words of section 5.2.1 into the first part of the schedule |
| Sha256.ExtendSchedule | packages/contracts/src/digest.ts:99-108 | Adding four numbers as doubles and storing them into a Uint32Array extends the block to the schedule of section 6.2.2 |
| Sha256.RunRounds | packages/contracts/src/digest.ts:110-139 | The eight rotating variables end as the working variables after the 64 rounds of section 6.2.2 |
| Sha256.AddInto | packages/contracts/src/digest.ts:140-147 | The stores into the state array add the working variables word by word modulo 2^32 |
| Sha256.Sha256Hex | packages/contracts/src/digest.ts:59-153 | For every string, each eight digits of the result, read by their places in `0123456789abcdef`, denote one word of FIPS 180-4's SHA-256 of the string's UTF-8 bits, in the order a to h: the block loop is the fold of the compression function |
| HexText.ReadHexOfDigits | packages/contracts/src/digest.ts:150-152 | Hexadecimal digits read back as the number, most significant first, by a reader that knows only the alphabet |
| Sha256.HexDigestDetermines | packages/contracts/src/digest.ts:150-152 | The text is 64 lowercase hexadecimal digits, and two strings share it exactly when their FIPS 180-4 hash values are equal |
| Fips180.RoundConstants | packages/contracts/src/digest.ts:14-26 | Each of the 64 constants is the first 32 fractional bits of the cube root of its prime |
| Fips180.InitialHashValue | packages/contracts/src/digest.ts:79-82 | The initial words are the first 32 fractional bits of the square roots of the first eight primes |
| Calendar.DayRoundTrip | packages/contracts/src/dates.ts:34-95 | A calendar date survives being turned into a day number and back (section 21.4.1 of ECMA-262) |
| Calendar.FieldOrderIsDayOrder | packages/contracts/src/dates.ts:34-95 | Comparing dates by year, month and day compares their day numbers |
| Calendar.DaysInMonth | packages/contracts/src/dates.ts:41-46 | The day numbers give April, June, September and November 30 days, February 28 or by the Gregorian rule 29, and the other months 31 |
| Dates.LocalDateIsCalendarDate | packages/contracts/src/dates.ts:14-25 | A text is accepted exactly when it is the ISO text of a date of the Gregorian calendar, month lengths as just said, on engines that roll over impossible days and on engines that reject them |
| DateTexts.TextOrderIsFieldOrder | packages/contracts/src/dates.ts:110-113 | For four-digit years string order is calendar order |
| DateTexts.SignedText | packages/contracts/src/dates.ts:46 | Beyond four digits a date text is a sign, six digits of year, a hyphen and the month |
| Dates.AddYearsTo | packages/contracts/src/dates.ts:56-69 | The mutated Date ends on the same month of the later year, on the day or the month's last day; invalid dates and results beyond the time range are refused |
| Dates.SubtractYearsFrom | packages/contracts/src/dates.ts:34-47 | The same for an earlier year |
| Dates.SubtractMonthsFrom | packages/contracts/src/dates.ts:78-91 | The same for an earlier month, carrying into earlier years |
| Dates.BoundsAgree | packages/contracts/src/dates.ts:49-69 | `end <= addYears(start, n)` holds exactly when `subtractYears(end, n) <= start` does, save at the leap-day boundary, for a five-digit year and at the leap day of the year 0 |
| Dates.BoundsDisagree | packages/contracts/src/dates.ts:49-69 | Concrete dates on which the two bounds disagree: 28 February 2023 with 29 February 2024, and 29 February of the year 0 |
| Dates.AddYearsMonotone | packages/contracts/src/dates.ts:34-69 | Shifting two ordered dates by any number of years, forward or back, keeps their order exactly unless only the later one passes the year 9999, or both end before the year 0 in different years |
| Dates.TwelveMonthsAreAYear | packages/contracts/src/dates.ts:34-91 | `subtractMonths(d, 12 n)` equals `subtractYears(d, n)` for every text and every n, failures included |
| Dates.SuccessiveMonths | packages/contracts/src/dates.ts:78-91 | Two subtractions never land after the combined one, and land on it exactly when the first clamp left at least the day the combined one lands on |
| Dates.BacktestPeriodYears | packages/contracts/src/dates.ts:102-117 | Both loops terminate for any start; an invalid start throws and nothing else does so; otherwise the result is the least n with `end <= addYears(start, n)`, and a RangeError means there is none |
| Dates.CoverableWhen | packages/contracts/src/dates.ts:102-117 | Such an n exists exactly when the end is before the year 9999, or reachable within it |
| Sampling.BucketsPartition | packages/contracts/src/backtest-sharing.ts:283-290 | The buckets are non-empty, disjoint and cover exactly the interior indices |
| Sampling.ScanBucket | packages/contracts/src/backtest-sharing.ts:291-324 | The inner loop's four running indices are the bucket's first lowest and highest points of both lines, nulls skipped |
| Sampling.ExtremeIs | packages/contracts/src/backtest-sharing.ts:295-324 | No value of the bucket lies beyond the found one, and it is the first to attain it |
| Sampling.SampleSharedBacktestPreview | packages/contracts/src/backtest-sharing.ts:272-339 | With limit = max(6, floor(maxPoints)): a series of at most limit points comes back unchanged; a longer one as its points at strictly ascending indices, at most limit of them, from the first to the last, among them the lowest and highest value of both lines overall and in each of floor((limit - 2) / 4) equal buckets, neighbours less than two buckets apart |
| Sampling.SampleShape | packages/contracts/src/backtest-sharing.ts:279-339 | Longer series: strictly ascending indices, at most the limit, with both endpoints |
| Sampling.BucketExtremeKept | packages/contracts/src/backtest-sharing.ts:285-335 | Every bucket's minimum and maximum of both lines survive |
| Sampling.SeriesExtremeKept | packages/contracts/src/backtest-sharing.ts:260-270 | The whole series' minimum and maximum of both lines survive |
| Sampling.BucketKept | packages/contracts/src/backtest-sharing.ts:325-335 | Every bucket contributes at least one index |
| Sampling.GapBounded | packages/contracts/src/backtest-sharing.ts:288-339 | Neighbouring kept indices are less than two bucket widths apart |
| AnnualReturns.CollectLastOfYear | packages/contracts/src/backtests.ts:722-734 | The loop over the points leaves the map of each year's held point and the order in which its keys were set |
| AnnualReturns.HeldIsLast | packages/contracts/src/backtests.ts:722-734 | A year with a finite positive reading holds one of them, and none of that year is dated later |
| AnnualReturns.BacktestAnnualReturns | packages/contracts/src/backtests.ts:711-765 | The rows are, year by year in order, measured from the end of the year before |
| AnnualReturns.RowsCoverYears | packages/contracts/src/backtests.ts:722-765 | There is one row for each year with a finite positive reading and for no other, in ascending order, naming the date of the latest such reading |
| AnnualReturns.ReturnsReachLatest | packages/contracts/src/backtests.ts:705-706 | Unless a year ends on two different readings of one date, compounding every reported year gives exactly the return index of the latest usable point |
| AnnualReturns.BenchmarkReturnsChain | packages/contracts/src/backtests.ts:688-696 | When the base and every year's last reading are finite and positive, the benchmark's figures multiply from the base to the last reading |
| AnnualReturns.BenchmarkMissing | packages/contracts/src/backtests.ts:693-696 | A year's benchmark figure is null exactly when there is no benchmark or the reading at one of its two ends is absent, not finite or not positive |
| AnnualReturns.PartialYears | packages/contracts/src/backtests.ts:736-739 | For a period between calendar dates the partial years are the first unless it starts on 1 January and the last unless it ends on 31 December |
| AnnualReturns.OnlyLastPointsMatter | packages/contracts/src/backtests.ts:708-709 | Unless a year ends on two different readings of one date, any subset that keeps each year's last usable point gives the same rows |
| ReturnsOrder.HeldForgetsOrder | packages/contracts/src/backtests.ts:722-734 | Every order of the points leaves the same map exactly when no year ends on two different usable readings of one date |
| ReturnsOrder.RowsForgetOrder | packages/contracts/src/backtests.ts:708-709 | Every order of the points gives the same rows exactly when a year's latest readings share their return index and, with a benchmark, each year's figure has the same pair of anchors, or always lacks one of them, in every order |
| ReturnsOrder.LastListedIsHeld | packages/contracts/src/backtests.ts:729-733 | Of a year's latest readings, the one listed last is held |
| CanonicalSnapshot.SameDocument | packages/contracts/src/backtests.ts:1652-1674 | Two snapshots have the same document exactly when, `submittedAt` aside, they agree property by property at every depth and element by element in every array |
| SnapshotDocuments.DocumentIsJson | packages/contracts/src/backtests.ts:1652-1674 | Read by the grammar of RFC 8259, the document is an object with strictly ascending keys at every depth that agrees with the snapshot on every property but `submittedAt` |
| CanonicalSnapshot.CanonicalDetermines | packages/contracts/src/backtests.ts:1652-1674 | Two values have the same printed form exactly when they hold the same data; undefined properties are ignored, and an undefined element counts as null |
| CanonicalSnapshot.SortKeysIdempotent | packages/contracts/src/backtests.ts:1660-1674 | Sorting keys deeply twice is sorting them once |
| CanonicalSnapshot.SortKeysForgetsOrder | packages/contracts/src/backtests.ts:1665-1667 | Any permutation of an object's fields sorts to the same object |
| JsonText.PrintDetermines | packages/contracts/src/backtests.ts:1657 | JSON text is unambiguous: a printed value, followed by a separator or the end, is read back in one way only, escapes and lone surrogates included (RFC 8259, sections 3 to 7) |
| JsonReader.PrintReads | packages/contracts/src/backtests.ts:1657 | A reader written from sections 2 to 7 of RFC 8259 reads a printed value, followed by anything that can follow it, as that value |
| JsonReader.DocumentReads | packages/contracts/src/backtests.ts:1657 | Printed text is a JSON text and reads as the value printed |
| JsonReader.EscapesAreMinimal | packages/contracts/src/backtests.ts:1657 | Only quotes, backslashes, controls and lone surrogates are escaped, the seven with a short escape by that one |
| JsonReader.PairsStay | packages/contracts/src/backtests.ts:1657 | A surrogate pair is printed as it is |
| JsonReader.NumberIsToken | packages/contracts/src/backtests.ts:1657 | Every number of the grammar is a number to the printer |
| JsonText.QuotedDetermines | packages/contracts/src/backtests.ts:1657 | A quoted string determines the string and where it ends |
| JsText.AtMostIs | packages/contracts/src/backtests.ts:1665-1667 | Strings compare as prefixes or by the code units where they first differ (section 7.2 of ECMA-262) |
| Signatures.MetricSignature | packages/contracts/src/alternative-data.ts:686-720 | Pushing the parts one by one and joining them gives the signature, or nothing when the scope's serializer throws |
| Signatures.ParseSignature | packages/contracts/src/alternative-data.ts:732-843 | The parser's checks, in their order, accept exactly what the field-by-field reading accepts and return the same metric |
| SignatureTexts.SignatureFields | packages/contracts/src/alternative-data.ts:642-720 | Split at the bars a signature has its five or six fields: the kind, the measure, the plain decimal lookback, the dash or the scope's text (`any`, `actor:`, `actors:` with ascending ids between plus signs, `group:`), the chamber, and the dash or the filter's words in vocabulary order between plus signs |
| SignatureTexts.PresetsAre | packages/contracts/src/alternative-data.ts:132-134 | The nine presets, and no other number, are lookbacks |
| SignatureRoundTrip.SignatureParses | packages/contracts/src/alternative-data.ts:732-843 | Parsing a metric's signature returns exactly the built metric if and only if its filter is absent or non-empty and duplicate-free, a single actor or group id is non-empty and free of the bar, and two or more actor ids are at most 250 well-formed ids |
| SignatureRoundTrip.SignatureReprints | packages/contracts/src/alternative-data.ts:732-843 | A parsed text serializes to itself exactly when its lookback is written as the serializer writes it and its filter is in vocabulary order |
| SignatureRoundTrip.BuildIdempotent | packages/contracts/src/alternative-data.ts:852-899 | Building twice is building once, for every metric |
| SignatureRoundTrip.BuildKeepsSignature | packages/contracts/src/alternative-data.ts:845-899 | Building leaves the signature unchanged exactly when the filter lists nothing twice |
| SignatureRoundTrip.UnsignedIsEmptySelection | packages/contracts/src/alternative-data.ts:675-680 | Serializing throws exactly for a selection of nobody |
| SignatureRoundTrip.CanonicalIds | packages/contracts/src/alternative-data.ts:201-209 | Canonical ids are the given ids, each once, in code-unit order |
| SignatureRoundTrip.CanonicalIdsUnique | packages/contracts/src/alternative-data.ts:201-209 | They depend only on which ids are selected |
| SignatureRoundTrip.ScopeRoundTrips | packages/contracts/src/alternative-data.ts:668-684 | A scope's text holds no bar and reads back as the built scope exactly for the scopes just named |
| SignatureRoundTrip.FilterRoundTrips | packages/contracts/src/alternative-data.ts:697-717 | A filter's text reads back as the built filter exactly when the filter is neither empty nor repetitive |
| SignatureRoundTrip.ParsedIsWellTyped | packages/contracts/src/alternative-data.ts:722-731 | A parsed metric is of the declared types exactly when its measure is not a name every object inherits |
| SignatureRoundTrip.InheritedNamesParse | packages/contracts/src/alternative-data.ts:500-509 | For every name an object literal inherits, a signature with that name for measure is accepted |
| Fingerprints.FingerprintsAgree | packages/contracts/src/alternative-data.ts:632-639 | Two readable metrics have equal fingerprints exactly when their signatures are equal, or all else agrees and two different id lists of one size have the same digest |
| Fingerprints.SignaturesAgree | packages/contracts/src/alternative-data.ts:612-616 | Two readable metrics have equal signatures exactly when they build to the same metric |
| Fingerprints.ScopeTextsShow | packages/contracts/src/alternative-data.ts:632-684 | No two different scope shapes share a fingerprint text, and two selections do only if their digests collide |
| Fingerprints.ActorIsASelection | packages/contracts/src/alternative-data.ts:211-214 | A legacy single actor and the one-entry selection build, sign and fingerprint alike |
| Fingerprints.ShortFingerprintIsSignature | packages/contracts/src/alternative-data.ts:628-631 | Everything but a selection of two or more actors has its signature for fingerprint |
| SignatureTexts.LongFingerprintText | packages/contracts/src/alternative-data.ts:632-639 | Split at the colons, the scope text of a larger selection is `actors`, the decimal number of its ids, and the digits of SHA-256 of the ids between plus signs |
| LockQueues.Server.LockUserEntitlementScope | packages/database/src/entitlement-locks.ts:45-53 | The caller joins the queue of the hashed key's lock, or keeps the lock it has |
| LockQueues.Server.TryLockUserEntitlementScope | packages/database/src/entitlement-locks.ts:68-75 | Returns true exactly when the caller holds the lock on return, and never waits: a failed try changes nothing |
| LockQueues.Server.LockBacktestAdmission | packages/database/src/backtest-admission.ts:30-32 | The caller joins the queue of the deployment-wide lock |
| LockQueues.Server.AllocateBacktestRunNumber | packages/database/src/backtest-run-numbers.ts:33-49 | Holding the row, the upsert returns and stores 1 for a first row and one more otherwise, and is at least 1; nothing is published yet |
| LockQueues.Server.LockCounterRow | packages/database/src/backtest-run-numbers.ts:10-13 | The caller joins the queue of the counter row it is about to upsert |
| QueueServer.Execute | packages/database/src/entitlement-locks.ts:45-75 | The server's statements carry out every step of the queue: afterwards its lock table, counters and unpublished numbers are those of the next state |
| QueueServer.ExecuteRun | packages/database/src/backtest-run-numbers.ts:6-32 | So they are after every run; and a number written and not yet published belongs to the holder of its counter row and is one more than the last published |
| QueueLocks.AlwaysLockTable | packages/database/src/entitlement-locks.ts:3-20 | In every run the lock table lists a transaction under exactly the locks its stage has asked for, all but the awaited one held |
| QueueLocks.NoWaitCycle | packages/database/src/backtest-admission.ts:23-32 | No reachable state of submissions, plan changes, recordings and claims has a cycle of waiting transactions |
| QueueLocks.SomeoneGoesOn | packages/database/src/backtest-admission.ts:23-32 | Whenever there are transactions, one of them can run its next statement |
| QueueCapacity.NeverRaisedPastLimit | packages/contracts/src/entitlements.ts:704-730 | In every interleaving, for every hash, a step that raises a user's runs in flight leaves them within the limit then in force |
| QueueAdmission.RefusedWithoutRoom | packages/contracts/src/entitlements.ts:704-730 | In every run a submission's count lets it go on exactly when the plan then in force has no limit or the user has fewer runs in flight than it |
| QueueAdmission.SubmissionAlone | apps/api/src/backtests/backtests.service.ts:1437-1495 | Alone, for every plan, a submission leaves a queued run with the user's next number exactly when one more run fits, and otherwise changes nothing |
| QueueCapacity.InFlightStaysWithin | packages/database/src/entitlement-locks.ts:3-20 | While a user's plan stays the same their committed runs in flight never exceed it |
| QueueLeases.CapHolds | packages/database/src/backtest-admission.ts:3-18 | Live leases plus a promised slot stay within the cap throughout a run exactly when no heartbeat revives a lapsed lease at a full deployment |
| QueueAdmission.StoppedWithoutSlot | apps/worker/src/backtest/job-repository.ts:294-304 | A claim's count lets it go on exactly when there is no cap or there are fewer live leases than it |
| QueueAdmission.ClaimAlone | apps/worker/src/backtest/job-repository.ts:284-435 | Alone, a claim takes the first candidate whose owner's plan has no limit or exceeds the owner's live leases, and takes nothing exactly when no slot is left or there is no such candidate |
| QueueLeases.LiveHeartbeatsKeepCap | packages/database/src/backtest-admission.ts:3-18 | If heartbeats renew only live leases, claims holding a live lease never exceed the cap, whatever expires, crashes or is recovered |
| LateHeartbeat.LateHeartbeatExceedsCap | apps/worker/src/backtest/job-repository.ts:437-459 | A concrete run in which a late heartbeat leaves two live leases under a cap of one |
| LateHeartbeat.LateHeartbeatExceedsPlan | apps/worker/src/backtest/job-repository.ts:306-310 | A concrete run without a cap in which a claim commits and leaves an owner limited to one run with two executing: its count was an undercount |
| QueueOwners.CountIsNoUndercount | apps/worker/src/backtest/job-repository.ts:306-310 | From the candidate query on, the count it read covers what the owner is executing exactly as long as no heartbeat revives a lapsed lease of that owner while as many runs as were counted are executing |
| QueueOwners.ClaimsFitTheirOwners | apps/worker/src/backtest/job-repository.ts:301-417 | When a claim commits, and no heartbeat has done so since its query, its owner's executing runs are within the owner's plan as it then stands |
| QueueNumbers.KthRunHasNumberK | packages/database/src/backtest-run-numbers.ts:3-32 | In every interleaving the k-th run a user commits has number k: no gap from aborts, no repetition |
| QueueNumbers.RunNumbersAreUnique | packages/database/src/backtest-run-numbers.ts:6-18 | In every reachable state a user's runs carry distinct numbers, each already issued |
| QueueNumbers.NeverReissued | packages/database/src/backtest-run-numbers.ts:12-16 | A number issued once, even to a run since deleted, is never issued again |
| QueueLifecycle.JobsMove | apps/worker/src/backtest/job-repository.ts:437-1111 | In every run a job moves only so: queued to claimed by a claim's commit or closed; claimed to renewed, released or finished by its own worker, or requeued or expired once its lease has run out; closed to nothing; and a run disappears only by deletion |
| QueueLifecycle.ClaimStaysOpen | apps/worker/src/backtest/job-repository.ts:437-1111 | Only the worker of a claim may renew, finish or release it, at any time, lapsed or not; anybody may recover it exactly when its lease is past |
| QueueLifecycle.NothingUndone | apps/worker/src/backtest/job-repository.ts:437-1111 | No continuation of a run reopens a closed run, changes a run's owner or number, or brings back a deleted one |
| Supervisor.Worker.constructor | apps/worker/src/index.ts:276-280 | Start-up spawns one child for every process of every kind, in order |
| Supervisor.Worker.SpawnChild | apps/worker/src/index.ts:137-140 | A new process is recorded under its slot's identifier with its start time and failures |
| Supervisor.Worker.OnExit | apps/worker/src/index.ts:149-169 | The exit handler drops the entry, and finishes a shutdown or schedules a restart with the failures reset after a healthy life |
| Supervisor.Worker.ScheduleRestart | apps/worker/src/index.ts:181-207 | One timer is set, due after the backoff of one more failure |
| Supervisor.Worker.OnTimer | apps/worker/src/index.ts:200-205 | A restart timer respawns its slot unless stopping; the grace timer kills every recorded child |
| Supervisor.Worker.FinishWhenAllChildrenExited | apps/worker/src/index.ts:209-220 | With no child left the kill timer and keep-alive are cleared and the stopped action runs |
| Supervisor.Worker.Shutdown | apps/worker/src/index.ts:222-251 | The first signal cancels every restart, signals every child, arms the grace timer and finishes if nobody is left; later signals do nothing |
| SupervisorRuns.ChildIdDetermines | apps/worker/src/index.ts:126-133 | An identifier determines its kind and ordinal, so kinds cannot collide |
| SupervisorRuns.EachSlotHasOne | apps/worker/src/index.ts:137-207 | In every run before shutdown, for kinds of distinct names, each configured process slot has exactly one of a running child and a pending restart timer, and no other slot has any |
| SupervisorRuns.ExitIsOfTheMappedChild | apps/worker/src/index.ts:149-152 | In every run the map entry under a running child's identifier is that child, and no other runs in its slot |
| SupervisorRuns.NothingSpawnedAfterShutdown | apps/worker/src/index.ts:200-251 | Once shutdown has begun no process is created in the rest of the run |
| SupervisorRuns.StoppedExactlyOnce | apps/worker/src/index.ts:209-251 | The stopped action has run exactly once when shutdown has begun and no child is left, with every timer and the keep-alive cleared, and not before |
| SupervisorRuns.ChildrenAreTold | apps/worker/src/index.ts:229-249 | While shutdown waits every running child has been sent SIGTERM, and SIGKILL once the grace timer has fired |
| SupervisorRuns.GraceIsThirtySeconds | apps/worker/src/index.ts:222-251 | The first signal leaves the running children one timer, due thirty seconds later |
| SupervisorBackoff.WaitIsExact | apps/worker/src/index.ts:162-205 | A pending restart is due 1000, 2000, 4000, 8000 or 16000 ms after the exit for the first five exits in a row and 30000 ms after it from the sixth on, counted back to the last child that ran for a minute |
| SupervisorBackoff.StreakOfShort | apps/worker/src/index.ts:166-168 | Each short-lived child adds one to that count |
| SupervisorBackoff.ShortRestartsTake | apps/worker/src/index.ts:111-116 | n >= 5 short-lived children in a row, each restarted, take at least 31000 + 30000 (n - 5) ms |
| Monitors.ResolveMonitorEligibility | packages/contracts/src/entitlements.ts:861-921 | The loop over the sorted copy answers every Monitor in the caller's order: the slots go to the min(capacity, enabled) enabled Monitors least by createdAt and then id, and a slot is active while the List fits |
| Monitors.OrderOfRowsIrrelevant | packages/contracts/src/entitlements.ts:861-880 | Any permutation of the rows gives each Monitor the same answer |
| Monitors.OlderHoldsToo | packages/contracts/src/entitlements.ts:845-849 | Whoever is enabled and has a smaller createdAt than a slot holder, or the same and an id that comes before, holds a slot |
| Monitors.SlotCount | packages/contracts/src/entitlements.ts:845-849 | Exactly min(capacity, enabled) Monitors hold a slot |
| Monitors.DisablePromotesNext | packages/contracts/src/entitlements.ts:845-849 | Disabling a slot holder promotes exactly the oldest enabled Monitor without a slot and changes nobody else |
| Monitors.NextIsOne | packages/contracts/src/entitlements.ts:845-849 | There is at most one such Monitor |
| Monitors.ResizeMovesNoSlot | packages/contracts/src/entitlements.ts:850-853 | Resizing a List moves no slot and changes only Monitors that watch it |
| Monitors.RaisingCapacityBlocksNobody | packages/contracts/src/entitlements.ts:861-893 | A larger capacity takes no slot away |
| Monitors.EnableLeavesNobodyBlocked | packages/contracts/src/entitlements.ts:738-757 | Counting all other enabled Monitors, enabling is allowed exactly when it leaves no enabled Monitor without a slot |

## Left out

- Floating-point rounding: annual returns are computed over the reals, and bucket bounds by integer division.
- Dates.AddYearsMonotone: for shifts whose results are both time values; outside their range the code throws.
- Dates.BacktestPeriodYears: for ends that begin with four digits, as every date text does; what `Number` makes of other texts is not modelled.
- Bits.PaddingInjective: below 2^61 bytes, where the standard's 64-bit length field is exact.
- AnnualReturns.OnlyLastPointsMatter: for points of which no year ends on two different readings of one date, as a run's daily equity and milestones never do.
- CanonicalSnapshot.SameDocument: object keys that read as array indices, which JavaScript moves to the front, and non-finite numbers are excluded; a number is identified with the text it prints as.
- SnapshotDocuments.DocumentIsJson: for numbers whose text is one by the grammar of RFC 8259, as the text of every finite JavaScript number is.
- SignatureRoundTrip.SignatureParses: JavaScript's `Number` on the lookback text is a parameter that is only known to invert the nine presets.
- Fingerprints.FingerprintsAgree: nothing is assumed of SHA-256, so colliding selections remain as a case.
- QueueCapacity.InFlightStaysWithin: a plan lowered below the runs already in flight leaves them there; only a raise is checked against it.
- QueueLeases.CapHolds: a claim's `now` is at most the present, so clock skew ahead of the database's is not covered.
- BacktestQueue: of a queued job's eligibility only its status is modelled (not `availableAt`, attempts or a pending cancellation), and neither is the order or number of the candidates a claim looks at; claims can therefore do more here than in the code.
- BacktestQueue: a bulk recovery is a sequence of single-job steps, the deployment-wide queue bound is one of the reasons for an abort, and a plan the build does not know is read as a limit of zero, as is a missing account.
- BacktestQueue: the wait of a cancellation for a job row is not a queue of its own; the claim that holds the row waits for nothing.
- BacktestQueue: a claimed job always has a lease; the count also covers claimed jobs without one, which no modelled statement writes.
- The fixture seeder, which allocates run numbers outside a transaction.
- Monitors.ResolveMonitorEligibility: `localeCompare` is any total order on ids, and ids are distinct; the wording and the overshoot in compliance answers are not modelled.
- Supervisor: logging, exit codes, the fatal handlers and failing forks; the `error` event changes nothing, and time does not run backwards.
- Labels, descriptions, defaults and the id collectors of the metrics.
- Billing, plan resolution, catalogs, environment parsing and the HTTP surface: finite tables and plumbing around what is modelled.

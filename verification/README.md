# PyroSense ingest and plan gate: verified model

PyroSense collects wildfire telemetry. Devices publish readings, an at-least-once queue buffers them, and a
Lambda function validates each one, archives it in S3, raises at most one fire alert per device and window, and
inserts it in a DynamoDB table. It uses no locks: two conditional writes and a fixed order of effects have to do.
A second program, the plan gate, decides whether a Terraform plan may be applied. This project states what the
two promise over every run and every input, proves it, and where a promise fails gives the exact condition under
which it holds.

`dafny verify dfyconfig.toml` checks everything.

## How it is modelled

**The protocol.** `Protocol` holds the four client calls and `Advance`, which makes the next call of a message in
progress. The environment answers each call: applied, refused, applied but reported as failed, or applied with the
SDK's own retry meeting the item just written. `Machine` runs any number of invocations at once, each with its own
position, batch and one `now` frozen at its start. Its other steps are the environment's: time passes, messages are
enqueued, received in any order and grouping, moved to the dead-letter queue after five receives, redriven, or
expired; a deleted message may reappear; invocations crash between any two calls, before or after emitting their
counters; TTL deletes expired items, or never does. A receive and the start of its invocation are one step, up to a
delivery delay after the receive. The theorems quantify over all finite sequences of enabled steps.

**The code.** `Handler`, `Risk`, `Contract`, `Items`, `Ingest` and `PlanGate` hold the functions in the source's
imperative form: classes and loops, with exceptions as result values. Each method is proved against a function, and
`Processing.BatchRun` shows that the sequential handler is one of the machine's runs. `Ingest.ProcessText` connects
the validator to it: one message from its text to the stores. `Outcomes` gives what one message comes to without
the machine: its result, its stores and its counters, from the fields of the record.

**The main results**

- *Exactly once* (`Deduplication`). TTL deletes hot items, so the conditional insert alone does not deduplicate.
  Every run that keeps the operators' discipline stores each reading at most once, ever, if and only if
  slack + DLQ cycles + source retention + delivery delay + timeout fits in the hot retention. The 19 derived days
  satisfy this for one redrive and duplicates up to a day less delay and timeout late; 18 days, or a second redrive,
  do not.
- *At most one alert per device and window* (`AlertSpacing`, `AlertFates`). Claims of one device, and alerts about it,
  are more than the window apart in every run if and only if window plus timeout fits in the slot's TTL of one day.
- *No silent critical reading, no loss* (`AlertFates`, `Delivery`). Every acknowledged critical reading is covered by
  a claim whose outcome is one of a short list; a message leaves the queues only handled or after its retention.
- *Accounting* (`Accounting`, `Poison`). The counters leave the function once, at its end, so an invocation that dies
  earlier shows nothing. Over every interleaving the metrics account for the records of the invocations that emitted
  them; they match the calls to the topic, and count a poison message fully, under exact conditions. Every acknowledged
  critical reading is in AlertsPublished or AlertsSuppressed, or in counters never emitted.
- *Refinement* (`FirstSeen`, `HotCold`). Within the discipline of exactly-once, and with a retention that covers its
  bound, the hot table refines a grow-only map of first sights. For every class of producers it is a view of the
  archive in all their runs exactly when, among the bodies they send, the cold key determines the reading; devices
  that never reuse a sequence number are such producers.
- *The validator* (`Contract`). A record comes back exactly for conforming payloads; otherwise each violating field is
  reported once, by the one clause it breaks. Conformance is spelled out field by field, and a record holds the
  payload's own values.
- *The plan gate* (`PlanText`, `PlanOrder`, `PlanGate`, `PlanEffect`, `PlanReplacement`, `PlanDelivery`). The
  fingerprinted text decodes back; it is independent of order exactly when no address is planned two ways. Plans run
  one action at a time, interleaved in any way and stopped anywhere: an accepted plan keeps the operation's promise in
  every run, and each refused change can break it, but for one harmless kind in destroy. A second plan with the same
  fingerprint does the same as the first.

**Where the code and its documentation disagree.** The model follows the code.

- `modules/ingest/main.tf:78-79` and `main.tf:213-215` tie a second alert to an expired hot item. The alert is decided
  before the insert, so a stored critical reading alerts again as soon as the slot is free
  (`AlertFates.DuplicateAlertsIff`, `AlertFates.SameReadingAlertsTwice`).
- `src/ingest_lambda/cold_store.py:9-10` says a redelivery overwrites the object with identical content. The contract
  also lets one device, hour and sequence number carry two readings; then the archive keeps the last and the table the
  first (`HotCold.FirstAndLastDiffer`, `Ingest.ContractAllowsReuse`).
- `modules/ingest/variables.tf:192-203` admits windows up to 1440 minutes, the slot's whole TTL. Spacing already fails
  once window plus timeout exceeds a day (`AlertSpacing.SpacingIff`, `AlertFates.OneAlertPerWindowIff`).
- `modules/storage/README.md:43-45` says padded keys sort numerically. They do below 10^12, and the contract puts no
  upper bound on the sequence number (`Keys.OrderedIff`).
- `src/ingest_lambda/contract.py:154-157` documents one exception. Integers too large for a double and timestamps
  that leave the date range raise `OverflowError`, and the handler retries those bodies as transient failures, which
  InvalidPayloads never shows (`Contract.HugeIntegerOverflows`, `Contract.FarTimestampOverflows`,
  `Ingest.OverflowIsTransient`).
- `scripts/ci/plan_guard.py:12-14` allows a delete in apply only as half of a replacement. The code checks the tainted
  reason and not that a create is present (`PlanReplacement.KeepsAddressesWhenWholeIff`,
  `PlanReplacement.LoneTaintedDelete`). A real replacement that deletes first also leaves nothing behind when it is
  interrupted (`PlanReplacement.KeepsAddressesIff`, `PlanReplacement.InterruptedReplacement`).
- `scripts/ci/plan_guard.py:28` promises status 2 for unreadable input. In apply and destroy an entry that is not an
  object raises `AttributeError`, and so does a section that is a non-empty object or string; the exception is not
  caught, so the interpreter exits with 1 (`PlanGate.CrashesIff`, `PlanGate.ScalarEntryCrashes`, `PlanGate.RunGate`).

**Assumptions.** Every parameter named here is arbitrary unless a lemma says otherwise.

- Times are whole seconds; `Items.TimestampsAreWhole` shows that every stored or compared timestamp depends only on
  the second. All clocks agree; an invocation makes no call later than its timeout after its `now`, and starts
  at most `delivery` seconds after the receive, a parameter bounded by the visibility timeout.
- `Body` is opaque and `json.loads` is a function of it. ISO-8601 parsing, the regular expression class `\d` and the
  platform's year padding are parameters. Numbers are exact: a double is a real, infinite or not a number.
- `hash` is an arbitrary function, and injective where two plans are compared.
- The visibility timeout does not hide a message and `maximum_concurrency` is not used: any message in the queue may be
  received, by any number of invocations. This admits more runs than the service does.
- A run of a plan starts each change in a state it was planned for: a lone create finds nothing at its address, a
  delete, replacement or update finds its resource.

## Model

| member | source | states |
|---|---|---|
| Risk.Evaluate | src/ingest_lambda/risk.py:77-93 | CRITICAL exactly when smoke_ppm is at or above its threshold; ELEVATED exactly when it is below, temp_c is at or above and rh_pct at or below theirs; both reasons accumulate in order |
| Risk.WorseNeverLowers | src/ingest_lambda/risk.py:77-93 | more smoke, more heat or drier air never lowers the level |
| Invariants.StepGrows | src/ingest_lambda/handler.py:107-251 | no step of the code or the environment forgets a message, changes a body, or takes back a claim, a call, an insert or an acknowledgement |
| Invariants.InvariantKept | src/ingest_lambda/handler.py:107-176 | one step from any world in order leaves queue, invocations, stores, tasks and acknowledgements in order |
| Invariants.Reachable | src/ingest_lambda/handler.py:107-251 | every reachable world satisfies the whole invariant |
| Invariants.QueueKept | modules/messaging/main.tf:47-54 | receives and lifetime receives are tied to redrives, and a stay starts at most one DLQ cycle per redrive after the enqueue |
| Invariants.StoresKept | src/ingest_lambda/persistence.py:100-110 | an inserted item is in the table unchanged or past its expiry, every slot is some claim's, every archived body sits under its own key |
| Processing.SoloRun | src/ingest_lambda/handler.py:107-176 | an invocation left alone takes its message to the result `Process` computes, under any pattern of faults |
| Processing.BatchRun | src/ingest_lambda/handler.py:205-251 | an undisturbed invocation ends with the stores, failures and counters of the sequential handler |
| Handler.Cloud.StoreRawCopy | src/ingest_lambda/cold_store.py:42-66 | the object at the record's key is overwritten; nothing else changes |
| Handler.Cloud.TryAcquireAlertSlot | src/ingest_lambda/alerts.py:93-110 | the slot is won exactly when absent or past its window, and then carries the new window and a one-day TTL |
| Handler.Cloud.PublishAlert | src/ingest_lambda/alerts.py:153-157 | one call to the topic, tied to the claim that allowed it |
| Handler.Cloud.StoreTelemetry | src/ingest_lambda/persistence.py:100-110 | inserts only an absent key and never alters a present item |
| Handler.Cloud.StoreReading | src/ingest_lambda/handler.py:159-176 | the hot write ends the message: stored, skipped or transient, the alert counted only if it returns |
| Handler.Cloud.AlertAndStore | src/ingest_lambda/handler.py:130-157 | claim, then publish, then store; a failed publish raises before the hot write |
| Handler.Cloud.ProcessDecided | src/ingest_lambda/handler.py:119-157 | a decided body takes the branch of its verdict, archived before anything else |
| Handler.Cloud.ProcessMessage | src/ingest_lambda/handler.py:107-176 | result and stores are those of running the calls one at a time, under every pattern of faults |
| Handler.Cloud.LambdaHandler | src/ingest_lambda/handler.py:193-251 | response and totals are those of the batch, record by record; `Outcomes` says what each record and each counter comes to |
| Handler.AddOutcome | src/ingest_lambda/handler.py:246-248 | each of the six counters grows exactly by what the record was: stored or duplicate, published or suppressed |
| Outcomes.ResultOf | src/ingest_lambda/handler.py:127-168 | the result of an accepted body under any faults, from its smoke, the slot, the hot key and the answers of the calls |
| Outcomes.StoresAfter | src/ingest_lambda/handler.py:127-168 | the stores it leaves: object, slot, calls and item with keys, window, TTL and retention written out |
| Outcomes.TotalsExact | src/ingest_lambda/handler.py:246-248 | each counter is the number of results of its kind in the batch |
| Outcomes.KeptCriticalCounted | src/ingest_lambda/handler.py:144-168 | AlertsPublished + AlertsSuppressed is the number of kept critical readings of a batch, under any faults |
| Accounting.EveryRecordCounted | src/ingest_lambda/handler.py:205-251 | records = stored + duplicates + failures; invalid and lost alerts are among the failures |
| Accounting.AlertsAccounted | src/ingest_lambda/handler.py:144-176 | for a batch run by itself: calls to the topic = alerts counted + failed publishes + alerts whose hot write failed afterwards |
| Accounting.FailuresExact | src/ingest_lambda/handler.py:205-251 | the response lists exactly the raising records' ids, in batch order |
| Accounting.EmittedRecordsCounted | src/ingest_lambda/handler.py:193-251 | over every run the records of the invocations that emitted their counters are MessagesStored + DuplicatesSkipped + the failures those invocations hold; the records of one that died first show nowhere |
| Accounting.AlertsAccountedInEveryRun | src/ingest_lambda/handler.py:137-250 | over every run each successful call shows in AlertsPublished, in counters never emitted, before its hot write, or with a hot write that failed; each failed call in AlertPublishFailures or in counters never emitted |
| Accounting.AlertMetricsExact | src/ingest_lambda/handler.py:144-250 | AlertsPublished and AlertPublishFailures equal the successful and the failed calls exactly when none of these other places holds one |
| Accounting.AcksAccountedInEveryRun | src/ingest_lambda/handler.py:159-250 | over every run AlertsSuppressed, shown or never emitted, counts the acknowledged readings suppressed; and the acknowledged critical readings are AlertsPublished + AlertsSuppressed, shown and never emitted |
| Delivery.NoLoss | src/ingest_lambda/handler.py:119-168 | in every run a deleted message validated, was archived and was inserted; an expired one outlived the source retention; nothing acknowledged also failed |
| Delivery.ProcessedIsReported | modules/ingest/main.tf:393-396 | what an invocation has processed is exactly what it acknowledged or reported |
| Delivery.RetryBudget | modules/messaging/main.tf:50-54 | at most five receives per stay, and five per enqueue or redrive in all |
| Delivery.BatchBound | modules/ingest/main.tf:57 | no invocation is handed more than ten records, and none twice |
| Poison.PoisonCost | src/ingest_lambda/handler.py:209-219 | a message in the DLQ was delivered exactly five times per stay; each delivery that processed an unaccepted body failed it, and InvalidPayloads counts the violations processed |
| Poison.PoisonTotal | src/ingest_lambda/handler.py:209-250 | a violation in the DLQ added at most five per stay to the emitted InvalidPayloads, exactly five if and only if every invocation it was delivered to lived to emit its counters |
| Poison.UnreadableCost | src/ingest_lambda/handler.py:237-245 | a body that raises anything else takes the same five deliveries per stay, is reported by each that processed it, and adds nothing to InvalidPayloads |
| Deduplication.ExactlyOnce | src/ingest_lambda/persistence.py:100-110 | a retention that covers the bound stores each reading at most once in every disciplined run |
| Deduplication.BoundIsNecessary | modules/ingest/main.tf:74-82 | when the bound fails, some disciplined run stores a reading twice |
| Deduplication.ExactlyOnceIff | modules/ingest/main.tf:74-82 | the bound holds if and only if no disciplined run stores a reading twice |
| Deduplication.DerivedRetentionSuffices | modules/ingest/main.tf:74-82 | the derived days cover one redrive and a duplicate up to a day less delivery delay and timeout late, whatever the retentions |
| Deduplication.DerivedRetentionIs | modules/ingest/main.tf:82 | the derived days are the two retentions in whole days, rounded up, and one more |
| Deduplication.DeployedRetentionIsTight | modules/messaging/main.tf:38-48 | 19 days are derived; 18 days, or a second redrive, break exactly-once |
| FirstSeen.LiveItemNeverAltered | src/ingest_lambda/persistence.py:100-110 | in any step an unexpired item stays with its value, an expired one keeps it until removed, and at most one absent key is inserted |
| FirstSeen.RefinesFirstSeen | src/ingest_lambda/persistence.py:83-92 | within the discipline, and with a retention that covers the bound, every step is a stutter or one first sight of a grow-only map, and the table is part of that map |
| AlertSpacing.SpacingHolds | src/ingest_lambda/alerts.py:93-110 | under stale clocks, concurrency and TTL, claims of one device are more than the window apart |
| AlertSpacing.TwoAlertsInWindow | src/ingest_lambda/alerts.py:100-103 | when window plus timeout exceeds a day, some run delivers two alerts about one device inside one window |
| AlertSpacing.WindowTooLong | src/ingest_lambda/alerts.py:100-103 | when window plus timeout exceeds a day, some run claims twice inside the window |
| AlertSpacing.SpacingIff | src/ingest_lambda/alerts.py:93-110 | spacing holds in every run if and only if window plus timeout fits in a day |
| AlertSpacing.AdmittedWindows | modules/ingest/variables.tf:192-203 | the deployed 30 minutes are safe, the admitted 1440 are not |
| AlertFates.CallsNeverOutnumberClaims | src/ingest_lambda/handler.py:130-144 | each call to the topic uses a claim of its own |
| AlertFates.AlertsAreSpaced | src/ingest_lambda/alerts.py:69-110 | with a window that fits, any two alerts about one device come from claims more than the window apart |
| AlertFates.OneAlertPerWindowIff | modules/ingest/variables.tf:192-203 | at most one alert per device and window in every run, if and only if window plus timeout fits in a day |
| AlertFates.CoveringClaim | src/ingest_lambda/alerts.py:103-110 | an acknowledged critical reading has a claim whose window covers its processing time |
| AlertFates.EveryClaimEnds | src/ingest_lambda/handler.py:129-157 | a claim alerted, or its answer was lost, its invocation died or is still at it, or its publish failed |
| AlertFates.ClaimsWithoutCall | src/ingest_lambda/handler.py:130-143 | a claim reaches the topic unless its answer was lost, its invocation died or it is on its way; so of the lost alerts only a failed publish leaves a call for AlertPublishFailures to count |
| AlertFates.NoSilentCritical | src/ingest_lambda/handler.py:129-157 | both together: no acknowledged critical reading is silently ignored |
| AlertFates.DuplicateAlertsIff | src/ingest_lambda/handler.py:129-164 | without faults, a duplicate of a stored critical reading alerts exactly when the slot is free, and is not inserted again |
| AlertFates.CriticalCallsIff | src/ingest_lambda/handler.py:127-143 | under any faults an accepted body calls the topic exactly when smoke_ppm reaches the threshold, archiving did not raise, the device's slot is absent or past its window, and the claim was answered; whatever is stored |
| AlertFates.SameReadingAlertsTwice | src/ingest_lambda/handler.py:129-164 | a run with one insert and two delivered alerts for one reading |
| HotCold.HotHasCold | src/ingest_lambda/handler.py:127-168 | every hot item has an archived, valid body at its reading's cold key |
| HotCold.AgreesWithin | src/ingest_lambda/persistence.py:48-73 | in a run whose messages are determined by their cold keys every hot item is its re-validated cold body |
| HotCold.FirstAndLastDiffer | src/ingest_lambda/cold_store.py:42-66 | producers that send two readings with one cold key have a run that leaves table and archive apart |
| HotCold.HotIsViewOfColdIff | src/ingest_lambda/handler.py:127-164 | for every class of producers: the table is a view of the archive in all their runs exactly when, among the bodies they send, the cold key determines the reading |
| HotCold.UniqueNumbersAgree | src/ingest_lambda/persistence.py:48-73 | producers that never use one sequence number for two readings are such producers |
| Contract.ValidatePayload | src/ingest_lambda/contract.py:145-224 | the accumulating checks give the judgement of the contract, which `ConformsIff` to `RecordNumbers` spell out |
| Contract.CheckNumber | src/ingest_lambda/contract.py:96-125 | appends the problems of one number, and overflows exactly on a too large integer |
| Contract.ParseTsDevice | src/ingest_lambda/contract.py:128-142 | appends the timestamp's problem, falls back to the epoch, overflows when UTC leaves the date range |
| Contract.ValidIffMeets | src/ingest_lambda/contract.py:159-224 | a record comes back if and only if the payload meets contract v1 |
| Contract.ConformsIff | src/ingest_lambda/contract.py:159-207 | which payloads those are: an object with the fourteen required keys, no other but the version, and each of the fifteen fields in order |
| Contract.PlaceOkIff | src/ingest_lambda/contract.py:192-195 | when position, elevation and temperature are in order: a finite number that is not a boolean or null, within the stated bounds |
| Contract.AirOkIff | src/ingest_lambda/contract.py:196-200 | the same for humidity, smoke, wind and battery; null is in order at the two wind fields alone |
| Contract.TextOkIff | src/ingest_lambda/contract.py:173-204 | when version, ids, timestamp, sequence number and status are in order, character by character |
| Contract.NullIsRejected | src/ingest_lambda/contract.py:105-111 | null at any numeric field but the two of the wind never gives a record |
| Contract.NullWindIsAccepted | src/ingest_lambda/contract.py:198-199 | null at both wind fields is accepted and comes back as absence |
| Contract.RecordTexts | src/ingest_lambda/contract.py:209-224 | a record holds the payload's own ids, status, sequence number and instant |
| Contract.RecordNumbers | src/ingest_lambda/contract.py:209-224 | and each number is the payload's own, field by field; an absent wind was null |
| Contract.ErrorsExact | src/ingest_lambda/contract.py:162-207 | otherwise: key problems alone when a key is missing, the overflow, or one list naming each violating field in order with the clause it breaks |
| Contract.OverflowIff | src/ingest_lambda/contract.py:114-142 | the overflow is the outcome exactly for complete payloads with a too large integer in a numeric field or a far timestamp |
| Contract.DoubleLimitIs | src/ingest_lambda/contract.py:114 | too large means 2^1024 - 2^970 or more in magnitude, half way past the largest double |
| Contract.HugeIntegerOverflows | src/ingest_lambda/contract.py:114 | an integer too large for a double in any numeric field escapes as OverflowError |
| Contract.FarTimestampOverflows | src/ingest_lambda/contract.py:142 | so does a timestamp whose UTC instant leaves the date range |
| Contract.OverflowingPayload | src/ingest_lambda/contract.py:114 | an encoded record with an overflowing latitude |
| Contract.ProblemsNameViolators | src/ingest_lambda/contract.py:173-204 | exactly one problem for each violating field, in checking order, naming a clause the field breaks |
| Contract.BreaksOne | src/ingest_lambda/contract.py:96-204 | a violating field breaks exactly one clause and a conforming one none, so the clause reported is the only one broken |
| Contract.ValidatedRecordOk | src/ingest_lambda/contract.py:192-204 | every returned record has matching ids, an allowed status and all numbers in range |
| Contract.Revalidates | src/ingest_lambda/contract.py:209-224 | re-validating an encoded record returns the same record |
| Contract.TierOfValidated | src/ingest_lambda/contract.py:90-93 | the tier of every validated record is T1, T2 or T3, read from its id |
| Items.TimestampsAreWhole | src/ingest_lambda/alerts.py:93-104 | stored timestamps depend only on the whole second of `now` |
| Items.BuildTelemetryItem | src/ingest_lambda/persistence.py:48-73 | attribute by attribute, the field of the record that each of the nineteen holds; the anemometer's only when present |
| Items.StoredExpiry | src/ingest_lambda/persistence.py:65 | the stored expiry is the one the machine's TTL goes by |
| Items.ItemDeterminesRecord | src/ingest_lambda/persistence.py:48-73 | the item loses nothing: it determines the record, the ingestion second and the retention |
| Items.ItemsOfOneRecord | src/ingest_lambda/persistence.py:48-73 | two items of one record differ in ingestion time and expiry alone |
| Items.PrimaryKeyIsReading | src/ingest_lambda/persistence.py:22-23 | items share a primary key exactly when device and sequence number agree |
| Keys.TableKeyRoundTrip | src/ingest_lambda/persistence.py:22-23 | every table key can be read back, for every sequence number |
| Keys.PaddedText | src/ingest_lambda/persistence.py:23 | a sort key holds the decimal text of the number behind zeros up to twelve characters |
| Keys.TableTextInjective | src/ingest_lambda/alerts.py:34-35 | readings and alert slots never share a key, nor do different readings |
| Keys.ObjectKeyRoundTrip | src/ingest_lambda/cold_store.py:21-39 | the object key can be read back, for every date and sequence number |
| Keys.ObjectKeyText | src/ingest_lambda/cold_store.py:21-39 | the parts of an object key, in their order and with their widths |
| Keys.ObjectKeyOfRecord | src/ingest_lambda/cold_store.py:33-39 | a record's object key reads back to the UTC date and hour of its device timestamp, its device and number |
| Keys.ObjectKeyInjective | src/ingest_lambda/cold_store.py:21-39 | readings share an object key only if UTC date, hour, device and sequence number agree |
| Keys.SortKeysInOrder | src/ingest_lambda/persistence.py:23 | below 10^12, text order is numeric order |
| Keys.OrderBreaksAtLimit | src/ingest_lambda/contract.py:187-190 | 10^12 sorts before its predecessor |
| Keys.OrderedIff | modules/storage/README.md:43-45 | text order is numeric order below a limit exactly when the limit is at most 10^12 |
| Ingest.Decide | src/ingest_lambda/handler.py:114-119 | accepts exactly the bodies that decode to a conforming payload, with its record; transient exactly for other decoding errors and overflows; rejects exactly the rest |
| Ingest.VerdictIsPrescribed | src/ingest_lambda/handler.py:114-119 | the verdict the machine runs on is that outcome |
| Ingest.ProcessText | src/ingest_lambda/handler.py:107-176 | from text to stores: a message is processed by the contract's verdict, and ends as a contract violation exactly when it is malformed, or does not conform and does not overflow |
| Ingest.OverflowIsTransient | src/ingest_lambda/handler.py:237-245 | in a run, a body that overflows reaches the DLQ by five deliveries per stay and InvalidPayloads never shows it |
| Ingest.StoredMeetsContract | src/ingest_lambda/handler.py:119-168 | in every run all hot items are in range and their archived bodies meet the contract |
| Ingest.ArchiveKeysDistinct | src/ingest_lambda/cold_store.py:21-39 | no two archived readings of a run share the text of their key by accident |
| Ingest.ContractAllowsReuse | src/ingest_lambda/contract.py:192-200 | conforming bodies of one cold key may differ, so for unrestricted producers the table is no view of the archive |
| PlanText.CanonicalRoundTrip | scripts/ci/plan_guard.py:85 | decoding the canonical text by the escapes of section 7 of RFC 8259 gives the list back |
| PlanText.CanonicalInjective | scripts/ci/plan_guard.py:83-86 | equal texts mean equal lists |
| PlanText.StringRoundTrip | scripts/ci/plan_guard.py:85 | every string of Unicode scalar values survives escaping, surrogate pairs included |
| PlanText.PlainCharacters | scripts/ci/plan_guard.py:85 | printable ASCII but for the quote and the backslash prints as itself |
| PlanText.ShortEscapes | scripts/ci/plan_guard.py:85 | the seven characters with a short escape, and what it is |
| PlanText.CodeEscape | scripts/ci/plan_guard.py:85 | any other character of the basic plane is written as a backslash, u and four digits |
| PlanText.HexDigits | scripts/ci/plan_guard.py:85 | the digits are hexadecimal in lower case, most significant first |
| PlanText.SurrogateEscape | scripts/ci/plan_guard.py:85 | a character above it is written by its two surrogates, the high one first |
| PlanText.LinesText | scripts/ci/plan_guard.py:84-85 | the list is written between brackets with bare commas; `LineText` and `ActionsText` say the same of a line and its actions |
| PlanText.CanonicalAscii | scripts/ci/plan_guard.py:85-86 | the text is printable ASCII, so its UTF-8 bytes are its characters |
| PlanOrder.SortSorts | scripts/ci/plan_guard.py:80 | the sort orders by address and keeps the multiset of changes |
| PlanOrder.SortStable | scripts/ci/plan_guard.py:80 | changes of one address keep their order |
| PlanOrder.SameTextIff | scripts/ci/plan_guard.py:67-86 | two plans have one text exactly when every address has the same sequence of action lists |
| PlanOrder.OrderIrrelevantIff | scripts/ci/plan_guard.py:67-86 | reordering never changes the text exactly when no address is planned two different ways |
| PlanOrder.DistinctPlansHaveOneText | scripts/ci/plan_guard.py:67-86 | with each address listed once, every order gives one text |
| PlanOrder.RepeatedAddressCounterexample | scripts/ci/plan_guard.py:80 | swapping two entries of one address with different actions changes the text |
| PlanGate.ManagedChanges | scripts/ci/plan_guard.py:67-80 | the loop and sort give the changes of the section, or the first entry's exception; `ChangesFields` says which |
| PlanGate.ChangesFields | scripts/ci/plan_guard.py:69-80 | each change stands as often in the result as the managed entry with its address, actions and reason stands in the section |
| PlanGate.ReadableIff | scripts/ci/plan_guard.py:57-101 | which files can be read, entry by entry |
| PlanGate.CollectFaults | scripts/ci/plan_guard.py:69-79 | reading succeeds exactly when no entry raises, and the first that does decides the exception, caught or not |
| PlanGate.CollectMembers | scripts/ci/plan_guard.py:69-79 | what is read is the address, actions and reason of each managed entry and nothing else |
| PlanGate.CollectLostMembers | scripts/ci/plan_guard.py:94-101 | the lost addresses are those of managed drift entries with a lone delete |
| PlanGate.CollectLostFaults | scripts/ci/plan_guard.py:94-101 | reading the drift succeeds exactly when no entry raises, and is not caught exactly when the first that raises is not an object |
| PlanGate.CrashesIff | scripts/ci/plan_guard.py:144-158 | which files end with an uncaught exception, in terms of their entries: the first faulty one, of the changes or else of the drift, is not an object |
| PlanGate.JudgeChange | scripts/ci/plan_guard.py:110-126 | the set differences of one turn of the loop decide the policy: which problem, in terms of the actions, the reason and the lost addresses |
| PlanGate.EntryOrderIrrelevant | scripts/ci/plan_guard.py:67-86 | lists with the same managed entries up to order, each address once, have one text |
| PlanGate.DigestIgnoresOrder | scripts/ci/plan_guard.py:67-86 | permuting entries and adding or removing non-managed ones leaves the fingerprint of the file unchanged when addresses are distinct |
| PlanGate.ScalarEntryCrashes | scripts/ci/plan_guard.py:70-71 | a plan with an entry that is not an object is neither readable nor reported as unreadable |
| PlanGate.Violations | scripts/ci/plan_guard.py:104-127 | one problem, of the right kind, for each change the policy refuses, in order; none exactly when all are permitted |
| PlanGate.ReportTainted | scripts/ci/plan_guard.py:168-170 | reports each tainted change, in order |
| PlanGate.AnnouncedIff | scripts/ci/plan_guard.py:89-91 | over the entries of the file: changes are announced exactly when a managed entry is not a lone no-op, and the tainted addresses are those of the managed entries with that reason |
| PlanGate.AcceptedIff | scripts/ci/plan_guard.py:104-127 | over the entries of the file: it is accepted exactly when it can be read, matches the fingerprint, and every managed entry has known actions and, in apply, deletes only as tainted and creates at no lost address, in destroy creates and updates nothing |
| PlanGate.RunGate | scripts/ci/plan_guard.py:135-178 | status 0 exactly for a readable plan that keeps the policy and matches the expected fingerprint, 2 exactly for the exceptions that are caught, 1 otherwise; the drift operation counts the drift entries |
| PlanEffect.AcceptedIsSafe | scripts/ci/plan_guard.py:104-127 | running the actions of an accepted plan in any interleaving, stopped anywhere, keeps the operation's promise |
| PlanEffect.HarmfulIsUnsafe | scripts/ci/plan_guard.py:104-127 | each change that is not harmless breaks the promise in some run, whatever its action list |
| PlanEffect.GateIsExact | scripts/ci/plan_guard.py:42-47 | for every list of changes: all runs are safe if and only if all changes are harmless; the gate refuses exactly the others, plus, in destroy, changes that update what they have deleted |
| PlanEffect.RemovalsAreReported | scripts/ci/plan_guard.py:168-170 | whatever an accepted apply removes or replaces was reported as tainted |
| PlanReplacement.KeepsAddressesIff | scripts/ci/plan_guard.py:12-14 | an accepted apply, stopped anywhere, keeps every address occupied exactly when no change deletes before it creates |
| PlanReplacement.KeepsAddressesWhenWholeIff | scripts/ci/plan_guard.py:124 | when started changes complete, it loses an address exactly when it holds a delete without a create |
| PlanReplacement.InterruptedReplacement | scripts/ci/plan_guard.py:12-14 | an accepted replacement that keeps its address when completed and loses it when interrupted |
| PlanReplacement.LoneTaintedDelete | scripts/ci/plan_guard.py:124 | a lone tainted delete is accepted and loses its address |
| PlanReplacement.HasChangesIff | scripts/ci/plan_guard.py:89-91 | a plan announced as unchanged does nothing in any run; some run alters the state exactly when some action is not a no-op, and that is announced |
| PlanDelivery.ApprovedIsApplied | scripts/ci/plan_guard.py:171-177 | an accepted second plan with the first fingerprint holds the same addresses and known actions, in order |
| PlanDelivery.TwoPlanDelivery | scripts/ci/plan_guard.py:135-178 | then both plans do the same at every address, in any two orders that come equally far, and leave the same addresses |
| PlanDelivery.CompleteDelivery | scripts/ci/plan_guard.py:135-178 | complete runs of the approved and the accepted plan, in orders of their own, leave the same set of addresses |
| PlanDelivery.SameScheduleDelivery | scripts/ci/plan_guard.py:135-178 | and one schedule, stopped anywhere, gives one state, even with repeated addresses |
| PlanDelivery.ReasonIsNotFingerprinted | scripts/ci/plan_guard.py:83-86 | one text can belong to an accepted and to a refused plan, so the second plan has to be judged again |

## Left out

- PlanText.CanonicalRoundTrip: strings hold Unicode scalar values; lone surrogates, which `json.loads` can produce, are not modelled.
- PlanGate.RunGate: printed diagnostics are reduced to the fingerprint, the change flag, the tainted addresses, the problems and the number of drifted addresses; argument parsing and the sorted order of the drift listing are not modelled.
- PlanGate.ManagedChanges: JSON values that `str` would convert (a number as an address, say) are taken as strings, and the action list as a list of strings.
- PlanEffect.GateIsExact: an update of a resource that is not there does nothing, and the object a create-before-destroy replacement displaces is not followed any further.
- PlanReplacement.HasChangesIff: an empty action list, or several no-ops, is announced as a change although it does nothing.
- PlanDelivery.TwoPlanDelivery: attribute values are not part of the fingerprint, so nothing is said about them; it assumes each address once, `PlanDelivery.SameScheduleDelivery` does not.
- Contract.ErrorsExact: problems are values naming the field and the clause; the English texts are not modelled. The overflow outcome does not say which problems were collected before it.
- Contract.CheckNumber: an integer below the double range converts exactly; rounding of large integers to doubles is not modelled.
- Handler.Cloud.PublishAlert: a publish that the SDK repeats after a lost answer counts as one call, although subscribers may get the message twice; subject and body of the alert are not modelled.
- Handler.Cloud.LambdaHandler: message ids are numbers, `emit_counts` is the returned totals, and logging is left out.
- Deduplication.ExactlyOnceIff: a duplicate enqueued later than the slack after the first ingestion is outside the discipline.
- Messages sit in the dead-letter queue until redriven or expired; deleting them there by hand is not modelled.
- Configuration parsing (`config.py`), metric and log formatting: environment reading and output, only easy members.
- AWS SDK internals, KMS, IAM, key policies, alarms and dashboards: their meaning lies in services outside the repository.
- `deploy.yml`, the shell and jq scripts and the MQTT publisher: workflow and I/O.
- SHA-256, `json.loads`, ISO-8601 parsing and the regular expression engine: parameters, as stated above.
- Clock skew between invocations, beyond the staleness bound on `now`.

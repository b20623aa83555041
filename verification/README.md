# Devnet explorer: a verified model

The devnet explorer shows jobs of a proving network in a browser. Events arrive
on a stream, are fanned out live to every connected client, and the last hundred
transactions are kept so that a page can be filled when it is opened. Job details
come from a Postgres store; a mock store invents jobs for development; small
protocols start and stop the services and aggregate daily statistics.

This project models that logic in Dafny 4.11 and proves what holds on every input,
every run and every interleaving. `dafny verify dfyconfig.toml` checks all of it.

## Structure

| file | about |
|---|---|
| `Model.dfy` | states, events, times, Go's saturating `time.Time.Sub` |
| `Frames.dfy` | the text frames written to clients, the rewrite applied to replayed frames, a reader for event streams after sections 9.2.5 and 9.2.6 of the HTML Living Standard |
| `RoundTrip.dfy` | when a client reads back what was meant: single frames, live and replayed, and whole streams |
| `EventBuffer.dfy`, `BufferHistory.dfy` | the replay ring with its index map, as a class and as a value; the ordered map it refines; what it holds after any run |
| `Fanout.dfy`, `Delivery.dfy`, `Guarantees.dfy` | the broadcaster as a transition system (subscriptions, single sends under the mutex, clients taking frames at any moment), and theorems on all its runs |
| `Capacity.dfy` | when a client's queue of 105 is full, and what a client must take so as to lose nothing |
| `Broadcaster.dfy` | the broadcaster object, each of whose methods is proved to take exactly steps of that system |
| `Feed.dfy`, `EndToEnd.dfy` | across components: buffer inside the fan-out, mock store feeding it, bytes read back by the client |
| `MockStore.dfy`, `MockDraws.dfy` | the mock store's job life cycle; its stream and records told from the random draws alone |
| `Jobs.dfy`, `JobLog.dfy` | the tables, `Search`'s state column, the queries of `TxInfo`; state, duration and log of a job's rows |
| `JobAnswer.dfy`, `Nonce.dfy` | what an answer of `TxInfo` tells, told from the tables; which nonces an int can be read from |
| `JobInfo.dfy`, `JobGrowth.dfy` | `TxInfo` as a whole, its agreement with `Search`, one answer per job; growth by inserts, also between its queries |
| `Aggregator.dfy`, `Runner.dfy`, `Format.dfy` | daily statistics, start and stop of services, display of large counts |

A mutating component appears twice: as a class whose methods update fields in
place, and as a function on values which those methods are proved to compute.
Lemmas are about the functions, and so hold of the objects. Reference definitions
(`Accepted`, `Kept`, `Snapshot`, `Found`, `Writer`, `Admissions`, `Committed`, `SeenDay`, `Asked`, ...) are read off a
run's list of steps, never off the state reached.

## What the code does that its text does not say

Each of these is kept as the code has it. Where it makes a property fail, an input and
the exact condition are proved.

* `add` deletes the map entry of the slot it takes, and a free slot's transaction is
  `""`. Once an event with an empty `TxID` is resident and slots are still free, a
  new transaction removes that event's live entry (`EventBuffer.StoreRefinesIff` for one
  add, `BufferHistory.BijectionIff` for whole runs, `BufferHistory.UnnamedExample`).
* `writeAllToCh` starts one past `headIndex`: on a full ring the oldest entry comes
  last (`EventBuffer.ReplayOrder`).
* A Submitted event's live frame is typed `tx-row` already. `add` still replaces the first
  `event: <TxID>`, so a `TxID` that is a proper prefix of `tx-row`, or a row that contains the
  text, garbles the stored frame (`RoundTrip.RoundTripIff` for one frame, `RoundTrip.StreamIff`
  for streams, `RoundTrip.PrefixExample`).
* `nextID` is a uint64 that wraps. A client subscribed under the id of one that is still there
  takes its place in the table, and when the older one unsubscribes it deletes the newer one's
  entry. A client stays in the table until it unsubscribes exactly when neither happens to it
  (`Delivery.ReachableIff`); once out of it, it is sent nothing more, ever (`Delivery.NothingMore`). Up
  to 2^64 subscriptions neither can happen (`Fanout.FewSubscriptions`).
* The comment "Finalize run job as complete after two verifications" is not what
  happens: the loop assigns to a copy of each entry (and compares with more than two), so
  no log entry is ever Complete; and since `stateFromKind` never yields Complete the
  "user id" branch is dead (`JobLog.LogNeverComplete`).
* For proof rows `Search` and `TxInfo` disagree outside two cases
  (`JobInfo.AgreementIff`, `JobInfo.DisagreementExample`). Where the CASE gives NULL, which
  `State.Scan` refuses, the whole of `Search` fails (`JobInfo.NullStateIff`).
* `TxInfo` takes the program of any workflow step of the run, not of step 1
  (`JobAnswer.ProverIff`, `JobInfo.ProverExample`).
* `getJobDuration` takes a zero timestamp for "none yet". Its result depends on the order the
  rows come in exactly when some timestamp is zero, not all are, and the others lie on one side of zero
  (`JobLog.OrderIff` for rows, `JobInfo.JobDurationIff` for answers, `JobLog.ZeroTimestampMatters`).
* A transaction row can be one that no `gevulotTransaction` holds: `created_at`, `propagated` and
  `executed` may be NULL and `created_at` infinite, and `nonce`, a numeric (testdata/tables.sql:202-206), may
  be fractional or larger than an int. One such row makes `TxInfo` fail for its whole job
  (`JobGrowth.AnswersWhen`, `JobGrowth.NullSilences`, `JobGrowth.NonceSilences`).
* The mock's `TxInfo.State` is Proving from the start, while its log says Submitted.
* `monotonicDay` truncates toward zero, so the day that begins at a midnight before 1970 is
  taken for two. By the aggregator's own days every new row is of a later day than all before it
  exactly when no insert that was committed but reported as failed is followed by another of its day or an
  earlier one (`Aggregator.DaysIncreaseIff`, `Aggregator.UnacknowledgedRepeats`); by the calendar's
  exactly when, besides, no tick is committed later on the day that the midnight of an earlier row
  began before 1970 (`Aggregator.CalendarIff`, `Aggregator.TwoRowsInOneDay`). Such times come only from
  a system clock set to before 1970, or a row with such a `created_at`: a clock reset to the epoch reads 1970.
  From 1970 on, with every insert reported as it was, `Aggregator.OneRowPerDay` needs nothing more.

## Assumptions

* A database is well formed when its keys and foreign keys hold and rows have the kind
  their table is for: a proof row is a `proof` transaction whose parent is a `run`, a
  verification row a `verification` transaction whose parent has a proof row. The schema
  enforces only the keys.
* Delivery theorems speak of clients that no step takes out of the table (`Fanout.Keeps`), whatever
  becomes of other clients and ids; up to 2^64 subscriptions that is every client.
* A numeric reaches `database/sql` as text, and an int is read from it as `strconv.ParseInt` does.
* `slices.SortFunc` may order equal timestamps as it likes, and queries without `ORDER BY` may
  return rows in any order: theorems quantify over every such answer.
* `TxInfo`'s queries run outside a transaction: each may see its own state of the database.
* Random values, ids and clock readings are parameters; sha512 ids are assumed fresh (`MockStore.Fresh`).
* Timers are nondeterministic: a retry to a full queue ends in a timeout or in a send after the
  client took something; with room, either may happen.

## Model

| member | source | states |
|---|---|---|
| EventBuffer.StoreRefinesIff | api/event_buffer.go:33-50 | from any ring whose map is a bijection onto the occupied slots, one add keeps the bijection exactly when it does not orphan a resident unnamed event, and is then the insertion-ordered map's operation: update in place unless lower, else append and drop the oldest at capacity |
| EventBuffer.UpdateRefines | api/event_buffer.go:44-49 | a known transaction whose state is not lower changes its own entry in place and nothing else, position included |
| EventBuffer.AppendRefines | api/event_buffer.go:36-41 | a new transaction in a ring with free slots becomes the youngest entry |
| EventBuffer.EvictRefines | api/event_buffer.go:36-41 | a new transaction in a full ring becomes the youngest entry and the oldest disappears from slots and map |
| EventBuffer.FindResident | api/event_buffer.go:10-24 | a transaction is in the map exactly when the ordered map has it, and the map's index is the slot of that entry |
| EventBuffer.ReplayOrder | api/event_buffer.go:52-59 | writeAllToCh sends each occupied slot once, in admission order while a slot is free, rotated by one (oldest last) when full |
| EventBuffer.EmittedGrows | api/event_buffer.go:52-59 | no turn of writeAllToCh sends more than one frame, so at most as many as there are slots |
| EventBuffer.Buffer.constructor | api/event_buffer.go:26-31 | a fresh empty ring of the given size |
| EventBuffer.Buffer.Add | api/event_buffer.go:33-50 | the in-place update computes exactly the modelled operation on the ring |
| EventBuffer.Buffer.WriteAllToCh | api/event_buffer.go:52-59 | fills the queue with the whole replay, or blocks exactly when it does not fit |
| BufferHistory.RunRefines | api/event_buffer.go:33-50 | over any run of adds that orphans nothing the ring is the bounded insertion-ordered map and the bijection holds |
| BufferHistory.AdmissionsDistinct | api/event_buffer.go:35-42 | any n+1 consecutive admissions are of pairwise distinct transactions |
| BufferHistory.ResidentIsRecent | api/event_buffer.go:35-42 | a transaction is resident exactly when it is among the last n admissions |
| BufferHistory.Residents | api/event_buffer.go:35-42 | no transaction is resident twice |
| BufferHistory.History | api/event_buffer.go:33-50 | the ordered map holds the last min(n, k) admissions, each with the highest state since it was admitted and the data of the last add that reached it |
| BufferHistory.RingHistory | api/event_buffer.go:33-50 | the same of the ring itself, after any run of adds that orphans nothing |
| BufferHistory.BijectionIff | api/event_buffer.go:33-50 | for any run of adds, named or not, the map stays a bijection throughout exactly when no new transaction comes after an unnamed one before n names have been seen |
| BufferHistory.OrphanBreaks | api/event_buffer.go:37 | the first such add breaks it |
| BufferHistory.UnnamedExample | api/event_buffer.go:37 | two adds that break it |
| Frames.ReplaceEarliest | api/event_buffer.go:34 | the rewrite replaces the earliest occurrence and nothing else |
| Frames.ReplaceAbsent | api/event_buffer.go:34 | without an occurrence the rewrite changes nothing |
| Frames.FrameRead | api/broadcaster.go:136-140 | a frame of single-line parts is read as one message and leaves the reader in its initial state |
| Frames.FrameIff | api/broadcaster.go:136-140 | for any type and row at all, a frame is read back as exactly them if and only if both are single lines and the type is not empty |
| Frames.LinesNeeded | api/broadcaster.go:136-140 | any message read took a line end for each line of its data, for the empty line, and for a type of its own |
| Frames.LineEnds | api/broadcaster.go:136-140 | the reader takes LF, CRLF and CR for line ends alike and skips a leading byte order mark |
| RoundTrip.StrikesAt | api/event_buffer.go:34 | in a Submitted frame a one-line TxID is found only at the start, as a prefix of tx-row, or inside the row |
| RoundTrip.OccursIff | api/event_buffer.go:34 | so for one-line TxIDs the rewrite spares the frame exactly when the TxID is no prefix of tx-row and the row does not name it |
| RoundTrip.StruckRow | api/event_buffer.go:34 | a row of any number of lines with another TxID replaced in it is never read back as it was |
| RoundTrip.StruckFrame | api/event_buffer.go:34 | a Submitted frame that the rewrite changes, whatever TxID and row, is never read back as the row it was for |
| RoundTrip.FaithfulText | api/event_buffer.go:34 | a faithful output is written as the frame of its type and row, tx-row when replayed |
| RoundTrip.RoundTripIff | api/broadcaster.go:130-142 | for every event and row, live or replayed, one frame is read back as meant exactly when type and row are single lines, the type is not empty, and the rewrite spares a Submitted frame |
| RoundTrip.StreamRoundTrip | api/broadcaster.go:130-142 | any concatenation of faithful frames is read back as exactly the list of messages sent |
| RoundTrip.FirstUnfaithful | api/broadcaster.go:130-142 | after faithful frames, the first unfaithful one is misread |
| RoundTrip.StreamIff | api/broadcaster.go:130-142 | for any events and rows, a reader that looks after every frame always finds exactly what was sent so far if and only if all frames are faithful |
| RoundTrip.PrefixExample | api/event_buffer.go:34 | a replayed Submitted event with TxID tx is read under the type tx-row-row |
| Fanout.ReplayFits | api/broadcaster.go:55-62 | a prefill fits a fresh queue |
| Fanout.SafeStep | api/broadcaster.go:50-123 | every step keeps the client table safe; it panics exactly on a repeated unsubscribe; none blocks for ever under the mutex |
| Fanout.Safety | api/broadcaster.go:50-123 | on every interleaving: no subscription blocks, a panic means a second unsubscribe, and table channels are open, distinct and under their own id with their own filter |
| Fanout.IdsUniqueIff | api/broadcaster.go:54-57 | client ids are never reused exactly as long as uint64 lasts |
| Fanout.FewSubscriptions | api/broadcaster.go:54-70 | up to 2^64 = 18446744073709551616 subscriptions no step takes a subscribed client out of the table |
| Delivery.ReachableIff | api/broadcaster.go:54-70 | a client stays in the table until it unsubscribes exactly when no other is subscribed under its id meanwhile and no other of its id unsubscribes |
| Delivery.NothingMore | api/broadcaster.go:101-122 | a client that is out of the table never gets back in and is sent nothing more |
| Delivery.BalancedStep | api/broadcaster.go:88-123 | each step keeps: what a client was sent, plus the frame it is still owed, is snapshot plus kept accepted events |
| Delivery.Invariant | api/broadcaster.go:50-123 | that balance, in every reachable state, mid-broadcast included, for every client not taken out of the table |
| Delivery.DeliveryTheorem | api/broadcaster.go:50-123 | at rest, received plus queued is the snapshot followed by the accepted events in order and once each, without exactly those whose retry timed out |
| Guarantees.TimeoutsCounted | api/broadcaster.go:114-122 | the accepted events left out are as many as the client's timed-out retries |
| Guarantees.Conservation | api/broadcaster.go:50-123 | accepted = delivered + dropped, per client and run |
| Guarantees.AttemptsTheorem | api/broadcaster.go:101-122 | a broadcast makes at most two attempts per client, the second only after the first found it blocked |
| Capacity.FirstAttemptIff | api/broadcaster.go:102-112 | the first attempt skips a client exactly if its filter rejects the event, and otherwise sends exactly while fewer than 105 of the frames sent to it are not taken, and blocks exactly when 105 are not |
| Capacity.RetryIff | api/broadcaster.go:114-122 | a retry can send exactly while fewer than 105 are not taken, and can time out at any moment |
| Capacity.KeptUp | api/broadcaster.go:55 | a client that never leaves more than 105 of the frames found and accepted untaken loses none |
| Capacity.FirstFive | api/broadcaster.go:55 | whatever it was prefilled with and even if it takes nothing, a client loses none of the first five events it accepts |
| Guarantees.WorkShrinks | api/broadcaster.go:101-122 | each step of a broadcast brings its end nearer, and clients taking frames never delay it: the retry loop does not grow |
| Guarantees.NeverStuck | api/broadcaster.go:101-122 | a broadcast can always go on without any client's help |
| Guarantees.Locked | api/broadcaster.go:51-98 | nobody subscribes, unsubscribes or begins another broadcast before one has ended |
| Guarantees.AllCovered | api/event_buffer.go:33-50 | every occupied slot, with its transaction and state, is as a late joiner found it and in its snapshot, or was last written by a broadcast its filter accepted |
| Guarantees.LateJoinTheorem | api/broadcaster.go:54-62 | at rest, everything in the replay buffer has reached every prefilled client that takes all events and dropped none: in its snapshot, with slot, transaction and state unchanged since, or live as the broadcast (transaction, state, row) that wrote the slot |
| Broadcaster.Broadcaster.constructor | api/broadcaster.go:40-48 | starts in the initial state of the transition system |
| Broadcaster.Broadcaster.Prefill | api/broadcaster.go:60-62 | the new queue holds the whole replay if asked for, else nothing, and never blocks |
| Broadcaster.Broadcaster.Subscribe | api/broadcaster.go:50-64 | takes exactly one Subscribe step |
| Broadcaster.Broadcaster.Unsubscribe | api/broadcaster.go:64-70 | takes exactly one Unsubscribe step, and panics exactly when it is the second for that channel |
| Broadcaster.Broadcaster.Attempt | api/broadcaster.go:102-112 | one non-blocking attempt is exactly one step: a skip if the filter rejects, a send below 105 queued frames, a block otherwise |
| Broadcaster.Broadcaster.Retry | api/broadcaster.go:114-122 | one retry is exactly one step on the first pending client: a send if there is room and the timer's arm is not chosen, a timeout otherwise |
| Broadcaster.Broadcaster.Start | api/broadcaster.go:89-101 | files the event in the replay buffer and begins with every client of the table |
| Broadcaster.Broadcaster.FirstPass | api/broadcaster.go:101-112 | visits every client once in any order, clients taking frames meanwhile |
| Broadcaster.Broadcaster.SecondPass | api/broadcaster.go:114-122 | visits those blocked when it starts and ends at rest |
| Broadcaster.Broadcaster.Broadcast | api/broadcaster.go:88-123 | a broadcast is a run of the transition system from its Begin back to rest |
| Feed.HeadIsStoreAll | api/broadcaster.go:100 | the buffer inside the fan-out is the result of adding the broadcast events in order |
| Feed.HeadRefines | api/broadcaster.go:16-100 | so in every reachable state whose broadcasts orphan nothing it is the ordered map, of capacity 100, of the events broadcast |
| Feed.HeadHistory | api/broadcaster.go:88-100 | and its residents are those of the history characterisation |
| Feed.NewestResident | api/event_buffer.go:44-49 | if no transaction goes backwards, each resident is its newest event, even after eviction and re-admission |
| Feed.NeverStale | api/event_buffer.go:44-46 | then the stale branch is never taken |
| Feed.MockFeedTheorem | store/mock/store.go:51-65 | any prefix of the mock's stream, broadcast among any client activity, leaves the newest event of each resident and meets no stale branch |
| EndToEnd.WriterOf | api/event_buffer.go:33-50 | a slot holds the transaction, replay frame and state of the broadcast that last wrote it, and is free if none did |
| EndToEnd.ResidentTexts | api/event_buffer.go:52-59 | a replay sends exactly the frames of those broadcasts, in slot order from the head |
| EndToEnd.MeantTexts | api/broadcaster.go:50-123 | the frames given to a client are those of the residents it found and of the accepted events kept |
| EndToEnd.ClientReads | api/broadcaster.go:50-142 | at rest, what a client has taken begins the list of residents it found, in replay order, and accepted events kept, in broadcast order; read after each frame the bytes say exactly (tx-row, row) and (event type, row) of those, if and only if they are faithful |
| MockStore.OtherRecord | store/mock/store.go:108-182 | a call changes no other transaction's record or share of the stream |
| MockStore.TickValid | store/mock/store.go:108-182 | every call keeps logs in step with the stream and each unfinished transaction in one slot, and never indexes an empty log |
| MockStore.RunValid | store/mock/store.go:108-182 | the same after every run with fresh ids |
| MockStore.LifeSpelled | store/mock/store.go:110-161 | following the switch spells a prefix of Submitted Proving Verifying+ Complete |
| MockStore.AtMostParallelism | store/mock/store.go:17-19 | at most Parallelism transactions are unfinished |
| MockStore.LifeTheorem | store/mock/store.go:108-182 | on every run: each log spells such a prefix, equals the stream's projection in states and times, is signed by user, prover and nodes, and ends in its slot's state; a finished duration is last minus first log time |
| MockDraws.StreamTheorem | store/mock/store.go:108-194 | every event is made by its draw and the last event of its slot: a new transaction from the draw if the slot was free, else the same transaction one state on; each slot holds its last event |
| MockDraws.FairIff | store/mock/store.go:109-194 | a draw keeps a run fair exactly if it picks one of twenty slots and brings, when that is free, an id no event had |
| MockDraws.RecordTheorem | store/mock/store.go:111-178 | every record is what its draws made: user, prover and transaction of the first; in the log the times, the user's, the prover's and then each verifier's drawn id, and the states; a finished duration is last minus first drawn time |
| MockStore.TickRises | store/mock/store.go:110-162 | a call's event is no lower than any earlier event of its transaction |
| MockStore.RunRises | store/mock/store.go:108-182 | no transaction goes backwards in the stream, and every event names its transaction |
| MockStore.Store.constructor | store/mock/store.go:31-37 | the empty store |
| MockStore.Store.NextEvent | store/mock/store.go:108-182 | the in-place update of slot and record computes the modelled step and returns its event |
| MockStore.Store.Run | store/mock/store.go:51-65 | events are appended before they are offered, so what was sent is all events or all but the last |
| Jobs.GetState | store/pg/store.go:392-414 | the loop computes the state of the counts of proofs and verifications |
| Jobs.CountIncluded | store/pg/store.go:396-402 | counts respect multiset inclusion of rows |
| Jobs.StateMonotone | store/pg/store.go:392-414 | the state never falls when rows are added, and does not see their order |
| Jobs.RowByKey | store/pg/store.go:262-268 | the query returns exactly the run, its proofs and the verifications of those |
| Jobs.ProofRows | store/pg/store.go:265 | its proof rows are as many as SQL counts proofs of the run |
| Jobs.VerificationRows | store/pg/store.go:267 | its verification rows are as many as there are verifications of those proofs |
| Jobs.JoinedOnce | store/pg/store.go:214-217 | the join in the CASE counts each verification once |
| Jobs.RowCounts | store/pg/store.go:262-268 | in any order, the rows carry exactly the counts the CASE takes |
| JobLog.GetJobDuration | store/pg/store.go:375-390 | the loop computes end minus begin, saturated |
| JobLog.BeginIs | store/pg/store.go:380-382 | begin is some row's timestamp, and the earliest if that is before zero or nothing is zero; otherwise it is zero exactly when the last row's is |
| JobLog.DurationIff | store/pg/store.go:379-389 | for any rows, begin and end are the earliest and latest timestamps exactly when none is zero, the last is, or some lie on each side of zero; the duration is never negative |
| JobLog.OrderIff | store/pg/store.go:375-390 | all orders of the rows give one duration exactly when no timestamp is zero, all are, or some lie on each side of zero |
| JobLog.ZeroTimestampMatters | store/pg/store.go:380-386 | two rows whose duration is 0 in one order and 5 in the other |
| JobLog.TxLogEventsFromTxs | store/pg/store.go:429-463 | the log is a timestamp-sorted permutation of the mapped rows |
| JobLog.LogNeverComplete | store/pg/store.go:439-460 | every log entry is some row's, so none is Complete and none shows a user id |
| JobLog.LogSpan | store/pg/store.go:375-463 | for such rows the duration is last minus first timestamp of the log, in nanoseconds up to 2^63 - 1, and not negative |
| JobLog.SameLog | store/pg/store.go:446-449 | logs of the same rows agree up to the order of equal timestamps |
| JobInfo.StateAcross | store/pg/store.go:294-322 | the state TxInfo reports is that of the run's counts in the tables its third query sees |
| JobAnswer.StateTold | store/pg/store.go:404-413 | an answer is Submitted without proofs, Proving while none is verified, Verifying with one or two verifications and Complete from three on |
| JobAnswer.LogTheorem | store/pg/store.go:416-463 | an answer's log has one Submitted entry, one Proving entry per proof and one Verifying entry per verification, each with author and time of a transaction of that kind in the job, and one for each such transaction |
| JobAnswer.DurationTold | store/pg/store.go:315-322 | an answer's duration is last minus first timestamp of its log, up to 2^63 - 1, for order-free rows |
| JobAnswer.ProverTold | store/pg/store.go:300-320 | an answer's prover is the program of a workflow step of its run |
| JobAnswer.StepAnswers | store/pg/store.go:300-305 | the program of every such step is the prover of some answer |
| JobAnswer.ProverIff | store/pg/store.go:300-305 | the prover is determined exactly when all workflow steps of the run name one program |
| JobInfo.AgreementIff | store/pg/store.go:211-230 | Search's state equals TxInfo's for run and verification rows, and for a proof row exactly with (one proof, no verification) or (two proofs or more, some verification) |
| JobInfo.DisagreementExample | store/pg/store.go:219-224 | one proof with one verification: Search shows the proof as Proving, TxInfo as Verifying |
| JobInfo.NullStateIff | store/pg/store.go:211-230 | the CASE gives NULL exactly for a proof without a proof row or of several with none verified, a verification without a run, and any other kind |
| JobInfo.TxInfoQuery | store/pg/store.go:254-325 | returns an error exactly for unknown or rootless transactions, jobs with a row that cannot be scanned, and runs without steps, else an info made of the job's rows, whatever its queries see |
| JobInfo.FamilyRoot | store/pg/store.go:255-292 | asking for a readable row resolves to a run exactly for the run, its proofs and their verifications, and that row is among those of the job |
| JobInfo.FamilyAsks | store/pg/store.go:254-325 | asking any member of a job is the same question |
| JobInfo.FamilyTheorem | store/pg/store.go:254-325 | any two members of a job, whatever their timestamps, give the same outcome, state, transaction, user and log up to the order of equal timestamps, and each answer to one is a possible answer to the other |
| JobInfo.JobDurationIff | store/pg/store.go:315-318 | all answers show one duration exactly when no timestamp of the job is zero, all are, or some lie on each side of zero |
| JobInfo.ProverExample | store/pg/store.go:300-305 | two steps with two programs give two answers |
| JobGrowth.InsertsExtend | testdata/tables.sql:343-376 | inserts that respect the keys keep the database well formed and every row it had |
| JobGrowth.AcceptsIff | testdata/tables.sql:343-376 | an insert is accepted exactly if its key is unused and the database stays well formed |
| JobGrowth.CountsGrow | store/pg/store.go:213-217 | then no count the CASE takes goes down |
| JobGrowth.AnswersWhen | store/pg/store.go:254-305 | TxInfo answers exactly for members of a run's job that has a workflow step and whose every transaction can be scanned, and with that run |
| JobGrowth.AnswersAcross | store/pg/store.go:254-305 | with inserts between its queries TxInfo answers exactly if the row of the first can be scanned, the parent is that of the second, all rows of the third can be scanned and the last finds a step |
| JobGrowth.StateNeverFalls | store/pg/store.go:254-325 | along any accepted inserts a job stays answerable exactly while all its rows can be scanned, keeps its run and never reports an earlier state |
| JobGrowth.UnreadableSilences | store/pg/store.go:294-298 | inserting any proof whose row cannot be scanned makes an answerable job unanswerable |
| JobGrowth.NullSilences | store/pg/store.go:64-73 | such as one with a NULL |
| JobGrowth.NonceSilences | store/pg/store.go:68 | or, without any, one with the nonce 1.5 |
| Nonce.Int64Iff | store/pg/store.go:68 | an int is read exactly from an optional sign and digits worth at most 2^63 - 1, or 2^63 after a minus |
| Nonce.ReadableIff | store/pg/store.go:64-73 | a row with an integer nonce can be scanned exactly if that has 64 bits, nothing is NULL, the time is finite and the kind known |
| JobGrowth.AnswerBetween | store/pg/store.go:254-305 | with rows inserted between TxInfo's queries, the state reported lies between the job's at the first and at the last, and the run is the same |
| Aggregator.DaysAgreeIff | stats/aggregator.go:63-66 | monotonicDay is the calendar day from 1970 on, and before it only at midnight |
| Aggregator.MistakenIff | stats/aggregator.go:48 | when monotonicDay tells two times apart, the calendar does too unless the first is a midnight before 1970 and the second later that day |
| Aggregator.AccountedRun | stats/aggregator.go:29-61 | over any run the rows are the first ones and those of the committed ticks, the newest is of the latest day seen, and the memory is of the latest day known |
| Aggregator.UpIff | stats/aggregator.go:29-60 | the aggregator is up exactly when some boot succeeded and nothing has halted since |
| Aggregator.TicksWhileRunning | stats/aggregator.go:44-58 | no tick does anything at any other time |
| Aggregator.FirstTick | stats/aggregator.go:35-54 | on an empty store the first tick is committed exactly for times after the start of year 1 |
| Aggregator.MemoryOfRun | stats/aggregator.go:39-54 | whatever the clock shows, a committed tick is of a later day than every first row and every acknowledged one before it |
| Aggregator.DaysIncreaseIff | stats/aggregator.go:29-66 | over any run with failures, restarts and clock steps, inserted rows are of increasing days exactly when no committed insert reported as failed is followed by another of its day or an earlier one |
| Aggregator.CalendarIff | stats/aggregator.go:29-66 | by the calendar exactly when, besides, no tick is committed later on the day that an earlier row's midnight before 1970 began |
| Aggregator.TwoRowsInOneDay | stats/aggregator.go:63-66 | two ticks of one day before 1970, both committed |
| Aggregator.UnacknowledgedRepeats | stats/aggregator.go:50-54 | a commit reported as a failure and a second one a minute later |
| Aggregator.Run | stats/aggregator.go:29-61 | the loop leaves in the store the rows of the modelled steps |
| Runner.SafeStep | app/runner.go:21-50 | each step keeps the shutdown protocol safe |
| Runner.Safety | app/runner.go:21-50 | on every interleaving the channel is closed at most once and only if asked, each Stop is called at most once and after the close, and Run returns after every Run and Stop |
| Runner.WorkShrinks | app/runner.go:32-45 | each goroutine step uses up one unit of the work left, external stops none |
| Runner.StepsTaken | app/runner.go:32-45 | a complete run takes 6n+2 goroutine steps whatever the interleaving, and only a returned one has none left |
| Runner.NeverStuck | app/runner.go:32-50 | once a Run has returned or somebody stopped, some guaranteed step is possible until Run returns |
| Runner.SomebodyCanGo | app/runner.go:44 | while Wait waits, some goroutine can go on |
| Runner.Runner.constructor | app/runner.go:21-30 | starts in the initial state for n runnables |
| Runner.Runner.CloseOnce | app/runner.go:26 | closes at the first call only |
| Runner.Runner.Stop | app/runner.go:48-50 | is one external stop step |
| Runner.Runner.ScheduleRun | app/runner.go:35-38 | the running goroutine goes one step, closing when it leaves |
| Runner.Runner.ScheduleStop | app/runner.go:39-42 | the stopping goroutine goes one step, only after the close |
| Runner.Runner.SpawnNext | app/runner.go:33-43 | spawns the two goroutines of each runnable in order |
| Runner.Runner.Wait | app/runner.go:44 | returns with every goroutine done, whatever their order |
| Runner.Runner.Run | app/runner.go:32-45 | the whole of Run ends with every goroutine done |
| Format.PrefixValue | api/templates/index_templ.go:872-874 | a prefix of the decimal digits is the number cut at the power of ten dropped |
| Format.LargeShown | api/templates/index_templ.go:869-883 | from 1000 on the text denotes m units with 10 <= m < 10000 that cut the count |
| Format.DisplayBound | api/templates/index_templ.go:869-883 | for every uint64 the text never overstates the count and is short of it by less than a unit of its last digit; below 1000 it is exact |
| Format.DisplayMonotone | api/templates/index_templ.go:869-883 | a larger count is never shown as a smaller number |

## Left out

- Delivery.DeliveryTheorem: says nothing of a client from when a step takes it out of the table by its id; from there on it is sent nothing (Delivery.NothingMore).
- Channels are values in a table of handles: there is no aliasing of Go channels, and byte slices are strings.
- `Broadcaster.Run` and `Stop`: runs already quantify over every sequence of broadcasts and where it ends.
- The error path of `writeEvent`: the rendered row is a parameter; a broadcast whose row does not render has no effect.
- HTML rendering, assets and the server-sent-events script: user interface.
- HTTP handlers, server, routing and push: input and output.
- Postgres listen and notify, SQL drivers, JSON: foreign calls.
- `Search`'s predicate, its limit of 50 rows and its other columns: only the state column is compared.
- The signature column, and the values of nonce, propagated and executed beyond whether they can be scanned: nothing modelled reads them.
- Failures of the drivers other than on what a row holds: foreign calls.
- Errors returned by runnables and collected by the wait group: every Run and Stop just returns.
- Deletes and their cascades: job growth is about inserts.
- The algorithm of `slices.SortFunc`: the method sorts by insertion, and theorems quantify over every sorted order.
- Delta percentages, `formatDuration`, `formatPercentage`: floating point rounding.
- `ParseState`, ranges and their parsing: finite tables.
- The statistics cache, signal handler, configuration, `main`, `magefile.go`, the mock's statistics and search: only easy members.
- Real time: timers and tickers are steps that may happen at any moment; no claim is made on how long anything takes.

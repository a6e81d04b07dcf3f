# RiskGate verification

A Dafny 4.11 model of RiskGate, a fraud rules engine, with proofs. Much of RiskGate is an efficient way to get what an
obvious program would give: a pipeline for a loop, column operators for a condition, a ring of counters for a list of
events. Here the obvious programs are the specifications, and the efficient ones are proved against them. Check it with

    dafny verify --resource-limit 2000000 dfyconfig.toml

Source paths below are relative to the repository's root.

## What is modelled

**The stream pipeline** (internal/stream). Payments arrive in partitions. Routers fan each out to aggregators, by
entity key, and to a joiner, by payment id; aggregators merge their sources by watermark, apply the events in order
to velocity state and send numbered parts; joiners put the parts together and decide. `System` is the state machine
of all of them with the logs and queues between them, in which a router, an aggregator or a joiner may crash at any
moment and starts again from what it committed or saved. The theorems are in `StreamTheorems` and `Draining`: every
decision is made on the row that single-threaded `Replay` writes; no payment that a joiner has decided can be pending in
what it recovers; nothing is late or refused; and a run can always be continued until every payment is decided.
Each part is proved against its own contract first: `Merging` and `Merger` (the watermark merge),
`Routing` and `RouterTask`, `Aggregating` and `AggregatorTask`, `Joining` and `JoinerTask`, `Channels` (what a log
promises while its sender resends), `Parts` and `Velocity` (why state split by key gives the rows of one state),
`Invariant`, `Preserved` and `Pipeline` (the global invariant and its steps). The delivery contract of a stage is
not assumed: it is proved of what the stage before it sends.

**Velocity windows** (internal/features). `Windows` says what a feature means on the plain list of a key's events.
`Exact` is the entry with lazily committed expiry, with its snapshot encoding; `Keyed`, `Engine` and `Replay` are the
store, the engine that writes rows in place, and the reference; `Payments` reads a row back in dollars, payments and
seconds. `Bucketed`, `CountMin` and `Recency` are the approximate stores with their one-sided errors; `Concurrent` is
the concurrent map with its fresh and dead flags, linearised against the sequential store; `Deques` is the ring
buffer.

**Rules** (internal/rules, internal/backtest). `Language` gives a checked condition its Kleene value, and `Meaning`
says in plain terms, by the reals' own order and arithmetic, what that value is. `Closures` is the compiler to per-row
closures, `Text` its lazily lowered strings; `VectorCompiler`, `VectorEval` and `EvalMany` are the compiler to column
operators and its kernels over 64-row words. `RuleSets` decides a payment online, `Decisions` a whole table on
bitmaps, `Backtests` what a proposed rule would change. `Lexing`, `Parsing` and `Printing` are the rule text in both
directions, `Grouping` how a line groups; `Readings` (the parser's loop, turn by turn), `Places` (an operand addressed
by its path) and `Parentheses` say which of the printed parentheses are needed.

**Durability** (internal/service). `Labels` is the label store with its write-ahead log; `Idempotency` is keyed
requests against a snapshot that copies velocity shards one at a time, and `AnswerStore` the store of answers it uses,
with expiry and eviction; `Replies` is what a request may be told.

**Trees** (internal/model). `Trees` is the walk of a gradient-boosted model and its Saabas contributions.

Code that changes state in the source is modelled by classes and by methods over arrays and sequences, each proved
against a function of the old state; the laws are lemmas about those functions.

## What is assumed

- Partition functions of keys and payment ids, and every other hash, are fixed functions.
- Positions (DT, ID) rise strictly within a payments partition, and no two payments share a position or an id
  (`Feed.Sound`).
- A log keeps what was appended, in order, and one instance of each task is live. Snapshot files are replaced atomically
  and name the offset up to which their state has read. An append to the label log may fail half-way.
- A mutex excludes, so what is done under one is one step; the calls of a concurrent map are atomic.
- UTF-8 decoding and `unicode.ToLower` satisfy `Text.Sane` on the runes decoding yields; decimal text of a number
  that was read reads back as that number (`Lexing.Faithful`).
- A number is NaN, an infinity or a real. The compilers and the specification share one arithmetic.

## Where the code differs from what it says

- internal/features/concurrent.go:244-258: overlapping sweeps count a key twice, since `EvictIdle` does not ask
  whether the entry it has locked is already dead. `Concurrent.OverlappingSweepsCountTwice` is a run;
  `Concurrent.SweepCountsExactly` says when exactly the count is right, `Concurrent.CountIsRemovalsAndRecounts` how
  far it is off, and `Concurrent.SweepCountsItsKeys` that sweeps which do not overlap count right.
- internal/model/predict.go:82-95: a value between -1 and 0 at a categorical node whose bit set is empty indexes
  past the set. The parser accepts such a node (`Trees.EmptySetPanics`); `Trees.Leaf` says exactly which walks
  panic, and `Trees.FullSetsWalk` that none does without an empty set.
- internal/rules/printer.go:11-14: the printer promises only the parentheses precedence requires. It encloses every
  operand that binds looser than its place allows, and two of those can stand bare: a "not" in last position, as long
  as what follows it binds no tighter than "not"; and a membership test to the left of arithmetic, where the parser
  still folds comparisons. `Parentheses.NeededOrSpare` is that condition, both ways, for every operand of every
  condition; `Parentheses.OnlyNeeded` says on which conditions the promise is kept; `Printing.NotAlwaysFewest` is an
  example where it is not.
- internal/rules/parser.go:14-32: the table of precedence has arithmetic tighter than `in`, but once a list is read the
  parser goes on with whatever follows, so a membership test stands bare to the left of a sum or a product.
  `Grouping.TestsStandBare` says when; everything else groups by the table (`Grouping.GroupsByOrder`).
- internal/service/labels.go:208-228: an append that fails half-way leaves a fragment, and the next append writes its
  line right after it. That line is acknowledged, but a restart cannot read it and refuses the whole log.
  `Labels.FragmentSpoils` is the run; `Labels.SpoiltExactly` says when exactly a log is spoilt, and
  `Labels.NothingAcknowledgedIsLost` what holds of a restart on one that is not.

## Model

| member | source | states |
|---|---|---|
| StreamTheorems.DecisionsAreReplays | internal/stream/join.go:139-184 | Whatever the partition counts, the interleaving, the resends and the crashes, every decision ever written, the first or one sent again, is of a payment of the stream: the row it logs is the one single-threaded replay writes for that payment with the model's score of it, if there is a model, in the score's slot, and its verdict is what the rules say of the row it logs. |
| StreamTheorems.DecisionsAgree | internal/stream/join.go:139-184 | Two decisions about one payment, by whichever run of a joiner, are the same decision. |
| StreamTheorems.DecidedOnce | internal/stream/join.go:90-125 | In the state a joiner runs with, and in the one it would recover, a payment is pending or decided but never both; the counter of decisions is the number of payments decided, each of them belongs to this joiner, and the decision of each is written or waiting to be. |
| StreamTheorems.NothingGoesWrong | internal/stream/aggregate.go:45-73 | In every state a run reaches no position has gone backward, no event is late, and whatever an aggregator or a joiner has still to read it handles without an error. |
| StreamTheorems.AppliedInOrder | internal/stream/merge.go:137-152 | What an aggregator has applied is a prefix of the sorted merge of its sources, namely exactly the events routed to it that are at or before its minimum watermark. |
| StreamTheorems.NothingLeftPending | internal/stream/join.go:90-125 | When every source has been routed to its final heartbeat and everything sent has been handled, no joiner holds a payment pending and every payment of every source has its decision on the topic of its joiner. |
| StreamTheorems.HistoryExists | internal/features/replay.go:18-34 | The payments of any stream that keeps the input contract can be put in one order that replay accepts. |
| StreamTheorems.HistoryIsOrdered | internal/features/replay.go:18-34 | Such an order is by time and, within a second, by id, each payment once. |
| Draining.EveryPaymentCanBeDecided | internal/stream/runner.go:300-396 | From any state a run reaches, whatever has crashed or is in flight, some legal sequence of steps ends with every input handled, nothing pending and every payment decided, provided each source ends with the final heartbeat. |
| Pipeline.StepInv | internal/stream/runner.go:300-547 | Each of the fourteen kinds of step (handling, sending, promising, committing, checkpointing and crashing of routers, aggregators and joiners) keeps the invariant that ties every log, queue, snapshot and state to the payments. |
| Pipeline.ReachableInv | internal/stream/runner.go:300-547 | Every state of every run satisfies that invariant. |
| Merging.StepInv | internal/stream/merge.go:105-152 | An input that keeps the delivery contract is accepted and keeps the merger's invariant; in particular nothing is late and what is released extends what was released before in order. |
| Merging.ReleasesInOrder | internal/stream/merge.go:91-152 | After any number of records of a log that keeps the contract, whatever the interleaving and the resends, the events released are exactly the distinct received ones at or before the minimum watermark, each once and in strictly increasing order; late stays 0, and at the last watermark they are all the events there are. |
| Merging.DueAndNotDue | internal/stream/merge.go:137-152 | The sorted buffer splits at the minimum watermark into what is due and what stays, each in order. |
| Parts.PartIsReplays | internal/stream/aggregate.go:88-106 | The part an aggregator makes for its n-th event carries the values replay computes for that payment's entity, although the aggregator sees only its own keys. |
| Joining.StepInv | internal/stream/join.go:90-125 | Every part that keeps the contract is accepted and keeps the joiner's invariant; a payment is decided only by the first arrival of its last part, never a second time. |
| Joining.AssembledIsReplays | internal/stream/join.go:139-184 | The row put together from a complete payment's parts is the row replay writes, missing entities included. |
| Joining.DecisionIsReplays | internal/stream/join.go:139-184 | A decision made under the contract logs replay's row of its payment with the score written in, and its verdict is the rules' on that very row. |
| RouteFacts.HandleSendsEvents | internal/stream/route.go:57-92 | Handling a payment sends each aggregator exactly the payment's events whose keys it owns, in entity order. |
| RouteFacts.HandleSendsBase | internal/stream/route.go:57-92 | Handling a payment sends its base part to the joiner its id belongs to and to no other. |
| AggregateFacts.HandleSendsParts | internal/stream/aggregate.go:45-106 | Handling an input sends each joiner exactly the parts, with consecutive sequence numbers, of the events this input releases. |
| Preserved.RouterCommitted | internal/stream/runner.go:452-480 | A router that has flushed its events and watermarks, and one started afresh from the offset it then commits, stand in the same invariant to the logs, so resending is safe. |
| RouterTask.Router.Handle | internal/stream/route.go:57-92 | In place: moves the position forward (or counts a violation), fans the record out, and leaves the outputs and the state of the routing specification. |
| RouterTask.Router.FanOut | internal/stream/route.go:57-92 | One event for every entity of the payment with a key, to the partition that owns the key, and the set of those entities. |
| RouterTask.Router.Watermarks | internal/stream/route.go:113-123 | A watermark for every aggregator when the position has moved since the last ones, and none otherwise. |
| Merger.Merger.Add | internal/stream/merge.go:105-121 | In place: an event not after its source's mark is dropped and counted, one at or before the minimum watermark is late, any other is buffered; the state is the specification's. |
| Merger.Merger.Watermark | internal/stream/merge.go:125-133 | A source's watermark only moves forward. |
| Merger.Merger.Release | internal/stream/merge.go:137-152 | Popping the least event while it is due gives out exactly the due events in release order and leaves the others. |
| Merger.Merger.LowMark | internal/stream/merge.go:91-99 | The loop finds the least watermark. |
| Merger.Merger.Encode | internal/stream/merge.go:169-194 | The image holds the whole state, buffered events in release order. |
| Merger.Merger.Decode | internal/stream/merge.go:196-224 | An image of another number of sources is refused and changes nothing; any other image a merger wrote gives back its state. |
| AggregatorTask.Aggregator.Handle | internal/stream/aggregate.go:45-73 | In place on merger, velocity state and reused row: an input that is handled leaves the specification's state and, while events come in time order, gives the specification's parts; it fails only on an input the merger refuses or an event without its key. |
| AggregatorTask.Aggregator.HandleDelivered | internal/stream/aggregate.go:45-73 | Under the delivery contract handling never fails: every event released has its key and comes in time order, so the new state and the parts are exactly the specification's, and the merger's invariant goes on. |
| AggregatorTask.Aggregator.Snapshot | internal/stream/aggregate.go:110-124 | The image stands for the whole state: applied count, merger and velocity entries. |
| AggregatorTask.Aggregator.Restore | internal/stream/aggregate.go:126-145 | A new aggregator that reads an image back has exactly the state the image was taken of. |
| JoinerTask.Joiner.Handle | internal/stream/join.go:90-125 | In place on the pending map, the two duplicate marks, the counters and the reused row: the state and the decision are the specification's, and a part of the wrong width is an error that changes nothing. |
| JoinerTask.Joiner.Decide | internal/stream/join.go:139-184 | The reused row, written over, becomes the row of the assembled parts with the score in its slot, whatever it held before, and the verdict is the rules' on it. |
| JoinerTask.Joiner.Snapshot | internal/stream/join.go:201-240 | The image stands for the whole state. |
| JoinerTask.Joiner.Restore | internal/stream/join.go:242-286 | A new joiner that reads an image back has exactly the state the image was taken of. |
| Windows.ViewIsPlainList | internal/features/exact.go:62-128 | A history that forgets expired events answers every read as the plain list of all recorded events does: number and sum of the events inside each window, and the distinct cards of the day. |
| Velocity.ForgettingKeepsWindows | internal/features/keyed.go:50-62 | Although a key idle for the TTL is forgotten and starts afresh, its counts, sums and distinct cards are always those of every payment the key ever had. |
| Velocity.AgreesForever | internal/features/keyed.go:64-73 | A store that swept an idle key and one that did not answer alike then and ever after, so when sweeps run makes no difference. |
| Velocity.SamePaymentsSameTrail | internal/features/replay.go:18-34 | In time order there is only one way to apply a set of payments to a key. |
| Exact.ExactEntry.Read | internal/features/exact.go:62-87 | The walk over copied totals returns the counts, sums, distinct cards, first and last of the recorded events at that time; nothing is changed. |
| Exact.ExactEntry.Add | internal/features/exact.go:118-128 | Expiring, dropping and pushing in place records the event, at the latest time if it is late; the totals still describe the history. |
| Exact.ExactEntry.Encode | internal/features/exact.go:158-173 | The image lists the events by their distances in time and where each window starts. |
| Exact.ExactEntry.Decode | internal/features/exact.go:175-213 | Rebuilding totals and cards with base 0 from an image of a history gives a valid entry that stands for that history; an image with impossible starts is refused. |
| Keyed.Keyed.Read | internal/features/keyed.go:41-46 | The features of the key's history, or unseen when there is none or it is idle. |
| Keyed.Keyed.ReadAdd | internal/features/keyed.go:50-62 | Answers as of the event's time, then records the event, into a fresh entry when the old one is idle; no other key changes. |
| Keyed.Keyed.EvictIdle | internal/features/keyed.go:64-73 | Frees exactly the idle keys and returns how many. |
| Keyed.Keyed.Restore | internal/features/keyed.go:99-108 | Reading the images of a store back gives that store; a refused image leaves everything as it was. |
| Engine.Engine.ScoreAndUpdate | internal/features/engine.go:171-184 | While payments come in time order the row written is exactly the catalog's row of the payments applied so far, and the payment is then added to each of its keys; sweeps in between do not show. |
| Engine.Engine.ScoreAndUpdateEntity | internal/features/engine.go:203-212 | The same for one entity: only that entity's slots are written and only its key is updated; without a key nothing changes. |
| Engine.Engine.Restore | internal/features/keyed.go:99-108 | The engine goes on from a restored store as from the payments it held. |
| Engine.FillEntity | internal/features/engine.go:269-294 | Writes an entity's features to its slots and to no others. |
| Replay.Replay | internal/features/replay.go:18-34 | Every row written is the reference row of its payment; a payment out of order stops the run there, with all rows before it written. |
| Payments.ToMilliRounds | internal/features/state.go:74-83 | An amount is kept to within half a thousandth of a dollar, and exactly if it has at most three decimals. |
| Payments.KeysAreShared | internal/features/key.go:72-115 | Two payments have one key exactly when they name the same card; the same card, region and day of first use; the same device; or the same purchaser domain. A payment without those has no key. |
| Payments.PartMeasures | internal/features/engine.go:269-294 | Given the payments a key made before, not after this one, its features are how many fall in the last hour, day or week, and their dollars: exact for exact amounts, and off by no more than half a thousandth each for any. |
| Payments.RowCounts | internal/features/replay.go:18-34 | In the row replay writes for a payment, a count slot holds the number of earlier payments of the same card, customer, device or domain that are less than 3600, 86400 or 604800 seconds old, and is missing if the payment names none. |
| Payments.RowSums | internal/features/replay.go:18-34 | A sum slot holds the dollars those payments add up to: exactly if their amounts have at most three decimals, and within half a thousandth per payment whatever they are. |
| Payments.RowMeans | internal/features/engine.go:269-294 | The mean slot is the week's sum over the week's count, missing when that is 0; the ratio slot is the amount over the mean, missing unless the mean is positive and the amount known. |
| Payments.RowCards | internal/features/engine.go:269-294 | For a device or an email domain, the last slot counts the different known cards of the day. |
| Payments.RowRemembers | internal/features/keyed.go:50-62 | The two times are how long ago the key's last payment was and how long ago its spell without a pause of thirty days began; both are missing if there was none in the last thirty days. |
| Payments.RowCarries | internal/features/engine.go:239-260 | The other slots carry the payment's own fields; the score's and those of unknown fields are left empty. |
| Deques.Deque.PushBack | internal/features/deque.go:23-29 | The ring buffer, grown by doubling when full, holds the old contents and then the new element. |
| Deques.Deque.PopFront | internal/features/deque.go:31-39 | Drops the front element, halving the buffer when it is at most a quarter full. |
| Deques.Deque.Resize | internal/features/deque.go:41-47 | Moves the contents, in order, to the front of a buffer of the new size. |
| Bits.MaskIsRemainder | internal/features/deque.go:17-17 | Masking with a power of two less one is the remainder, so every index stays inside the buffer. |
| Bucketed.BucketEntry.Read | internal/features/bucketed.go:107-129 | Each window's count and sum are those of the events from its oldest bucket on; the distinct count never exceeds the cap and, if the cap never turned a card away, is the number of distinct cards from the oldest bucket on. |
| Bucketed.BucketEntry.Add | internal/features/bucketed.go:147-174 | Expiry, the newest bucket, the totals and the card counters are updated in place; a late event is moved to the key's last time, and first and last follow. |
| Bucketed.AddCard | internal/features/bucketed.go:177-206 | Moving or adding a card keeps the per-bucket card counters exact; unless the cap is reached exactly that card joins the live ones, and the map of cards stays within twice the cap and 64. |
| Bucketed.NeverUndercounts | internal/features/bucketed.go:36-43 | A bucketed window counts at least the exact window and at most one a bucket wider. |
| Bucketed.ExtraIsOldest | internal/features/bucketed.go:36-43 | What is counted beyond the exact window is all in one bucket, the first, and misses the window by less than that bucket's width. |
| Bucketed.AtMostSpanBuckets | internal/features/bucketed.go:83-83 | A window never holds more than span + 1 buckets. |
| Recency.RecencySet.Lookup | internal/features/sketch.go:163-175 | A key reported seen is live in the exact store with the same last time and a first time no later than the one reported; until a full set has dropped a key the two agree entirely. |
| Recency.RecencySet.Touch | internal/features/sketch.go:180-201 | Records the event in the key's slot, an empty one, or over the least recently seen; a key is dropped only when the set is full of others. |
| Recency.RecencySet.Place | internal/features/sketch.go:180-201 | The key's own slot, else the first empty one, else the one seen least recently. |
| Recency.Touches | internal/features/sketch.go:180-201 | Touching keeps tags unique in a set and everything the slots say true, and complete as long as no other key was dropped. |
| Recency.SeenIsHistory | internal/features/keyed.go:50-62 | The reference the recency table is compared with has the first and last times of the exact store's history. |
| CountMin.CmsRing.Advance | internal/features/sketch.go:356-371 | Rotation, of a few buckets or of all, empties exactly the slots that leave the ring: afterwards every slot counts its bucket, the dirty lists are exact, and the running sum is cell by cell the total of the live slots. |
| CountMin.CmsRing.Record | internal/features/sketch.go:255-274 | An event, moved to the newest time if it is earlier, is counted in the bucket of its time in every cell of its key, in the slot and in the sum. |
| CountMin.CmsRing.Estimate | internal/features/sketch.go:389-407 | The estimate is the least, over the cells, of all traffic in the buckets floor(now/width) - span to the newest one, without committing a rotation. |
| CountMin.NeverUndercounts | internal/features/sketch.go:389-407 | Such an estimate is never below the key's own count in the exact window, nor below its sum where amounts are not negative; if some cell is shared with no other key it is exactly the key's own from the oldest bucket on, less than a bucket width before the window. |
| Concurrent.Linearises | internal/features/concurrent.go:199-258 | Whatever the interleaving, the map serves what the sequential store holds after the calls in log order; a finished read answered as that store did at some moment of the call, and a finished ReadAdd recorded its event exactly once, with the answer the store gave there. |
| Concurrent.StepInv | internal/features/concurrent.go:199-258 | Every step (lookup, insertion, locking, acting, deleting, unlocking) keeps the invariant on map, entries, locks and log. |
| Concurrent.OneLiveEntry | internal/features/concurrent.go:178-189 | A key never has two entries that are not dead, and its live entry is the one in the map. |
| Concurrent.NeverStuck | internal/features/concurrent.go:215-242 | An unfinished call, or the call holding the mutex it waits for, can always take its next step: nobody waits for ever on the others. |
| Concurrent.CountIsRemovalsAndRecounts | internal/features/concurrent.go:244-258 | In any run, whatever overlaps, the number a sweep has counted is the number of keys it removed plus the number of times it acted on an entry that was already dead and idle. |
| Concurrent.SweepCountsExactly | internal/features/concurrent.go:244-258 | So what EvictIdle returns is the number of keys it removed if and only if it never acted on an entry that was already dead and idle. |
| Concurrent.LoneSweepsNeverRecount | internal/features/concurrent.go:244-258 | In a run in which no two sweeps overlap no sweep does that. |
| Concurrent.SweepCountsItsKeys | internal/features/concurrent.go:244-258 | As long as no two sweeps overlap, the number EvictIdle returns is the number of keys it removed. |
| Concurrent.OverlappingSweepsCountTwice | internal/features/concurrent.go:244-258 | Two overlapping sweeps can both count one key: both find the entry before either locks it, and the second does not look whether it is already dead. |
| Closures.CompiledMeansKleene | internal/rules/compile.go:271-635 | The closure compiled for TRUE (or for FALSE) says yes to a row exactly when that is the condition's value there in Kleene logic, through De Morgan duals, negated and flipped comparisons, constant folding, lowered text and lists; a condition folded to a constant has that constant answer on every row. |
| Closures.CompiledSays | internal/rules/compile.go:271-635 | So it says yes exactly when the condition answers yes (or no) by the rules of Meaning. |
| Closures.CompiledCompares | internal/rules/compile.go:388-455 | An attribute compared with a number or another attribute: each of the six operators says yes to exactly the rows where both values are present and stand in that order, that of the reals with the infinities outside. |
| Meaning.SaysItsValue | internal/rules/doc.go:33-52 | The three-valued logic is that of answering yes and answering no, each by its own rules: a comparison, a membership or prefix test answers only if its operands are present, not turns the answer round, and needs both for yes and one for no, or the reverse. |
| Meaning.ComparesAsItStands | internal/rules/compile.go:388-455 | A comparison of two present numbers holds as the order of the reals says, the infinities outermost and equal to themselves. |
| Meaning.Computes | internal/rules/compile.go:140-228 | An expression over numbers that are real or missing is worth what arithmetic on the reals gives, and is missing exactly when something it needs is missing or a divisor is zero. |
| Meaning.NeverBoth | internal/rules/doc.go:33-52 | No condition answers both yes and no about a row. |
| Text.FoldEqual | internal/rules/lower.go:61-77 | Comparing byte by byte decides equality of the two texts after lowering those marked, without building them. |
| Text.FoldHasPrefix | internal/rules/lower.go:81-97 | The same for the prefix test. |
| Text.LowerInto | internal/rules/lower.go:101-115 | The buffer holds exactly the lowered text, or the method says that it does not fit. |
| Text.ToLowerIdempotent | internal/rules/lower.go:31-57 | Lowering twice is lowering once and never empties or fills a text. |
| Text.LowersCapitals | internal/rules/lower.go:31-57 | In ASCII text each capital becomes the small letter in its place of the alphabet and nothing else changes. |
| VectorCompiler.CompileVector | internal/backtest/vector.go:67-80 | A checked condition compiles exactly when the table can serve it, and the compiled tree's bit of every row of the table is set exactly when the condition is TRUE there in Kleene logic. |
| VectorCompiler.NewNumSet | internal/backtest/ops.go:548-575 | A number set that is found answers membership exactly as the list does, with no collisions. |
| VectorCompiler.Compiler.Lut | internal/backtest/vector.go:354-363 | A truth table by dictionary code answers a predicate on a text column, and missing answers no. |
| Columns.SortedAscend | internal/rules/check.go:46-56 | The lists the compiler takes are those without a missing number in which none is greater than a later one. |
| Columns.LessIsFirstDifference | internal/rules/check.go:36-44 | Texts are ordered by the first byte in which they differ, a prefix first. |
| VectorEval.Eval | internal/backtest/ops.go:172-217 | Evaluating a condition over a chunk writes a bit per row exactly where the condition's bit is, zeroes the tail of the last word, and writes nothing but its own scratch buffers and its words. |
| VectorEval.Refine | internal/backtest/ops.go:226-335 | Testing only the rows already selected clears exactly those where the condition does not hold, or leaves the selection untouched and says so. |
| VectorEval.EvalLogic | internal/backtest/ops.go:192-217 | The short circuits and the sparse path of and/or give the same bits as evaluating both sides in full. |
| EvalMany.EvalMany | internal/backtest/vector.go:107-134 | For any programs and bounds, with chunks taken in any order, each program's bitmap holds the rows within the bounds on which its root holds, and no others. |
| EvalMany.EvalRows | internal/backtest/vector.go:98-100 | The mask of a checked condition over any table and bounds: a row is in it if and only if it lies within the bounds and the condition is TRUE there. For a column compared with a number or with another column that is: both values are present and stand in that order. |
| RuleSets.RuleSet.constructor | internal/rules/ruleset.go:32-49 | Grouping compiled rules by action keeps source order and sets shadow rules apart. |
| RuleSets.RuleSet.Evaluate | internal/rules/ruleset.go:74-96 | The loops with early return give the deciding rule and its action: a live rule that answers yes, the first of its action, no preferred action having one, or none and allowed. The shadow rules returned are exactly those that answer yes. |
| RuleSets.ActionIsRadars | internal/rules/ruleset.go:52-66 | Allow rules win over block rules over review rules, nothing firing allows, and the deciding rule is the first of its action in source order that fires. |
| RuleSets.RadarsOrder | internal/rules/ruleset.go:52-66 | The deciding rule is never a shadow rule, answers yes, and comes first among those of its action; none of a preferred action answers yes. Without a live rule that answers yes the payment is allowed. |
| RuleSets.ChangesAreExact | internal/backtest/report.go:335-351 | The rows said to change are exactly those whose action differs once the rule is live, at whatever position it is inserted. |
| Decisions.EvaluateRuleSet | internal/backtest/ruleset.go:55-123 | A rule set is refused exactly when the table cannot serve some rule. Otherwise every row of the table, tail of the last word included and chunks in any order, gets the action and the deciding rule of RuleSet.Evaluate on that row, that is, the first live rule that answers yes of the preferred action that has one; allowed is OR(allow), blocked is OR(block) less allowed, reviewed is OR(review) less both; and every rule's mask is both the Kleene answer and that of its compiled closure. |
| Decisions.AllRulesDecide | internal/backtest/ruleset.go:55-123 | Taking the rules in deciding order, each on the rows still open, leaves every row decided as online. |
| Decisions.FirstIsDeciding | internal/backtest/ruleset.go:126-131 | The first rule in deciding order whose bit is set is the rule the online evaluator reports. |
| Bitmaps.Bitmap.Set | internal/backtest/bitmap.go:39-39 | Adds one row and no other. |
| Bitmaps.Bitmap.Not | internal/backtest/bitmap.go:104-110 | The rows not set, with the bits past the last row kept zero. |
| Bitmaps.Bitmap.AndNot | internal/backtest/bitmap.go:95-101 | Removes the other bitmap's rows. |
| Bitmaps.Bitmap.Count | internal/backtest/bitmap.go:113-119 | The number of rows set. |
| Bitmaps.Bitmap.AndCount | internal/backtest/bitmap.go:132-139 | The number of rows in both. |
| Bitmaps.Bitmap.Next | internal/backtest/bitmap.go:167-186 | The least row from an index on, and -1 when there is none. |
| Bitmaps.Bitmap.List | internal/backtest/bitmap.go:189-193 | All rows set, ascending. |
| Backtests.Changed | internal/backtest/report.go:335-351 | On bitmaps: for an allow rule its matches among blocked and reviewed rows, for a block rule those neither allowed nor blocked, for a review rule those not decided by any. |
| Backtests.Run | internal/backtest/report.go:325-403 | For a rule the table can serve, the matches are the counted rows where it is TRUE; the changed rows are those counted whose action is another once the rule is inserted live, at any position; it is called unreachable exactly when it matches and changes nothing; and then, for a block or review rule, the rows the covering rules decide add up to all its matches. |
| Backtests.Overlaps | internal/backtest/report.go:406-447 | The rules that share rows with the new one, with the numbers shared and decided, most shared first and stably. |
| Backtests.OverlapsDecide | internal/backtest/report.go:406-447 | The decided numbers of the overlaps add up to the rows some rule decides, each row once. |
| Backtests.SortKeeps | internal/backtest/report.go:406-447 | Sorting permutes the overlaps and puts the largest first. |
| Parsing.Parser.Line | internal/rules/parser.go:51-70 | The cursor-moving parser accepts exactly what the recursive definition does, with the same tree, and terminates. |
| Parsing.Parser.Expression | internal/rules/parser.go:251-306 | The Pratt loop folds operators that bind tighter than its bound, left to right, and refuses a second comparison. |
| Parsing.ParsedIsMade | internal/rules/parser.go:251-474 | Every parsed tree is one the printer can print, made only of the line's own tokens. |
| Grouping.ParsedIsSpelled | internal/rules/parser.go:251-474 | The tokens of a line that parses spell its tree: in their order, each operator between its operands, and an operand without parentheses only where the order or, and, not, comparisons, sums, products, minus lets it stand. |
| Grouping.GroupsByOrder | internal/rules/parser.go:14-32 | In a line without parentheses no and has an or for an operand, no comparison has a not to its left or a looser operator, no product a sum, no not an or or an and, no minus an operator, and nothing an equally loose operator to its right. |
| Grouping.ThreeOperands | internal/rules/parser.go:14-32 | Of operands a, b, c with p and q between them, the tighter operator takes its two first, equally tight ones go from the left, and two comparisons are refused. |
| Grouping.PrefixReaches | internal/rules/parser.go:14-32 | A not takes everything up to the next and or or; a minus only the operand beside it. |
| Grouping.TestsStandBare | internal/rules/parser.go:251-306 | After a list the loop goes on: a membership test is taken, bare, as the left operand of any operator that follows, arithmetic included, and refused only before a comparison. |
| Grouping.PrintedIsSpelled | internal/rules/printer.go:48-124 | What is printed for a tree spells that tree. |
| Printing.Absorbs | internal/rules/printer.go:48-124 | Started on a printed tree, the parser folds exactly that tree and goes on behind it, as long as what follows binds no tighter. |
| Printing.PrintedParses | internal/rules/printer.go:14-18 | Whatever tree the parser can produce, its printed tokens parse, and to that very tree. |
| Printing.ReparsedIsSame | internal/rules/printer.go:14-18 | Printing what was parsed and parsing it again gives the same tree. |
| Printing.NotAlwaysFewest | internal/rules/printer.go:48-56 | A "not" as right operand of a comparison parses to the same tree without the parentheses the printer puts around it. |
| Parentheses.NeededOrSpare | internal/rules/printer.go:48-124 | For every condition and every operand in it that the printer encloses, however deep, call arguments included: the line without that one pair still parses to the condition if and only if the operand is a "not" in last position followed by nothing that binds tighter than "not", or a membership test left of arithmetic where the parser still folds comparisons. |
| Parentheses.OnePairLess | internal/rules/printer.go:48-124 | The line meant is the printed one with that operand's two parentheses taken out and every other token in place. |
| Parentheses.OnlyNeeded | internal/rules/printer.go:11-14 | The printer writes no pair that could be left out by itself if and only if one walk down the tree finds no such "not" and no such membership test. |
| Parentheses.Never | internal/rules/parser.go:251-306 | A pair that is not spare is needed wherever the tree stands in a line: without it no reading that starts there is the tree. |
| Parentheses.Absorbed | internal/rules/parser.go:251-306 | A spare pair is spare wherever the tree stands bare in a line with nothing tighter after it: without it the parser reads exactly the tree and goes on from there. |
| Lexing.QuotedReadsBack | internal/rules/lexer.go:275-333 | What the printer quotes and escapes the lexer reads back, whatever follows the closing quote. |
| Lexing.TextLexes | internal/rules/printer.go:58-162 | The printed text is read back as exactly the printed tokens. |
| Lexing.TextReadsBack | internal/rules/printer.go:14-18 | Printing a condition as text and parsing the text gives it back. |
| Lexing.CanonicalTextIsSame | internal/rules/lexer.go:183-333 | Whatever text is parsed, its canonical text parses to the same condition. |
| Lexing.SignsMean | internal/rules/lexer.go:183-333 | Between two attributes each of the twelve infix signs, as written, is read as its operator. |
| Lexing.WordsMean | internal/rules/lexer.go:183-333 | So are not, minus, in, true and false. |
| Lexing.EscapesMean | internal/rules/lexer.go:275-333 | A character between quotes is itself, and a backslash before a quote, a backslash, n, t or r is what it stands for. |
| Labels.DeliveriesConverge | internal/service/labels.go:236-263 | A dispute with one creation and one closing, the closing not the earlier: however often and in whatever order they are delivered, its state is the closing's once that has come, and the creation's until then. |
| Labels.StepInv | internal/service/labels.go:181-231 | Every step of the store keeps the invariant on log, snapshot, memory and acknowledgements: appends that fail before, during or after the write, and crashes that lose lines not yet synced. |
| Labels.NothingAcknowledgedIsLost | internal/service/labels.go:140-177 | A running store has every acknowledged event in its labels. After a crash a restart opens it if and only if every line of the log is a record, and it then has every acknowledged event: the snapshot's and, in order, the log's after it. |
| Labels.SpoiltExactly | internal/service/labels.go:208-228 | A readable log stops being readable exactly when a whole line is appended after a fragment that an earlier append left. |
| Labels.SpoiltForGood | internal/service/labels.go:140-177 | Once such a line is synced no later step makes the log readable again, and no restart opens the store. |
| Labels.FragmentSpoils | internal/service/labels.go:208-228 | An append fails half-way, the event is delivered again and acknowledged, the process crashes: the acknowledged event cannot be recovered. |
| Labels.LabelStore.ReplayLog | internal/service/labels.go:140-177 | The loop succeeds exactly on a log of records and then has applied those numbered above the store's own number, in order, and dropped a final fragment. |
| Labels.LabelStore.Receive | internal/service/labels.go:181-231 | An event is acknowledged exactly when its line was synced, and only then applied; what a failed append leaves in the file, nothing, a fragment or a line, is there for the next one. |
| Labels.FraudOf | internal/service/labels.go:73-88 | Fraud exactly when some fraudulent dispute was not won, unknown exactly when none is fraudulent, in whatever order disputes are visited. |
| Labels.SucceededWasSaid | internal/service/labels.go:236-262 | Whatever the log, a payment counts as succeeded exactly when an event in it said so. |
| Idempotency.StepInv | internal/service/idempotency.go:75-150 | Every step of keyed requests and of a snapshot that copies shards one at a time keeps the invariant. |
| Idempotency.CountedOnceAndAnswered | internal/service/snapshot.go:85-105 | In every interleaving of requests, snapshots, restarts and retries, no two requests with one key have both been counted, and a snapshot file that has a payment counted has its answer too. |
| Idempotency.RetryAfterRestart | internal/service/assess.go:125-163 | After a restart a retry of a saved payment is given the first answer and updates nothing. |
| Replies.RepliesAreTrue | internal/service/idempotency.go:75-103 | In any run, restarts included: a request given a stored answer had the key and the hash of a request whose answer that is; one told the key was reused shares its key with a request of another hash; an assessment is the request's own; and only an invalid request is rejected. |
| Replies.ClaimGets | internal/service/idempotency.go:75-103 | A claim answers the stored body exactly when the key has a finished entry of its hash, refuses exactly when that entry has another hash, and owns the key exactly when there is none. |
| Replies.WaitsForSomeone | internal/service/idempotency.go:75-103 | A request that has to wait waits for one under way whose next step is enabled, or will be once the snapshot holding the cut has made its copy: no finished request blocks a key. |
| Idempotency.OwnerIsAlone | internal/service/idempotency.go:75-103 | While a request owns its key's claim no other request with the key has been counted. |
| AnswerStore.IdemStore.Claim | internal/service/idempotency.go:75-103 | After expiry, which drops finished entries only, an unknown key is claimed (the oldest entry going when the store is full); a finished entry gives its body to a request of its hash and refuses one of another hash; and one in flight has to be waited for. |
| AnswerStore.IdemStore.Expire | internal/service/idempotency.go:140-150 | Drops stale entries from the front up to the first that is young or in flight: what is left is the rest of the order, everything dropped is finished and older than the TTL, and nothing stale is left in front. |
| AnswerStore.IdemStore.Insert | internal/service/idempotency.go:125-130 | The new entry goes to the end, and when there are too many exactly the oldest one goes. |
| AnswerStore.IdemStore.Finish | internal/service/idempotency.go:107-112 | The owner's key gets its answer; if the claim had been evicted nothing in the store changes, even if the key was claimed again. |
| AnswerStore.IdemStore.Abandon | internal/service/idempotency.go:115-123 | The owner's claim is released; a later claim of the same key is not touched. |
| AnswerStore.IdemStore.Snapshot | internal/service/idempotency.go:169-180 | After expiry the records are exactly the finished answers, each key once, oldest claim first. |
| AnswerStore.IdemStore.Restore | internal/service/idempotency.go:183-197 | Every answer restored is that of a young record; with room for all records the store holds exactly the answers of the young ones, and if all are young exactly the answers the snapshot was taken of. |
| AnswerStore.ClaimStep | internal/service/idempotency.go:75-103 | With nothing stale and room for one more, the store's claim is the protocol's: it has to wait exactly while that step is not enabled, and else answers or takes the key and leaves the entries as that step does. |
| AnswerStore.SettleStep | internal/service/idempotency.go:107-112 | Storing the owner's answer leaves the entries of the protocol's settling step. |
| AnswerStore.RejectStep | internal/service/idempotency.go:115-123 | Releasing a rejected claim leaves the entries of the protocol's rejecting step. |
| AnswerStore.CopyStep | internal/service/idempotency.go:169-180 | The records a snapshot writes are the answers the protocol copies. |
| Trees.ParseTree | internal/model/lightgbm.go:186-284 | A raw tree is read exactly when its lists, bit-set bounds, features, children and decision types are in range, and every tree read has its children after their parents. |
| Trees.OneLeaf | internal/model/predict.go:34-44 | Every path from a node that follows the decisions to a leaf is the walk's, and ends in a leaf of the tree. |
| Trees.NumbersGoByOrder | internal/model/predict.go:46-69 | At a numeric node a value goes left if and only if it is at most the threshold; one next to zero goes as zero does, or the default way where zero counts as missing; a missing one the default way, or as zero does where the node has no word for it. |
| Trees.ThresholdIsTiny | internal/model/lightgbm.go:38-39 | What counts as next to zero is 1e-35, to a part in ten million. |
| Trees.CategoriesGoByDigit | internal/model/predict.go:78-95 | At a categorical node a value goes left if and only if the binary digit of its whole part is on in the node's set. |
| Trees.StrangersGoRight | internal/model/predict.go:78-95 | A category that is missing, negative or past the set goes right. |
| Trees.Leaf | internal/model/predict.go:34-44 | The walk terminates at that leaf, or panics exactly when it meets an empty bit set with a value between -1 and 0. |
| Trees.PredictRaw | internal/model/predict.go:14-24 | The sum, tree by tree, of the leaves reached, or a panic exactly when some walk panics. |
| Trees.PredictContributions | internal/model/saabas.go:43-71 | The raw score is the sum of the leaves reached, each feature gets exactly what its splits on the walks changed the value by, and the bias and all contributions add up to the raw score. |
| Trees.AddsUp | internal/model/saabas.go:43-71 | The telescoping sum behind it, for any trees and input. |
| Trees.UnsplitGetsNothing | internal/model/saabas.go:43-71 | A feature no tree splits on is credited nothing. |
| Trees.FullSetsWalk | internal/model/predict.go:82-95 | A tree without empty bit sets never panics, whatever the input. |
| Trees.EmptySetPanics | internal/model/predict.go:82-95 | A tree with an empty bit set passes the parser and panics on the value -0.5: the lookup indexes a word that is not there. |

## Left out

- Rounding, signed zero and bit-identical scores of floating point; probabilities, calibration and reason strings.
- Kafka clients and rebalancing, HTTP, JSON and CSV, metrics, file names and checksums, the command line tools.
- The bytes of snapshots and the order of keys in them: images are lists and maps of the same numbers.
- A second live instance of a task while a first one lingers; the contract of one live instance is assumed.
- Wire fields that carry wall-clock time, and counters other than violations, late events, duplicates and decisions.
- The negative control that applies events on arrival (internal/stream/aggregate.go:75-86).
- The decisions topic as one log: each joiner's decisions are a log of their own.
- The update counter that times idle sweeps starts over at a restore, as it does in the source; nothing depends on it.
- HyperLogLog registers and estimates; snapshots of bucketed, sketched and concurrent stores; the sharded wrapper.
- 32-bit counters of the count-min table wrap in the source and are unbounded here.
- Exact.ExactEntry and Bucketed.BucketEntry keep their queues as sequences where the source uses the ring buffer,
  which is proved by itself in Deques; container/heap stands in Merger by the order of what it pops.
- Words of 64 bits are sequences of 64 booleans, so popcount and trailing zeros are recursive functions; the chunks
  that goroutines share out are taken in any order that takes each once.
- Decisions.EvaluateRuleSet keeps a record per word where the source keeps flat arrays of actions and rules.
- VectorCompiler.CompileVector: refuses a NaN inside a number list, which the checker has already dropped.
- Type checking, diagnostics and error recovery of the rule language, and the shadow and action words of a rule line;
  a failed parse is one value.
- Idempotency.CountedOnceAndAnswered: without expiry by age and eviction at capacity, after which the source itself
  allows a retry to count again; AnswerStore has both. Requests without a key and cancelled waits are left out.
- Range of a concurrent map may stop at any moment in Concurrent; an iteration that visits every key is one of those.
- Linear trees, random-forest averaging and the text format around the number lists of a tree.

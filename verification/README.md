# A verified model of the key-value store

This project models the store's four interlocking parts and proves what holds of all their runs: the RESP printer and
incremental parser, the sharded storage engine with its shared memory counter, the append-only log with its replay, and
PSYNC replication. `dafny verify dfyconfig.toml` checks it.

The parts that work in place are classes and loops (`Storage.StorageEngine`, `Server.AofLogger`, `Server.Node`,
`Server.ReplicaWorker`, the methods of `RespCodec`). Each of their methods is proved to make exactly one transition of
a machine on values, and the laws are proved about that machine: `Resp` and `Framing` for bytes, `Keyspace` for one
timed map, `Engine` for the shards, `Serving` for dispatching, `Replication` for the stream, `MemoryBound` for the
interleaved accesses to the memory counter (`Uninterrupted` proves that `Engine` and `MemoryBound` mean the same write).
What these machines mean to a client is said apart from them, in literal bytes and plain arithmetic: `Wire` and
`Requests` for what goes over a connection, `ClientLaws` and `ShardLaws` for each command, `History` and `Sessions` for
whole lives.

## Main results

- Whatever is printed is parsed back from any longer buffer, and whatever is parsed can be printed and parsed back
  (`Resp.RoundTrip`, `Resp.ParsedIsWireSafe`); parsing a stream does not depend on how it is cut into reads
  (`Framing.ChunkIndependence`). What is appended to a log is read back if and only if the log ended between two frames
  (`Framing.AppendsSurviveExactlyAfterWholeFrames`).
- Over the whole life of a server, with its shards, evictions, sweeps and earlier lives, every response is the one that
  the history of the commands on the key calls for (`Sessions.LifeRemembers`, `Sessions.LifeAnswers`): what was SET, or
  counted by INCR, is got until it is overwritten, deleted, evicted or past the deadline last set
  (`Sessions.SetThenGet`, `Sessions.SumThenGet`, `Sessions.ExpireThenGet`, `Sessions.ExpireThenTtl`). A request means
  a command if and only if it is written so (`Requests.DecodesIffAsked`). EXPIRE keeps the time it was given if and
  only if the sum fits (`ClientLaws.ExpireKeepsTimeIff`).
- For any hash and any number of shards, every run of the engine keeps each key in its shard, keeps the account of
  memory and of keys, and without a memory limit is that run on one map (`EngineRuns.EveryStateIsSound`,
  `EngineRuns.RunRefines`). The counter stays exact if and only if no write evicts its own key
  (`EngineRuns.ExactIffNeverSelfEvicted`), and a run shows how it is lost (`EngineRuns.SelfEvictionLosesCount`).
- Under every interleaving of writers on different shards the counter stays within the limit plus one entry for every
  other shard if and only if no access takes more from it than it shows: the bound breaks at the first access that does
  (`MemoryBound.BoundHoldsUntilUnderflow`). That never happens unless writes evict their own key
  (`MemoryBound.CounterIsBounded`); the bound is reached and can be broken (`MemoryBound.BoundIsReached`,
  `MemoryBound.BoundIsBroken`).
- A run that replays the log of another, at a restart or as a replica while the other goes on, by whatever clock: a
  logged INCR, DECR, PERSIST or PEXPIREAT parts the two when it finds its key live in one and not in the other and
  leaves something that is still there once both clocks have got so far. What the other evicted is not in its log and
  comes back if it is still live once both have got so far. The two are in step at every moment of both if and only if
  no command parts them and nothing comes back (`ReplayLaws.CommandFollowsIff`, `ReplayLaws.FollowingIsExact`,
  `ReplayLaws.EvictedComesBack`).
- There are two ways to part. When the replay's clock is not behind, it is a hazard, which the original alone can tell:
  a command that depended on a deadline, outlives it, and is replayed after it (`ReplayLaws.PartingsAreHazards`,
  `ReplayLaws.PersistIsLost`). When it is behind, it is a client's INCR or DECR of a key that had expired for the
  original and is still live for the replay (`ReplayLaws.EarlyReplayParts`, `ReplayLaws.LaggingCountIsLost`); or a
  command that the original had itself replayed to no effect.
- From the bytes on disk: every crash point is recovered by a restart at a later time if and only if there is no hazard
  for that time and nothing was evicted that would still be live then (`Recovery.RecoveryIsExact`), over any number of
  lives, with evictions and refused writes in each, and down to the shards (`Serving.LifeServes`,
  `Serving.EveryRestartRecovers`, `Serving.RestartByClock`).
- In every reachable state of replication the replica's log is a prefix of the primary's
  (`Replication.EveryStateIsAligned`). It has applied what its log holds if and only if each connection ended between
  two frames (`Replication.ConvergesExactlyWhenClosed`). While a stream runs, it is in step with its primary if and only
  if no command it has applied parts them and nothing the primary evicted comes back (`Convergence.ReplicaIsExact`);
  then it shows its primary as it was after some number of works, at every time from both their clocks on
  (`Convergence.ReplicaEngineShowsAnEarlierPrimary`).

## Assumptions

- Bytes are Dafny characters; the laws hold for all characters and so for all bytes.
- A server's clock is a natural number read once for each command. Two servers need not have the same clock, nor does a
  clock have to go forward, unless a row says so; what two runs show is compared at times that both clocks have reached.
  The dispatcher reads the clock a second time when it logs an expiry (`src/server/CommandDispatcher.cpp:126`); the two
  readings are taken to be equal.
- `capacity()` is a function of a string's contents, the hash is any function, and sampling is any choice.
- 64-bit arithmetic is written out (`Machine.Wrap`, `Machine.Int64`). Signed overflow, undefined in C++, wraps.
- `arr.reserve` of a declared array count (`src/protocol/RESP.cpp:105`) always succeeds. In the source a huge count makes it
  throw, which ends the process; the model waits for more bytes.
- A declared bulk length or array count below -1 is outside the parser's domain: the source moves its position
  backwards or reserves a negative size. The parser says so (`OutOfDomain`) and the loops stop there.
- Accesses to the shared counter are sequentially consistent, and a shard is only touched under its lock.
- The log is the sequence of bytes written to it, and its size is that sequence's length.
- Requests of different clients are dispatched one after the other wherever the log is concerned.

## Where code and documentation disagree

The model follows the code.

- `docs/architecture.md` and `docs/persistence.md` describe a background flush once a second and a choice of policies;
  the logger flushes after every write.
- `docs/protocol.md` lists options of SET; the dispatcher ignores every argument after the value, and logs them.
- The repository's `README.md` calls the dictionaries lock-free; every access takes its shard's lock.
- The repository's `README.md` calls the parser strict; numbers may be followed by anything up to the end of the line,
  and the two bytes after a bulk string are skipped unread.

## Model

| member | source | states |
|---|---|---|
| `Decimal.ScanPrinted` | src/protocol/RESP.cpp:16-18 | a printed integer, followed by anything that is no digit, scans back to itself and to exactly its length |
| `Decimal.PrintDigits` | src/protocol/RESP.cpp:16-18 | printing is decimal: a number of more digits prints as the number without its last digit, then that digit |
| `Decimal.PrintNatShortest` | src/protocol/RESP.cpp:77-80 | no digit string that scans to a number is shorter than its printed form, so reprinting never grows |
| `Resp.ParseLocal` | src/protocol/RESP.cpp:35-129 | prefix stability both ways: buffers that agree on the consumed bytes parse alike, and a frame found in a buffer is found in every buffer that holds those bytes |
| `Resp.RoundTrip` | src/protocol/RESP.cpp:7-120 | for every nested value whose lines hold no CRLF and whose numbers are 64-bit, its printed form followed by anything parses to that value and consumes exactly that form |
| `Resp.ParsedIsWireSafe` | src/protocol/RESP.cpp:35-120 | whatever bytes a value was parsed from, it is in the domain of the round trip and its printed form is no longer than what was consumed |
| `Wire.SimpleStringForm` | src/protocol/RESP.cpp:10-12 | a simple string is written "+", the text and CRLF, and such bytes, whatever follows, are read as that simple string |
| `Wire.ErrorForm` | src/protocol/RESP.cpp:13-15 | an error is written "-", the text and CRLF, and read so |
| `Wire.IntegerForm` | src/protocol/RESP.cpp:16-18 | an integer is written ":", the number and CRLF, and read so |
| `Wire.BulkStringForm` | src/protocol/RESP.cpp:19-21 | a bulk string is written "$", its length, CRLF, its bytes and CRLF, and read so, the last two bytes being skipped unread |
| `Wire.NullForm` | src/protocol/RESP.cpp:28-30 | null is written "$-1" and CRLF, and both that and "*-1" and CRLF are read as null |
| `Wire.ArrayForm` | src/protocol/RESP.cpp:22-27 | an array is written "*", the number of its items, CRLF and the items, and read so |
| `Wire.ItemsForm` | src/protocol/RESP.cpp:24-26 | the items follow each other with nothing in between |
| `Wire.NoOtherForm` | src/protocol/RESP.cpp:64-119 | no other first byte begins a frame |
| `RespCodec.SerializeValue` | src/protocol/RESP.cpp:7-33 | the recursive accumulating printer computes the printed form, whose bytes are those of the module `Wire` |
| `RespCodec.ReadLine` | src/protocol/RESP.cpp:35-43 | the line up to the first CRLF at or after the position, which moves past it; the position stays when there is none |
| `RespCodec.ParseInternal` | src/protocol/RESP.cpp:45-120 | at any position: the value and the position after its frame, or the position unchanged; agrees with parsing the rest of the buffer, whose forms are those of the module `Wire` |
| `RespCodec.ParseArray` | src/protocol/RESP.cpp:95-115 | the element loop yields the declared number of values in order, or gives everything back when one is incomplete |
| `RespCodec.ParseFrame` | src/protocol/RESP.cpp:122-129 | the frame at the front of a buffer and how many bytes it takes |
| `Framing.FramesAppend` | src/server/Server.cpp:130-140 | parsing two pieces of a stream, the residue of the first carried over, is parsing the whole |
| `Framing.ResidueIsStuck` | src/server/Server.cpp:133-138 | what the loop leaves in the buffer holds no whole frame |
| `Framing.ChunkIndependence` | src/server/Server.cpp:130-140 | for every stream and every way of cutting it into reads: the same commands and the same final residue as parsing it at once |
| `Framing.LogParsesBack` | src/server/Server.cpp:39-47 | a log of printed values parses back to exactly those values, with nothing left |
| `Framing.TornLog` | src/server/Server.cpp:39-47 | a log cut at any byte yields exactly the longest prefix of whole values and the bytes after it |
| `Framing.TornTailHidesLaterAppends` | src/storage/AOFLogger.cpp:6-8 | the torn tail is kept: behind any whole log, after a command torn behind its first byte, nothing appended later is ever read |
| `Framing.LaterAppendsSurvive` | src/storage/AOFLogger.cpp:6-8 | after a log that ends between two frames everything appended later is read, and nothing is left |
| `Framing.TornCount` | src/server/Server.cpp:39-47 | bytes in front of a command that make an array of it and them fix the number of its items, whatever the command |
| `Framing.AppendsSurviveExactlyAfterWholeFrames` | src/storage/AOFLogger.cpp:6-8 | whatever commands are appended to a log later, all of them are read back, if and only if the log ends between two frames |
| `Framing.FramesLength` | src/server/Server.cpp:256-267 | the printed commands of a stream and its residue never take more bytes than the stream |
| `Keyspace.FindApply` | src/storage/StorageEngine.cpp:90-376 | a command changes exactly the entries of the keys it names, each as its own rule says; what the rules mean is stated in `ClientLaws` |
| `Keyspace.VisibleByKey` | src/storage/StorageEngine.cpp:128-150 | two maps look the same to clients exactly when every key does, access times and dead entries aside |
| `ClientLaws.SetShows` | src/storage/StorageEngine.cpp:119-125 | SET: the key shows the value for good, and nothing else changes to see |
| `ClientLaws.GetAnswers` | src/storage/StorageEngine.cpp:128-150 | GET answers the visible value, whatever its deadline, and nothing when the key is not visible |
| `ClientLaws.ExistsAnswers` | src/storage/StorageEngine.cpp:170-196 | EXISTS answers at how many positions a visible key is listed |
| `ClientLaws.DelShows` | src/storage/StorageEngine.cpp:152-168 | DEL takes exactly the listed keys from sight, now and later, and answers how many different ones had an entry |
| `ClientLaws.ReadsShowNothing` | src/storage/StorageEngine.cpp:128-196 | GET, EXISTS and PTTL change nothing that is visible from then on |
| `ClientLaws.BaseIsWhole` | src/storage/StorageEngine.cpp:213-221 | INCR and DECR start from the visible value if all of it is a 64-bit number, digits behind an optional minus sign, and from 0 without a visible key |
| `ClientLaws.SumAnswers` | src/storage/StorageEngine.cpp:198-286 | INCR and DECR answer the two's complement sum, or that there is no number |
| `ClientLaws.SumShows` | src/storage/StorageEngine.cpp:224-240 | the number answered is the number stored, under the deadline the key had; without a number nothing changes |
| `ClientLaws.SumAdds` | src/storage/StorageEngine.cpp:198-286 | a number m counts on to m + delta, an absent or expired key from 0, and GET then answers that number until the key's deadline |
| `ClientLaws.SumCounts` | src/storage/StorageEngine.cpp:198-286 | after SET of a number, INCR and DECR answer the next one and GET then answers it |
| `ClientLaws.ExpireShows` | src/storage/StorageEngine.cpp:288-330 | a visible key keeps its value and is visible until now + offset modulo 2^64, or the absolute time given, 0 standing for ever; of any other nothing is visible from then on |
| `ClientLaws.ExpireLasts` | src/storage/StorageEngine.cpp:288-308 | a key given a time to live is visible with its old value exactly before now + offset; PTTL tells what is left until then, and -2 from then on |
| `ClientLaws.ExpireKeepsTimeIff` | src/storage/StorageEngine.cpp:303 | the key is visible at every clock reading exactly before now + offset if and only if that sum is positive and fits 64 bits or is a multiple of 2^64 |
| `ClientLaws.PttlAnswers` | src/storage/StorageEngine.cpp:332-352 | PTTL answers what is left until the deadline of a visible key, -1 without a deadline, -2 without a visible key |
| `ClientLaws.PersistShows` | src/storage/StorageEngine.cpp:354-376 | PERSIST makes a visible key with a deadline visible for good and answers 1; else it answers 0 and changes nothing to see |
| `ClientLaws.AccessTimes` | src/storage/StorageEngine.cpp:144-145 | every command on a visible key sets its access time, but for PTTL, PERSIST without a deadline, and INCR and DECR of what is no number |
| `ClientLaws.LoggedIffEffective` | src/server/CommandDispatcher.cpp:61-168 | a command is logged if and only if it is a SET, a DEL that found an entry, an INCR or DECR of a number, an expiry of a visible key, or a PERSIST of a visible key with a deadline |
| `ClientLaws.LoggedDeadline` | src/server/CommandDispatcher.cpp:125-133 | the log gets the command itself, and for EXPIRE and PEXPIRE the deadline now + offset modulo 2^64 |
| `KeyspaceLaws.AnswerSeesOnlyTheVisible` | src/storage/StorageEngine.cpp:128-196 | every answer but DEL's count is decided by what is visible |
| `KeyspaceLaws.SweepIsInvisible` | src/storage/StorageEngine.cpp:378-402 | a sweep of any entries changes nothing that is visible at its time |
| `KeyspaceLaws.ExpiryIsInvisible` | src/storage/StorageEngine.cpp:128-402 | sweeps and lazy deletions put anywhere into a run whose clock goes forward change no answer but DEL's count, and nothing visible at its end or later |
| `KeyspaceLaws.DelSeesDeadEntries` | src/storage/StorageEngine.cpp:152-168 | the exception: DEL counts a dead entry unless a sweep came first |
| `KeyspaceLaws.DelCountChanges` | src/storage/StorageEngine.cpp:152-168 | a sweep lowers DEL's count by exactly the number of dead entries it takes that DEL names |
| `KeyspaceLaws.RunIsLocal` | src/storage/StorageEngine.cpp:90-376 | what a run leaves at a key is what the key's own events leave there |
| `KeyspaceLaws.ReorderingIsHarmless` | src/server/Server.cpp:41-47 | any reordering of a run that keeps each key's own sequence, multi-key DEL included, leaves the same map |
| `ReplayLaws.KeptKeySees` | src/server/CommandDispatcher.cpp:61-168 | a command in the log, own or replayed, and its replay by any clock leave entries of a key that look alike if and only if the two do not part |
| `ReplayLaws.KeptKeyMatches` | src/server/CommandDispatcher.cpp:61-168 | as long as they look alike, they are alike where both leave an entry |
| `ReplayLaws.UnloggedKeyStays` | src/server/CommandDispatcher.cpp:71-103 | a command that is not logged, like a sweep, keeps what it finds or drops what is dead |
| `ReplayLaws.CommandFollowsIff` | src/server/CommandDispatcher.cpp:61-168 | two key spaces that look the same at the later of the two clocks look the same then after a logged command and its replay if and only if these do not part, whichever clock is ahead |
| `ReplayLaws.LateReplayParts` | src/storage/StorageEngine.cpp:208-221 | a replay whose clock is not behind parts from the original if and only if the command is a hazard for that time, which the original's key space tells |
| `ReplayLaws.EarlyReplayParts` | src/storage/StorageEngine.cpp:208-221 | a replay whose clock is behind parts from a logged request if and only if that is an INCR or DECR whose key is gone for the original and still live for the replay |
| `ReplayLaws.FollowerMatches` | src/server/Server.cpp:255-268 | a run that redoes the log of another, by any clock, its own sweeps and reads in between, matches it once both are done, whatever that other evicted, if no command parts them and nothing it evicted comes back |
| `ReplayLaws.FollowerAgrees` | src/server/Server.cpp:39-47 | such a run, a restart or a replica, shows what the other shows at every time from both their clocks on |
| `ReplayLaws.FollowingIsExact` | src/server/Server.cpp:39-47 | for any two clocks and any evictions of the other, a run that redoes the log of another, as far as it has come, shows what the other shows at every moment of both at which their logs are the same, if and only if no command parts them and nothing evicted is still live once both have got so far |
| `ReplayLaws.PartingsAreHazards` | src/server/Server.cpp:39-47 | when the replaying run's clock goes forward and is never behind, and nothing evicted comes back, no command parts the two if and only if no command of the original is a hazard for the time of its own replay |
| `ReplayLaws.LastPartingShows` | src/storage/StorageEngine.cpp:208-221 | a parting always shows: right after it the original and the replayed key space differ |
| `ReplayLaws.WhatComesBackShows` | src/storage/StorageEngine.cpp:80-84 | what comes back always shows: an entry evicted by the original and still live once both have got so far puts the two out of step, even if a logged command follows |
| `ReplayLaws.LossFreeIsNothingBack` | src/server/Server.cpp:39-47 | for a restart at a given time nothing comes back, at any crash point, if and only if no entry that was evicted would still be live then |
| `ReplayLaws.ReplayIsExact` | src/server/Server.cpp:39-47 | every crash point of a run, in any of a server's lives, is recovered by a restart at a given time, no earlier than any reading of its clock, if and only if the run holds no hazard for that time and evicted nothing that would still be live then |
| `ReplayLaws.PersistIsLost` | src/storage/StorageEngine.cpp:354-376 | SET, PEXPIREAT, PERSIST: the key is visible after the run and absent after a replay past the deadline |
| `ReplayLaws.LaggingCountIsLost` | src/storage/StorageEngine.cpp:208-221 | SET, PEXPIREAT, and INCR past the deadline, replayed by a clock that has not reached the deadline: both clocks go forward and no command is a hazard, the key is visible after the run and absent after the replay |
| `ReplayLaws.EvictedComesBack` | src/storage/StorageEngine.cpp:80-84 | two SETs, the second evicting the first key: the key is absent after the run and visible after a replay at any time |
| `History.CommandTold` | src/storage/StorageEngine.cpp:90-376 | each command does to what is visible of an entry what it does by the book to a value with a deadline |
| `History.Remembers` | src/storage/StorageEngine.cpp:90-402 | whatever was done, swept, evicted and replayed, as long as the clock goes forward, what is visible of a key is what the history of its commands tells |
| `History.AnswersAreRecalled` | src/storage/StorageEngine.cpp:90-376 | so is every answer of a command on one key |
| `History.ExistsIsRecalled` | src/storage/StorageEngine.cpp:170-196 | and the count of EXISTS |
| `History.SetIsGot` | src/storage/StorageEngine.cpp:90-150 | after SET, with no later SET, INCR, DECR, DEL or eviction of the key, GET answers the value until the deadline last set; for good, and PTTL -1, if none was set |
| `History.DeadlineCounts` | src/storage/StorageEngine.cpp:288-376 | GET, PTTL and PERSIST go by the deadline last set, or taken away by PERSIST |
| `Accounting.TotalWithout` | src/storage/StorageEngine.cpp:80-83 | erasing an entry lowers a shard's total by exactly its cost |
| `Accounting.TotalPut` | src/storage/StorageEngine.cpp:117-124 | storing an entry changes a shard's total by the new cost less the old one |
| `Accounting.ShortfallIsExcess` | src/storage/StorageEngine.cpp:108-109 | when nothing wraps, what eviction must free is exactly what the limit would be exceeded by, and nothing below it |
| `EngineLaws.RemoveKeeps` | src/storage/StorageEngine.cpp:80-84 | removing any entries of a shard keeps placement and balance and lowers the number of keys held by theirs |
| `EngineLaws.InsertKeeps` | src/storage/StorageEngine.cpp:117-124 | storing an entry keeps placement and balance, the drift taking up the old cost of a key that has gone meanwhile |
| `EngineLaws.CommandKeeps` | src/storage/StorageEngine.cpp:90-376 | every command keeps placement, the balance of the counter, the conservation of keys and hits + misses = lookups |
| `EngineLaws.SweepKeeps` | src/storage/StorageEngine.cpp:378-402 | so does a sweeper pass over a shard |
| `EngineRefinement.CommandAt` | src/storage/StorageEngine.cpp:90-376 | after any command that is not refused, what the shards hold at any key: the one-map effect for the keys it names, nothing for the evicted ones, the old entry otherwise |
| `EngineRefinement.CommandRefines` | src/storage/StorageEngine.cpp:39-196 | for any hash, a command that is not refused does to the union of the shards what it does to one map, evicted entries aside |
| `EngineRefinement.RefusedWriteEmptiesShard` | src/storage/StorageEngine.cpp:110-114 | a refused write leaves its shard empty and the other shards untouched |
| `EngineRefinement.RefusedAt` | src/storage/StorageEngine.cpp:110-114 | what the shards hold at any key after a refused write: nothing at the evicted keys, nor at its own if that had expired, else the old entry |
| `EngineRefinement.ExistsCounts` | src/storage/StorageEngine.cpp:170-196 | EXISTS counts the listed keys that are live, as often as listed, although it deletes dead ones on the way |
| `EngineRefinement.DelCounts` | src/storage/StorageEngine.cpp:152-168 | multi-key DEL counts the distinct listed keys that were present |
| `EngineRuns.EveryStateIsSound` | src/storage/StorageEngine.cpp:44-402 | over every run of commands, sweeps and limit changes: each key only in its hash shard, counter = costs - drift modulo 2^64, keys inserted = held + deleted + evicted + expired + silently expired, hits + misses = keys looked up |
| `EngineRuns.StepDrift` | src/storage/StorageEngine.cpp:99-124 | the drift grows by exactly the old cost when a successful write evicts its own key, and never otherwise |
| `EngineRuns.ExactWithoutSelfEviction` | src/storage/StorageEngine.cpp:99-124 | in every state of a run in which no write evicts its own key the counter is exact and the drift zero |
| `EngineRuns.ExactIffNeverSelfEvicted` | src/storage/StorageEngine.cpp:99-124 | every state of a run has an exact counter if and only if no write of the run evicts its own key |
| `EngineRuns.OwnKeyIsAtRisk` | src/storage/StorageEngine.cpp:99-110 | SET, INCR and DECR can evict their own key, by an eviction that stops once its need is met, if and only if the key is there and the new value needs room |
| `EngineRuns.ExactIffNoDrift` | src/storage/StorageEngine.cpp:117 | in any reachable state the counter is exact if and only if what self-evicting writes have lost is a multiple of 2^64 |
| `EngineRuns.LoneKeyEvictsItself` | src/storage/StorageEngine.cpp:108-117 | overwriting the only key of a shard with a value that needs room always evicts that key and loses its old cost |
| `EngineRuns.SelfEvictionLosesCount` | src/storage/StorageEngine.cpp:90-126 | a run from an empty server: a limit is set, a key stored, overwritten and deleted; the store is empty again and the counter stands at 2^64 less the old cost |
| `EngineRuns.SetOutcome` | src/storage/StorageEngine.cpp:90-126 | SET fails exactly when a limit is set and what exceeds it is more than its whole shard, which is then empty; else the key holds the value without expiry, evicted neighbours are gone and everything else is as it was |
| `EngineRuns.SweepRefines` | src/storage/StorageEngine.cpp:384-399 | a sweep of a shard is the sweep of the same keys on one map |
| `EngineRuns.RunRefines` | src/storage/StorageEngine.cpp:39-402 | without a memory limit every run of commands and sweeps on the shards is that run on one map |
| `ShardLaws.SumNumber` | src/storage/StorageEngine.cpp:208-224 | the number that INCR and DECR start from and the sum, in plain arithmetic |
| `ShardLaws.SumEntryStored` | src/storage/StorageEngine.cpp:225-240 | INCR and DECR that are not refused leave the printed sum in the shard, under the deadline the key had |
| `ShardLaws.ExpiryStored` | src/storage/StorageEngine.cpp:288-330 | EXPIRE, PEXPIRE and PEXPIREAT leave a live entry with its value and the new deadline, and no dead one |
| `ShardLaws.PersistStored` | src/storage/StorageEngine.cpp:354-376 | PERSIST leaves a live entry without a deadline, and no dead one |
| `ShardLaws.ReadStored` | src/storage/StorageEngine.cpp:128-150 | GET leaves a live entry as it is but for its access time, PTTL that as well, and neither leaves a dead one |
| `ShardLaws.SetCharges` | src/storage/StorageEngine.cpp:16-18 | SET that evicts nothing charges a new key with both capacities and 80 bytes, and an old one with the difference of the values' capacities |
| `ShardLaws.DelRefunds` | src/storage/StorageEngine.cpp:152-168 | DEL gives back what the entry was charged with |
| `ShardLaws.StatsTell` | src/storage/StorageEngine.cpp:128-150 | the telemetry after any command on one key: a hit or a miss for GET, each evicted key, and a key found expired by GET, EXPIRE, PEXPIRE or PEXPIREAT |
| `Storage.PickVictim` | src/storage/StorageEngine.cpp:58-78 | the victim is present and no newer than every entry sampled, whichever at most five draws hit or missed |
| `Storage.EvictingStep` | src/storage/StorageEngine.cpp:80-84 | one round frees exactly its victim's cost, raises the eviction counter by one and makes the shard smaller |
| `Storage.EvictionsAreRounds` | src/storage/StorageEngine.cpp:44-88 | the sets of entries that a write's transition may evict are exactly those that the rounds of the loop can take before the need is met or the shard is empty |
| `Storage.StorageEngine.constructor` | src/storage/StorageEngine.cpp:20-22 | an engine starts empty, with no limit and all counters at zero |
| `Storage.StorageEngine.SetMaxMemory` | src/storage/StorageEngine.cpp:31-33 | only the limit changes |
| `Storage.StorageEngine.EvictOldest` | src/storage/StorageEngine.cpp:58-84 | one entry leaves, no newer than the sample, and its cost is returned and given back to the counter |
| `Storage.StorageEngine.EvictFromShard` | src/storage/StorageEngine.cpp:44-88 | terminates; frees exactly the summed cost of the entries removed, each round as `Rounds` describes; stops with the need met or the shard empty |
| `Storage.StorageEngine.MakeRoom` | src/storage/StorageEngine.cpp:99-115 | evicts only when the limit is set and exceeded, and nothing once the need is met; succeeds exactly when the whole shard covers the need |
| `Storage.StorageEngine.Set` | src/storage/StorageEngine.cpp:90-126 | the engine makes the transition of SET, keeps its invariant, and fails exactly when refused for lack of memory |
| `Storage.StorageEngine.Get` | src/storage/StorageEngine.cpp:128-150 | the transition of GET; the value is the stored one if the entry has no deadline or one still to come, and none otherwise; it is the answer of the one map |
| `Storage.StorageEngine.Exists` | src/storage/StorageEngine.cpp:170-196 | the transition of EXISTS; the count is the answer of the one map |
| `Storage.StorageEngine.Del` | src/storage/StorageEngine.cpp:152-168 | the listed keys go one by one; the count is the number of distinct ones that were present |
| `Storage.SumAnswerRefines` | src/storage/StorageEngine.cpp:198-286 | INCR and DECR return what the one map answers, except that a refusal for lack of memory looks like a bad value |
| `Storage.StorageEngine.Add` | src/storage/StorageEngine.cpp:198-286 | the transition of INCR and DECR: the two's complement sum is returned and stored under the deadline the key had; or nothing is returned, because of a refusal, or because the value is no whole number, and then nothing is changed |
| `Storage.StorageEngine.Expire` | src/storage/StorageEngine.cpp:288-308 | the transition of EXPIRE: done exactly for a live entry, which keeps its value and gets the deadline now + offset modulo 2^64; its answer on the one map |
| `Storage.StorageEngine.ExpireAt` | src/storage/StorageEngine.cpp:310-330 | the transition of PEXPIREAT: done exactly for a live entry, which keeps its value and gets that deadline; its answer on the one map |
| `Storage.StorageEngine.Pttl` | src/storage/StorageEngine.cpp:332-352 | the remaining time, -1 without expiry, -2 without a live key; a dead entry goes uncounted |
| `Storage.StorageEngine.Persist` | src/storage/StorageEngine.cpp:354-376 | the expiry goes exactly when the key is live and has one; a dead entry goes uncounted |
| `Storage.StorageEngine.SweepShard` | src/storage/StorageEngine.cpp:388-399 | an unlocked shard has twenty of its entries, or all of them, looked at and exactly the dead ones among them removed and counted; a locked one is skipped |
| `Storage.StorageEngine.SweepPass` | src/storage/StorageEngine.cpp:384-400 | one pass is such a sweep of each shard in order, of the entries it held before the pass, and keeps the invariant |
| `MemoryBound.BeginMoves` | src/storage/StorageEngine.cpp:97-109 | a writer that locks its shard and reads the counter keeps what it may still add, together with the counter, within the bound |
| `MemoryBound.EvictMoves` | src/storage/StorageEngine.cpp:80-84 | so does each round of its eviction, its own key included, whatever other shards did to the counter meanwhile |
| `MemoryBound.ChargeMoves` | src/storage/StorageEngine.cpp:117 | so does the charge, which turns the pending part into counter |
| `MemoryBound.StepKeeps` | src/storage/StorageEngine.cpp:97-124 | every step of every thread keeps the invariant unless it takes more from the counter than that shows, and breaks the bound when it does |
| `MemoryBound.BoundHoldsUntilUnderflow` | src/storage/StorageEngine.cpp:97-117 | in every interleaving of writers, deleters and the sweeper the counter stays at most limit + (shards - 1) * largest cost if and only if no eviction, deletion or charge takes more from the counter than it shows |
| `MemoryBound.UnderflowIsInsolvency` | src/storage/StorageEngine.cpp:99-124 | no access does so if and only if self-evicting writes have never given back more twice than is held |
| `MemoryBound.CounterIsBounded` | src/storage/StorageEngine.cpp:97-117 | when no write evicts its own key, the counter is exact and within that bound in every state |
| `MemoryBound.MemoryIsBounded` | src/storage/StorageEngine.cpp:97-124 | as long as the bound holds and no writer is at work, the entries really held are within it, but for what was given back twice |
| `MemoryBound.BoundIsReached` | src/storage/StorageEngine.cpp:105-117 | for any number of shards and a limit of one entry there is a run without self-eviction at whose end the counter equals the bound |
| `MemoryBound.BoundIsBroken` | src/storage/StorageEngine.cpp:99-124 | one key stored, overwritten by a value for which it has to be evicted itself, and deleted: the deletion takes more than the counter shows, the store is empty and the counter far above the bound |
| `Uninterrupted.UninterruptedWrite` | src/storage/StorageEngine.cpp:97-124 | a writer that locks, evicts, charges and stores with nobody in between has made exactly the engine's write: shards, counter and what is lost of it |
| `Uninterrupted.UninterruptedRefusal` | src/storage/StorageEngine.cpp:110-114 | the same accesses ending in a refusal are the engine's refusal |
| `Uninterrupted.WriteIsMadeOfAccesses` | src/storage/StorageEngine.cpp:97-124 | every write of the engine, with whatever it may evict, is made by such accesses |
| `Dispatcher.GateCoversLog` | src/server/CommandDispatcher.cpp:22-46 | whatever request would be logged is turned away by the read-only gate |
| `Requests.GateIsExact` | src/server/CommandDispatcher.cpp:22-46 | a replica turns a client's command away if and only if it may change something; a primary, a log and a stream are never turned away |
| `Requests.GateNames` | src/server/CommandDispatcher.cpp:22-25 | the words a replica turns away, in any letter case and with any arguments |
| `Requests.ReadsPass` | src/server/CommandDispatcher.cpp:43-46 | the requests that read, PING, ECHO, INFO, CONFIG and PSYNC pass |
| `Requests.DecodesIffAsked` | src/server/CommandDispatcher.cpp:61-168 | a request is performed as a command if and only if it is an array of that command's word, in any letter case, and its arguments, EXPIRE counting in seconds and TTL answering in seconds |
| `Requests.DecodesIffTold` | src/server/CommandDispatcher.cpp:48-235 | PING, ECHO, QUIT, INFO, PSYNC and CONFIG SET MAXMEMORY are understood if and only if they are written so |
| `Requests.RequestRoundTrip` | src/server/CommandDispatcher.cpp:61-168 | a written request decodes to its command, the word in any letter case |
| `Requests.ResponseBytes` | src/server/CommandDispatcher.cpp:61-168 | the bytes of every response to a command, whole seconds being rounded down |
| `Requests.RefusalBytes` | src/server/CommandDispatcher.cpp:65-67 | the bytes of a refused SET |
| `Dispatcher.LogEntryIsWireSafe` | src/server/CommandDispatcher.cpp:125-133 | what is logged of a parsed request, the rewritten PEXPIREAT included, can be read back |
| `Dispatcher.PexpireatDecodes` | src/server/CommandDispatcher.cpp:126-149 | a logged absolute deadline is decoded as that deadline |
| `Dispatcher.LogEntryDecodes` | src/server/CommandDispatcher.cpp:61-168 | decoding what was logged of a request gives the command the log stands for |
| `Recovery.EntriesStandForLog` | src/server/CommandDispatcher.cpp:61-168 | the values logged by any run of requests, refusals, replays and sweeps decode, one by one, to the commands its replay needs |
| `Recovery.EntriesAreRecorded` | src/server/CommandDispatcher.cpp:68-166 | whatever bytes its request came as, every logged value can be read back and replayed |
| `Recovery.RestartRecovers` | src/server/Server.cpp:39-47 | from the bytes of the log: exactly the logged values are read, and a server that has replayed them, no command parting the two and nothing evicted coming back, shows what the original shows from both clocks on |
| `Recovery.PrefixOfLog` | src/server/CommandDispatcher.cpp:61-168 | every prefix of the log is the log of a prefix of the run that ends with the last value of that log |
| `Recovery.PrefixRecovers` | src/server/Server.cpp:39-47 | a server that has replayed some prefix of a log, no command parting the two and nothing evicted coming back, shows the moment up to which the log holds that prefix, at every time from both clocks on, and from its own clock on if that is never behind |
| `Recovery.TornLogRecovers` | src/server/Server.cpp:39-47 | a log cut at any byte: the longest prefix of whole commands is replayed, and, no command parting the two and nothing evicted coming back, the key space of that earlier moment is shown |
| `Recovery.ReplayingIsExact` | src/server/Server.cpp:39-47 | a server that replays another's log, by whatever clock and as far as it has come, is in step with it at every moment of both if and only if no command parts them and nothing the other evicted comes back |
| `Recovery.HarmlessIsHazardFree` | src/server/Server.cpp:39-47 | when its clock goes forward and is never behind, that is so if and only if no command of the original is a hazard for the time of its replay and nothing comes back |
| `Recovery.RecoveryIsExact` | src/server/Server.cpp:39-47 | whatever a server lived through, evictions, refusals, sweeps and earlier lives included, every crash point is recovered from the log's bytes by a restart at a time no earlier than the run if and only if the run holds no hazard for that time and evicted nothing that would still be live then |
| `Serving.RequestKeeps` | src/server/CommandDispatcher.cpp:27-238 | every request, gated, rejected or performed, keeps the engine's invariant |
| `Serving.RequestRefines` | src/server/CommandDispatcher.cpp:27-238 | a request, with whatever it evicts and refused or not, does to the shards what its turn does to one map |
| `Serving.RequestLogs` | src/server/CommandDispatcher.cpp:61-168 | and logs what its turn logs there, nothing when it is refused |
| `Serving.LifeServes` | src/server/Server.cpp:31-51 | a life of a server, from its start on a log through requests and sweeper passes, with evictions and refused writes, does to the shards what its turns do to one map |
| `Serving.UnlimitedIsCalm` | src/storage/StorageEngine.cpp:105-115 | a server whose memory limit is never set evicts and refuses nothing |
| `Serving.StartEvictsNothing` | src/server/CommandDispatcher.cpp:214-224 | start-up evicts and refuses nothing, whatever limit was set in earlier lives: setting it is not logged |
| `Serving.CalmBringsNothingBack` | src/storage/StorageEngine.cpp:105-115 | from a server that evicts nothing nothing comes back, whoever replays its log |
| `Serving.LifeLogs` | src/server/Server.cpp:31-51 | the log after a life is what was replayed at its start and then exactly what that run logs on one map |
| `Serving.FollowerEntries` | src/server/Server.cpp:255-268 | a replica that evicts nothing, or a server that still starts, logs nothing of its own: its log is what it has replayed |
| `Serving.HistoryKeepsFile` | src/storage/AOFLogger.cpp:6-27 | over any number of lives, each started on the file the one before left, the file stays a whole log and is the log of the last life's turns |
| `Serving.LivesJoin` | src/server/Server.cpp:31-51 | two lives of a server, the second starting where the first ended, are one life, which logs what both log |
| `Serving.SweepingIsLife` | src/storage/StorageEngine.cpp:384-400 | a pass of the sweeper over all shards is a life that evicts and logs nothing |
| `Serving.LivedOn` | src/server/Server.cpp:31-51 | a server that goes on with clients and sweeps is still one started on the same file, which has grown by what was logged |
| `Serving.EveryRestartRecovers` | src/server/Server.cpp:31-51 | however many lives a server has had, with other shards, another hash, another clock and other limits in each: once started again its shards show what they showed before the crash, if no command parts the two lives and nothing the last one evicted comes back |
| `Serving.RestartByClock` | src/server/Server.cpp:31-51 | by a clock that goes forward and is never behind, that is so if and only if no command of the last life is a hazard for the time of its replay and nothing it evicted comes back |
| `Sessions.LifeRemembers` | src/server/Server.cpp:31-180 | at every moment of a life whose clock goes forward, what the shards show of a key is what the history of its commands tells |
| `Sessions.LifeAnswers` | src/server/CommandDispatcher.cpp:61-168 | every command on one key that is not refused is answered as that history calls for |
| `Sessions.LifeCounts` | src/server/CommandDispatcher.cpp:87-94 | so is EXISTS |
| `Sessions.GetResponds` | src/server/CommandDispatcher.cpp:71-76 | the response to GET is the value as a bulk string, or null |
| `Sessions.TtlResponds` | src/server/CommandDispatcher.cpp:150-161 | the response to PTTL and TTL is the time left, in whole seconds for TTL, -1 or -2 |
| `Sessions.SumResponds` | src/server/CommandDispatcher.cpp:95-112 | the response to INCR and DECR is the sum, or the error |
| `Sessions.SetThenGet` | src/server/CommandDispatcher.cpp:61-76 | after a SET that was performed, however many works come in between that do not write, delete or evict the key, GET is responded with that value until the deadline last set, and for good if none was set |
| `Sessions.SumThenGet` | src/server/CommandDispatcher.cpp:71-112 | the number INCR or DECR responded with is what GET is responded with later |
| `Sessions.DelThenGet` | src/server/CommandDispatcher.cpp:71-86 | after DEL, as long as nothing writes the key, GET is responded with null |
| `Sessions.ExpireThenGet` | src/server/CommandDispatcher.cpp:71-149 | after EXPIRE, PEXPIRE, PEXPIREAT or PERSIST of a key that is there, GET is responded with its value before that deadline and with null from then on |
| `Sessions.ExpireThenTtl` | src/server/CommandDispatcher.cpp:113-161 | and PTTL and TTL tell the time until then |
| `Replication.HandshakeSplit` | src/server/Server.cpp:225-246 | however the reply and the stream behind it are cut, the reply is found whole and the rest is exactly the stream |
| `Replication.ClientsDoNotLog` | src/server/CommandDispatcher.cpp:43-46 | no request of a replica's client adds a byte to the replica's log |
| `Replication.StepKeeps` | src/server/Server.cpp:152-268 | appends, connects, sends, reads, losses, restarts and clients all keep the invariant below |
| `Replication.EveryStateIsAligned` | src/server/Server.cpp:152-268 | in every reachable state the replica's log is a prefix of the primary's, with the unread bytes it is what was sent, and what was applied is each connection's own whole frames |
| `Replication.FullDelivery` | src/server/Server.cpp:159-171 | once everything was sent and read, the logs are equal |
| `Replication.ConnectionIsExact` | src/server/Server.cpp:255-268 | from a frame boundary on, the commands applied are exactly the whole frames of the replica's log and the buffer is exactly its residue |
| `Replication.ConvergesExactlyWhenClosed` | src/server/Server.cpp:210-268 | a replica holding a whole log has applied exactly its commands if and only if each of its connections ended between two frames |
| `Replication.TornConnectionDiverges` | src/server/Server.cpp:217-257 | a run, for any command whose printed form is shorter than 2^63 bytes: the connection is lost inside it, the logs end up equal, and the replica has not applied it |
| `Replication.PsyncIsUnderstood` | src/server/Server.cpp:210-211 | the hand-built PSYNC request parses as one frame and decodes to the replica's own log length |
| `Convergence.ReplyIsTheLink` | src/server/CommandDispatcher.cpp:227-235 | the primary understands what a connecting replica sends and responds with exactly the bytes that the replica waits for |
| `Convergence.AppliedIsPrefix` | src/server/Server.cpp:255-268 | what a replica has applied is a prefix of what its primary has logged, and all of it once everything is delivered |
| `Convergence.ReplicaShowsAnEarlierPrimary` | src/server/Server.cpp:255-268 | at any moment of a stream, if no command the replica has applied parts the two and nothing the primary evicted comes back, the replica shows the key space its primary had after some number of turns, at every time from both clocks on, and from its own clock on if that is never behind |
| `Convergence.ReplicaShowsThePrimary` | src/server/Server.cpp:255-268 | under the same condition it shows what the primary shows once everything is delivered |
| `Convergence.ReplicaIsExact` | src/server/Server.cpp:255-268 | a replica is in step with its primary at every moment of both if and only if no command it has applied parts them and nothing the primary evicted comes back |
| `Convergence.ReplicaLivesOn` | src/server/Server.cpp:255-268 | what a read of the connection makes a replica apply continues its life |
| `Convergence.ReplicaEngineShowsAnEarlierPrimary` | src/server/Server.cpp:255-268 | the same for the two sharded engines, whatever their hashes and numbers of shards, with clients and sweepers on both sides, the primary in any of its lives and with any limit |
| `Convergence.ReplicaEngineShowsThePrimary` | src/server/Server.cpp:255-268 | the same once everything is delivered |
| `Server.StartIsAlive` | src/server/Server.cpp:31-51 | after start-up the server is one that was started on its file, whose log is still that file |
| `Server.ServeKeepsAlive` | src/server/Server.cpp:123-180 | it stays so through every read of a client, the log having grown by what was logged |
| `Server.SweepKeepsAlive` | src/storage/StorageEngine.cpp:384-400 | and through every pass of the sweeper |
| `Server.AofLogger.Log` | src/storage/AOFLogger.cpp:22-27 | the bytes are appended and nothing else changes |
| `Server.AofLogger.LogRaw` | src/storage/AOFLogger.cpp:29-34 | the bytes are appended and nothing else changes |
| `Server.AofLogger.FileSize` | src/storage/AOFLogger.cpp:42-46 | the number of bytes in the log |
| `Server.Node.Perform` | src/server/CommandDispatcher.cpp:61-168 | each command reaches the engine operation that makes its transition and gives its answer |
| `Server.Node.LogCommand` | src/server/CommandDispatcher.cpp:68-166 | the log grows by the printed entry of the command, or not at all when its answer says so |
| `Server.Node.Dispatch` | src/server/CommandDispatcher.cpp:27-238 | gate, command, log and response together: the engine makes the request's transition, the log grows by what the request logs, the response is the specified one; which requests mean what is `Requests.DecodesIffAsked`, and what the responses come to over a life is stated in `Sessions` |
| `Server.Node.ApplyFrames` | src/server/Server.cpp:259-267 | the parse-dispatch-erase loop dispatches exactly the whole frames of the buffer, in order, past the gate and unlogged, and leaves the residue |
| `Server.Node.Start` | src/server/Server.cpp:31-51 | start-up replays exactly the whole frames of the log, counts them and leaves the log as it is |
| `Server.Node.Serve` | src/server/Server.cpp:123-180 | one read of a client: its whole frames are dispatched, logged and answered in order, one response each, up to a PSYNC, a QUIT or a response that cannot be written |
| `Server.Node.StreamChunk` | src/server/Server.cpp:155-170 | the next bytes of the log, at most 4096, none at its end: one send of the transition system |
| `Server.ReplicaWorker.Connect` | src/server/Server.cpp:208-219 | a connection starts with an empty buffer and asks for the stream from the length of the replica's own log |
| `Server.ReplicaWorker.TakeReply` | src/server/Server.cpp:225-254 | reads before the reply is complete are kept; an accepting reply yields the stream bytes behind it, any other ends the connection |
| `Server.ReplicaWorker.Absorb` | src/server/Server.cpp:255-268 | stream bytes are logged as they came and the frames they complete are dispatched in order |
| `Server.ReplicaWorker.Receive` | src/server/Server.cpp:221-269 | a read of the connection is a read of the transition system, its newly applied commands dispatched in order |

## Left out

- Sockets, the accept loop, threads and sleeps: connections, chunks and failed writes are choices of the caller.
- The metrics and the logger.
- Sessions.LifeAnswers: DEL's count is left to `ClientLaws.DelShows`, because it depends on entries that have expired and not yet gone; a server whose clock goes back is left to `ReplayLaws`.
- Requests.DecodesIffTold: does not state the texts of the errors by which other requests are rejected.
- Server.Node.Dispatch: INFO's text is a parameter, because building it would only add easy members.
- RespCodec.ParseArray: does not model the exception that reserving a huge declared count throws.
- ReplayLaws.FollowingIsExact: the run that replays evicts and refuses nothing itself. A restart never does (`Serving.StartEvictsNothing`); a replica may, once a client of its own sets a memory limit there.
- Convergence.ReplicaEngineShowsAnEarlierPrimary: for such a replica, as long as it evicts and refuses nothing; its primary may.
- Serving.EveryRestartRecovers: the file between two lives is whole; a file cut inside a command is `Recovery.TornLogRecovers`, and what later appends to it come to is `Framing.AppendsSurviveExactlyAfterWholeFrames`.
- MemoryBound.BoundHoldsUntilUnderflow: needs a bound one entry below 2^64.
- Storage.StorageEngine.Del: the count is unbounded, where the source uses an `int`.
- Cross-key atomicity of DEL and EXISTS and the order of apply and log between concurrent clients: the source does not provide them.
- Clients, benchmarks, containers and the features that only the documentation describes.

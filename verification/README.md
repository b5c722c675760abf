# A model of eest-replay

eest-replay replays Ethereum spec-test fixtures against a live execution client and moves test
transactions and test funds around. Most of it is orchestration. This project models the parts that
hold real guarantees, with the outside world as an explicit environment that may do anything the
protocol allows, and proves those guarantees for every input and every schedule.
`dafny verify dfyconfig.toml` checks all of it.

| file | part of the system |
|---|---|
| `Numerals.dfy` | numbers as text: `hex`, `str` and the parsers that read them back |
| `Wire.dfy` | the build-request codec: Python prints, Go parses, compared with the direct path |
| `Runner.dfy` | the replay driver as a loop over a mutable engine, proved to follow a fixed plan |
| `Replay.dfy` | what holds of every replay: lemmas about that plan |
| `RpcProxy.dfy` | the recording proxy: handler threads interleaving on one locked list |
| `Export.dfy` | captured transactions to CSV rows |
| `Sweep.dfy` | the recovery scan and the chain as a state machine with EIP-1559 charging |
| `Ledger.dfy` | what holds in every interleaving of scan and inclusions |
| `Recovery.dfy` | the recovery code as written, over a node that mines at any moment, and the sidecar |
| `Genesis.dfy` | the two genesis writers |
| `Batch.dfy` | the batch loop, its report and the exit code |

## How the pieces are modelled

**Replay driver.** `Runner.Engine` answers each call from an arbitrary script, a function from the
position of a call to its answer, and moves its head only on a VALID forkchoiceUpdated. The plan of a
fixture is a list of steps that depends on nothing but the fixture and on which builder is in use;
`DriveChain`, with its nested early returns and exceptions, is proved to be that plan run up to the
first step whose answer is a failure: same outcome, same calls, same head. The theorems in
`Replay.dfy` are then about the plan. Two scripts that differ only in the payloads built give the
two-run property. An exception leaves the driver as `Raised`.

**Recording proxy.** `Next` says what one handler thread, or the upstream it waits for, may do next.
A trace is any sequence of such moves, so a statement about all traces is a statement about all
interleavings. `Server` is the handler as written: between any two of its own moves it lets the other
threads run an arbitrary schedule, and its state is at all times the one its trace leads to.

**Recovery.** The scan's reads and submissions and the chain's inclusions are events of one trace.
The invariant behind every ledger theorem is a closed form: balances, nonces and burned wei are a
function of the starting chain and of which sweeps were included in which blocks.
`RecoverFundedEoas` is the code as written, over a node that mines an arbitrary schedule before every
answer, and is proved to walk exactly such a trace. The bodies of the environment's methods (`Node`,
`Clock`, `Server.OtherThreads`) only show that their contracts can be met; what is proved of the code
rests on the contracts alone, which admit every behaviour of the environment.

**Codec, genesis, batch.** Methods with the source's loops, proved against specification functions;
the properties are lemmas about those functions, or the methods' own postconditions.

## Main results

- Whatever a builder builds, a replay makes the same calls, ends on the same head and reports the same
  blocks (`BuilderNonInterference`); the head follows the expected chain (`CanonicalChain`) and every
  step waits for the answers it rests on (`StepsWaitForAnswers`).
- Every call carries exactly what its fixture entry says (`EveryCallIsTheFixtures`); a result's blocks,
  verdict and error say exactly what happened (`ResultBookkeeping`, `VerdictIsEquality`,
  `WhatIsReported`).
- Both build paths send the same attributes and replay the same run (`PathEquivalence`,
  `BuildoorReplaysTheSameRun`), and differ exactly in the 64-bit bound (`BuildoorFinishesIffAllFit`).
- The proxy's list is a shuffle of what the answered requests sent (`AlwaysConsistent`,
  `QuietLogIsFullShuffle`), its order is settled exactly as requests finish recording
  (`OrderSettledIff`, `RealTimeOrder`, `SplitIff`), and a waiting client's rows are exactly what it sent
  (`ExportSerialClient`).
- In every interleaving of scan and inclusions the ledger is accounted for (`AlwaysAccounted`): final
  balances, conservation, order independence, exact recovery and idempotence (`FinalLedger`,
  `WeiIsConserved`, `OrderIndependence`, `ExactRecovery`, `RecoverAgain`).
- The receipt loop runs at most 45 times (`AwaitReceipts`); the sidecar leads back to the funded keys
  (`SidecarRecovers`).
- The alloc reads back as the pre-state (`BuildAlloc`); both genesis writers activate the same forks
  (`ActivateUntil`, `BuildDevnet`).
- The batch report is the shortest prefix ending in a failure (`RunBatch`, `ReportedIsShortestPrefix`).

## Where code and documentation part

- The proxy promises never to let recording break it (`src/eest_replay/rpc_proxy.py:134`). The handler
  catches ValueError and TypeError. A call to `eth_sendRawTransaction` whose params are a non-empty
  JSON object, by-name params in the sense of section 4.2 of JSON-RPC 2.0, raises KeyError; a body
  nested too deeply makes the JSON parser raise RecursionError. In both cases the client gets no
  reply, though the request had reached the node. `ByNameParamsEscape` is an input, `EscapesIff` the
  exact condition.
- Captured order is called submission order. The lock is per transaction, so a request of two or more
  transactions can be split by another client's, and only such a request can (`SplitIff`). Until a
  request has nothing left to record, one that arrives later can overtake it, and from then on none
  can (`OrderSettledIff`). A client learns of that point by the reply: what was answered before another
  request arrived stands before it in every interleaving (`RealTimeOrder`), and a client that waits for
  each reply gets exact submission order (`SerialClientCapture`).
- `_enrich` raises as soon as one captured text is not hex; `Enrich` has the exact condition.
- `parseHexU64` rejects the text `0x`, and its second test for an empty string never succeeds
  (`AcceptedTexts`). Python never sends that text.
- A build request is refused exactly when some number is 2^64 or more (`PathEquivalence`), and a replay
  through buildoor can finish exactly when no valid entry has one (`BuildoorFinishesIffAllFit`). The
  direct path has no such bound (`DirectAlwaysCanFinish`).
- The recovery command accepts a priority fee above the fee cap, as its default priority fee is once a
  cap below it is given. EIP-1559 makes such transactions invalid, so none of its sweeps can be included
  (`PriorityAboveCapSweepsNothing`).
- A recovery scan covers all funded keys exactly when its count is at least their number
  (`SidecarRecovers`); the default count is 64 whatever was funded.
- The Markdown status column counts an error by its text being non-empty, the headline by its being
  present; they agree exactly when no error text is empty (`StatusColumn`), which holds for replays
  (`ReplayErrorsAreNotEmpty`). `failed` already includes the errored results, so the exit code's sum
  counts them twice; it is still zero exactly when all passed.
- A batch over files that hold no fixtures exits 0; one without files exits 1.

## Assumptions

They appear as `requires` clauses or in the shape of the environment.

- Ledger theorems: the scanned addresses are distinct and the recipient is not one of them
  (`Scan.Sound`); nothing is pending at the start and the nonces of past transactions are used up
  (`Settled`); block producers' fee accounts are not scanned keys. The chain's only transactions
  are the scan's own. A block may include a transaction under EIP-1559's conditions, which are part of
  `Includable`: base fee and priority fee within the cap, the sender's next nonce, and the balance for
  value and gas at the cap.
- The recipient's exact gain is stated for runs in which none of the blocks including the sweeps pays
  its tips to the recipient.
- Canonical-chain theorems: valid entries are parent-linked from genesis. A fixture has a payload.
- The clock never goes back, and a sleep lasts at least as long as asked.
- Hashes are injective. The 20- and 32-byte fields are texts of the right length, passed through.
- An engine call that ends in an exception leaves the head where it was. simbuild's `RequestPayloadBuild`
  is taken to fail unless the engine answers VALID with a payload id.

## Model

| member | source | states |
|---|---|---|
| Runner.DriveChain | src/eest_replay/runner.py:179-290 | for every script of answers, the outcome, the engine calls in order and the final head are those of the fixture's plan run up to its first failing step; which failures are reported, with which text, and which escape as exceptions |
| Runner.DriveEntry | src/eest_replay/runner.py:209-288 | one turn of the loop either leaves the engine at the plan's next entry, with one more compared block, or stops it at a step of the plan with that step's error |
| Runner.BootstrapChain | src/eest_replay/runner.py:191-207 | genesis becomes the head, or the replay stops with the bootstrap error and no blocks |
| Runner.BuildDirectly | src/eest_replay/runner.py:222-249 | the two calls of a direct build, and which of its four failures are errors and which exceptions |
| Runner.RequestBuild | patches/cmd_simbuild.go:137-158 | simbuild decodes before it calls the engine, so a refused request makes no call; otherwise forkchoiceUpdated on the request's parent, then getPayload with the id just returned |
| Runner.AdvanceChain | src/eest_replay/runner.py:260-288 | newPayload of the expected block, then forkchoiceUpdated to it, whatever was built |
| Runner.SubmitMempool | src/eest_replay/runner.py:293-301 | every transaction is sent in order; the first error ends the replay as an exception |
| Runner.DiffPayload | src/eest_replay/runner.py:103-115 | the diff holds, for each differing field outside the picked ones and for no other, its expected and its built value, in the model's order |
| Runner.MatchedIffEqualUpToPicked | src/eest_replay/runner.py:96-115 | no mismatch exactly when the payloads are equal once gas limit, extra data and block hash are overwritten |
| Replay.BuilderNonInterference | src/eest_replay/runner.py:209-290 | two runs whose engines differ only in the payloads built make identical calls, end on the same head, fail alike and report the same block numbers |
| Replay.StepsWaitForAnswers | src/eest_replay/runner.py:214-279 | a build starts once all transactions of its entry and of the valid ones before it were accepted; getPayload asks for the id the build's reply gave; newPayload follows the comparison; the head is moved only to a block whose newPayload was just answered VALID |
| Replay.EveryCallIsTheFixtures | src/eest_replay/runner.py:78-93 | every call of every replay is the bootstrap, which comes first, or made for a valid entry: with its hashes, its forkchoice version and, in a build request by either builder, exactly its timestamp, randao, fee recipient, withdrawals, slot and, from version 3 on, third param as beacon root |
| Replay.WhatIsReported | src/eest_replay/runner.py:199-288 | which failures become the error of the result and which leave as exceptions, and that the text names the call, the entry and the status |
| Replay.CanonicalChain | src/eest_replay/runner.py:260-290 | however a replay of a parent-linked fixture ends, the head is the expected block last advanced to, genesis before that, untouched if the bootstrap failed, and the fixture's tip on success |
| Replay.HeadIsLastAdvanced | src/eest_replay/runner.py:274-279 | the same after every successful step, so at every moment of a run |
| Replay.BuildsOnCurrentHead | src/eest_replay/runner.py:216-230 | every build, direct or through buildoor, is requested on the current head: no reorganisation |
| Replay.PlanShape | src/eest_replay/runner.py:209-290 | every step stands after exactly the comparisons and advances of the valid entries before it |
| Replay.ResultBookkeeping | src/eest_replay/runner.py:199-290 | on success one block per valid entry, in order; on an error at an entry the valid entries before it, and that entry exactly when newPayload or the advance failed; none for a bootstrap error |
| Replay.Verdict | src/eest_replay/runner.py:73-75 | a returned result is a pass exactly when every step of the plan succeeded and each built payload agrees with its expected one on every field but gas_limit, extra_data and block_hash |
| Replay.VerdictIsEquality | src/eest_replay/runner.py:100-115 | for payloads of the model: a pass exactly when every step succeeded and each built payload is the expected one once those three fields are overwritten |
| Replay.BuildoorReplaysTheSameRun | src/eest_replay/runner.py:216-249 | with numbers below 2^64 and the same answers, routing through buildoor gives the same calls up to the form of the build requests, the same head, the same stop and the same compared blocks |
| Replay.BuildoorFinishesIffAllFit | patches/cmd_simbuild.go:137-141 | some engine answers bring a replay through buildoor to its end exactly when every number of every valid entry is below 2^64 |
| Replay.DirectAlwaysCanFinish | src/eest_replay/runner.py:222-249 | without buildoor every fixture with a payload can finish, whatever its numbers |
| Wire.PathEquivalence | src/eest_replay/buildoor_client.py:104-127 | encoding and then decoding succeeds exactly when every number is below 2^64, and gives the direct path's attributes, with an absent slot as 0, absent withdrawals as none and target gas limit 0 |
| Wire.NumbersSurvive | src/eest_replay/buildoor_client.py:110-127 | each number of a request reads back as itself where it fits in 64 bits, as an error where not, withdrawal by withdrawal |
| Wire.ToAttributes | patches/cmd_simbuild.go:199-248 | the loop yields the attributes, or the first field in reading order whose text is bad |
| Wire.FirstBadIsLeast | patches/cmd_simbuild.go:199-233 | the reported field is bad and no bad field is read before it; no report means none is bad |
| Wire.ParseHexU64 | patches/cmd_simbuild.go:250-261 | the number its text denotes, always below 2^64, or an error |
| Wire.AcceptedTexts | patches/cmd_simbuild.go:250-261 | accepted are the empty text and the hex numerals below 2^64 behind an optional prefix, and nothing else |
| RpcProxy.RealTimeOrder | src/eest_replay/rpc_proxy.py:129-136 | if one request was answered before another arrived, all its transactions stand before all of the other's, in every interleaving |
| RpcProxy.OrderSettledIff | src/eest_replay/rpc_proxy.py:104-136 | in every reachable state, a request can no longer be overtaken by one yet to arrive exactly when it has nothing left to record: waiting for that is necessary and sufficient |
| RpcProxy.Overtaken | src/eest_replay/rpc_proxy.py:59-61 | until then any sending request that arrives next can get in front of the very next transaction |
| RpcProxy.SplitIff | src/eest_replay/rpc_proxy.py:68-78 | some interleaving puts a transaction of one body between two of another exactly when the latter sends at least two and the former at least one |
| RpcProxy.AlwaysConsistent | src/eest_replay/rpc_proxy.py:52-78 | at every moment of every interleaving the list is an order-preserving shuffle of prefixes of the answered requests' transactions |
| RpcProxy.QuietLogIsFullShuffle | src/eest_replay/rpc_proxy.py:104-136 | once all handlers are done it is a shuffle of everything in the answered bodies |
| RpcProxy.ShuffleIff | src/eest_replay/rpc_proxy.py:52-65 | what a shuffle is: the elements can be assigned to the parts so that each part gets its own, in order |
| RpcProxy.UnansweredContributesNothing | src/eest_replay/rpc_proxy.py:111-127 | a request that failed in transport contributes nothing, however the others are scheduled |
| RpcProxy.SnapshotsGrow | src/eest_replay/rpc_proxy.py:63-65 | every snapshot is a prefix of every later one |
| RpcProxy.SerialClientCapture | src/eest_replay/rpc_proxy.py:1-9 | for a client that waits for each reply, the list is the concatenation of the answered requests' transactions in order of submission |
| RpcProxy.BatchRoundTrip | src/eest_replay/rpc_proxy.py:68-78 | the transactions a client packs into a batch of by-position calls are recorded, all and in order |
| RpcProxy.WhatIsRecorded | src/eest_replay/rpc_proxy.py:72-78 | a text is recorded for a call exactly when the call is a send whose params are an array that begins with that string, or a string that begins with that character |
| RpcProxy.ExtractOfOne | src/eest_replay/rpc_proxy.py:71-78 | what any single call records and how it ends, in terms of those conditions |
| RpcProxy.ExtractOfAppend | src/eest_replay/rpc_proxy.py:71-78 | the calls of a body are recorded one after another, up to the first that raises |
| RpcProxy.NoSendNoRecord | src/eest_replay/rpc_proxy.py:72-75 | a body without a send records nothing and does not raise |
| RpcProxy.SingleIsBatchOfOne | src/eest_replay/rpc_proxy.py:70 | a single call is handled as a batch of one |
| RpcProxy.EscapesIff | src/eest_replay/rpc_proxy.py:129-134 | recording lets an exception out exactly when parsing raises something other than a ValueError, or when a by-name send occurs before which no call raises |
| RpcProxy.ByNameParamsEscape | src/eest_replay/rpc_proxy.py:76-77 | an input for which it does |
| RpcProxy.Server.ExtractRawTxs | src/eest_replay/rpc_proxy.py:68-78 | whatever the other threads do meanwhile, exactly this body's transactions are appended under this request, up to the first call that raises |
| RpcProxy.Server.RecordBody | src/eest_replay/rpc_proxy.py:129-134 | the same for any body, and whether the exception it may raise is swallowed or escapes |
| RpcProxy.Server.DoPost | src/eest_replay/rpc_proxy.py:90-136 | what a request records, what its client gets, and that the reply is its last move, for every schedule of the other threads |
| Export.Enrich | src/eest_replay/export.py:464-493 | rows 0..n-1 with the prefixed raw text and its hash, one per transaction, in order; an exception exactly when some text is not hex |
| Export.FromHexOfToHex | src/eest_replay/export.py:468 | what is hashed are the bytes the text spells |
| Export.ExportSerialClient | src/eest_replay/export.py:127-146 | end to end for a client that waits: row i is the i-th transaction of all answered requests, batches included |
| Sweep.IncludeConserves | src/eest_replay/sweep.py:78-88 | including a sweep moves wei and burns the base fee; nothing appears or disappears |
| Ledger.AlwaysAccounted | src/eest_replay/sweep.py:71-133 | at every moment of every interleaving, balances, nonces, burned wei, pool and recovered list are the closed form of the start and of what was included |
| Ledger.EverySweepAffordable | src/eest_replay/sweep.py:74-88 | at every moment each pending sweep's sender holds exactly value plus gas at the fee cap; a block can include it exactly when base fee and priority fee are within the cap |
| Ledger.PriorityAboveCapSweepsNothing | src/eest_replay/sweep.py:82-83 | with a priority fee above the cap no sweep is ever included and no wei moves, in any interleaving |
| Ledger.FinalLedger | src/eest_replay/sweep.py:71-93 | when all is included, sender i keeps exactly 21000 * (max_fee - p_i), the others are untouched and the recipient gained exactly the sum of `swept_wei` |
| Ledger.OrderIndependence | src/eest_replay/sweep.py:122-133 | interleavings that included the same sweeps in the same blocks agree on every balance, nonce and the wei burned |
| Ledger.WeiIsConserved | src/eest_replay/sweep.py:71-93 | wei plus burned wei never changes, also after a rejection |
| Ledger.ExactRecovery | src/eest_replay/sweep.py:122-133 | the recovered list is, in key order, exactly the keys holding more than the reserve, by at least the minimum; their balances sum to the total swept plus one reserve each |
| Ledger.SecondPassIsIdle | src/eest_replay/sweep.py:74-76 | once a pass is included, a second one submits nothing and returns nothing |
| Ledger.CompletePassSettles | src/eest_replay/sweep.py:105-145 | a completed pass leaves a chain another pass may start from |
| Ledger.NothingLeft | src/eest_replay/sweep.py:74-76 | no scanned account is then above the reserve |
| Recovery.SweepAccount | src/eest_replay/sweep.py:44-93 | read balance and nonce, compare, submit: which of three ways it ends, and what it adds to the recovered list, while the chain mines before every RPC answer |
| Recovery.RecoverFundedEoas | src/eest_replay/sweep.py:105-145 | returns the closed-form list or raises on a rejection; when the receipt loop empties the pending set, every sweep is included; without `wait`, or with nothing recovered, it does not wait |
| Recovery.RecoverAgain | src/eest_replay/sweep.py:105-145 | after a completed pass, recovering again with the same keys and fees returns an empty list and leaves the chain as it is |
| Recovery.AwaitReceipts | src/eest_replay/sweep.py:134-144 | at most 45 polls, each but an emptying one followed by four seconds of sleep; pending only shrinks; every hash dropped has a receipt; whatever has one at the start is gone after the first poll; a non-empty rest means 180 seconds have passed |
| Recovery.StillPending | src/eest_replay/sweep.py:138-142 | a poll drops every hash that already had a receipt, and only hashes that have one |
| Recovery.NothingPending | src/eest_replay/sweep.py:134-144 | when every recovered hash has a receipt, the pool is empty and the ledger final |
| Recovery.SidecarRecovers | src/eest_replay/export.py:343-370 | the random start, the drawn bits plus 2^16, survives sidecar and command line; the scanned keys are that many distinct keys, valid for secp256k1 within the stated count, and cover the funded ones exactly when the count is large enough |
| Recovery.GivenStartsSurvive | src/eest_replay/cli.py:601-610 | a start given on submission is the one recovered from, and one given on recovery overrides the sidecar |
| Recovery.StartsDiffer | src/eest_replay/export.py:602-612 | different draws give different starts |
| Recovery.SidecarScanIsSound | src/eest_replay/export.py:602-612 | such a scan meets the assumptions of the ledger theorems |
| Numerals.PrintThenValue | src/eest_replay/chainspec.py:130-137 | printing a natural and reading it back is the identity in every base up to 16 |
| Numerals.DigitsAre | patches/cmd_simbuild.go:260 | the characters read as digits are the sixteen in either case and no others |
| Numerals.WhichTextsRead | src/eest_replay/cli.py:608 | exactly which texts are read as decimal and as hex numbers |
| Numerals.PrefixedOnce | src/eest_replay/export.py:492 | a prefixed text stays as it is, another gets the prefix, and what follows it is kept |
| Numerals.HexRoundTrip | src/eest_replay/export.py:615-623 | base-16 reading undoes `hex` on all naturals |
| Numerals.DecRoundTrip | src/eest_replay/cli.py:608 | `int` undoes `str` on all naturals |
| Genesis.BuildAlloc | src/eest_replay/chainspec.py:77-81 | reading the alloc back gives exactly the accounts present in the pre-state: none lost, merged, altered or invented |
| Genesis.AllocEntry | src/eest_replay/chainspec.py:117-127 | an entry reads back as its account, with absent nonce, code and storage at their defaults |
| Genesis.WriteStorage | src/eest_replay/chainspec.py:123-126 | every slot is written under its own text, and nothing else is: keys never collide |
| Genesis.ActivateUntil | src/eest_replay/chainspec.py:62-65 | the breaking loop activates exactly the prefix up to the target, at 0, or the whole table for an unknown name |
| Genesis.ForkIndex | src/eest_replay/devnet_genesis.py:41-46 | the position of the last activated fork, or none for an unknown name |
| Genesis.BuildDevnet | src/eest_replay/devnet_genesis.py:70-113 | fails exactly for unknown forks; activates the same prefix; the blob schedule covers exactly the activated forks with an entry; the Amsterdam fields appear exactly when Amsterdam is activated |
| Genesis.ActivatedMeans | src/eest_replay/chainspec.py:62-65 | the number activated, for known and unknown names |
| Genesis.WritersAgree | src/eest_replay/devnet_genesis.py:78-83 | the two loops' fork configurations are equal |
| Genesis.AmsterdamIsLast | src/eest_replay/devnet_genesis.py:106-113 | with the repository's fork table, the Amsterdam fields belong to Amsterdam and no other known fork |
| Genesis.DevnetFor | src/eest_replay/devnet_genesis.py:77-85 | with the repository's tables, a devnet has exactly the time keys up to its fork and the blob schedules of exactly the forks from Cancun up to it |
| Batch.RunBatch | src/eest_replay/cli.py:102-153 | the nested loops leave the report of the flattened sequence; the exit code is 0 exactly when there are files and the replay of every fixture in them returned and passed |
| Batch.RaisedIsAFailure | src/eest_replay/cli.py:118-131 | a replay that raised is entered under its own id, with an error and no blocks, and counts as failed; one that returned is entered as it is |
| Batch.ReportedTellsAll | src/eest_replay/cli.py:136-139 | the report is clean exactly when every fixture succeeds, whether it stopped early or not |
| Batch.ReplayFile | src/eest_replay/cli.py:112-139 | the inner loop appends one file's results, up to and including the first failure when the flag is set |
| Batch.ReportedIsShortestPrefix | src/eest_replay/cli.py:110-141 | with the flag the report is the shortest prefix ending in a failure, otherwise everything |
| Batch.CountsAddUp | src/eest_replay/report.py:26-36 | passed and errored are disjoint, and passed is the total exactly when every result passed |
| Batch.BatchReport.HeadlineIs | src/eest_replay/report.py:22-36 | the counters are the numbers of results, of passing ones, of the others, and of those with an error |
| Batch.BatchReport.CleanIffAllPassed | src/eest_replay/report.py:30-36 | errored is at most failed, and their sum is zero exactly when everything passed |
| Batch.StatusColumn | src/eest_replay/report.py:86-91 | every row has one status; PASS rows are `passed`; ERR rows are `errored` exactly when no error text is empty |
| Batch.ReplayErrorsAreNotEmpty | src/eest_replay/runner.py:199-288 | a replay never reports an empty error text |

## Left out

- DiffPayload: a mismatch is the triple of field, expected and built value; the sentence made of them is not modelled.
- Enrich: the hash is an arbitrary function of the decoded bytes, and the eleven columns copied from the node's answer are one opaque value; decoding accepts ASCII blanks between pairs of digits, as Python does.
- ExportSerialClient: the external `execute` process is any client that waits for each reply.
- SidecarRecovers: numerals are plain digit strings; the blanks, signs and underscores `int` would also take, and the JSON text around the sidecar's field, are not modelled.
- BuildAlloc: the header fields, the chain id, the pre-merge block numbers and the fixture's own blob schedule are copied by single expressions and not modelled.
- BuildDevnet: constants, and the alloc of prefunded accounts; an empty blob schedule stands for an absent one.
- RunBatch: each fixture comes with the way its replay ends; an exception from the fixture loader, which ends the command, and the representation of a caught exception inside its error text are not modelled.
- RecoverFundedEoas: transactions of other users are not part of the environment; a transport failure, which leaves as an exception, is not distinguished from a rejection.
- RequestBuild: safe and finalized hashes, the HTTP exchange, malformed JSON bodies and the rewriting of extra data (a builder-picked field) are not modelled; buildoor chooses its own method versions.
- Docker, subprocesses, ports, files and the benchmark-gas defaults: plumbing or single branches.
- Signing, RLP, keccak and key derivation: foreign code; derivation is an arbitrary function with the stated injectivity.
- `split_basic_auth`, `urlsplit`, the HTTP server and its sockets are not part of this model.
- The `recover --key` path: one call of the modelled sweep.
- The getPayload version table, elapsed times, fork labels, log lines, ETH formatting and Markdown layout: settled by reading one line.

# Karma evidence runtime: a verified model

A Dafny model of the parts of Karma that make evidence trustworthy, with proofs that hold
for every input and every run.

| module | what it models |
|---|---|
| `Text`, `Sorting` | Python string order and decimal integers; `sorted` as the stable sort |
| `Json`, `JsonRoundTrip`, `JsonAscii`, `JsonDict` | `json.dumps(sort_keys=True)` with its escaping, a decoder, and dicts as finite maps |
| `Records` | task contracts, execution receipts, evidence bundles, their dicts and hashes |
| `ReceiptStore`, `ReceiptChain` | the write-once store, sorted chains, gap diagnosis |
| `OperationalControls`, `EvidenceAdapter`, `Verification` | gates, bundle builder, structural verifier |
| `SettlementIdempotency`, `SettlementAdapter` | step keys, the idempotency book, settlement plans |
| `Timestamps`, `StressChecks`, `StressAgents`, `StressInvalid`, `StressRunner` | the stress harness from calendar to totals |
| `VerifierNetwork` | auto-verify and reputation jobs, submitted attestations, slashes |
| `Ap2Adapter` | AP2 mandate export, import and digest check |
| `ConsoleBundle`, `AssetStamping` | console manifest and verification, asset version stamps |
| `RuntimeClient` | request signing of the SDK against the runtime gateway |

**Hashes.** SHA-256 is a parameter `h`. Nothing assumes that it is injective, which no function
into 64 hex digits can be. A commitment result says "equal, or these two texts collide", and
the colliding pair is always built from the data at hand: `CollisionAmong(h, rs)` names two of
the receipts in `rs`, never just some pair somewhere. `HexValued(h)` says only that results are
64 lower-case hex digits.

**Main results.**

- The last record hash of a gap-free chain commits to the whole history
  (`ReceiptChain.HeadCommitsToHistory`). Whatever is lost, what is left goes unreported exactly if
  it is a prefix (`ReceiptChain.LossesDetected`). Edits before the last receipt are always reported;
  for the last receipt the exact unreported cases are given.
- Store, chain and verdict do not depend on delivery order or repetition
  (`ReceiptStore.DeliveryOrderIrrelevant`, `Verification.VerdictDeliveryOrderIrrelevant`). A sound
  bundle pins down task and receipts, and one more receipt of the task breaks it.
- Under any interleaving of any submissions, every submission asks for its first steps, one per
  move, and the steps that pass the idempotency book are, per plan, the canonical steps in order,
  each once, exactly as far as the furthest submission went (`SettlementIdempotency.ExactlyOnce`;
  `SettlementIdempotency.RunInterleaving` is the run with the book).
- A stress run over any agents, step counts and attacks counts bundles and plans for exactly the
  agents that no attack changed, and counts what every kind of attack leaves behind, down to the
  number of broken links and of invalid receipts (`StressRunner.RunStress`).
- A bundle is sound exactly if it passes the eight structural checks, and otherwise the reason names
  the first that fails (`Verification.VerdictExactly`).
- Canonical JSON is inverted by a decoder and equal exactly for equal dicts
  (`JsonRoundTrip.LoadsInvertsDumps`, `JsonDict.CanonicalIffSameDict`).
- In every run of the verifier network's jobs, submissions and slashes, each node and its rows are
  what the run makes of that node alone, in whatever order nodes are read (`VerifierNetwork.RunJobs`). Counters equal the
  rows they count (`VerifierNetwork.RunsAccounted`), and from any reachable state the score
  converges geometrically in spite of rounding (`VerifierNetwork.RatingsSettle`). A node without the
  backing it needs gets nothing in any run (`VerifierNetwork.UnbackedGetsNothing`).
- An AP2 mandate is consistent with one bundle at most, or two bundles collide
  (`Ap2Adapter.OneBundleOnly`), and exactly which dicts are imported is proved
  (`Ap2Adapter.ImportsExactly`).
- The SDK signs a request for a key that is not bound only after an unbinding, while owners bind and
  unbind at will (`RuntimeClient.SigningIsRight`). With safe agent ids at most one of its requests is
  refused for lack of a signature, plus one per unbinding (`RuntimeClient.SafeIdsBoundRefusals`).

**Where the code does less than its comments or names suggest.** The model follows the code.

- `stamp_reference` promises to keep the rest of the query. The stamp it writes swallows the next
  parameter when it is read back, so stamping is idempotent exactly when there is no other
  parameter (`AssetStamping.IdempotentExactly`, `AssetStamping.StampLosesAParameter`).
- Step keys join trace, bundle and function with bars, so different trace and bundle ids can share
  keys; exactly which ones can is proved (`SettlementIdempotency.AmbiguousExactly`).
- The shipped verification rules never return the `valid` flag that auto-verify reads. In every run
  with the rules loaded a node has a success exactly if one of its own submissions claimed it
  (`VerifierNetwork.OnlySubmissionsSucceed`), and without such a claim no attestation of the node is
  OK and its reputation stays exactly 0 (`VerifierNetwork.ShippedRulesNeverReward`).
- `_is_hex64` asks for 64 lower-case hex digits. It also lets through an underscore, a sign, a `0x`
  prefix, a blank and a digit from outside ASCII (`Ap2Adapter.UnderscorePasses` and its
  neighbours), and what it accepts is right exactly if no such character occurs
  (`Ap2Adapter.HexCheckExactly`). A missing or empty `mandate_digest` is not checked at all
  (`Ap2Adapter.UnsealedIsNotChecked`).
- `ensure_bound` is documented to switch signing on for a key that is already bound and return. On
  a bound key it returns exactly if signing was on before and a payload for the right chain comes
  back; otherwise it raises, with signing on if the gateway answered
  (`RuntimeClient.EnsureExactly`). A new client meets this on its first call, and the second call
  returns (`RuntimeClient.EnsureRaisesOnce`). After an unbinding it never returns while signing is on;
  `bind_key` ends that (`RuntimeClient.ApplyingRecovers`).
- The error handling expects a bound key to ask for a signature. The gateway refuses an application
  for its agent id before it looks at the key, so `bind_key` on a bound key switches signing on exactly
  if the agent id has 1 to 128 characters out of `[A-Za-z0-9_.-]`
  (`RuntimeClient.SwitchesOnIffSafe`), and a client with any other id applies for ever unsigned
  (`RuntimeClient.EndlessExactly`).

## Model

| member | source | states |
|---|---|---|
| `JsonRoundTrip.LoadsInvertsDumps` | evidence_runtime/hashing.py:16-17 | decoding a dumped value, with either separator pair, gives the value with every dict in key order; the escaping is that of section 7 of RFC 8259 |
| `JsonRoundTrip.CanonicalDetermines` | evidence_runtime/hashing.py:16-17 | canonical texts are equal exactly when the values are equal up to dict order |
| `JsonAscii.DumpsAreAscii` | evidence_runtime/hashing.py:16-21 | the dumped text is printable ASCII whatever the strings in it, so its bytes are its characters |
| `JsonAscii.SeparatorsWritten` | evidence_runtime/hashing.py:16-17 | items and keys are separated by the compact or the spaced pair |
| `JsonDict.InsertionOrderIrrelevant` | evidence_runtime/hashing.py:16-17 | the order in which dict entries were inserted does not reach the text |
| `JsonDict.CanonicalIffSameDict` | evidence_runtime/hashing.py:16-17 | canonical texts of two dicts are equal exactly when every key looks up the same |
| `JsonDict.RedumpIsStable` | evidence_runtime/stress_runner.py:338-345 | dumping, loading and dumping again reproduces the text, so the plan fingerprint check never fails |
| `Records.ReceiptRecovered` | evidence_runtime/schemas.py:44-67 | a receipt can be read back from its canonical text, including whether it has a trace |
| `Records.BundleRecovered` | evidence_runtime/schemas.py:84-99 | a bundle can be read back from its canonical text |
| `Records.TaskRecovered` | evidence_runtime/evidence_adapter.py:14-25 | a task contract can be read back from the text its hash is taken over |
| `Records.BodyRecovered` | evidence_runtime/stress_runner.py:89-92 | bodies without the receipt id have the same text exactly when the receipts differ in the id at most |
| `Records.ReceiptEntries` | evidence_runtime/schemas.py:44-67 | a receipt's dict has a trace entry exactly if there is a trace, and its body one entry less |
| `Records.RecordHashCommits` | evidence_runtime/evidence_adapter.py:74-75 | equal record hashes mean equal receipts or an explicit collision |
| `Records.BundleHashCommits` | evidence_runtime/evidence_adapter.py:66-67 | equal bundle digests mean equal bundles or an explicit collision |
| `Records.TaskHashCommits` | evidence_runtime/evidence_adapter.py:14-25 | equal contract hashes mean equal tasks or an explicit collision |
| `Records.BodyHashCommits` | evidence_runtime/stress_runner.py:89-92 | equal body hashes mean the same body or an explicit collision |
| `ReceiptStore.InMemoryReceiptStore.SaveReceipt` | evidence_runtime/receipt_store.py:17-23 | write once, ignore a repetition, refuse another payload under the same id and then change nothing |
| `ReceiptStore.InMemoryReceiptStore.SaveReceipts` | evidence_runtime/stress_runner.py:199-201 | saves in order; on a refusal exactly the receipts before it are stored |
| `ReceiptStore.InMemoryReceiptStore.GetReceipt` | evidence_runtime/receipt_store.py:25-26 | finds the receipt with the id exactly when there is one |
| `ReceiptStore.InMemoryReceiptStore.GetReceiptChain` | evidence_runtime/receipt_store.py:28-32 | the task's receipts and no others, sorted by step, ties in insertion order |
| `ReceiptStore.TwoStageSort` | evidence_runtime/verification.py:58-63 | sorting by step and then by (step, id) is one sort by (step, id) |
| `ReceiptStore.ChainDependsOnContents` | evidence_runtime/receipt_store.py:28-32 | a task's chain depends only on which of its receipts are stored |
| `ReceiptStore.SaveAllRepresents` | evidence_runtime/receipt_store.py:17-23 | a conflict-free batch is accepted, and then the store holds one representative of every id |
| `ReceiptStore.DeliveryOrderIrrelevant` | evidence_runtime/receipt_store.py:17-29 | batches of the same receipts are accepted or refused together, exactly by conflict-freeness, and leave the same contents and chains, or two receipts collide |
| `ReceiptChain.DescribeReceiptChainGaps` | evidence_runtime/recovery.py:9-31 | the messages of the two loops; none exactly for a complete, linked, non-empty chain |
| `ReceiptChain.NoGapsIffLinked` | evidence_runtime/recovery.py:16-31 | no message exactly when steps are 0..n-1, the first link is empty and every other link is the predecessor's hash |
| `ReceiptChain.GapsExactly` | evidence_runtime/recovery.py:9-31 | one message for each wrong step and then for each wrong link of the sorted chain, in order, with the text that names the step; "empty_chain" for none |
| `ReceiptChain.GapsOrderIrrelevant` | evidence_runtime/recovery.py:19 | the diagnosis does not depend on the order of the reloaded receipts |
| `ReceiptChain.HeadCommitsToHistory` | evidence_runtime/recovery.py:23-30 | gap-free chains with the same last record hash are the same chain, or two receipts collide |
| `ReceiptChain.FinalHashCommitsToHistory` | evidence_runtime/evidence_adapter.py:49-50 | bundles over gap-free chains with the same final hash hold the same receipts, or two receipts collide |
| `ReceiptChain.LossesDetected` | evidence_runtime/recovery.py:16-31 | what is left after any losses and repetitions goes unreported exactly when it is one copy of a non-empty prefix |
| `ReceiptChain.LossDetected` | evidence_runtime/recovery.py:20-22 | losing one receipt goes unreported exactly when it is the last of several |
| `ReceiptChain.EditDetected` | evidence_runtime/recovery.py:28-30 | replacing a receipt before the last by a different one is reported, or the two collide |
| `ReceiptChain.LastEditDetected` | evidence_runtime/recovery.py:20-30 | replacing the last receipt goes unreported exactly when step and link stay |
| `EvidenceAdapter.BuildEvidenceBundle` | evidence_runtime/evidence_adapter.py:34-64 | fails with the first missing id exactly when one is missing; otherwise the bundle over exactly the fetched receipts |
| `EvidenceAdapter.HashesCommit` | evidence_runtime/evidence_adapter.py:49 | equal hash lists come from equal receipt lists or a collision |
| `OperationalControls.GateReasons` | evidence_runtime/operational_controls.py:22-38 | when each gate closes and with which reason: a pause before a frozen task before a frozen agent |
| `Verification.VerifyEvidenceBundleStructural` | evidence_runtime/verification.py:23-106 | decision, the single public reason, task id, digest and trace are those of the first failing check, or STRUCT_OK |
| `Verification.VerdictExactly` | evidence_runtime/verification.py:34-90 | for every bundle: sound exactly if gates, task id, contract hash, receipts, bundle trace, receipt traces, receipt hashes and start order are all right, otherwise the reason is that of the first that is not |
| `Verification.StartsInOrder` | evidence_runtime/verification.py:77-83 | the adjacent comparison from "" succeeds exactly when all start times are in order |
| `Verification.TracesAgree` | evidence_runtime/verification.py:68-71 | the trace loop succeeds exactly when every receipt carries the task's trace |
| `Verification.VerdictDependsOnContents` | evidence_runtime/verification.py:58-86 | stores with the same receipts of the task give the same verdict |
| `Verification.VerdictDeliveryOrderIrrelevant` | evidence_runtime/verification.py:58-75 | any rearrangement or repetition of an accepted batch is accepted and gives the same verdict, or receipts collide |
| `Verification.OtherTasksIrrelevant` | evidence_runtime/verification.py:58 | saving any number of receipts of other tasks never changes a verdict |
| `Verification.GatesOnlyBlock` | evidence_runtime/operational_controls.py:22-29 | with controls a bundle is sound exactly when it is sound without them and neither paused nor frozen |
| `Verification.NewReceiptBreaksBundle` | evidence_runtime/verification.py:72-75 | after a sound verdict any new receipt of the task makes the bundle fail |
| `Verification.SoundBundlePinsReceipts` | evidence_runtime/verification.py:50-75 | a bundle sound for two tasks over two stores: one task and the same receipts, or a collision |
| `Verification.BuilderCompleteness` | evidence_runtime/evidence_adapter.py:34-64 | a bundle over all ids in chain order verifies exactly when the controls let it, the chain is non-empty, traces match and starts are in order |
| `Verification.OnlyTheChainVerifies` | evidence_runtime/verification.py:72-75 | no other selection or order of ids verifies, or two stored receipts collide |
| `SettlementIdempotency.SettlementIdempotencyBook.TryOnce` | evidence_runtime/settlement_idempotency.py:14-19 | true exactly for a key not recorded before; the key is recorded |
| `SettlementIdempotency.KeyIffScopeAndStep` | evidence_runtime/settlement_idempotency.py:22-24 | step keys are equal exactly when the step and the trace-and-bundle scope are |
| `SettlementIdempotency.ScopeIdentifiesPlan` | evidence_runtime/settlement_idempotency.py:22-24 | with bar-free bundle ids and no literal `<no_trace>`, a scope names one trace and one bundle |
| `SettlementIdempotency.AmbiguousExactly` | evidence_runtime/settlement_idempotency.py:22-24 | exactly which trace and bundle ids share their keys with another pair |
| `SettlementIdempotency.ExactlyOnce` | evidence_runtime/settlement_idempotency.py:14-24 | over every interleaving of truncated, repeated, paused and unpaused submissions: each has asked for its first steps, one per move up to its length, and what passes per plan is the first of the five steps, as far as the furthest submission |
| `SettlementIdempotency.InterleavingIrrelevant` | evidence_runtime/settlement_idempotency.py:14-24 | what passes depends only on how many moves each submission got |
| `SettlementIdempotency.RunInterleaving` | evidence_runtime/settlement_idempotency.py:14-20 | the run against the book itself, with every answer of the book, has these properties |
| `SettlementAdapter.CallNames` | evidence_runtime/settlement_adapter.py:18-71 | five calls in canonical order, or the first three with the payout paused |
| `SettlementAdapter.CallArguments` | evidence_runtime/settlement_adapter.py:30-68 | token, amount, seller, scope and proof end up in the right calls |
| `SettlementAdapter.OffchainBlocks` | evidence_runtime/settlement_adapter.py:117-132 | which status closes an offchain plan, verdict before controls |
| `SettlementAdapter.AttestedBlocks` | evidence_runtime/settlement_adapter.py:216-245 | which status closes an attested plan, quorum before window before controls |
| `SettlementAdapter.OpenStatusByMode` | evidence_runtime/settlement_adapter.py:155-160 | the status of an open plan in each mode |
| `SettlementAdapter.BuildOffchainPlan` | evidence_runtime/settlement_adapter.py:83-161 | calls exactly when verdict and controls allow it; the terms in the right arguments and look-ups; aligned, pairwise different step keys; status and block reason otherwise |
| `SettlementAdapter.BuildAttestedPlan` | evidence_runtime/settlement_adapter.py:163-278 | the same behind quorum and challenge window |
| `SettlementAdapter.SharedKeyIffSameScope` | evidence_runtime/settlement_adapter.py:147-153 | two plans share a key exactly at the same step of the same scope |
| `SettlementAdapter.PlanTailReads` | evidence_runtime/settlement_adapter.py:105-160 | a plan's dict has the calls and keys in order, the status, a block exactly if there is one, and no transaction |
| `SettlementAdapter.VerificationReads` | evidence_runtime/settlement_adapter.py:108-114 | the plan repeats id, decision, reasons, time and trace of its verdict |
| `SettlementAdapter.AttestationReads` | evidence_runtime/settlement_adapter.py:199-206 | and of its quorum id, threshold, counts, decision and status |
| `SettlementAdapter.WindowReads` | evidence_runtime/settlement_adapter.py:207-213 | and of its challenge window id, times, length and status |
| `SettlementAdapter.CallsRead` | evidence_runtime/settlement_adapter.py:146 | the calls appear in the plan's dict in order with names, arguments and note |
| `SettlementAdapter.KeysRead` | evidence_runtime/settlement_adapter.py:147-153 | and so do the step keys |
| `SettlementAdapter.NotesRead` | evidence_runtime/settlement_adapter.py:143-144 | a plan whose payout is paused says so, no other does |
| `Timestamps.DayAtOrdinal` | evidence_runtime/stress_runner.py:37-39 | counting days from the base date reaches the day with the right Gregorian day number |
| `Timestamps.TimeAtSeconds` | evidence_runtime/stress_runner.py:37-39 | day number, hour, minute and second add up to the seconds since the base time |
| `Timestamps.TimeOrder` | evidence_runtime/stress_runner.py:37-39 | calendar order of two times is the order of their offsets, with leap years |
| `Timestamps.IsoOrder` | evidence_runtime/verification.py:77-83 | fixed-width UTC texts compare exactly as their times do (section 5.1 of RFC 3339) |
| `Timestamps.ParseInvertsIso` | evidence_runtime/stress_runner.py:37-44 | reading back what was written |
| `StressChecks.DuplicateExtraCount` | evidence_runtime/stress_runner.py:81-86 | list length minus the number of different ids |
| `StressChecks.ReplayEventCount` | evidence_runtime/stress_runner.py:95-100 | the number of body hashes that occur under several ids |
| `StressChecks.ChainLinkErrors` | evidence_runtime/stress_runner.py:103-115 | no error exactly when every link of the sorted list is right |
| `StressChecks.TallySchemaErrors` | evidence_runtime/stress_runner.py:245-271 | timeouts and other schema errors over all receipts |
| `StressChecks.NoSchemaErrorIff` | evidence_runtime/stress_runner.py:55-78 | exactly which receipts have no schema error |
| `StressChecks.SchemaErrorsExactly` | evidence_runtime/stress_runner.py:55-78 | every schema error that applies is listed once, and no other |
| `StressChecks.NoReplayIff` | evidence_runtime/stress_runner.py:95-100 | nothing counts as replayed exactly when no body has two ids |
| `StressChecks.CleanIffNoneInvalid` | evidence_runtime/stress_runner.py:273-292 | an agent passes in aggregate exactly when none of its receipts is invalid, position looked up by object identity |
| `StressChecks.CountReceipts` | evidence_runtime/stress_runner.py:259-290 | the invalid count is the number of receipts that fail a test, and all others are valid |
| `StressChecks.Analyse` | evidence_runtime/stress_runner.py:236-292 | all per-agent counters, the number of invalid receipts included, and the aggregate test |
| `StressAgents.BuildHonestReceipts` | evidence_runtime/stress_runner.py:122-157 | the producer loop, or an overflow exactly when a timestamp leaves the calendar |
| `StressAgents.HonestPrefixGapFree` | evidence_runtime/stress_runner.py:131-157 | wherever the producer is interrupted, its receipts have no gaps |
| `StressAgents.HonestClean` | evidence_runtime/stress_runner.py:292 | an honest agent passes exactly when no two of its bodies collide |
| `StressAgents.AttacksCaught` | evidence_runtime/stress_runner.py:160-196 | each attack is caught on every chain it changes, and only then |
| `StressAgents.SchemaAttribution` | evidence_runtime/stress_runner.py:190-194 | one timeout or malformed status for exactly those attacks |
| `StressAgents.DuplicateAttribution` | evidence_runtime/stress_runner.py:163-165 | one extra row for exactly the duplicate attack |
| `StressAgents.ReplayAttribution` | evidence_runtime/stress_runner.py:166-189 | one replayed body for exactly the replay attack, or bodies collide |
| `StressAgents.ForgedAttribution` | evidence_runtime/stress_runner.py:103-115 | broken links for exactly the attacks that break one, and exactly how many, or two receipts collide |
| `StressInvalid.InvalidExactly` | evidence_runtime/stress_runner.py:273-290 | how many receipts each attack makes invalid: 2 for a duplicate, 3 or 2 for a replay, 1 for times or status, 2, 1 or 0 for a forged link, 0 for none; or bodies or records collide |
| `StressRunner.HonestBundleSound` | evidence_runtime/stress_runner.py:294-325 | the bundle of an honest chain is sound exactly when the chain is not empty |
| `StressRunner.SettleAgent` | evidence_runtime/stress_runner.py:294-345 | for every non-empty honest chain a bundle over the whole chain and a full plan for it, with names, times, terms and digests |
| `StressRunner.AgentsShareNoKey` | evidence_runtime/stress_runner.py:294-345 | the plans of two agents of a run never share a step key |
| `StressRunner.RunAgent` | evidence_runtime/stress_runner.py:226-345 | one agent from receipts to plan, with every counter |
| `StressRunner.RunStress` | evidence_runtime/stress_runner.py:204-345 | bundles and plans count the passing agents, valid and invalid receipts, duplicates, timeouts, malformed statuses, replays and broken links are counted exactly; invalid receipts, replays and links unless there is a collision |
| `StressRunner.PassingAreUnattacked` | evidence_runtime/stress_runner.py:226-345 | with at least two steps each, the passing agents are those without an attack, or an agent's bodies collide |
| `VerifierNetwork.Decide` | decentralized_verifier/tasks.py:123-180 | decision, confidence and checks for every outcome of the rules; OK exactly if the rules are unavailable or both results carry a true `valid` |
| `VerifierNetwork.Network.Backed` | decentralized_verifier/tasks.py:83-102 | exactly the active nodes that are appointed or whose bond is good |
| `VerifierNetwork.Network.AutoVerify` | decentralized_verifier/tasks.py:61-197 | one row and one credit for each selected node, no other row, everything else untouched; the count returned is the number of selected nodes |
| `VerifierNetwork.Network.UpdateReputation` | decentralized_verifier/tasks.py:286-313 | every node with attestations gets its smoothed score, nothing else changes; the count returned is the number of nodes |
| `VerifierNetwork.Network.SubmitAttestation` | api/routes/verifier_network.py:472-524 | a row and a credit exactly for an active node in good standing that signed; otherwise nothing changes |
| `VerifierNetwork.Network.ApplySlash` | api/routes/verifier_network.py:806-815 | the score falls by 25 but not below 0, a released node is switched off, nothing else changes |
| `VerifierNetwork.RunJobs` | decentralized_verifier/tasks.py:61-313 | over every interleaving of jobs, submissions, slashes and switches, each node and its rows in order are those of the per-node run; unknown nodes have no rows |
| `VerifierNetwork.RunsAccounted` | decentralized_verifier/tasks.py:183-186 | after every run the counters are those of the node's rows and the score is in [0, 100] |
| `VerifierNetwork.WorkForTheBacked` | decentralized_verifier/tasks.py:83-102 | one auto-verify gives an active node a row and a credit exactly if it has no owner or a good bond |
| `VerifierNetwork.UnbackedGetsNothing` | decentralized_verifier/tasks.py:83-102 | in every run an owned node whose bond is bad whenever it is looked at gets no row and no credit |
| `VerifierNetwork.InactiveGetsNothing` | decentralized_verifier/tasks.py:76-80 | in every run a node that is off and never switched on gets none either |
| `VerifierNetwork.SuccessfulIff` | decentralized_verifier/tasks.py:142-186 | a node has a successful attestation exactly if some auto-verify selected it with approving rules or it submitted an OK row that was taken |
| `VerifierNetwork.OnlySubmissionsSucceed` | decentralized_verifier/rules/structural.py:118-123 | in runs with the shipped rules, a node has a success exactly if it submitted an OK row that was taken |
| `VerifierNetwork.ShippedRulesNeverReward` | decentralized_verifier/rules/structural.py:118-123 | in runs with the shipped rules, which return or raise, and no OK row submitted by the node, no row of it is OK, the success counter is 0 and the score is exactly 0 |
| `VerifierNetwork.ReputationConverges` | decentralized_verifier/tasks.py:297-307 | n updates leave at most 0.7^n of the initial distance plus 1/6000 |
| `VerifierNetwork.Round4Nearest` | decentralized_verifier/tasks.py:307 | rounding gives the nearest ten-thousandth, on a tie the even one |
| `VerifierNetwork.RatingsSettle` | decentralized_verifier/tasks.py:297-307 | after any run, k more ratings bring the score within 100 times 0.7^k, plus 1/6000, of the success percentage |
| `Ap2Adapter.ExportIsConsistent` | evidence_runtime/ap2_adapter.py:83-137 | every exported mandate passes the consistency check against its bundle |
| `Ap2Adapter.ExportSays` | evidence_runtime/ap2_adapter.py:83-137 | the ids an export makes up when none are given, the goal hash, the time and the human flag |
| `Ap2Adapter.WrongBundleDetected` | evidence_runtime/ap2_adapter.py:195-199 | an exported mandate passes against its own bundle and no other, or the two collide |
| `Ap2Adapter.OneBundleOnly` | evidence_runtime/ap2_adapter.py:195-199 | any mandate is consistent with one bundle at most, or two bundles collide |
| `Ap2Adapter.EvidenceDigestChecked` | evidence_runtime/ap2_adapter.py:195-199 | a mandate without its own digest passes exactly if its evidence digest is the bundle's, up to case |
| `Ap2Adapter.SignatureKeepsConsistency` | evidence_runtime/ap2_adapter.py:76-80 | attaching a signature changes nothing, whether the mandate passes or not |
| `Ap2Adapter.EditsDetected` | evidence_runtime/ap2_adapter.py:191-205 | a dict with an exported digest is accepted, with or without the bundle, when its digested part is the exported one, and otherwise only by a collision |
| `Ap2Adapter.UnsealedIsNotChecked` | evidence_runtime/ap2_adapter.py:200-205 | a missing or empty digest passes; a digest that is null, a truth value, a list or a dict fails; any other passes exactly if it is the digest up to case |
| `Ap2Adapter.CaseDoesNotMatter` | evidence_runtime/ap2_adapter.py:198-203 | a digest written with capitals is the same digest |
| `Ap2Adapter.RoundTrip` | evidence_runtime/ap2_adapter.py:140-188 | export and import: for each field of the bundle and the terms, exactly when it survives |
| `Ap2Adapter.ImportsExactly` | evidence_runtime/ap2_adapter.py:140-165 | a dict is imported exactly if every required key is there, the three parts are dicts and the digest looks right |
| `Ap2Adapter.ImportedFrom` | evidence_runtime/ap2_adapter.py:166-188 | where each imported value comes from and what stands in for a missing or empty one |
| `Ap2Adapter.SignatureSurvives` | evidence_runtime/ap2_adapter.py:182 | signing a mandate changes nothing of its import but the signature, which survives |
| `Ap2Adapter.HexCheckExactly` | evidence_runtime/ap2_adapter.py:208-215 | 64 hex digits pass; a text that passes is 64 hex digits exactly if it has no underscore, x, sign, blank or character outside ASCII |
| `Ap2Adapter.AcceptedShape` | evidence_runtime/ap2_adapter.py:208-215 | a text that passes has no capitals, no two underscores in a row, and apart from blanks only hex digits, x, underscores and signs |
| `Ap2Adapter.UnderscorePasses` | evidence_runtime/ap2_adapter.py:208-215 | hex digits with one underscore between them pass |
| `Ap2Adapter.SignPasses` | evidence_runtime/ap2_adapter.py:208-215 | a sign and 63 hex digits pass |
| `Ap2Adapter.PrefixPasses` | evidence_runtime/ap2_adapter.py:208-215 | `0x` and 62 hex digits pass |
| `Ap2Adapter.BlankPasses` | evidence_runtime/ap2_adapter.py:208-215 | 63 hex digits with a blank on either side pass |
| `Ap2Adapter.ForeignDigitPasses` | evidence_runtime/ap2_adapter.py:208-215 | 63 hex digits with any Unicode decimal digit on either side pass |
| `Ap2Adapter.AcceptedDigest` | evidence_runtime/ap2_adapter.py:162-164 | the digest of an accepted import is 64 hex digits exactly if it has none of those characters |
| `ConsoleBundle.CanonUndoesCheckout` | scripts/console_bundle.py:67-77 | normalising undoes a CRLF checkout of any file |
| `ConsoleBundle.CanonFixed` | scripts/console_bundle.py:67-77 | a file is its own normal form exactly when it has no CRLF |
| `ConsoleBundle.ManifestFor` | scripts/console_bundle.py:106-119 | entries, total and root digest of the tree sorted by path |
| `ConsoleBundle.RootDigestOf` | scripts/console_bundle.py:95-103 | feeding lines one by one hashes the UTF-8 of all lines |
| `ConsoleBundle.ManifestText` | scripts/console_bundle.py:95-118 | one line per file, digest and path two blanks apart; sizes add up |
| `ConsoleBundle.LinesDecode` | scripts/console_bundle.py:95-103 | for newline-free paths the hashed text determines every path and digest |
| `ConsoleBundle.RootDigestCommits` | scripts/console_bundle.py:95-103 | equal root digests mean the same paths and digests, or a collision |
| `ConsoleBundle.RootIdentifiesTree` | scripts/console_bundle.py:106-119 | trees with the same root digest agree up to line endings, or a collision is at hand |
| `ConsoleBundle.Verify` | scripts/console_bundle.py:163-188 | lists exactly the paths on one side only and the files that differ, each once, section by section in path order; doubts the root digest only when the rest agrees |
| `ConsoleBundle.VerifiesIffSameTree` | scripts/console_bundle.py:163-188 | no problem against another tree's manifest when they agree up to line endings, and otherwise only by a collision |
| `ConsoleBundle.VerifyAgainst` | scripts/console_bundle.py:163-188 | the same, from building the manifest to verifying |
| `ConsoleBundle.CheckoutKeepsManifest` | scripts/console_bundle.py:67-77 | a tree without CRLF and its CRLF checkout have the same manifest entries |
| `AssetStamping.VerdictExactly` | scripts/stamp_console_assets.py:89-105 | a reference changes only if it leads to an existing asset, and the verdict says which case it was |
| `AssetStamping.ExternalLeftAlone` | scripts/stamp_console_assets.py:43-54 | references with one of the nine prefixes are left alone |
| `AssetStamping.StampOnce` | scripts/stamp_console_assets.py:67-105 | path and fragment stay, exactly the first other parameter is lost |
| `AssetStamping.IterateText` | scripts/stamp_console_assets.py:67-105 | the exact text after any number of stamps |
| `AssetStamping.IterationSettles` | scripts/stamp_console_assets.py:75-86 | with m other parameters, m + 1 stamps reach path, version and fragment for good |
| `AssetStamping.IdempotentExactly` | scripts/stamp_console_assets.py:75-86 | stamping twice is stamping once exactly when there is no other parameter |
| `AssetStamping.StampLosesAParameter` | scripts/stamp_console_assets.py:75-86 | a concrete reference that loses its parameter |
| `AssetStamping.StampPage` | scripts/stamp_console_assets.py:108-119 | the new references, and exactly the pairs that changed, in page order |
| `AssetStamping.StampThenCheck` | scripts/stamp_console_assets.py:126-148 | checking a freshly stamped page finds nothing exactly when no stamped reference had another parameter |
| `RuntimeClient.KarmaRuntime.Request` | sdk/runtime_client.py:225-243 | signs exactly when signing is enabled and a key is there; a 401 that names the signature header switches signing on |
| `RuntimeClient.RequestExactly` | sdk/runtime_client.py:225-372 | a request switches signing on exactly at a 401 that names the signature header, with an agent key, and changes nothing else |
| `RuntimeClient.KarmaRuntime.GetPermissions` | sdk/runtime_client.py:398-414 | the client state and result are those of the permissions step |
| `RuntimeClient.KarmaRuntime.ApplyForBinding` | sdk/runtime_client.py:251-301 | those of the bind step |
| `RuntimeClient.KarmaRuntime.AwaitBindingActivation` | sdk/runtime_client.py:312-339 | those of polling up to the deadline, against a world without end |
| `RuntimeClient.KarmaRuntime.EnsureBound` | sdk/runtime_client.py:341-350 | those of the ensure step |
| `RuntimeClient.RunClient` | sdk/runtime_client.py:225-414 | any sequence of calls sends the requests of the run, in order, and ends in its signing state |
| `RuntimeClient.SigningIsRight` | sdk/runtime_client.py:225-414 | over every run: the log is the world's exchanges in order, a signed request meets a key that is not bound only after the key was bound, and unsigned requests refused for a bound key are at most one, plus one per unbinding, plus the applications with an unsafe id; without unbindings no signed request meets an unbound key |
| `RuntimeClient.SafeIdsBoundRefusals` | sdk/runtime_client.py:225-414 | if caller and gateway name safe ids only, at most one unsigned request for a bound key is refused, plus one per unbinding |
| `RuntimeClient.PermissionsSound` | sdk/runtime_client.py:398-414 | an answer says "agent" exactly for a bound key, and then signing was on |
| `RuntimeClient.PermissionsExactly` | sdk/runtime_client.py:398-414 | the request sent, the result for every reply, and exactly when signing is on afterwards |
| `RuntimeClient.BindSound` | sdk/runtime_client.py:251-301 | after an answer signing is on exactly if the key is bound, and the agent id is the given one without surrounding blanks |
| `RuntimeClient.BindExactly` | sdk/runtime_client.py:270-301 | which agent id the application carries, when it is sent at all, and what every reply to it leads to |
| `RuntimeClient.AwaitSound` | sdk/runtime_client.py:312-339 | returns only with a bound key and signing on; times out only on a key that is not bound |
| `RuntimeClient.AwaitStops` | sdk/runtime_client.py:320-339 | times out only past the deadline; at most two requests per half second of timeout, and two more |
| `RuntimeClient.AwaitRound` | sdk/runtime_client.py:321-339 | one round of waiting: the retry, the three ways it ends, and the pause before the next |
| `RuntimeClient.AwaitSeesActivation` | sdk/runtime_client.py:322-332 | when the owner confirms during the wait, the refused poll is repeated signed and returns |
| `RuntimeClient.WaitsItsTime` | sdk/runtime_client.py:320-338 | a wait gives up only once the whole timeout has passed |
| `RuntimeClient.NoTimeNoWait` | sdk/runtime_client.py:320-338 | without a positive timeout there is one round |
| `RuntimeClient.EnsureExactly` | sdk/runtime_client.py:341-350 | on a bound key it returns exactly if signing was on and a payload for the right chain comes back, and signing is on afterwards if the gateway answered; on another key it never returns while signing is on |
| `RuntimeClient.EnsureApplies` | sdk/runtime_client.py:341-350 | on a key that is not bound it applies for the agent the gateway names; that answer is the result unless it is active, and then the permissions are asked for once more |
| `RuntimeClient.EnsureRaisesOnce` | sdk/runtime_client.py:341-350 | a new client with a bound key: the first call raises with signing on, the second returns |
| `RuntimeClient.SwitchesOnIffSafe` | services/path_param_safety.py:12-21 | an answer to an unsigned request for a bound key switches signing on exactly if it is no application or its agent id is safe; `bind_key` raises, with signing on exactly for a safe id |
| `RuntimeClient.UnsafeIds` | services/path_param_safety.py:12-21 | empty ids, ids over 128 characters and ids with any other character are unsafe |
| `RuntimeClient.StripExactly` | sdk/runtime_client.py:274-277 | stripping an id removes the blanks around it and nothing else |
| `RuntimeClient.EndlessExactly` | api/routes/runtime_gateway.py:692-708 | n applications for a bound key: with an unsafe id all are refused and signing stays off, with a safe id only the first is refused |
| `RuntimeClient.ApplyingRecovers` | sdk/runtime_client.py:293-301 | an answered application for a key that is not bound switches signing off |

## Left out

- Records: dataclass mutation after a record is stored or hashed, and lone surrogates in strings (strings are Unicode scalar values).
- StressAgents.AttacksCaught: the source edits receipt objects in place before anything else refers to them; the model edits values, so aliasing is not captured.
- StressRunner.RunStress: the random generator (its picks are a parameter), timing statistics, the list of failed cases, the global fingerprint and the two hash consistency counters, which compare a pure function with itself.
- StressChecks.TallySchemaErrors: timestamps in other ISO forms than the one the runner writes count as malformed; Python accepts more forms.
- StressRunner.SettleAgent: the verification id and time are fixed texts, because nothing reads them.
- SettlementAdapter: the deadline, which the source ignores, and the environment lookup of the mode, which is a parameter.
- SettlementIdempotency: a restart of the process, which empties the book.
- VerifierNetwork: database sessions and concurrent jobs that overwrite each other's updates; the bond computation, node signatures, stakes and the rules' results are parameters; scores are real numbers, rounded as decimal numbers, not binary floats.
- VerifierNetwork: challenge expiry and chain synchronisation, which would only add easy members.
- Ap2Adapter.RoundTrip: bundles of other types than the runtime's own; mandates whose scalar fields other than the digests are not strings. Which characters outside ASCII are blanks and decimal digits is a parameter.
- ConsoleBundle: walking and ignoring files, building, remote comparison and release stamping; a tree is a list of paths with their bytes.
- AssetStamping: finding references in HTML and resolving paths; a page is the list of its references and the file system a function.
- RuntimeClient: signature contents, the HMAC check's computation, the pending-activation record, repeated client nonces, and revoked or expired keys; the gateway is any party whose answers satisfy `Truthful`, read off services/runtime_key_service.py lines 457-513, 718-759 and 861-876, services/path_param_safety.py and api/routes/runtime_gateway.py lines 661-747 and 1221-1331; each request meets one state of the key, and replies with status 429 or 5xx may come at any point.
- Solidity contracts, HTTP routes, persistence, configuration flags, publication and the attack and end-to-end scripts.

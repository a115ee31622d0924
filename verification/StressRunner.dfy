/**
 The stress run end to end: over any number of agents with any step counts and attacks,
 bundles and settlement plans are counted for exactly the agents no attack changed.
 */
module StressRunner {
  import opened Text
  import opened Sorting
  import opened Json
  import opened JsonDict
  import opened Records
  import opened ReceiptStore
  import opened ReceiptChain
  import opened EvidenceAdapter
  import opened Verification
  import opened SettlementIdempotency
  import opened SettlementAdapter
  import opened StressChecks
  import opened StressAgents
  import opened StressInvalid

  /** What the random generator picks for one agent. */
  datatype Choice = Choice(steps: nat, attack: Attack)

  datatype Totals = Totals(
    receipts: nat, bundles: nat, valid: nat, invalid: nat, replays: nat, duplicates: nat,
    timeouts: nat, malformed: nat, forged: nat, plans: nat)

  const NO_TOTALS := Totals(0, 0, 0, 0, 0, 0, 0, 0, 0, 0)

  // ------------------------------------------------------------- one passing agent

  lemma FreshId(s: seq<Receipt>, batch: seq<Receipt>)
    requires UniqueIds(s + batch) && batch != []
    ensures Find(s, batch[0].receiptId) == None
  {
    forall i | 0 <= i < |s|
      ensures s[i].receiptId != batch[0].receiptId
    {
      assert (s + batch)[i].receiptId != (s + batch)[|s|].receiptId;
    }
  }

  /** Receipts with different ids are all stored, in order. */
  lemma {:induction false} StoresAll(h: Sha, s: seq<Receipt>, batch: seq<Receipt>)
    requires UniqueIds(s + batch)
    ensures SaveAll(h, s, batch) == Stored(s + batch)
    decreases |batch|
  {
    hide RecordHash;
    if batch == [] {
      assert s + batch == s;
    } else {
      var s' := s + [batch[0]];
      assert s + batch == s' + batch[1..];
      FreshId(s, batch);
      StoresAll(h, s', batch[1..]);
    }
  }

  lemma HonestChronological(h: Sha, seed: int, agent: nat, n: nat)
    requires FitsAgent(agent, n)
    ensures Chronological(Honest(h, seed, agent, n))
  {
    hide Honest, RecordHash, IdPrefix, IsoAt, HonestTask, InputText, OutputText, Fits, StrLt;
    var rs := Honest(h, seed, agent, n);
    forall i, j | 0 <= i < j < n
      ensures StrLe(rs[i].startedAt, rs[j].startedAt)
    {
      HonestAt(h, seed, agent, n, i);
      HonestAt(h, seed, agent, n, j);
      FitsAgentEarlier(agent, i, n);
      FitsAgentEarlier(agent, j, n);
      IsoAtOrder(Seconds(agent, j, 0), Seconds(agent, i, 0));
    }
  }

  lemma HonestOwnTask(h: Sha, seed: int, agent: nat, n: nat)
    ensures forall r :: r in Honest(h, seed, agent, n) ==>
              r.taskId == HonestTask(seed, agent).taskId && r.traceId == HonestTask(seed, agent).traceId
  {
    hide Honest, RecordHash, IdPrefix, IsoAt, HonestTask, InputText, OutputText;
    var rs := Honest(h, seed, agent, n);
    forall r | r in rs
      ensures r.taskId == HonestTask(seed, agent).taskId && r.traceId == HonestTask(seed, agent).traceId
    {
      var k :| 0 <= k < n && rs[k] == r;
      HonestAt(h, seed, agent, n, k);
    }
  }

  /** The chain the verifier sees is the chain the producer wrote. */
  lemma HonestStoredChain(h: Sha, seed: int, agent: nat, n: nat)
    ensures ChainOf(Honest(h, seed, agent, n), HonestTask(seed, agent).taskId) == Honest(h, seed, agent, n)
  {
    hide Honest, HonestTask, Sort, Linked;
    var rs, taskId := Honest(h, seed, agent, n), HonestTask(seed, agent).taskId;
    HonestUniqueIds(h, seed, agent, n);
    HonestLinked(h, seed, agent, n);
    HonestOwnTask(h, seed, agent, n);
    TwoStageSort(rs, taskId);
    AllOfTask(rs, taskId);
  }

  lemma {:induction false} AllOfTask(rs: seq<Receipt>, taskId: string)
    requires forall r :: r in rs ==> r.taskId == taskId
    ensures OfTask(rs, taskId) == rs
  {
    if rs != [] {
      AllOfTask(rs[1..], taskId);
      assert rs == [rs[0]] + rs[1..];
    }
  }

  /** The bundle of an honest chain is sound exactly when the chain is not empty. */
  lemma HonestBundleSound(h: Sha, seed: int, agent: nat, n: nat, rs: seq<Receipt>, bundleId: string, createdAt: string)
    requires FitsAgent(agent, n)
    requires Fetches(Honest(h, seed, agent, n), Ids(Honest(h, seed, agent, n)), rs)
    ensures var task := HonestTask(seed, agent);
            var bundle := BundleOver(h, task, rs, [], bundleId, createdAt);
            Judge(h, task, bundle, Honest(h, seed, agent, n), None).Sound? <==> n > 0
  {
    hide Honest, HonestTask, Sort, Judge, BundleOver, ChainOf, UniqueIds, Chronological;
    var chain, task := Honest(h, seed, agent, n), HonestTask(seed, agent);
    HonestUniqueIds(h, seed, agent, n);
    HonestStoredChain(h, seed, agent, n);
    BuilderCompleteness(h, task, chain, rs, [], bundleId, createdAt, None);
    HonestChronological(h, seed, agent, n);
    HonestOwnTask(h, seed, agent, n);
  }

  function StressTerms(h: Sha, task: Task, bundle: Bundle): Terms
  {
    Terms(
      "0x000000000000000000000000000000000000dEaD", "0x000000000000000000000000000000000000c0ffee", 1000000,
      "0x" + TaskHash(h, task), "karma-ta:v1/sha256/" + BundleHash(h, bundle))
  }

  function BundleName(seed: int, agent: nat): string
  {
    "b-" + Dec(seed) + "-a" + Dec(agent)
  }

  /** What an agent that passed ends up with: a bundle over its whole chain and a full plan for it. */
  ghost predicate Settled(
    h: Sha, seed: int, agent: nat, task: Task, sorted: seq<Receipt>, mode: string, bundle: Bundle, plan: Plan)
  {
    && bundle.bundleId == BundleName(seed, agent) && bundle.createdAt == IsoAt(60 * (17 * agent + 297))
    && bundle.receiptHashes == Hashes(h, sorted)
    && WellFormed(plan) && |plan.calls| == 5 && !plan.payoutOmitted
    && plan.traceId == task.traceId && plan.bundleId == bundle.bundleId
    && Lookup(plan.calls[0].args, "token") == Some(Str("0x000000000000000000000000000000000000c0ffee"))
    && Lookup(plan.calls[0].args, "amount") == Some(Int(1000000))
    && Lookup(plan.calls[1].args, "seller") == Some(Str("0x000000000000000000000000000000000000dEaD"))
    && Lookup(plan.calls[2].args, "scopeHash") == Some(Str("0x" + TaskHash(h, task)))
    && Lookup(plan.calls[3].args, "proofHash") == Some(Str("karma-ta:v1/sha256/" + BundleHash(h, bundle)))
    && Lookup(plan.base, "karma_contract") == Some(Str("KarmaBilateral")) && Lookup(plan.base, "mode") == Some(Str(mode))
    && Lookup(plan.base, "evidence_bundle_digest") == Some(Str(BundleHash(h, bundle)))
  }

  lemma PlanSettles(
    h: Sha, seed: int, agent: nat, task: Task, sorted: seq<Receipt>, mode: string, bundle: Bundle, plan: Plan)
    requires bundle.bundleId == BundleName(seed, agent) && bundle.createdAt == IsoAt(60 * (17 * agent + 297))
    requires bundle.receiptHashes == Hashes(h, sorted)
    requires WellFormed(plan) && plan.calls != [] && !plan.payoutOmitted && Carries(plan.calls, StressTerms(h, task, bundle))
    requires plan.traceId == task.traceId && plan.bundleId == bundle.bundleId
    requires Says(plan.base, task, bundle, plan.traceId, BundleHash(h, bundle), "KarmaBilateral", mode, StressTerms(h, task, bundle))
    ensures Settled(h, seed, agent, task, sorted, mode, bundle, plan)
  {
    hide Lookup, Hashes, IsoAt, BundleName, BundleHash, TaskHash, Steps, StepKey;
    assert |plan.calls| == |Names(plan.calls)| == 5;
  }

  /** The plans of two agents of a run never share a step key. */
  lemma AgentsShareNoKey(seed: int, a: nat, b: nat, p: Plan, q: Plan, i: nat, j: nat)
    requires a != b && WellFormed(p) && WellFormed(q) && i < |p.stepKeys| && j < |q.stepKeys|
    requires p.traceId == HonestTask(seed, a).traceId && p.bundleId == BundleName(seed, a)
    requires q.traceId == HonestTask(seed, b).traceId && q.bundleId == BundleName(seed, b)
    ensures p.stepKeys[i].key != q.stepKeys[j].key
  {
    hide Scope, HonestTask, WellFormed, BundleName;
    SharedKeyIffSameScope(p, q, i, j);
    TraceIsOrdinary(seed, a);
    TraceIsOrdinary(seed, b);
    NameHasNoBar(seed, a);
    NameHasNoBar(seed, b);
    ScopeIdentifiesPlan(p.traceId, p.bundleId, q.traceId, q.bundleId);
    NamesDiffer(seed, a, b);
  }

  lemma TraceIsOrdinary(seed: int, agent: nat)
    ensures HonestTask(seed, agent).traceId != "<no_trace>"
  {
    hide Dec;
    assert HonestTask(seed, agent).traceId[0] == 't' && "<no_trace>"[0] == '<';
  }

  lemma DecHasNoBar(n: int)
    ensures PipeFree(Dec(n))
  {
    hide DecNat;
    var s := DecNat(if n < 0 then -n else n);
    assert forall i :: 0 <= i < |s| ==> IsDigit(s[i]);
  }

  lemma NameHasNoBar(seed: int, agent: nat)
    ensures PipeFree(BundleName(seed, agent))
  {
    hide Dec;
    DecHasNoBar(seed);
    DecHasNoBar(agent);
  }

  lemma NamesDiffer(seed: int, a: nat, b: nat)
    requires a != b
    ensures BundleName(seed, a) != BundleName(seed, b)
  {
    hide Dec, DecNat;
    DecIsDecNat(a);
    DecIsDecNat(b);
    if BundleName(seed, a) == BundleName(seed, b) {
      SameSuffix("b-" + Dec(seed) + "-a", Dec(a), Dec(b));
      DecNatInjective(a, b);
      assert false;
    }
  }

  /** `_sync_store` into an empty store. */
  method StoreChain(h: Sha, sorted: seq<Receipt>) returns (store: InMemoryReceiptStore)
    requires UniqueIds(sorted)
    ensures store.Valid() && store.byId == sorted
  {
    hide SaveAll;
    store := new InMemoryReceiptStore();
    var refused := store.SaveReceipts(h, sorted);
    assert [] + sorted == sorted;
    StoresAll(h, [], sorted);
  }

  /** The bundle over an agent's whole chain. */
  method BundleChain(
    h: Sha, seed: int, agent: nat, task: Task, sorted: seq<Receipt>, store: InMemoryReceiptStore, at: string, ghost n: nat)
    returns (bundle: Bundle)
    requires FitsAgent(agent, n) && store.Valid() && store.byId == sorted && UniqueIds(sorted)
    requires task == HonestTask(seed, agent) && sorted == Honest(h, seed, agent, n)
    ensures Judge(h, task, bundle, sorted, None).Sound? <==> n > 0
    ensures bundle.bundleId == BundleName(seed, agent) && bundle.createdAt == at && bundle.receiptHashes == Hashes(h, sorted)
  {
    hide Honest, HonestTask, Judge, BundleOver, FitsAgent, BundleName, Hashes, UniqueIds, Fetches, Ids, Find;
    var build, fetched := BuildEvidenceBundle(h, store, task, Ids(sorted), [], BundleName(seed, agent), at);
    AllFound(sorted);
    IdsLength(sorted);
    bundle := build.bundle;
    HonestBundleSound(h, seed, agent, n, fetched, BundleName(seed, agent), at);
    HonestFetched(h, sorted, fetched, task, BundleName(seed, agent), at);
  }

  lemma IdsLength(rs: seq<Receipt>)
    ensures |Ids(rs)| == |rs|
  {
  }

  lemma SettleTime(agent: nat)
    ensures Seconds(agent, 99, 0) == 60 * (17 * agent + 297)
  {
  }

  /** Store, bundle and verdict for an agent that passed; `raised` stands for an exception. */
  method BundleAgent(h: Sha, seed: int, agent: nat, task: Task, sorted: seq<Receipt>, ghost n: nat)
    returns (bundle: Bundle, verify: VerificationResult, raised: bool)
    requires FitsAgent(agent, n)
    requires task == HonestTask(seed, agent) && sorted == Honest(h, seed, agent, n)
    ensures raised <==> !Fits(Seconds(agent, 99, 0))
    ensures !raised ==> (verify.decision == STRUCT_OK <==> n > 0) && verify.evidenceBundleDigest == BundleHash(h, bundle)
    ensures !raised ==>
              && bundle.bundleId == BundleName(seed, agent) && bundle.createdAt == IsoAt(60 * (17 * agent + 297))
              && bundle.receiptHashes == Hashes(h, sorted)
  {
    hide Honest, HonestTask, Judge, Fits, FitsAgent, IsoAt, BundleHash, BundleName, Hashes, FaultText, UniqueIds, Seconds;
    HonestUniqueIds(h, seed, agent, n);
    SettleTime(agent);
    var store := StoreChain(h, sorted);
    bundle := Bundle("", "", "", [], "", [], "", "", "", "", "");
    verify := VerificationResult("", "", "", "", [], "", "", "", "");
    raised := !Fits(Seconds(agent, 99, 0));
    if raised {
      return;
    }
    bundle := BundleChain(h, seed, agent, task, sorted, store, IsoAt(Seconds(agent, 99, 0)), n);
    verify := VerifyEvidenceBundleStructural(h, task, bundle, store, None, "", "");
  }

  /** Bundle, verdict and plan for an agent that passed; `raised` stands for an exception. */
  method SettleAgent(h: Sha, seed: int, agent: nat, task: Task, sorted: seq<Receipt>, mode: string, ghost n: nat)
    returns (bundled: bool, planned: bool, raised: bool, bundle: Option<Bundle>, plan: Option<Plan>)
    requires FitsAgent(agent, n)
    requires task == HonestTask(seed, agent) && sorted == Honest(h, seed, agent, n)
    ensures raised <==> !Fits(Seconds(agent, 99, 0))
    ensures !raised ==> (bundled <==> n > 0) && (planned <==> n > 0)
    ensures !raised && n > 0 ==>
              bundle.Some? && plan.Some? && Settled(h, seed, agent, task, sorted, mode, bundle.value, plan.value)
  {
    hide Honest, HonestTask, Fits, FitsAgent, IsoAt, TaskHash, BundleHash, Dumps, Loads, PlanJson, Settled, Carries, Says, WellFormed;
    hide StressTerms, BundleName, BilateralCalls, OpenStatus, CommonFields, VerificationField, Hashes, Seconds;
    bundled, planned, bundle, plan := false, false, None, None;
    var b, verify;
    b, verify, raised := BundleAgent(h, seed, agent, task, sorted, n);
    if raised {
      return;
    }
    if verify.decision == STRUCT_OK {
      bundled, bundle := true, Some(b);
      var p := BuildOffchainPlan("KarmaBilateral", task, b, StressTerms(h, task, b), verify, None, mode);
      TraceIsThere(seed, agent);
      PlanSettles(h, seed, agent, task, sorted, mode, b, p);
      plan := Some(p);
      var dumped := Dumps(PlanJson(p), Spaced);
      RedumpIsStable(PlanJson(p), Spaced);
      planned := h(dumped) == h(Dumps(Loads(dumped).value, Spaced));
    }
  }

  lemma TraceIsThere(seed: int, agent: nat)
    ensures HonestTask(seed, agent).traceId != ""
  {
    hide Dec;
    assert HonestTask(seed, agent).traceId[0] == 't';
  }

  /** Fetching a chain by its own ids gives the chain, and the bundle has its hashes. */
  lemma HonestFetched(h: Sha, sorted: seq<Receipt>, fetched: seq<Receipt>, task: Task, bundleId: string, createdAt: string)
    requires UniqueIds(sorted) && Fetches(sorted, Ids(sorted), fetched)
    ensures BundleOver(h, task, fetched, [], bundleId, createdAt).receiptHashes == Hashes(h, sorted)
  {
    hide RecordHash, TaskHash;
    FetchUnique(sorted, Ids(sorted), fetched, sorted);
  }

  lemma AllFound(s: seq<Receipt>)
    ensures forall i :: 0 <= i < |s| ==> Find(s, Ids(s)[i]).Some?
  {
    forall i | 0 <= i < |s|
      ensures Find(s, Ids(s)[i]).Some?
    {
      assert s[i] in s;
    }
  }

  // ----------------------------------------------------------------- counting agents

  /** The agent ends with a bundle and a plan. */
  ghost predicate Passes(h: Sha, seed: int, agent: nat, c: Choice)
  {
    c.steps > 0 && AgentClean(h, seed, agent, c.steps, c.attack)
  }

  /** No timestamp of this agent is past the calendar. */
  ghost predicate InCalendar(h: Sha, seed: int, agent: nat, c: Choice)
  {
    && FitsAgent(agent, c.steps)
    && (AgentClean(h, seed, agent, c.steps, c.attack) ==> Fits(Seconds(agent, 99, 0)))
  }

  ghost function One(b: bool): nat
  {
    if b then 1 else 0
  }

  ghost function Passing(h: Sha, seed: int, cs: seq<Choice>): nat
  {
    if cs == [] then 0
    else Passing(h, seed, cs[..|cs| - 1]) + One(Passes(h, seed, |cs| - 1, cs[|cs| - 1]))
  }

  function ReceiptsOf(c: Choice): nat
  {
    c.steps + if c.steps > 0 && (c.attack.DuplicateId? || c.attack.Replay?) then 1 else 0
  }

  ghost function ReceiptTotal(cs: seq<Choice>): nat
  {
    if cs == [] then 0 else ReceiptTotal(cs[..|cs| - 1]) + ReceiptsOf(cs[|cs| - 1])
  }

  /** How many agents with receipts suffered an attack of this kind. */
  ghost function Attacks(cs: seq<Choice>, kind: Attack -> bool): nat
  {
    if cs == [] then 0
    else Attacks(cs[..|cs| - 1], kind) + One(cs[|cs| - 1].steps > 0 && kind(cs[|cs| - 1].attack))
  }

  /** How many agents were left with a broken link. */
  ghost function LinkBreaks(cs: seq<Choice>): nat
  {
    if cs == [] then 0
    else LinkBreaks(cs[..|cs| - 1]) + One(BreaksLinks(cs[|cs| - 1].attack, cs[|cs| - 1].steps))
  }

  /** How many links the attacks broke in all. */
  ghost function LinkTotal(cs: seq<Choice>): nat
  {
    if cs == [] then 0 else LinkTotal(cs[..|cs| - 1]) + BrokenLinks(cs[|cs| - 1].attack, cs[|cs| - 1].steps)
  }

  /** How many receipts the attacks spoiled in all. */
  ghost function SpoiledTotal(cs: seq<Choice>): nat
  {
    if cs == [] then 0 else SpoiledTotal(cs[..|cs| - 1]) + SpoiledCount(cs[|cs| - 1].attack, cs[|cs| - 1].steps)
  }

  /** Two of one agent's receipts, before or after the attack, have colliding records. */
  ghost predicate CollidingRecords(h: Sha, seed: int, agent: nat, c: Choice)
  {
    var rs := Honest(h, seed, agent, c.steps);
    CollisionAmong(h, rs + Attacked(rs, c.attack))
  }

  ghost predicate SomeCollidingRecords(h: Sha, seed: int, cs: seq<Choice>)
  {
    exists a :: 0 <= a < |cs| && CollidingRecords(h, seed, a, cs[a])
  }

  /** Two bodies of one agent's receipts, as attacked, collide. */
  ghost predicate CollidingAgent(h: Sha, seed: int, agent: nat, c: Choice)
  {
    BodiesCollide(h, Attacked(Honest(h, seed, agent, c.steps), c.attack))
  }

  ghost predicate SomeCollidingAgent(h: Sha, seed: int, cs: seq<Choice>)
  {
    exists a :: 0 <= a < |cs| && CollidingAgent(h, seed, a, cs[a])
  }

  predicate IsReplay(a: Attack) { a.Replay? }
  predicate IsDuplicate(a: Attack) { a.DuplicateId? }
  predicate IsTimeout(a: Attack) { a.Timeout? }
  predicate IsBadStatus(a: Attack) { a.BadStatus? }

  /** What the totals say after the agents in `cs`. */
  ghost predicate Accounts(h: Sha, seed: int, cs: seq<Choice>, t: Totals)
  {
    && t.bundles == Passing(h, seed, cs)
    && t.plans == Passing(h, seed, cs)
    && t.receipts == ReceiptTotal(cs)
    && t.valid + t.invalid == t.receipts
    && (t.invalid == SpoiledTotal(cs) || SomeCollidingAgent(h, seed, cs) || SomeCollidingRecords(h, seed, cs))
    && t.duplicates == Attacks(cs, IsDuplicate)
    && t.timeouts == Attacks(cs, IsTimeout)
    && t.malformed == Attacks(cs, IsBadStatus)
    && t.forged >= LinkBreaks(cs) && (t.forged == 0 <==> LinkBreaks(cs) == 0)
    && (t.forged == LinkTotal(cs) || SomeCollidingRecords(h, seed, cs))
    && (t.replays == Attacks(cs, IsReplay) || SomeCollidingAgent(h, seed, cs))
  }

  /** One agent's report and outcome, added to the totals. */
  function Add(t: Totals, r: Report, bundled: bool, planned: bool): Totals
  {
    Totals(
      t.receipts + r.receipts, t.bundles + (if bundled then 1 else 0), t.valid + r.valid, t.invalid + r.invalid,
      t.replays + r.replays, t.duplicates + r.duplicates, t.timeouts + r.timeouts, t.malformed + r.malformed,
      t.forged + r.forged, t.plans + (if planned then 1 else 0))
  }

  lemma AddAccounts(h: Sha, seed: int, cs: seq<Choice>, c: Choice, t: Totals, r: Report, passed: bool)
    requires Accounts(h, seed, cs, t)
    requires passed <==> Passes(h, seed, |cs|, c)
    requires r.receipts == ReceiptsOf(c) && r.valid + r.invalid == r.receipts
    requires || r.invalid == SpoiledCount(c.attack, c.steps)
             || CollidingAgent(h, seed, |cs|, c) || CollidingRecords(h, seed, |cs|, c)
    requires r.duplicates == One(c.steps > 0 && c.attack.DuplicateId?)
    requires r.timeouts == One(c.steps > 0 && c.attack.Timeout?)
    requires r.malformed == One(c.steps > 0 && c.attack.BadStatus?)
    requires r.forged > 0 <==> BreaksLinks(c.attack, c.steps)
    requires CollidingRecords(h, seed, |cs|, c) || r.forged == BrokenLinks(c.attack, c.steps)
    requires CollidingAgent(h, seed, |cs|, c) || r.replays == One(c.steps > 0 && c.attack.Replay?)
    ensures Accounts(h, seed, cs + [c], Add(t, r, passed, passed))
  {
    hide Passes, BreaksLinks, BrokenLinks, SpoiledCount, CollidingAgent, CollidingRecords;
    var ds := cs + [c];
    assert ds[..|cs|] == cs;
    RecordsCollideStill(h, seed, cs, c);
    if SomeCollidingAgent(h, seed, cs) {
      var a :| 0 <= a < |cs| && CollidingAgent(h, seed, a, cs[a]);
      assert CollidingAgent(h, seed, a, ds[a]);
    }
    if CollidingAgent(h, seed, |cs|, c) {
      assert CollidingAgent(h, seed, |cs|, ds[|cs|]);
    }
  }

  lemma RecordsCollideStill(h: Sha, seed: int, cs: seq<Choice>, c: Choice)
    ensures SomeCollidingRecords(h, seed, cs + [c]) <==>
            SomeCollidingRecords(h, seed, cs) || CollidingRecords(h, seed, |cs|, c)
  {
    hide CollidingRecords;
    var ds := cs + [c];
    if SomeCollidingRecords(h, seed, cs) {
      var a :| 0 <= a < |cs| && CollidingRecords(h, seed, a, cs[a]);
      assert CollidingRecords(h, seed, a, ds[a]);
    }
    if CollidingRecords(h, seed, |cs|, c) {
      assert CollidingRecords(h, seed, |cs|, ds[|cs|]);
    }
  }

  /** Everything that happens to one agent; `raised` stands for an OverflowError. */
  method RunAgent(h: Sha, seed: int, agent: nat, c: Choice, mode: string)
    returns (report: Report, passed: bool, planned: bool, raised: bool)
    requires HexValued(h)
    ensures raised <==> !InCalendar(h, seed, agent, c)
    ensures !raised ==> (passed <==> Passes(h, seed, agent, c)) && planned == passed
    ensures !raised ==>
              && report.receipts == ReceiptsOf(c) && report.valid + report.invalid == report.receipts
              && (report.invalid == 0 <==> AgentClean(h, seed, agent, c.steps, c.attack))
              && (|| report.invalid == SpoiledCount(c.attack, c.steps)
                  || CollidingAgent(h, seed, agent, c) || CollidingRecords(h, seed, agent, c))
              && report.duplicates == One(c.steps > 0 && c.attack.DuplicateId?)
              && report.timeouts == One(c.steps > 0 && c.attack.Timeout?)
              && report.malformed == One(c.steps > 0 && c.attack.BadStatus?)
              && (report.forged > 0 <==> BreaksLinks(c.attack, c.steps))
              && (CollidingRecords(h, seed, agent, c) || report.forged == BrokenLinks(c.attack, c.steps))
              && (CollidingAgent(h, seed, agent, c) || report.replays == One(c.steps > 0 && c.attack.Replay?))
  {
    hide Honest, HonestTask, Sort, Clean, Fits, FitsAgent, AgentClean, Timeouts, Malformed, IdSet, Linked, ForgedUpTo, ReplayedHashes, BodiesCollide, BreaksLinks, BrokenLinks, CollisionAmong, InvalidReceipts, SpoiledCount, Settled, Honestly, StressTask;
    passed, planned := false, false;
    report := Report(0, 0, 0, 0, 0, 0, 0, 0, false);
    var task, receipts, overflow := BuildHonestReceipts(h, seed, agent, c.steps);
    if overflow {
      return report, false, false, true;
    }
    receipts := Attacked(receipts, c.attack);
    AttacksCaught(h, seed, agent, c.steps, c.attack);
    SchemaAttribution(h, seed, agent, c.steps, c.attack);
    DuplicateAttribution(h, seed, agent, c.steps, c.attack);
    ReplayAttribution(h, seed, agent, c.steps, c.attack);
    ForgedAttribution(h, seed, agent, c.steps, c.attack);
    InvalidExactly(h, seed, agent, c.steps, c.attack);
    var sorted;
    report, sorted := Analyse(h, receipts);
    raised := false;
    if report.ok {
      CleanMeansHonest(h, seed, agent, c);
      HonestLinked(h, seed, agent, c.steps);
      var bundle, plan;
      passed, planned, raised, bundle, plan := SettleAgent(h, seed, agent, task, sorted, mode, c.steps);
    }
  }

  lemma CleanMeansHonest(h: Sha, seed: int, agent: nat, c: Choice)
    requires HexValued(h) && FitsAgent(agent, c.steps) && AgentClean(h, seed, agent, c.steps, c.attack)
    ensures Attacked(Honest(h, seed, agent, c.steps), c.attack) == Honest(h, seed, agent, c.steps)
  {
    hide Clean;
    AttacksCaught(h, seed, agent, c.steps, c.attack);
  }

  /**
   `run_stress` over the generator's choices. It raises exactly when a timestamp leaves
   the calendar; otherwise bundles and plans both count the passing agents, every
   receipt is valid or invalid, exactly those the attacks spoiled are invalid unless
   bodies or records collide, duplicates, timeouts and malformed statuses count
   exactly the agents attacked that way, replays do so unless bodies collide, and the
   broken links are exactly those the attacks break unless records collide.
   */
  method RunStress(h: Sha, seed: int, choices: seq<Choice>, mode: string) returns (result: Option<Totals>)
    requires HexValued(h)
    ensures result.None? <==> exists a :: 0 <= a < |choices| && !InCalendar(h, seed, a, choices[a])
    ensures result.Some? ==> Accounts(h, seed, choices, result.value)
  {
    hide InCalendar, Passes, Add, ReceiptsOf, CollidingAgent, CollidingRecords, BreaksLinks, BrokenLinks, SpoiledCount;
    var totals := NO_TOTALS;
    for agent := 0 to |choices|
      invariant forall a :: 0 <= a < agent ==> InCalendar(h, seed, a, choices[a])
      invariant Accounts(h, seed, choices[..agent], totals)
    {
      var report, passed, planned, raised := RunAgent(h, seed, agent, choices[agent], mode);
      if raised {
        return None;
      }
      AddAccounts(h, seed, choices[..agent], choices[agent], totals, report, passed);
      assert choices[..agent + 1] == choices[..agent] + [choices[agent]];
      totals := Add(totals, report, passed, planned);
    }
    assert choices[..|choices|] == choices;
    result := Some(totals);
  }

  // ----------------------------------------------------------------------- read-out

  ghost function Unattacked(cs: seq<Choice>): nat
  {
    if cs == [] then 0 else Unattacked(cs[..|cs| - 1]) + One(cs[|cs| - 1].attack.NoAttack?)
  }

  /** Two receipts of one of the agents have colliding bodies. */
  ghost predicate SomeBodyCollision(h: Sha, seed: int, cs: seq<Choice>)
  {
    exists a :: 0 <= a < |cs| && BodyCollision(h, seed, a, cs[a].steps)
  }

  /**
   With at least two steps each, as the default configuration asks for, the bundles
   and plans are exactly those of the agents without an attack, or two receipts of
   one agent are an explicit SHA-256 collision.
   */
  lemma {:induction false} PassingAreUnattacked(h: Sha, seed: int, cs: seq<Choice>)
    requires forall a :: 0 <= a < |cs| ==> cs[a].steps >= 2
    ensures Passing(h, seed, cs) == Unattacked(cs) || SomeBodyCollision(h, seed, cs)
  {
    hide BodyCollision;
    if cs != [] {
      var n := |cs| - 1;
      PassingAreUnattacked(h, seed, cs[..n]);
      if SomeBodyCollision(h, seed, cs[..n]) {
        var a :| 0 <= a < n && BodyCollision(h, seed, a, cs[..n][a].steps);
        assert BodyCollision(h, seed, a, cs[a].steps);
      } else if BodyCollision(h, seed, n, cs[n].steps) {
        assert SomeBodyCollision(h, seed, cs);
      }
    }
  }
}

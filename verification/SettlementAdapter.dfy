/**
 Settlement plans: which gates open a plan, which calls it then recommends, and the
 step keys that go with them.
 */
module SettlementAdapter {
  import opened Json
  import opened JsonDict
  import opened Records
  import opened OperationalControls
  import opened Verification
  import opened SettlementIdempotency

  datatype Call = Call(fn: string, onchain: string, args: seq<Field>, note: string)

  datatype KeyEntry = KeyEntry(fn: string, key: string)

  datatype Plan = Plan(
    base: seq<Field>, traceId: string, bundleId: string,
    calls: seq<Call>, stepKeys: seq<KeyEntry>, onchainStatus: string,
    operationalBlock: Option<string>, payoutOmitted: bool)

  datatype QuorumStatus = Collecting | AttestedOk | AttestedFail | InsufficientSignatures

  datatype WindowStatus = Pending | Open | Closed | Disputed

  datatype Quorum = Quorum(
    quorumId: string, evidenceHash: string, threshold: int, totalVerifiers: int,
    validSignatures: int, decision: string, status: QuorumStatus)

  datatype ChallengeWindow = ChallengeWindow(
    challengeId: string, startAt: string, endAt: string, durationSeconds: int, status: WindowStatus)

  /** The parameters that only end up inside call arguments. */
  datatype Terms = Terms(seller: string, token: string, amountWei: int, scopeHex: string, proofHash: string)

  // ------------------------------------------------------------------------- calls

  function LockBuyer(terms: Terms): (c: Call)
    ensures c.fn == "lockBuyer"
  {
    Call("lockBuyer", "lock",
      [Field("token", Str(terms.token)), Field("amount", Int(terms.amountWei))],
      "Buyer locks USDC; mints Bill Token 1:1 (MINTED).")
  }

  function LockAgent(terms: Terms): (c: Call)
    ensures c.fn == "lockAgent"
  {
    Call("lockAgent", "lock",
      [Field("token", Str(terms.token)), Field("amount", Int(terms.amountWei)),
       Field("party", Str("agent")), Field("seller", Str(terms.seller))],
      "Agent/seller locks matching Bill Token (MINTED).")
  }

  function Bind(terms: Terms): (c: Call)
    ensures c.fn == "bind"
  {
    Call("bind", "bind",
      [Field("buyerBillId", Str("<buyer_bill_id>")), Field("agentBillId", Str("<agent_bill_id>")),
       Field("scopeHash", Str(terms.scopeHex))],
      "Bilateral bind freezes both bills (BOUND).")
  }

  function Settle(terms: Terms): (c: Call)
    ensures c.fn == "settle"
  {
    Call("settle", "settle",
      [Field("bindingId", Str("<binding_id>")), Field("proofHash", Str(terms.proofHash))],
      "Submit proof; binding enters FINALIZING (dispute window).")
  }

  function FinalizeSettle(): (c: Call)
    ensures c.fn == "finalizeSettle"
  {
    Call("finalizeSettle", "finalizeSettle",
      [Field("bindingId", Str("<binding_id>"))],
      "After dispute window; burns bills and releases USDC.")
  }

  function AllCalls(terms: Terms): (calls: seq<Call>)
    ensures |calls| == 5
  {
    [LockBuyer(terms), LockAgent(terms), Bind(terms), Settle(terms), FinalizeSettle()]
  }

  predicate IsPayout(c: Call)
  {
    c.fn == "settle" || c.fn == "finalizeSettle"
  }

  function WithoutPayout(calls: seq<Call>): seq<Call>
  {
    if calls == [] then []
    else (if IsPayout(calls[0]) then [] else [calls[0]]) + WithoutPayout(calls[1..])
  }

  /** `_bilateral_calls`. */
  function BilateralCalls(terms: Terms, pausePayout: bool): seq<Call>
  {
    if pausePayout then WithoutPayout(AllCalls(terms)) else AllCalls(terms)
  }

  function Names(calls: seq<Call>): (r: seq<string>)
    ensures |r| == |calls|
    ensures forall i :: 0 <= i < |calls| ==> r[i] == calls[i].fn
  {
    seq(|calls|, i requires 0 <= i < |calls| => calls[i].fn)
  }

  lemma {:induction false} KeepsPrefix(calls: seq<Call>, k: nat)
    requires k <= |calls|
    requires forall i :: 0 <= i < |calls| ==> (IsPayout(calls[i]) <==> i >= k)
    ensures WithoutPayout(calls) == calls[..k]
  {
    if calls != [] {
      if k > 0 {
        KeepsPrefix(calls[1..], k - 1);
        assert calls[..k] == [calls[0]] + calls[1..][..k - 1];
      } else {
        KeepsPrefix(calls[1..], 0);
      }
    }
  }

  lemma AllCallNames(terms: Terms)
    ensures forall i :: 0 <= i < 5 ==> AllCalls(terms)[i].fn == Steps()[i]
    ensures forall i :: 0 <= i < 5 ==> (IsPayout(AllCalls(terms)[i]) <==> i >= 3)
  {
    hide LockBuyer, LockAgent, Bind, Settle, FinalizeSettle;
    var c := AllCalls(terms);
    assert c[0].fn == "lockBuyer" && c[1].fn == "lockAgent" && c[2].fn == "bind";
    assert c[3].fn == "settle" && c[4].fn == "finalizeSettle";
  }

  /** A paused payout leaves the first three steps, otherwise all five are there. */
  lemma CallNames(terms: Terms, pausePayout: bool)
    ensures Names(BilateralCalls(terms, pausePayout)) == Steps()[..if pausePayout then 3 else 5]
  {
    hide AllCalls, Steps, IsPayout;
    AllCallNames(terms);
    KeepsPrefix(AllCalls(terms), 3);
  }

  /** The terms of a settlement are where they belong: both locks, the bind and the proof. */
  predicate Carries(calls: seq<Call>, terms: Terms)
  {
    && |calls| >= 3
    && (forall i :: 0 <= i < 2 ==> Lookup(calls[i].args, "token") == Some(Str(terms.token)))
    && (forall i :: 0 <= i < 2 ==> Lookup(calls[i].args, "amount") == Some(Int(terms.amountWei)))
    && Lookup(calls[1].args, "seller") == Some(Str(terms.seller))
    && Lookup(calls[2].args, "scopeHash") == Some(Str(terms.scopeHex))
    && Lookup(calls[1].args, "party") == Some(Str("agent"))
    && Lookup(calls[2].args, "buyerBillId") == Some(Str("<buyer_bill_id>"))
    && Lookup(calls[2].args, "agentBillId") == Some(Str("<agent_bill_id>"))
    && (|calls| > 3 ==> Lookup(calls[3].args, "proofHash") == Some(Str(terms.proofHash)))
    && (|calls| > 3 ==> Lookup(calls[3].args, "bindingId") == Some(Str("<binding_id>")))
    && (|calls| > 4 ==> Lookup(calls[4].args, "bindingId") == Some(Str("<binding_id>")))
    && calls[0].onchain == "lock" && calls[1].onchain == "lock" && calls[2].onchain == "bind"
    && (|calls| > 3 ==> calls[3].onchain == "settle") && (|calls| > 4 ==> calls[4].onchain == "finalizeSettle")
  }

  lemma CallArguments(terms: Terms, pausePayout: bool)
    ensures Carries(BilateralCalls(terms, pausePayout), terms)
  {
    hide IsPayout, Steps, Lookup, LockBuyer, LockAgent, Bind, Settle, FinalizeSettle;
    OnchainNames(terms);
    AllCallNames(terms);
    KeepsPrefix(AllCalls(terms), 3);
    LockArguments(terms);
    BindArguments(terms);
  }

  lemma OnchainNames(terms: Terms)
    ensures LockBuyer(terms).onchain == "lock" && LockAgent(terms).onchain == "lock" && Bind(terms).onchain == "bind"
    ensures Settle(terms).onchain == "settle" && FinalizeSettle().onchain == "finalizeSettle"
  {
  }

  lemma LockArguments(terms: Terms)
    ensures Lookup(LockBuyer(terms).args, "token") == Some(Str(terms.token))
    ensures Lookup(LockBuyer(terms).args, "amount") == Some(Int(terms.amountWei))
    ensures Lookup(LockAgent(terms).args, "token") == Some(Str(terms.token))
    ensures Lookup(LockAgent(terms).args, "amount") == Some(Int(terms.amountWei))
    ensures Lookup(LockAgent(terms).args, "seller") == Some(Str(terms.seller))
    ensures Lookup(LockAgent(terms).args, "party") == Some(Str("agent"))
  {
    hide Lookup;
    var a, b := LockBuyer(terms).args, LockAgent(terms).args;
    assert DistinctKeys(a) && DistinctKeys(b);
    LookupAt(a, 0);
    LookupAt(a, 1);
    LookupAt(b, 0);
    LookupAt(b, 1);
    LookupAt(b, 2);
    LookupAt(b, 3);
  }

  lemma BindArguments(terms: Terms)
    ensures Lookup(Bind(terms).args, "scopeHash") == Some(Str(terms.scopeHex))
    ensures Lookup(Bind(terms).args, "buyerBillId") == Some(Str("<buyer_bill_id>"))
    ensures Lookup(Bind(terms).args, "agentBillId") == Some(Str("<agent_bill_id>"))
    ensures Lookup(Settle(terms).args, "proofHash") == Some(Str(terms.proofHash))
    ensures Lookup(Settle(terms).args, "bindingId") == Some(Str("<binding_id>"))
    ensures Lookup(FinalizeSettle().args, "bindingId") == Some(Str("<binding_id>"))
  {
    hide Lookup;
    var a, b, c := Bind(terms).args, Settle(terms).args, FinalizeSettle().args;
    assert a[0].key[0] == 'b' && a[1].key[0] == 'a' && a[2].key[0] == 's';
    assert b[0].key[0] == 'b' && b[1].key[0] == 'p';
    assert DistinctKeys(a) && DistinctKeys(b);
    LookupAt(a, 0);
    LookupAt(a, 1);
    LookupAt(a, 2);
    LookupAt(b, 0);
    LookupAt(b, 1);
    assert DistinctKeys(c);
    LookupAt(c, 0);
  }

  // ------------------------------------------------------------------------- gates

  /** What closes an offchain plan; None leaves it open. */
  function OffchainBlock(task: Task, verify: VerificationResult, controls: Option<Controls>): Option<string>
  {
    if verify.decision != STRUCT_OK then Some("blocked_structural_failure")
    else ControlBlock(task, controls)
  }

  function BlockReason(task: Task, controls: Option<Controls>): Option<string>
  {
    if controls.None? then None else controls.value.SettlementBlockReason(task)
  }

  function ControlBlock(task: Task, controls: Option<Controls>): Option<string>
  {
    match BlockReason(task, controls)
    case None => None
    case Some(reason) => Some("operational_blocked:" + reason)
  }

  function QuorumText(status: QuorumStatus): string
  {
    match status
    case Collecting => "collecting"
    case AttestedOk => "attested_ok"
    case AttestedFail => "attested_fail"
    case InsufficientSignatures => "insufficient_signatures"
  }

  function WindowText(status: WindowStatus): string
  {
    match status
    case Pending => "pending"
    case Open => "open"
    case Closed => "closed"
    case Disputed => "disputed"
  }

  /** What closes an attested plan; a window that is pending or closed does not. */
  function AttestedBlock(task: Task, quorum: Quorum, window: ChallengeWindow, controls: Option<Controls>): Option<string>
  {
    if quorum.status != AttestedOk then Some("blocked_quorum:" + QuorumText(quorum.status))
    else if window.status == Open then Some("blocked_challenge_window_open")
    else if window.status == Disputed then Some("blocked_disputed")
    else ControlBlock(task, controls)
  }

  /** What closes an offchain plan, by name: a failed verdict first, then the controls. */
  lemma OffchainBlocks(task: Task, verify: VerificationResult, controls: Option<Controls>)
    ensures var block := OffchainBlock(task, verify, controls);
            && (verify.decision != "STRUCT_OK" ==> block == Some("blocked_structural_failure"))
            && (verify.decision == "STRUCT_OK" ==> ControlBlockIs(task, controls, block))
  {
    ControlBlocks(task, controls);
  }

  lemma QuorumBlocks(quorum: Quorum)
    ensures quorum.status == Collecting ==> "blocked_quorum:" + QuorumText(quorum.status) == "blocked_quorum:collecting"
    ensures quorum.status == AttestedFail ==> "blocked_quorum:" + QuorumText(quorum.status) == "blocked_quorum:attested_fail"
    ensures quorum.status == InsufficientSignatures ==>
              "blocked_quorum:" + QuorumText(quorum.status) == "blocked_quorum:insufficient_signatures"
  {
  }

  /** What closes an attested plan, by name: the quorum first, then the window, then the controls. */
  lemma AttestedBlocks(task: Task, quorum: Quorum, window: ChallengeWindow, controls: Option<Controls>)
    ensures var block := AttestedBlock(task, quorum, window, controls);
            && (quorum.status == Collecting ==> block == Some("blocked_quorum:collecting"))
            && (quorum.status == AttestedFail ==> block == Some("blocked_quorum:attested_fail"))
            && (quorum.status == InsufficientSignatures ==> block == Some("blocked_quorum:insufficient_signatures"))
            && (quorum.status == AttestedOk && window.status == Open ==> block == Some("blocked_challenge_window_open"))
            && (quorum.status == AttestedOk && window.status == Disputed ==> block == Some("blocked_disputed"))
            && (quorum.status == AttestedOk && (window.status == Pending || window.status == Closed) ==>
                  ControlBlockIs(task, controls, block))
  {
    hide ControlBlock, ControlBlockIs, QuorumText;
    ControlBlocks(task, controls);
    QuorumBlocks(quorum);
  }

  /** What the controls make of a plan, by name. */
  ghost predicate ControlBlockIs(task: Task, controls: Option<Controls>, block: Option<string>)
  {
    && (controls.None? ==> block == None)
    && (controls.Some? ==>
          var c := controls.value;
          && (c.pauseSettlement ==> block == Some("operational_blocked:pause_settlement"))
          && (!c.pauseSettlement && task.taskId in c.frozenTaskIds ==> block == Some("operational_blocked:freeze_task"))
          && (!c.pauseSettlement && task.taskId !in c.frozenTaskIds && task.agentId in c.frozenAgentIds ==>
                block == Some("operational_blocked:freeze_agent"))
          && (!c.pauseSettlement && task.taskId !in c.frozenTaskIds && task.agentId !in c.frozenAgentIds ==> block == None))
  }

  lemma ControlBlocks(task: Task, controls: Option<Controls>)
    ensures ControlBlockIs(task, controls, ControlBlock(task, controls))
  {
    assert "operational_blocked:" + "pause_settlement" == "operational_blocked:pause_settlement";
    assert "operational_blocked:" + "freeze_task" == "operational_blocked:freeze_task";
    assert "operational_blocked:" + "freeze_agent" == "operational_blocked:freeze_agent";
  }

  /** The controls, if any, let this task settle. */
  predicate Permitted(task: Task, controls: Option<Controls>)
  {
    controls.None? || (!controls.value.pauseSettlement && controls.value.Thawed(task))
  }

  predicate PayoutPaused(controls: Option<Controls>)
  {
    controls.Some? && controls.value.pausePayout
  }

  // ------------------------------------------------------------------------- plans

  function KeysFor(traceId: string, bundleId: string, calls: seq<Call>): (r: seq<KeyEntry>)
    ensures |r| == |calls|
    ensures forall i :: 0 <= i < |calls| ==> r[i] == KeyEntry(calls[i].fn, StepKey(traceId, bundleId, calls[i].fn))
  {
    seq(|calls|, i requires 0 <= i < |calls| => KeyEntry(calls[i].fn, StepKey(traceId, bundleId, calls[i].fn)))
  }

  /** The submission that walks through an open plan's keys. */
  function SubmissionOf(plan: Plan): Submission
  {
    Submission(plan.traceId, plan.bundleId, plan.payoutOmitted)
  }

  /**
   What every plan satisfies: empty, three or five canonical calls, one key per call
   in the same order, no key twice, and an open plan's keys are those its submission
   presents to the idempotency book.
   */
  ghost predicate WellFormed(plan: Plan)
  {
    && (plan.calls == [] || Names(plan.calls) == Steps()[..SubmissionOf(plan).Length()])
    && |plan.stepKeys| == |plan.calls|
    && (forall i :: 0 <= i < |plan.calls| ==>
          plan.stepKeys[i] == KeyEntry(Steps()[i], SubmissionOf(plan).Key(i)) && plan.calls[i].fn == Steps()[i])
    && (forall i, j :: 0 <= i < j < |plan.stepKeys| ==> plan.stepKeys[i].key != plan.stepKeys[j].key)
  }

  lemma OpenPlanWellFormed(plan: Plan, terms: Terms)
    requires plan.calls == BilateralCalls(terms, plan.payoutOmitted)
    requires plan.stepKeys == KeysFor(plan.traceId, plan.bundleId, plan.calls)
    ensures WellFormed(plan) && plan.calls != []
  {
    hide BilateralCalls, Steps, StepKey;
    CallNames(terms, plan.payoutOmitted);
    var n := if plan.payoutOmitted then 3 else 5;
    assert |plan.calls| == |Names(plan.calls)| == n;
    forall i | 0 <= i < n
      ensures plan.calls[i].fn == Steps()[i]
      ensures plan.stepKeys[i] == KeyEntry(Steps()[i], SubmissionOf(plan).Key(i))
    {
      assert Names(plan.calls)[i] == Steps()[..n][i];
    }
    forall i, j | 0 <= i < j < n
      ensures plan.stepKeys[i].key != plan.stepKeys[j].key
    {
      KeyIffScopeAndStep(plan.traceId, plan.bundleId, i, plan.traceId, plan.bundleId, j);
    }
  }

  function OpenStatus(mode: string, simulated: string): string
  {
    if mode == "offchain" then simulated
    else if mode == "hybrid" || mode == "testnet" then "use_bilateral_lock_bind_settle"
    else "pending_testnet_implementation"
  }

  function CommonFields(
    task: Task, bundle: Bundle, traceId: string, digest: string, contractName: string, mode: string, terms: Terms): seq<Field>
  {
    [ Field("task_id", Str(task.taskId)), Field("bundle_id", Str(bundle.bundleId)),
      Field("trace_id", Str(traceId)), Field("evidence_bundle_digest", Str(digest)),
      Field("karma_contract", Str(contractName)), Field("mode", Str(mode)),
      Field("proof_hash", Str(terms.proofHash)), Field("scope_hash_hex", Str(terms.scopeHex)) ]
  }

  /** What a reader finds in the common part of a plan, whatever follows it under other keys. */
  ghost predicate Says(
    base: seq<Field>, task: Task, bundle: Bundle, traceId: string, digest: string, contractName: string, mode: string, terms: Terms)
  {
    && Lookup(base, "task_id") == Some(Str(task.taskId))
    && Lookup(base, "bundle_id") == Some(Str(bundle.bundleId))
    && Lookup(base, "trace_id") == Some(Str(traceId))
    && Lookup(base, "evidence_bundle_digest") == Some(Str(digest))
    && Lookup(base, "karma_contract") == Some(Str(contractName))
    && Lookup(base, "mode") == Some(Str(mode))
    && Lookup(base, "proof_hash") == Some(Str(terms.proofHash))
    && Lookup(base, "scope_hash_hex") == Some(Str(terms.scopeHex))
  }

  lemma CommonSays(
    task: Task, bundle: Bundle, traceId: string, digest: string, contractName: string, mode: string, terms: Terms,
    more: seq<Field>)
    ensures Says(
              CommonFields(task, bundle, traceId, digest, contractName, mode, terms) + more,
              task, bundle, traceId, digest, contractName, mode, terms)
  {
    hide Lookup;
    var d := CommonFields(task, bundle, traceId, digest, contractName, mode, terms);
    CommonDistinct(task, bundle, traceId, digest, contractName, mode, terms);
    forall i | 0 <= i < 8
      ensures Lookup(d + more, d[i].key) == Some(d[i].value)
    {
      LookupAt(d, i);
      LookupInFront(d, more, d[i].key);
    }
    assert d[0].key == "task_id" && d[1].key == "bundle_id" && d[2].key == "trace_id" && d[3].key == "evidence_bundle_digest";
    assert d[4].key == "karma_contract" && d[5].key == "mode" && d[6].key == "proof_hash" && d[7].key == "scope_hash_hex";
  }

  lemma CommonDistinct(
    task: Task, bundle: Bundle, traceId: string, digest: string, contractName: string, mode: string, terms: Terms)
    ensures DistinctKeys(CommonFields(task, bundle, traceId, digest, contractName, mode, terms))
  {
    var d := CommonFields(task, bundle, traceId, digest, contractName, mode, terms);
    assert d[0].key[1] == 'a' && d[2].key[1] == 'r';
    assert d[0].key[0] == 't' && d[1].key[0] == 'b' && d[2].key[0] == 't' && d[3].key[0] == 'e';
    assert d[4].key[0] == 'k' && d[5].key[0] == 'm' && d[6].key[0] == 'p' && d[7].key[0] == 's';
  }

  lemma {:induction false} LookupInFront(d: seq<Field>, more: seq<Field>, key: string)
    requires Lookup(d, key).Some?
    ensures Lookup(d + more, key) == Lookup(d, key)
  {
    if d != [] {
      assert (d + more)[1..] == d[1..] + more;
      if d[0].key != key {
        LookupInFront(d[1..], more, key);
      }
    }
  }

  /** The status of an open plan, by mode. */
  lemma OpenStatusByMode(mode: string, simulated: string)
    ensures mode == "offchain" ==> OpenStatus(mode, simulated) == simulated
    ensures mode == "hybrid" || mode == "testnet" ==> OpenStatus(mode, simulated) == "use_bilateral_lock_bind_settle"
    ensures mode != "offchain" && mode != "hybrid" && mode != "testnet" ==>
              OpenStatus(mode, simulated) == "pending_testnet_implementation"
  {
  }

  function VerificationField(verify: VerificationResult): Field
  {
    Field("verification", Obj([
      Field("verification_id", Str(verify.verificationId)), Field("decision", Str(verify.decision)),
      Field("public_reasons", Arr(Strs(verify.publicReasons))), Field("verified_at", Str(verify.verifiedAt)),
      Field("trace_id", Str(verify.traceId))]))
  }

  /** What the plan says about the verdict it rests on. */
  lemma VerificationReads(verify: VerificationResult)
    ensures var f := VerificationField(verify);
            && f.key == "verification" && f.value.Obj?
            && Lookup(f.value.fields, "verification_id") == Some(Str(verify.verificationId))
            && Lookup(f.value.fields, "decision") == Some(Str(verify.decision))
            && Lookup(f.value.fields, "public_reasons") == Some(Arr(Strs(verify.publicReasons)))
            && Lookup(f.value.fields, "verified_at") == Some(Str(verify.verifiedAt))
            && Lookup(f.value.fields, "trace_id") == Some(Str(verify.traceId))
  {
    hide Lookup, Strs;
    var d := VerificationField(verify).value.fields;
    assert d[0].key == "verification_id" && d[1].key == "decision" && d[2].key == "public_reasons" && d[3].key == "verified_at";
    assert d[0].key[6] == 'c' && d[3].key[6] == 'e' && d[4].key[0] == 't' && d[1].key[0] == 'd' && d[2].key[0] == 'p';
    assert DistinctKeys(d);
    LookupAt(d, 0);
    LookupAt(d, 1);
    LookupAt(d, 2);
    LookupAt(d, 3);
    LookupAt(d, 4);
  }

  function AttestationField(quorum: Quorum): Field
  {
    Field("attestation", Obj([
      Field("quorum_id", Str(quorum.quorumId)), Field("status", Str(QuorumText(quorum.status))),
      Field("threshold", Int(quorum.threshold)), Field("total_verifiers", Int(quorum.totalVerifiers)),
      Field("valid_signatures", Int(quorum.validSignatures)), Field("decision", Str(quorum.decision))]))
  }

  function WindowField(window: ChallengeWindow): Field
  {
    Field("challenge_window", Obj([
      Field("challenge_id", Str(window.challengeId)), Field("status", Str(WindowText(window.status))),
      Field("start_at", Str(window.startAt)), Field("end_at", Str(window.endAt)),
      Field("duration_seconds", Int(window.durationSeconds))]))
  }

  /** What the plan says about the quorum and the window it rests on. */
  lemma AttestationReads(quorum: Quorum)
    ensures var f := AttestationField(quorum);
            && f.key == "attestation" && f.value.Obj?
            && Lookup(f.value.fields, "quorum_id") == Some(Str(quorum.quorumId))
            && Lookup(f.value.fields, "threshold") == Some(Int(quorum.threshold))
            && Lookup(f.value.fields, "total_verifiers") == Some(Int(quorum.totalVerifiers))
            && Lookup(f.value.fields, "valid_signatures") == Some(Int(quorum.validSignatures))
            && Lookup(f.value.fields, "decision") == Some(Str(quorum.decision))
            && (quorum.status == AttestedOk ==> Lookup(f.value.fields, "status") == Some(Str("attested_ok")))
  {
    hide Lookup;
    var d := AttestationField(quorum).value.fields;
    assert d[0].key[0] == 'q' && d[1].key[0] == 's' && d[2].key[1] == 'h' && d[3].key[1] == 'o' && d[4].key[0] == 'v' && d[5].key[0] == 'd';
    assert d[2].key[0] == 't' && d[3].key[0] == 't';
    assert DistinctKeys(d);
    LookupAt(d, 0);
    LookupAt(d, 1);
    LookupAt(d, 2);
    LookupAt(d, 3);
    LookupAt(d, 4);
    LookupAt(d, 5);
  }

  lemma WindowReads(window: ChallengeWindow)
    ensures var f := WindowField(window);
            && f.key == "challenge_window" && f.value.Obj?
            && Lookup(f.value.fields, "challenge_id") == Some(Str(window.challengeId))
            && Lookup(f.value.fields, "start_at") == Some(Str(window.startAt))
            && Lookup(f.value.fields, "end_at") == Some(Str(window.endAt))
            && Lookup(f.value.fields, "duration_seconds") == Some(Int(window.durationSeconds))
            && (window.status == Pending ==> Lookup(f.value.fields, "status") == Some(Str("pending")))
            && (window.status == Open ==> Lookup(f.value.fields, "status") == Some(Str("open")))
            && (window.status == Closed ==> Lookup(f.value.fields, "status") == Some(Str("closed")))
            && (window.status == Disputed ==> Lookup(f.value.fields, "status") == Some(Str("disputed")))
  {
    hide Lookup;
    var d := WindowField(window).value.fields;
    assert d[0].key[0] == 'c' && d[1].key[4] == 'u' && d[2].key[4] == 't' && d[3].key[0] == 'e' && d[4].key[0] == 'd';
    assert d[1].key[0] == 's' && d[2].key[0] == 's';
    assert DistinctKeys(d);
    LookupAt(d, 0);
    LookupAt(d, 1);
    LookupAt(d, 2);
    LookupAt(d, 3);
    LookupAt(d, 4);
  }

  /** `build_offchain_plan`; `mode` is the lower-cased SETTLEMENT_MODE. */
  method BuildOffchainPlan(
    contractName: string, task: Task, bundle: Bundle, terms: Terms,
    verify: VerificationResult, controls: Option<Controls>, mode: string)
    returns (plan: Plan)
    ensures WellFormed(plan)
    ensures plan.traceId == (if task.traceId != "" then task.traceId else verify.traceId)
    ensures plan.bundleId == bundle.bundleId
    ensures plan.calls != [] <==> verify.decision == STRUCT_OK && Permitted(task, controls)
    ensures plan.calls != [] ==> (plan.payoutOmitted <==> controls.Some? && controls.value.pausePayout)
    ensures plan.calls == [] ==> Some(plan.onchainStatus) == OffchainBlock(task, verify, controls)
    ensures plan.calls != [] ==> plan.onchainStatus == OpenStatus(mode, "offchain_simulated")
    ensures plan.calls != [] ==> plan.calls == BilateralCalls(terms, PayoutPaused(controls)) && Carries(plan.calls, terms)
    ensures plan.operationalBlock == if verify.decision == STRUCT_OK then BlockReason(task, controls) else None
    ensures plan.base == CommonFields(task, bundle, plan.traceId, verify.evidenceBundleDigest, contractName, mode, terms) + [VerificationField(verify)]
    ensures Says(plan.base, task, bundle, plan.traceId, verify.evidenceBundleDigest, contractName, mode, terms)
  {
    hide AllCalls, BilateralCalls, Carries, Steps, StepKey, KeysFor, OpenStatus, CommonFields, VerificationField, Says;
    var traceId := if task.traceId != "" then task.traceId else verify.traceId;
    plan := Plan(
      CommonFields(task, bundle, traceId, verify.evidenceBundleDigest, contractName, mode, terms) +
      [VerificationField(verify)],
      traceId, bundle.bundleId, [], [], "", None, false);
    CommonSays(task, bundle, traceId, verify.evidenceBundleDigest, contractName, mode, terms, [VerificationField(verify)]);
    if verify.decision != STRUCT_OK {
      plan := plan.(onchainStatus := "blocked_structural_failure");
      return;
    }
    if controls.Some? {
      var sb := controls.value.SettlementBlockReason(task);
      if sb.Some? {
        plan := plan.(onchainStatus := "operational_blocked:" + sb.value, operationalBlock := sb);
        return;
      }
    }
    var calls := BilateralCalls(terms, PayoutPaused(controls));
    CallArguments(terms, PayoutPaused(controls));
    plan := plan.(
      payoutOmitted := PayoutPaused(controls), calls := calls,
      stepKeys := KeysFor(traceId, bundle.bundleId, calls),
      onchainStatus := OpenStatus(mode, "offchain_simulated"));
    OpenPlanWellFormed(plan, terms);
  }

  /** `build_attested_plan`. */
  method BuildAttestedPlan(
    contractName: string, task: Task, bundle: Bundle, terms: Terms, quorum: Quorum, window: ChallengeWindow,
    controls: Option<Controls>, verify: Option<VerificationResult>, mode: string)
    returns (plan: Plan)
    ensures WellFormed(plan)
    ensures plan.traceId == (if task.traceId != "" then task.traceId else if verify.Some? then verify.value.traceId else "")
    ensures plan.bundleId == bundle.bundleId
    ensures plan.calls != [] <==>
            quorum.status == AttestedOk && (window.status == Pending || window.status == Closed) && Permitted(task, controls)
    ensures plan.calls != [] ==> (plan.payoutOmitted <==> controls.Some? && controls.value.pausePayout)
    ensures plan.calls == [] ==> Some(plan.onchainStatus) == AttestedBlock(task, quorum, window, controls)
    ensures plan.calls != [] ==> plan.onchainStatus == OpenStatus(mode, "offchain_simulated_attested")
    ensures plan.calls != [] ==> plan.calls == BilateralCalls(terms, PayoutPaused(controls)) && Carries(plan.calls, terms)
    ensures plan.operationalBlock ==
            if quorum.status == AttestedOk && window.status != Open && window.status != Disputed
            then BlockReason(task, controls) else None
    ensures var digest := if verify.Some? then verify.value.evidenceBundleDigest else quorum.evidenceHash;
            && plan.base == CommonFields(task, bundle, plan.traceId, digest, contractName, mode, terms) + [AttestationField(quorum), WindowField(window)]
            && Says(plan.base, task, bundle, plan.traceId, digest, contractName, mode, terms)
  {
    hide AllCalls, BilateralCalls, Carries, Steps, StepKey, KeysFor, OpenStatus, QuorumText, CommonFields, AttestationField, WindowField, Says;
    var traceId := if task.traceId != "" then task.traceId else if verify.Some? then verify.value.traceId else "";
    var digest := if verify.Some? then verify.value.evidenceBundleDigest else quorum.evidenceHash;
    plan := Plan(
      CommonFields(task, bundle, traceId, digest, contractName, mode, terms) +
      [AttestationField(quorum), WindowField(window)],
      traceId, bundle.bundleId, [], [], "", None, false);
    CommonSays(task, bundle, traceId, digest, contractName, mode, terms, [AttestationField(quorum), WindowField(window)]);
    if quorum.status != AttestedOk {
      plan := plan.(onchainStatus := "blocked_quorum:" + QuorumText(quorum.status));
      return;
    }
    if window.status == Open {
      plan := plan.(onchainStatus := "blocked_challenge_window_open");
      return;
    }
    if window.status == Disputed {
      plan := plan.(onchainStatus := "blocked_disputed");
      return;
    }
    if controls.Some? {
      var sb := controls.value.SettlementBlockReason(task);
      if sb.Some? {
        plan := plan.(onchainStatus := "operational_blocked:" + sb.value, operationalBlock := sb);
        return;
      }
    }
    var calls := BilateralCalls(terms, PayoutPaused(controls));
    CallArguments(terms, PayoutPaused(controls));
    plan := plan.(
      payoutOmitted := PayoutPaused(controls), calls := calls,
      stepKeys := KeysFor(traceId, bundle.bundleId, calls),
      onchainStatus := OpenStatus(mode, "offchain_simulated_attested"));
    OpenPlanWellFormed(plan, terms);
  }

  // -------------------------------------------------------------------- across plans

  /** Two plans share a step key exactly when they share the scope, and then the step too. */
  lemma SharedKeyIffSameScope(p: Plan, q: Plan, i: nat, j: nat)
    requires WellFormed(p) && WellFormed(q) && i < |p.stepKeys| && j < |q.stepKeys|
    ensures p.stepKeys[i].key == q.stepKeys[j].key <==> i == j && Scope(p.traceId, p.bundleId) == Scope(q.traceId, q.bundleId)
  {
    hide Steps, StepKey, Scope;
    assert |p.calls| <= 5 && |q.calls| <= 5 by {
      assert p.calls == [] || |p.calls| == |Names(p.calls)|;
      assert q.calls == [] || |q.calls| == |Names(q.calls)|;
    }
    KeyIffScopeAndStep(p.traceId, p.bundleId, i, q.traceId, q.bundleId, j);
  }

  // ------------------------------------------------------------------------- as JSON

  function CallsJson(calls: seq<Call>): seq<Value>
  {
    if calls == [] then []
    else
      [Obj([Field("function", Str(calls[0].fn)), Field("onchain", Str(calls[0].onchain)),
            Field("args", Obj(calls[0].args)), Field("note", Str(calls[0].note))])] +
      CallsJson(calls[1..])
  }

  function KeysJson(keys: seq<KeyEntry>): seq<Value>
  {
    if keys == [] then []
    else
      [Obj([Field("function", Str(keys[0].fn)), Field("idempotency_key", Str(keys[0].key))])] + KeysJson(keys[1..])
  }

  /** What a plan says beyond its common part. */
  function PlanTail(plan: Plan): seq<Field>
  {
    [Field("recommended_calls", Arr(CallsJson(plan.calls))),
     Field("settlement_step_keys", Arr(KeysJson(plan.stepKeys))),
     Field("tx_hash", Null),
     Field("onchain_status", Str(plan.onchainStatus))] +
    (match plan.operationalBlock case None => [] case Some(sb) => [Field("operational_block", Str(sb))])
  }

  function PlanNotes(plan: Plan): seq<Field>
  {
    if plan.payoutOmitted
    then [Field("operational_notes", Arr([Str("pause_payout:settle_finalize_omitted")]))] else []
  }

  /** The plan as the dict the builders return. */
  function PlanJson(plan: Plan): Value
  {
    Obj(plan.base + PlanNotes(plan) + PlanTail(plan))
  }

  lemma {:induction false} LookupPast(d: seq<Field>, more: seq<Field>, key: string)
    requires forall i :: 0 <= i < |d| ==> d[i].key != key
    ensures Lookup(d + more, key) == Lookup(more, key)
  {
    if d == [] {
      assert d + more == more;
    } else {
      assert (d + more)[1..] == d[1..] + more;
      LookupPast(d[1..], more, key);
    }
  }

  lemma PlanTailReads(plan: Plan)
    ensures var d := PlanTail(plan);
            && Lookup(d, "recommended_calls") == Some(Arr(CallsJson(plan.calls)))
            && Lookup(d, "settlement_step_keys") == Some(Arr(KeysJson(plan.stepKeys)))
            && Lookup(d, "tx_hash") == Some(Null)
            && Lookup(d, "onchain_status") == Some(Str(plan.onchainStatus))
            && Lookup(d, "operational_block") == (match plan.operationalBlock case None => None case Some(sb) => Some(Str(sb)))
  {
    hide Lookup, CallsJson, KeysJson;
    var d := PlanTail(plan);
    assert d[0].key == "recommended_calls" && d[1].key == "settlement_step_keys" && d[2].key == "tx_hash";
    assert d[3].key == "onchain_status" && (|d| > 4 ==> d[4].key == "operational_block");
    assert d[0].key[0] == 'r' && d[1].key[0] == 's' && d[2].key[0] == 't' && d[3].key[1] == 'n' && (|d| > 4 ==> d[4].key[1] == 'p');
    assert DistinctKeys(d);
    LookupAt(d, 0);
    LookupAt(d, 1);
    LookupAt(d, 2);
    LookupAt(d, 3);
    if |d| > 4 {
      LookupAt(d, 4);
    } else {
      LookupAbsent(d, "operational_block");
    }
  }

  /** The calls of a plan appear in its dict in order, each with its names, arguments and note. */
  lemma {:induction false} CallsRead(calls: seq<Call>, i: nat)
    requires i < |calls|
    ensures |CallsJson(calls)| == |calls| && CallsJson(calls)[i].Obj?
    ensures var d := CallsJson(calls)[i].fields;
            && Lookup(d, "function") == Some(Str(calls[i].fn)) && Lookup(d, "onchain") == Some(Str(calls[i].onchain))
            && Lookup(d, "args") == Some(Obj(calls[i].args)) && Lookup(d, "note") == Some(Str(calls[i].note))
  {
    hide Lookup;
    CallsLength(calls);
    if i > 0 {
      CallsRead(calls[1..], i - 1);
    } else {
      var d := CallsJson(calls)[0].fields;
      assert d[0].key[0] == 'f' && d[1].key[0] == 'o' && d[2].key[0] == 'a' && d[3].key[0] == 'n';
      assert DistinctKeys(d);
      LookupAt(d, 0);
      LookupAt(d, 1);
      LookupAt(d, 2);
      LookupAt(d, 3);
    }
  }

  lemma {:induction false} CallsLength(calls: seq<Call>)
    ensures |CallsJson(calls)| == |calls|
  {
    if calls != [] {
      CallsLength(calls[1..]);
    }
  }

  /** And so do its step keys. */
  lemma {:induction false} KeysRead(keys: seq<KeyEntry>, i: nat)
    requires i < |keys|
    ensures |KeysJson(keys)| == |keys| && KeysJson(keys)[i].Obj?
    ensures var d := KeysJson(keys)[i].fields;
            Lookup(d, "function") == Some(Str(keys[i].fn)) && Lookup(d, "idempotency_key") == Some(Str(keys[i].key))
  {
    hide Lookup;
    KeysLength(keys);
    if i > 0 {
      KeysRead(keys[1..], i - 1);
    } else {
      var d := KeysJson(keys)[0].fields;
      assert d[0].key[0] == 'f' && d[1].key[0] == 'i';
      assert DistinctKeys(d);
      LookupAt(d, 0);
      LookupAt(d, 1);
    }
  }

  lemma {:induction false} KeysLength(keys: seq<KeyEntry>)
    ensures |KeysJson(keys)| == |keys|
  {
    if keys != [] {
      KeysLength(keys[1..]);
    }
  }

  /** A plan without payout says so. */
  lemma NotesRead(plan: Plan)
    ensures plan.payoutOmitted ==>
              Lookup(PlanNotes(plan), "operational_notes") == Some(Arr([Str("pause_payout:settle_finalize_omitted")]))
    ensures !plan.payoutOmitted ==> PlanNotes(plan) == []
  {
  }

  ghost predicate Lacks(d: seq<Field>, key: string)
  {
    forall i :: 0 <= i < |d| ==> d[i].key != key
  }

  /** What a reader of the plan's dict finds: the calls and keys in order, the status, the block, no transaction yet. */
  lemma PlanReads(plan: Plan, key: string)
    requires Lacks(plan.base, key) && Lacks(PlanNotes(plan), key)
    ensures Lookup(PlanJson(plan).fields, key) == Lookup(PlanTail(plan), key)
  {
    hide Lookup, PlanTail, PlanNotes;
    LookupPast(plan.base + PlanNotes(plan), PlanTail(plan), key);
  }
}

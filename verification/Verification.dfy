/**
 Operational gates, the bundle builder and the structural verifier, with the laws
 that tie them together: completeness of the builder, what a STRUCT_OK pins down,
 and what it does not depend on.
 */
module OperationalControls {
  import opened JsonDict
  import opened Records

  datatype Controls = Controls(
    pauseSettlement: bool, pausePayout: bool, pauseVerification: bool,
    frozenTaskIds: set<string>, frozenAgentIds: set<string>)
  {
    function FreezeReason(task: Task): Option<string>
    {
      if task.taskId in frozenTaskIds then Some("freeze_task")
      else if task.agentId in frozenAgentIds then Some("freeze_agent")
      else None
    }

    function VerificationBlockReason(task: Task): Option<string>
    {
      if pauseVerification then Some("pause_verification") else FreezeReason(task)
    }

    function SettlementBlockReason(task: Task): Option<string>
    {
      if pauseSettlement then Some("pause_settlement") else FreezeReason(task)
    }

    /** Neither the task nor its agent is frozen. */
    predicate Thawed(task: Task)
    {
      task.taskId !in frozenTaskIds && task.agentId !in frozenAgentIds
    }
  }

  /** Each gate's reason by name: a pause comes before a frozen task, and that before a frozen agent. */
  lemma GateReasons(c: Controls, task: Task)
    ensures var v, s := c.VerificationBlockReason(task), c.SettlementBlockReason(task);
            && (v == None <==> !c.pauseVerification && c.Thawed(task))
            && (s == None <==> !c.pauseSettlement && c.Thawed(task))
            && (v == Some("pause_verification") <==> c.pauseVerification)
            && (s == Some("pause_settlement") <==> c.pauseSettlement)
            && (v == Some("freeze_task") <==> !c.pauseVerification && task.taskId in c.frozenTaskIds)
            && (s == Some("freeze_task") <==> !c.pauseSettlement && task.taskId in c.frozenTaskIds)
            && (v == Some("freeze_agent") <==>
                  !c.pauseVerification && task.taskId !in c.frozenTaskIds && task.agentId in c.frozenAgentIds)
            && (s == Some("freeze_agent") <==>
                  !c.pauseSettlement && task.taskId !in c.frozenTaskIds && task.agentId in c.frozenAgentIds)
  {
    assert "freeze_task"[7] == 't' && "freeze_agent"[7] == 'a';
    assert "pause_verification"[0] == 'p' && "pause_settlement"[0] == 'p' && "freeze_task"[0] == 'f' && "freeze_agent"[0] == 'f';
  }
}

module EvidenceAdapter {
  import opened Text
  import opened JsonDict
  import opened Records
  import opened ReceiptStore

  datatype Build = Built(bundle: Bundle) | MissingReceipt(receiptId: string)

  function Hashes(h: Sha, rs: seq<Receipt>): (r: seq<string>)
    ensures |r| == |rs|
    ensures forall i :: 0 <= i < |rs| ==> r[i] == RecordHash(h, rs[i])
  {
    seq(|rs|, i requires 0 <= i < |rs| => RecordHash(h, rs[i]))
  }

  function Ids(rs: seq<Receipt>): (r: seq<string>)
    ensures |r| == |rs|
    ensures forall i :: 0 <= i < |rs| ==> r[i] == rs[i].receiptId
  {
    seq(|rs|, i requires 0 <= i < |rs| => rs[i].receiptId)
  }

  /** The bundle over a list of receipts already fetched. */
  function BundleOver(
    h: Sha, task: Task, rs: seq<Receipt>, refs: seq<string>, bundleId: string, createdAt: string): Bundle
  {
    var hashes := Hashes(h, rs);
    Bundle(
      bundleId, task.taskId, TaskHash(h, task), hashes,
      if hashes == [] then h("empty") else hashes[|hashes| - 1],
      refs, createdAt, "", "", BUNDLE_SCHEMA, task.traceId)
  }

  /** The stored receipts with the given ids, in the given order. */
  ghost predicate Fetches(s: seq<Receipt>, ids: seq<string>, rs: seq<Receipt>)
  {
    Ids(rs) == ids && forall r :: r in rs ==> r in s
  }

  /** `build_evidence_bundle`; the bundle id and the time come from the caller. */
  method BuildEvidenceBundle(
    h: Sha, store: InMemoryReceiptStore, task: Task, receiptIds: seq<string>,
    refs: seq<string>, bundleId: string, createdAt: string)
    returns (b: Build, ghost rs: seq<Receipt>)
    requires store.Valid()
    ensures b.Built? <==> forall i :: 0 <= i < |receiptIds| ==> Find(store.byId, receiptIds[i]).Some?
    ensures b.Built? ==> Fetches(store.byId, receiptIds, rs) && b.bundle == BundleOver(h, task, rs, refs, bundleId, createdAt)
    ensures b.Built? ==>
              && b.bundle.bundleId == bundleId && b.bundle.taskId == task.taskId && b.bundle.traceId == task.traceId
              && b.bundle.evidenceStorageRefs == refs && b.bundle.createdAt == createdAt
              && b.bundle.signer == "" && b.bundle.signature == "" && b.bundle.schemaVersion == BUNDLE_SCHEMA
              && |b.bundle.receiptHashes| == |receiptIds|
              && (receiptIds == [] ==> b.bundle.finalResultHash == h("empty"))
              && (receiptIds != [] ==> b.bundle.finalResultHash == b.bundle.receiptHashes[|receiptIds| - 1])
    ensures b.MissingReceipt? ==>
              exists i :: 0 <= i < |receiptIds| && receiptIds[i] == b.receiptId && Find(store.byId, receiptIds[i]).None?
                && forall j :: 0 <= j < i ==> Find(store.byId, receiptIds[j]).Some?
  {
    hide RecordHash, TaskHash;
    var receipts: seq<Receipt> := [];
    rs := [];
    for i := 0 to |receiptIds|
      invariant Fetches(store.byId, receiptIds[..i], receipts)
      invariant forall j :: 0 <= j < i ==> Find(store.byId, receiptIds[j]).Some?
    {
      var r := store.GetReceipt(receiptIds[i]);
      if r == None {
        return MissingReceipt(receiptIds[i]), [];
      }
      receipts := receipts + [r.value];
      assert receiptIds[..i + 1] == receiptIds[..i] + [receiptIds[i]];
    }
    assert receiptIds[..|receiptIds|] == receiptIds;
    rs := receipts;
    var receiptHashes := Hashes(h, receipts);
    var finalHash := if receiptHashes == [] then h("empty") else receiptHashes[|receiptHashes| - 1];
    b := Built(Bundle(
      bundleId, task.taskId, TaskHash(h, task), receiptHashes, finalHash,
      refs, createdAt, "", "", BUNDLE_SCHEMA, task.traceId));
  }

  /** A store with unique ids fetches one list of receipts for a list of ids. */
  lemma FetchUnique(s: seq<Receipt>, ids: seq<string>, a: seq<Receipt>, b: seq<Receipt>)
    requires UniqueIds(s) && Fetches(s, ids, a) && Fetches(s, ids, b)
    ensures a == b
  {
    forall i | 0 <= i < |ids|
      ensures a[i] == b[i]
    {
      assert Ids(a)[i] == ids[i] && Ids(b)[i] == ids[i];
      assert a[i] in s && b[i] in s;
    }
  }

  /** Equal hash lists come from equal receipt lists, or from a collision. */
  lemma HashesCommit(h: Sha, a: seq<Receipt>, b: seq<Receipt>)
    requires Hashes(h, a) == Hashes(h, b)
    ensures a == b || CollisionAmong(h, a + b)
  {
    hide ReceiptText;
    assert |a| == |Hashes(h, a)| == |b|;
    if !CollisionAmong(h, a + b) {
      forall i | 0 <= i < |a|
        ensures a[i] == b[i]
      {
        assert Hashes(h, a)[i] == Hashes(h, b)[i];
        RecordHashCommits(h, a[i], b[i]);
        assert a[i] in a + b && b[i] in a + b;
      }
    }
  }
}

module Verification {
  import opened Text
  import opened Sorting
  import opened JsonDict
  import opened Records
  import opened ReceiptStore
  import opened OperationalControls
  import opened EvidenceAdapter

  datatype VerificationResult = VerificationResult(
    verificationId: string, taskId: string, evidenceBundleDigest: string, decision: string,
    publicReasons: seq<string>, verifiedAt: string, verifier: string, signature: string, traceId: string)

  const STRUCT_OK := "STRUCT_OK"
  const STRUCT_FAIL := "STRUCT_FAIL"

  /** Why a bundle is not structurally sound. */
  datatype Fault =
    | Blocked(reason: string)
    | TaskIdMismatch
    | ContractHashMismatch
    | ReceiptMissing
    | BundleTraceMismatch
    | ReceiptTraceMismatch
    | HashMismatch
    | ChronologicalError

  function FaultText(f: Fault): string
  {
    match f
    case Blocked(reason) => reason
    case TaskIdMismatch => "task_id_mismatch"
    case ContractHashMismatch => "task_contract_hash_mismatch"
    case ReceiptMissing => "receipt_missing"
    case BundleTraceMismatch => "bundle_trace_mismatch"
    case ReceiptTraceMismatch => "receipt_trace_mismatch"
    case HashMismatch => "hash_mismatch"
    case ChronologicalError => "chronological_error"
  }

  datatype Verdict = Sound | Unsound(fault: Fault)

  ghost predicate TracesMatch(task: Task, chain: seq<Receipt>)
  {
    task.traceId != "" ==> forall r :: r in chain ==> r.traceId == task.traceId
  }

  ghost predicate Chronological(chain: seq<Receipt>)
  {
    forall i, j :: 0 <= i < j < |chain| ==> StrLe(chain[i].startedAt, chain[j].startedAt)
  }

  /** The gates come first, then the checks, in the order the verifier makes them. */
  ghost function JudgeChain(
    h: Sha, task: Task, bundle: Bundle, chain: seq<Receipt>, controls: Option<Controls>): Verdict
  {
    var block := if controls.Some? then controls.value.VerificationBlockReason(task) else None;
    if block.Some? then Unsound(Blocked(block.value))
    else if bundle.taskId != task.taskId then Unsound(TaskIdMismatch)
    else if bundle.taskContractHash != TaskHash(h, task) then Unsound(ContractHashMismatch)
    else if chain == [] then Unsound(ReceiptMissing)
    else if task.traceId != "" && bundle.traceId != task.traceId then Unsound(BundleTraceMismatch)
    else if !TracesMatch(task, chain) then Unsound(ReceiptTraceMismatch)
    else if Hashes(h, chain) != bundle.receiptHashes then Unsound(HashMismatch)
    else if !Chronological(chain) then Unsound(ChronologicalError)
    else Sound
  }

  /** The verdict on a bundle against a store. */
  ghost function Judge(
    h: Sha, task: Task, bundle: Bundle, s: seq<Receipt>, controls: Option<Controls>): Verdict
  {
    JudgeChain(h, task, bundle, ChainOf(s, task.taskId), controls)
  }

  ghost predicate Reports(res: VerificationResult, verdict: Verdict)
  {
    match verdict
    case Sound => res.decision == STRUCT_OK && res.publicReasons == ["receipt_chain_valid"]
    case Unsound(fault) => res.decision == STRUCT_FAIL && res.publicReasons == [FaultText(fault)]
  }

  method MakeResult(
    digest: string, taskId: string, decision: string, reasons: seq<string>,
    verificationId: string, verifiedAt: string, traceId: string)
    returns (res: VerificationResult)
    ensures res.decision == decision && res.publicReasons == reasons
    ensures res.evidenceBundleDigest == digest && res.taskId == taskId && res.traceId == traceId
    ensures res.verificationId == verificationId && res.verifiedAt == verifiedAt
    ensures res.verifier == "karma.structural.v1" && res.signature == ""
  {
    res := VerificationResult(
      verificationId, taskId, digest, decision, reasons, verifiedAt, "karma.structural.v1", "", traceId);
  }

  method TracesAgree(task: Task, chain: seq<Receipt>) returns (same: bool)
    requires task.traceId != ""
    ensures same <==> TracesMatch(task, chain)
  {
    for i := 0 to |chain|
      invariant forall r :: r in chain[..i] ==> r.traceId == task.traceId
    {
      if chain[i].traceId != task.traceId {
        return false;
      }
      assert chain[..i + 1] == chain[..i] + [chain[i]];
    }
    assert chain[..|chain|] == chain;
    same := true;
  }

  /** The loop that compares each start time with the one before, beginning with "". */
  method StartsInOrder(chain: seq<Receipt>) returns (ordered: bool)
    ensures ordered <==> Chronological(chain)
  {
    hide StrLt;
    var last := "";
    for i := 0 to |chain|
      invariant last == if i == 0 then "" else chain[i - 1].startedAt
      invariant Chronological(chain[..i])
    {
      if StrLt(chain[i].startedAt, last) {
        ChronologicalBroken(chain, i);
        return false;
      }
      ChronologicalExtends(chain, i);
      last := chain[i].startedAt;
    }
    assert chain[..|chain|] == chain;
    ordered := true;
  }

  /** `verify_evidence_bundle_structural`; the result's id and time come from the caller. */
  method VerifyEvidenceBundleStructural(
    h: Sha, task: Task, bundle: Bundle, store: InMemoryReceiptStore, controls: Option<Controls>,
    verificationId: string, verifiedAt: string)
    returns (res: VerificationResult)
    requires store.Valid()
    ensures Reports(res, Judge(h, task, bundle, store.byId, controls))
    ensures res.evidenceBundleDigest == BundleHash(h, bundle) && res.traceId == task.traceId
    ensures res.taskId ==
            match Judge(h, task, bundle, store.byId, controls)
            case Unsound(Blocked(_)) => task.taskId
            case _ => bundle.taskId
    ensures res.decision == STRUCT_OK ==> res.taskId == task.taskId
    ensures res.verificationId == verificationId && res.verifiedAt == verifiedAt
    ensures res.verifier == "karma.structural.v1" && res.signature == ""
  {
    hide FaultText, RecordHash, TaskHash, BundleHash, Sort, OfTask, TracesMatch, Chronological;
    var reasons: seq<string> := [];
    var digest := BundleHash(h, bundle);
    if controls.Some? {
      var block := controls.value.VerificationBlockReason(task);
      if block.Some? {
        res := MakeResult(digest, task.taskId, STRUCT_FAIL, reasons + [FaultText(Blocked(block.value))], verificationId, verifiedAt, task.traceId);
        return;
      }
    }
    if bundle.taskId != task.taskId {
      res := MakeResult(digest, bundle.taskId, STRUCT_FAIL, reasons + [FaultText(TaskIdMismatch)], verificationId, verifiedAt, task.traceId);
      return;
    }
    if bundle.taskContractHash != TaskHash(h, task) {
      res := MakeResult(digest, bundle.taskId, STRUCT_FAIL, reasons + [FaultText(ContractHashMismatch)], verificationId, verifiedAt, task.traceId);
      return;
    }
    var listed := store.GetReceiptChain(task.taskId);
    var chain := Sort(listed, ChainLe);
    if listed == [] {
      res := MakeResult(digest, bundle.taskId, STRUCT_FAIL, reasons + [FaultText(ReceiptMissing)], verificationId, verifiedAt, task.traceId);
      return;
    }
    if task.traceId != "" {
      if bundle.traceId != task.traceId {
        res := MakeResult(digest, bundle.taskId, STRUCT_FAIL, reasons + [FaultText(BundleTraceMismatch)], verificationId, verifiedAt, task.traceId);
        return;
      }
      var same := TracesAgree(task, chain);
      if !same {
        res := MakeResult(digest, bundle.taskId, STRUCT_FAIL, reasons + [FaultText(ReceiptTraceMismatch)], verificationId, verifiedAt, task.traceId);
        return;
      }
    }
    assert TracesMatch(task, chain) by { NoTraceNoMismatch(task, chain); }
    var expected := Hashes(h, chain);
    if expected != bundle.receiptHashes {
      res := MakeResult(digest, bundle.taskId, STRUCT_FAIL, reasons + [FaultText(HashMismatch)], verificationId, verifiedAt, task.traceId);
      return;
    }
    var ordered := StartsInOrder(chain);
    if !ordered {
      res := MakeResult(digest, bundle.taskId, STRUCT_FAIL, reasons + [FaultText(ChronologicalError)], verificationId, verifiedAt, task.traceId);
      return;
    }
    res := MakeResult(digest, bundle.taskId, STRUCT_OK, reasons + ["receipt_chain_valid"], verificationId, verifiedAt, task.traceId);
  }

  lemma NoTraceNoMismatch(task: Task, chain: seq<Receipt>)
    ensures task.traceId == "" ==> TracesMatch(task, chain)
  {
  }

  lemma ChronologicalBroken(chain: seq<Receipt>, i: nat)
    requires i < |chain|
    requires StrLt(chain[i].startedAt, if i == 0 then "" else chain[i - 1].startedAt)
    ensures !Chronological(chain)
  {
    assert i > 0;
    assert !StrLe(chain[i - 1].startedAt, chain[i].startedAt);
  }

  lemma ChronologicalExtends(chain: seq<Receipt>, i: nat)
    requires i < |chain| && Chronological(chain[..i])
    requires i > 0 ==> StrLe(chain[i - 1].startedAt, chain[i].startedAt)
    ensures Chronological(chain[..i + 1])
  {
    forall j | 0 <= j < i
      ensures StrLe(chain[j].startedAt, chain[i].startedAt)
    {
      if j < i - 1 {
        assert StrLe(chain[..i][j].startedAt, chain[..i][i - 1].startedAt);
        StrLeTransitive(chain[j].startedAt, chain[i - 1].startedAt, chain[i].startedAt);
      }
    }
  }

  // ------------------------------------------------------- what the verdict reads

  /** Only the task's own receipts matter, and not the order they were saved in. */
  lemma VerdictDependsOnContents(
    h: Sha, task: Task, bundle: Bundle, a: seq<Receipt>, b: seq<Receipt>, controls: Option<Controls>)
    requires UniqueIds(a) && UniqueIds(b)
    requires forall r: Receipt :: r.taskId == task.taskId ==> (r in a <==> r in b)
    ensures Judge(h, task, bundle, a, controls) == Judge(h, task, bundle, b, controls)
  {
    hide JudgeChain;
    ChainDependsOnContents(a, b, task.taskId);
  }

  /** Any rearrangement or repetition of an accepted batch leads to the same verdict. */
  lemma VerdictDeliveryOrderIrrelevant(
    h: Sha, task: Task, bundle: Bundle, s: seq<Receipt>, a: seq<Receipt>, b: seq<Receipt>, controls: Option<Controls>)
    requires UniqueIds(s) && SaveAll(h, s, a).Stored?
    requires forall r :: r in a <==> r in b
    ensures SaveAll(h, s, b).Stored?
    ensures || CollisionAmong(h, s + a)
            || Judge(h, task, bundle, SaveAll(h, s, a).entries, controls)
            == Judge(h, task, bundle, SaveAll(h, s, b).entries, controls)
  {
    hide SaveAll, ChainOf, ReceiptText, RecordHash, JudgeChain;
    DeliveryOrderIrrelevant(h, s, a, b);
  }

  lemma OtherTaskIrrelevant(
    h: Sha, task: Task, bundle: Bundle, s: seq<Receipt>, r: Receipt, controls: Option<Controls>)
    requires UniqueIds(s) && r.taskId != task.taskId && Save(h, s, r).Stored?
    ensures UniqueIds(Save(h, s, r).entries)
    ensures Judge(h, task, bundle, Save(h, s, r).entries, controls) == Judge(h, task, bundle, s, controls)
  {
    hide RecordHash, JudgeChain;
    VerdictDependsOnContents(h, task, bundle, s, Save(h, s, r).entries, controls);
  }

  /** Saving any number of receipts of other tasks never changes a verdict. */
  lemma {:induction false} OtherTasksIrrelevant(
    h: Sha, task: Task, bundle: Bundle, s: seq<Receipt>, rs: seq<Receipt>, controls: Option<Controls>)
    requires UniqueIds(s) && (forall r :: r in rs ==> r.taskId != task.taskId) && SaveAll(h, s, rs).Stored?
    ensures Judge(h, task, bundle, SaveAll(h, s, rs).entries, controls) == Judge(h, task, bundle, s, controls)
    decreases |rs|
  {
    hide Save, Judge;
    if rs != [] {
      OtherTaskIrrelevant(h, task, bundle, s, rs[0], controls);
      OtherTasksIrrelevant(h, task, bundle, Save(h, s, rs[0]).entries, rs[1..], controls);
    }
  }

  /** The controls, if any, let this task be verified. */
  predicate Verifiable(task: Task, controls: Option<Controls>)
  {
    controls.None? || (!controls.value.pauseVerification && controls.value.Thawed(task))
  }

  /** Controls only ever add a gate in front of the checks. */
  lemma GatesOnlyBlock(h: Sha, task: Task, bundle: Bundle, s: seq<Receipt>, controls: Option<Controls>)
    ensures Judge(h, task, bundle, s, controls).Sound? <==>
            Verifiable(task, controls) && Judge(h, task, bundle, s, None).Sound?
  {
    hide ChainOf, RecordHash, TaskHash, TracesMatch, Chronological;
    var chain := ChainOf(s, task.taskId);
    assert Judge(h, task, bundle, s, None) == JudgeChain(h, task, bundle, chain, None);
  }

  // ------------------------------------------------------------- the verdict, check by check

  /** What the eight checks ask, in the order they are made. */
  ghost predicate Meets(h: Sha, task: Task, bundle: Bundle, chain: seq<Receipt>, controls: Option<Controls>, k: nat)
  {
    match k
    case 0 => Verifiable(task, controls)
    case 1 => bundle.taskId == task.taskId
    case 2 => bundle.taskContractHash == TaskHash(h, task)
    case 3 => chain != []
    case 4 => task.traceId != "" ==> bundle.traceId == task.traceId
    case 5 => task.traceId != "" ==> forall r :: r in chain ==> r.traceId == task.traceId
    case 6 => bundle.receiptHashes == Hashes(h, chain)
    case 7 => Chronological(chain)
    case _ => true
  }

  /** What the result says when a check is the first to fail. */
  function ReasonFor(task: Task, controls: Option<Controls>, k: nat): string
  {
    match k
    case 0 =>
      if controls.None? then ""
      else if controls.value.pauseVerification then "pause_verification"
      else if task.taskId in controls.value.frozenTaskIds then "freeze_task"
      else "freeze_agent"
    case 1 => "task_id_mismatch"
    case 2 => "task_contract_hash_mismatch"
    case 3 => "receipt_missing"
    case 4 => "bundle_trace_mismatch"
    case 5 => "receipt_trace_mismatch"
    case 6 => "hash_mismatch"
    case _ => "chronological_error"
  }

  /** Check `k` fails and all before it hold. */
  ghost predicate FailsFirst(
    h: Sha, task: Task, bundle: Bundle, chain: seq<Receipt>, controls: Option<Controls>, k: nat)
  {
    !Meets(h, task, bundle, chain, controls, k) && forall j: nat :: j < k ==> Meets(h, task, bundle, chain, controls, j)
  }

  /** A bundle is sound exactly if it passes all eight checks, and otherwise fails for the first one that it does not. */
  lemma VerdictExactly(h: Sha, task: Task, bundle: Bundle, s: seq<Receipt>, controls: Option<Controls>)
    ensures var verdict, chain := Judge(h, task, bundle, s, controls), ChainOf(s, task.taskId);
            && (verdict.Sound? <==> forall k: nat :: k < 8 ==> Meets(h, task, bundle, chain, controls, k))
            && (verdict.Unsound? ==>
                  exists k: nat :: k < 8 && FailsFirst(h, task, bundle, chain, controls, k) &&
                                   FaultText(verdict.fault) == ReasonFor(task, controls, k))
  {
    hide ChainOf, RecordHash, TaskHash, Chronological;
    var verdict, chain := Judge(h, task, bundle, s, controls), ChainOf(s, task.taskId);
    assert verdict.Sound? <==>
           && Meets(h, task, bundle, chain, controls, 0) && Meets(h, task, bundle, chain, controls, 1)
           && Meets(h, task, bundle, chain, controls, 2) && Meets(h, task, bundle, chain, controls, 3)
           && Meets(h, task, bundle, chain, controls, 4) && Meets(h, task, bundle, chain, controls, 5)
           && Meets(h, task, bundle, chain, controls, 6) && Meets(h, task, bundle, chain, controls, 7);
    if verdict.Unsound? {
      var k: nat :=
        match verdict.fault
        case Blocked(_) => 0
        case TaskIdMismatch => 1
        case ContractHashMismatch => 2
        case ReceiptMissing => 3
        case BundleTraceMismatch => 4
        case ReceiptTraceMismatch => 5
        case HashMismatch => 6
        case ChronologicalError => 7;
      assert FailsFirst(h, task, bundle, chain, controls, k);
    }
  }

  // ------------------------------------------------------ what a STRUCT_OK pins down

  /** After a sound verdict any new receipt of the task breaks the bundle. */
  lemma NewReceiptBreaksBundle(
    h: Sha, task: Task, bundle: Bundle, s: seq<Receipt>, r: Receipt, controls: Option<Controls>)
    requires UniqueIds(s) && Judge(h, task, bundle, s, controls).Sound?
    requires r.taskId == task.taskId && Find(s, r.receiptId) == None
    ensures Save(h, s, r) == Stored(s + [r])
    ensures Judge(h, task, bundle, s + [r], controls).Unsound?
  {
    hide RecordHash, TaskHash, Sort, StrLt, ChainOf, TracesMatch, Chronological;
    ChainGrows(s, r, task.taskId);
    assert |Hashes(h, ChainOf(s + [r], task.taskId))| != |bundle.receiptHashes|;
  }

  lemma ChainGrows(s: seq<Receipt>, r: Receipt, taskId: string)
    requires UniqueIds(s) && r.taskId == taskId && Find(s, r.receiptId) == None
    ensures |ChainOf(s + [r], taskId)| == |ChainOf(s, taskId)| + 1
  {
    OfTaskAppend(s, r, taskId);
  }

  lemma {:induction false} OfTaskAppend(s: seq<Receipt>, r: Receipt, taskId: string)
    requires r.taskId == taskId
    ensures OfTask(s + [r], taskId) == OfTask(s, taskId) + [r]
  {
    if s == [] {
      assert s + [r] == [r];
    } else {
      assert (s + [r])[1..] == s[1..] + [r];
      OfTaskAppend(s[1..], r, taskId);
    }
  }

  /**
   A bundle that is sound for two tasks over two stores: it is one task, and both
   stores hold the same receipts of it, unless SHA-256 collides on the data at hand.
   */
  lemma SoundBundlePinsReceipts(
    h: Sha, bundle: Bundle, t: Task, u: Task, a: seq<Receipt>, b: seq<Receipt>,
    c: Option<Controls>, d: Option<Controls>)
    requires UniqueIds(a) && UniqueIds(b)
    requires Judge(h, t, bundle, a, c).Sound? && Judge(h, u, bundle, b, d).Sound?
    ensures t == u || Collides(h, TaskText(t), TaskText(u))
    ensures || CollisionAmong(h, a + b)
            || (forall r: Receipt :: r.taskId == bundle.taskId ==> (r in a <==> r in b))
  {
    hide ReceiptText, TaskText, Sort;
    TaskHashCommits(h, t, u);
    var x, y := ChainOf(a, t.taskId), ChainOf(b, u.taskId);
    TwoStageSort(a, t.taskId);
    TwoStageSort(b, u.taskId);
    HashesCommit(h, x, y);
    if x != y {
      var p, q :| p in x + y && q in x + y && Collides(h, ReceiptText(p), ReceiptText(q));
      assert p in a + b && q in a + b;
    } else {
      assert forall r: Receipt :: r.taskId == bundle.taskId ==> (r in a <==> r in x) && (r in b <==> r in x);
    }
  }

  // ---------------------------------------------------------------- builder and verifier

  /**
   The bundle built from all ids of a task in chain order verifies exactly when the
   controls let it, the task has receipts, their traces match and their start times do
   not go back.
   */
  lemma BuilderCompleteness(
    h: Sha, task: Task, s: seq<Receipt>, rs: seq<Receipt>, refs: seq<string>, bundleId: string, createdAt: string,
    controls: Option<Controls>)
    requires UniqueIds(s) && Fetches(s, Ids(ChainOf(s, task.taskId)), rs)
    ensures rs == ChainOf(s, task.taskId)
    ensures Judge(h, task, BundleOver(h, task, rs, refs, bundleId, createdAt), s, controls).Sound? <==>
            Verifiable(task, controls) && rs != [] && TracesMatch(task, rs) && Chronological(rs)
  {
    hide RecordHash, TaskHash, Sort, StrLt, Verifiable;
    GatesOnlyBlock(h, task, BundleOver(h, task, rs, refs, bundleId, createdAt), s, controls);
    TwoStageSort(s, task.taskId);
    FetchUnique(s, Ids(ChainOf(s, task.taskId)), rs, ChainOf(s, task.taskId));
  }

  /** No other selection or order of ids verifies, unless two receipts collide. */
  lemma OnlyTheChainVerifies(
    h: Sha, task: Task, s: seq<Receipt>, rs: seq<Receipt>, refs: seq<string>, bundleId: string, createdAt: string,
    controls: Option<Controls>)
    requires UniqueIds(s) && forall r :: r in rs ==> r in s
    requires Judge(h, task, BundleOver(h, task, rs, refs, bundleId, createdAt), s, controls).Sound?
    ensures rs == ChainOf(s, task.taskId) || CollisionAmong(h, s)
  {
    hide ReceiptText, TaskText, Sort;
    var chain := ChainOf(s, task.taskId);
    TwoStageSort(s, task.taskId);
    HashesCommit(h, rs, chain);
    if rs != chain {
      var p, q :| p in rs + chain && q in rs + chain && Collides(h, ReceiptText(p), ReceiptText(q));
      assert p in s && q in s;
    }
  }
}

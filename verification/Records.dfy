/**
 The records of the evidence runtime, the dicts they serialise to, and the hashes
 taken over those dicts. Reading a dict back recovers the record, so a record hash
 commits to every field of the record unless SHA-256 collides.
 */
module Records {
  import opened Text
  import opened Json
  import opened JsonRoundTrip
  import opened JsonDict

  datatype Task = Task(
    taskId: string, agentId: string, runtimeId: string,
    description: string, schemaVersion: string, traceId: string)

  datatype Receipt = Receipt(
    receiptId: string, taskId: string, agentId: string, runtimeId: string,
    stepIndex: int, toolName: string, inputHash: string, outputHash: string,
    startedAt: string, endedAt: string, durationMs: int, status: string,
    errorCode: string, evidenceRefs: seq<string>, signer: string, signature: string,
    schemaVersion: string, prevReceiptHash: string, traceId: string)

  datatype Bundle = Bundle(
    bundleId: string, taskId: string, taskContractHash: string,
    receiptHashes: seq<string>, finalResultHash: string,
    evidenceStorageRefs: seq<string>, createdAt: string,
    signer: string, signature: string, schemaVersion: string, traceId: string)

  const TASK_SCHEMA := "karma.task_contract.v1"
  const RECEIPT_SCHEMA := "karma.execution_receipt.v1"
  const BUNDLE_SCHEMA := "karma.ta.evidence_bundle.v1"

  // ----------------------------------------------------------- records as dicts

  function Strs(ss: seq<string>): (r: seq<Value>)
    ensures |r| == |ss|
  {
    if ss == [] then [] else [Str(ss[0])] + Strs(ss[1..])
  }

  /** The `trace_id` entry, present only when there is a trace. */
  function TraceField(traceId: string): seq<Field>
  {
    if traceId == "" then [] else [Field("trace_id", Str(traceId))]
  }

  function ReceiptFields(r: Receipt): seq<Field>
  {
    [ Field("agent_id", Str(r.agentId)),
      Field("duration_ms", Int(r.durationMs)),
      Field("ended_at", Str(r.endedAt)),
      Field("error_code", Str(r.errorCode)),
      Field("evidence_refs", Arr(Strs(r.evidenceRefs))),
      Field("input_hash", Str(r.inputHash)),
      Field("output_hash", Str(r.outputHash)),
      Field("receipt_id", Str(r.receiptId)),
      Field("runtime_id", Str(r.runtimeId)),
      Field("schema_version", Str(r.schemaVersion)),
      Field("signer", Str(r.signer)),
      Field("signature", Str(r.signature)),
      Field("started_at", Str(r.startedAt)),
      Field("status", Str(r.status)),
      Field("step_index", Int(r.stepIndex)),
      Field("task_id", Str(r.taskId)),
      Field("tool_name", Str(r.toolName)),
      Field("prev_receipt_hash", Str(r.prevReceiptHash))
    ] + TraceField(r.traceId)
  }

  /** The dict of a receipt after `del d["receipt_id"]`. */
  function BodyFields(r: Receipt): seq<Field>
  {
    var d := ReceiptFields(r);
    d[..7] + d[8..]
  }

  function BundleFields(b: Bundle): seq<Field>
  {
    [ Field("bundle_id", Str(b.bundleId)),
      Field("created_at", Str(b.createdAt)),
      Field("evidence_storage_refs", Arr(Strs(b.evidenceStorageRefs))),
      Field("final_result_hash", Str(b.finalResultHash)),
      Field("receipt_hashes", Arr(Strs(b.receiptHashes))),
      Field("schema_version", Str(b.schemaVersion)),
      Field("signature", Str(b.signature)),
      Field("signer", Str(b.signer)),
      Field("task_contract_hash", Str(b.taskContractHash)),
      Field("task_id", Str(b.taskId))
    ] + TraceField(b.traceId)
  }

  function TaskFields(t: Task): seq<Field>
  {
    [ Field("agent_id", Str(t.agentId)),
      Field("description", Str(t.description)),
      Field("runtime_id", Str(t.runtimeId)),
      Field("schema_version", Str(t.schemaVersion)),
      Field("task_id", Str(t.taskId))
    ] + TraceField(t.traceId)
  }

  // --------------------------------------------------------------------- hashes

  function ReceiptText(r: Receipt): string
  {
    Canonical(Obj(ReceiptFields(r)))
  }

  function BodyText(r: Receipt): string
  {
    Canonical(Obj(BodyFields(r)))
  }

  function BundleText(b: Bundle): string
  {
    Canonical(Obj(BundleFields(b)))
  }

  function TaskText(t: Task): string
  {
    Canonical(Obj(TaskFields(t)))
  }

  /** `receipt_record_hash`, also the store's fingerprint. */
  function RecordHash(h: Sha, r: Receipt): string
  {
    h(ReceiptText(r))
  }

  /** `_structural_body_hash`. */
  function BodyHash(h: Sha, r: Receipt): string
  {
    h(BodyText(r))
  }

  /** `hash_evidence_bundle`. */
  function BundleHash(h: Sha, b: Bundle): string
  {
    h(BundleText(b))
  }

  /** `task_contract_hash`. */
  function TaskHash(h: Sha, t: Task): string
  {
    h(TaskText(t))
  }

  /** A receipt's dict has a `trace_id` entry exactly if there is a trace. */
  lemma ReceiptEntries(r: Receipt)
    ensures |ReceiptFields(r)| == if r.traceId == "" then 18 else 19
    ensures |BodyFields(r)| == |ReceiptFields(r)| - 1
  {
    hide Strs;
  }

  /** The same for bundles. */
  lemma BundleEntries(b: Bundle)
    ensures |BundleFields(b)| == if b.traceId == "" then 10 else 11
  {
    hide Strs;
  }

  /** The same for tasks. */
  lemma TaskEntries(t: Task)
    ensures |TaskFields(t)| == if t.traceId == "" then 5 else 6
  {
  }

  // ------------------------------------------------------------- dicts as records

  function GetStr(d: seq<Field>, key: string): string
  {
    match Lookup(d, key)
    case Some(Str(s)) => s
    case _ => ""
  }

  function GetInt(d: seq<Field>, key: string): int
  {
    match Lookup(d, key)
    case Some(Int(n)) => n
    case _ => 0
  }

  function UnStrs(vs: seq<Value>): seq<string>
  {
    if vs == [] then []
    else [if vs[0].Str? then vs[0].s else ""] + UnStrs(vs[1..])
  }

  function GetStrs(d: seq<Field>, key: string): seq<string>
  {
    match Lookup(d, key)
    case Some(Arr(items)) => UnStrs(items)
    case _ => []
  }

  function ReadReceipt(d: seq<Field>): Receipt
  {
    Receipt(
      GetStr(d, "receipt_id"), GetStr(d, "task_id"), GetStr(d, "agent_id"), GetStr(d, "runtime_id"),
      GetInt(d, "step_index"), GetStr(d, "tool_name"), GetStr(d, "input_hash"), GetStr(d, "output_hash"),
      GetStr(d, "started_at"), GetStr(d, "ended_at"), GetInt(d, "duration_ms"), GetStr(d, "status"),
      GetStr(d, "error_code"), GetStrs(d, "evidence_refs"), GetStr(d, "signer"), GetStr(d, "signature"),
      GetStr(d, "schema_version"), GetStr(d, "prev_receipt_hash"), GetStr(d, "trace_id"))
  }

  function ReadBundle(d: seq<Field>): Bundle
  {
    Bundle(
      GetStr(d, "bundle_id"), GetStr(d, "task_id"), GetStr(d, "task_contract_hash"),
      GetStrs(d, "receipt_hashes"), GetStr(d, "final_result_hash"),
      GetStrs(d, "evidence_storage_refs"), GetStr(d, "created_at"),
      GetStr(d, "signer"), GetStr(d, "signature"), GetStr(d, "schema_version"), GetStr(d, "trace_id"))
  }

  function ReadTask(d: seq<Field>): Task
  {
    Task(
      GetStr(d, "task_id"), GetStr(d, "agent_id"), GetStr(d, "runtime_id"),
      GetStr(d, "description"), GetStr(d, "schema_version"), GetStr(d, "trace_id"))
  }

  /** Decode a text that holds one dict. */
  function LoadsDict(text: string): Option<seq<Field>>
  {
    match Loads(text)
    case Ok(Obj(d), _) => Some(d)
    case _ => None
  }

  // ------------------------------------------------------------------ key hygiene

  /**
   A number that tells the keys of one record apart: length, fourth and fifth character
   side by side, three decimal digits for each character.
   */
  function KeyTag(key: string): int
  {
    if |key| < 5 then 0 else (|key| * 1000 + key[3] as int) * 1000 + key[4] as int
  }

  /** Keys that carry their own position are pairwise different. */
  lemma RankedDistinct(d: seq<Field>, rank: int -> int)
    requires forall i :: 0 <= i < |d| ==> rank(KeyTag(d[i].key)) == i
    ensures DistinctKeys(d)
  {
    forall i, j | 0 <= i < j < |d|
      ensures d[i].key != d[j].key
    {
      assert rank(KeyTag(d[i].key)) == i && rank(KeyTag(d[j].key)) == j;
    }
  }

  /** The position of a receipt's key, from its tag; the tags are listed in field order. */
  function ReceiptRank(t: int): int
  {
    if t == 8110116 then 0
    else if t == 11097116 then 1
    else if t == 8101100 then 2
    else if t == 10111114 then 3
    else if t == 13100101 then 4
    else if t == 10117116 then 5
    else if t == 11112117 then 6
    else if t == 10101105 then 7
    else if t == 10116105 then 8
    else if t == 14101109 then 9
    else if t == 6110101 then 10
    else if t == 9110097 then 11
    else if t == 10114116 then 12
    else if t == 6116117 then 13
    else if t == 10112095 then 14
    else if t == 7107095 then 15
    else if t == 9108095 then 16
    else if t == 17118095 then 17
    else if t == 8099101 then 18
    else -1
  }

  function ReceiptKey(i: nat): string
  {
    if i == 0 then "agent_id"
    else if i == 1 then "duration_ms"
    else if i == 2 then "ended_at"
    else if i == 3 then "error_code"
    else if i == 4 then "evidence_refs"
    else if i == 5 then "input_hash"
    else if i == 6 then "output_hash"
    else if i == 7 then "receipt_id"
    else if i == 8 then "runtime_id"
    else if i == 9 then "schema_version"
    else if i == 10 then "signer"
    else if i == 11 then "signature"
    else if i == 12 then "started_at"
    else if i == 13 then "status"
    else if i == 14 then "step_index"
    else if i == 15 then "task_id"
    else if i == 16 then "tool_name"
    else if i == 17 then "prev_receipt_hash"
    else "trace_id"
  }

  function ReceiptValue(r: Receipt, i: nat): Value
  {
    if i == 0 then Str(r.agentId)
    else if i == 1 then Int(r.durationMs)
    else if i == 2 then Str(r.endedAt)
    else if i == 3 then Str(r.errorCode)
    else if i == 4 then Arr(Strs(r.evidenceRefs))
    else if i == 5 then Str(r.inputHash)
    else if i == 6 then Str(r.outputHash)
    else if i == 7 then Str(r.receiptId)
    else if i == 8 then Str(r.runtimeId)
    else if i == 9 then Str(r.schemaVersion)
    else if i == 10 then Str(r.signer)
    else if i == 11 then Str(r.signature)
    else if i == 12 then Str(r.startedAt)
    else if i == 13 then Str(r.status)
    else if i == 14 then Int(r.stepIndex)
    else if i == 15 then Str(r.taskId)
    else if i == 16 then Str(r.toolName)
    else if i == 17 then Str(r.prevReceiptHash)
    else Str(r.traceId)
  }

  lemma ReceiptEntry(r: Receipt, i: nat)
    requires i < |ReceiptFields(r)|
    ensures ReceiptFields(r)[i] == Field(ReceiptKey(i), ReceiptValue(r, i))
  {
    hide Strs;
  }

  lemma ReceiptKeyRank(i: nat)
    requires i < 19
    ensures ReceiptRank(KeyTag(ReceiptKey(i))) == i
  {
  }

  lemma ReceiptKeys(r: Receipt)
    ensures DistinctKeys(ReceiptFields(r))
  {
    hide ReceiptRank, KeyTag, ReceiptKey, ReceiptValue;
    var d := ReceiptFields(r);
    assert |d| <= 19;
    hide ReceiptFields;
    forall i | 0 <= i < |d|
      ensures ReceiptRank(KeyTag(d[i].key)) == i
    {
      ReceiptEntry(r, i);
      ReceiptKeyRank(i);
    }
    RankedDistinct(d, ReceiptRank);
  }

  lemma BundleKeys(b: Bundle)
    ensures DistinctKeys(BundleFields(b))
  {
  }

  lemma TaskKeys(t: Task)
    ensures DistinctKeys(TaskFields(t))
  {
  }

  // ------------------------------------------------------------------ read-back

  lemma {:induction false} StrsNormal(ss: seq<string>)
    ensures NormalItems(Strs(ss)) == Strs(ss) && UnStrs(Strs(ss)) == ss
  {
    if ss != [] {
      StrsNormal(ss[1..]);
      assert Strs(ss)[1..] == Strs(ss[1..]);
    }
  }

  /** What a reader finds under the key of entry `i`. */
  lemma OrderedAt(d: seq<Field>, i: nat)
    requires i < |d| && DistinctKeys(d)
    ensures Lookup(Ordered(d), d[i].key) == Some(Normal(d[i].value))
  {
    LookupAt(d, i);
    LookupOrdered(d, d[i].key);
  }

  lemma OrderedAbsent(d: seq<Field>, key: string)
    requires DistinctKeys(d) && forall i :: 0 <= i < |d| ==> d[i].key != key
    ensures Lookup(Ordered(d), key) == None
  {
    LookupAbsent(d, key);
    LookupOrdered(d, key);
  }

  lemma ReadTaskBack(t: Task)
    ensures ReadTask(Ordered(TaskFields(t))) == t
  {
    hide Ordered, Lookup;
    var d := TaskFields(t);
    TaskKeys(t);
    OrderedAt(d, 0);
    OrderedAt(d, 1);
    OrderedAt(d, 2);
    OrderedAt(d, 3);
    OrderedAt(d, 4);
    if t.traceId == "" {
      OrderedAbsent(d, "trace_id");
    } else {
      OrderedAt(d, 5);
    }
  }

  lemma StrAt(d: seq<Field>, i: nat, key: string, s: string)
    requires i < |d| && DistinctKeys(d) && d[i] == Field(key, Str(s))
    ensures GetStr(Ordered(d), key) == s
  {
    OrderedAt(d, i);
  }

  lemma IntAt(d: seq<Field>, i: nat, key: string, n: int)
    requires i < |d| && DistinctKeys(d) && d[i] == Field(key, Int(n))
    ensures GetInt(Ordered(d), key) == n
  {
    OrderedAt(d, i);
  }

  lemma StrsAt(d: seq<Field>, i: nat, key: string, ss: seq<string>)
    requires i < |d| && DistinctKeys(d) && d[i] == Field(key, Arr(Strs(ss)))
    ensures GetStrs(Ordered(d), key) == ss
  {
    OrderedAt(d, i);
    StrsNormal(ss);
  }

  lemma BundleLow(b: Bundle)
    ensures GetStr(Ordered(BundleFields(b)), "bundle_id") == b.bundleId
    ensures GetStr(Ordered(BundleFields(b)), "created_at") == b.createdAt
    ensures GetStrs(Ordered(BundleFields(b)), "evidence_storage_refs") == b.evidenceStorageRefs
    ensures GetStr(Ordered(BundleFields(b)), "final_result_hash") == b.finalResultHash
    ensures GetStrs(Ordered(BundleFields(b)), "receipt_hashes") == b.receiptHashes
  {
    hide Ordered, Lookup, GetStr, GetStrs, Strs;
    var d := BundleFields(b);
    BundleKeys(b);
    StrAt(d, 0, "bundle_id", b.bundleId);
    StrAt(d, 1, "created_at", b.createdAt);
    StrsAt(d, 2, "evidence_storage_refs", b.evidenceStorageRefs);
    StrAt(d, 3, "final_result_hash", b.finalResultHash);
    StrsAt(d, 4, "receipt_hashes", b.receiptHashes);
  }

  lemma BundleHigh(b: Bundle)
    ensures GetStr(Ordered(BundleFields(b)), "schema_version") == b.schemaVersion
    ensures GetStr(Ordered(BundleFields(b)), "signature") == b.signature
    ensures GetStr(Ordered(BundleFields(b)), "signer") == b.signer
    ensures GetStr(Ordered(BundleFields(b)), "task_contract_hash") == b.taskContractHash
    ensures GetStr(Ordered(BundleFields(b)), "task_id") == b.taskId
    ensures GetStr(Ordered(BundleFields(b)), "trace_id") == b.traceId
  {
    hide Ordered, Lookup, GetStr, Strs;
    var d := BundleFields(b);
    BundleKeys(b);
    StrAt(d, 5, "schema_version", b.schemaVersion);
    StrAt(d, 6, "signature", b.signature);
    StrAt(d, 7, "signer", b.signer);
    StrAt(d, 8, "task_contract_hash", b.taskContractHash);
    StrAt(d, 9, "task_id", b.taskId);
    if b.traceId == "" {
      AbsentStr(d, "trace_id");
    } else {
      StrAt(d, 10, "trace_id", b.traceId);
    }
  }

  lemma ReadBundleBack(b: Bundle)
    ensures ReadBundle(Ordered(BundleFields(b))) == b
  {
    hide Ordered, GetStr, GetStrs, BundleFields;
    BundleLow(b);
    BundleHigh(b);
  }

  lemma AbsentStr(d: seq<Field>, key: string)
    requires DistinctKeys(d) && forall i :: 0 <= i < |d| ==> d[i].key != key
    ensures GetStr(Ordered(d), key) == ""
  {
    OrderedAbsent(d, key);
  }

  lemma ReceiptStrAt(r: Receipt, i: nat, s: string)
    requires i < |ReceiptFields(r)| && ReceiptValue(r, i) == Str(s)
    ensures GetStr(Ordered(ReceiptFields(r)), ReceiptKey(i)) == s
  {
    hide ReceiptFields, ReceiptKey, ReceiptValue;
    ReceiptKeys(r);
    ReceiptEntry(r, i);
    StrAt(ReceiptFields(r), i, ReceiptKey(i), s);
  }

  lemma ReceiptTrace(r: Receipt)
    ensures GetStr(Ordered(ReceiptFields(r)), "trace_id") == r.traceId
  {
    var d := ReceiptFields(r);
    assert |d| == if r.traceId == "" then 18 else 19;
    hide ReceiptFields;
    if r.traceId == "" {
      ReceiptKeys(r);
      forall i | 0 <= i < |d|
        ensures d[i].key != "trace_id"
      {
        hide ReceiptValue, ReceiptRank, KeyTag;
        ReceiptEntry(r, i);
        ReceiptKeyRank(i);
        ReceiptKeyRank(18);
      }
      AbsentStr(d, "trace_id");
    } else {
      ReceiptStrAt(r, 18, r.traceId);
    }
  }

  lemma ReceiptStrsLow(r: Receipt)
    ensures GetStr(Ordered(ReceiptFields(r)), "agent_id") == r.agentId
    ensures GetStr(Ordered(ReceiptFields(r)), "ended_at") == r.endedAt
    ensures GetStr(Ordered(ReceiptFields(r)), "error_code") == r.errorCode
    ensures GetStr(Ordered(ReceiptFields(r)), "input_hash") == r.inputHash
    ensures GetStr(Ordered(ReceiptFields(r)), "output_hash") == r.outputHash
  {
    assert |ReceiptFields(r)| >= 18;
    hide Ordered, Lookup, GetStr, Strs, ReceiptFields;
    ReceiptStrAt(r, 0, r.agentId);
    ReceiptStrAt(r, 2, r.endedAt);
    ReceiptStrAt(r, 3, r.errorCode);
    ReceiptStrAt(r, 5, r.inputHash);
    ReceiptStrAt(r, 6, r.outputHash);
  }

  lemma ReceiptStrsMid(r: Receipt)
    ensures GetStr(Ordered(ReceiptFields(r)), "receipt_id") == r.receiptId
    ensures GetStr(Ordered(ReceiptFields(r)), "runtime_id") == r.runtimeId
    ensures GetStr(Ordered(ReceiptFields(r)), "schema_version") == r.schemaVersion
    ensures GetStr(Ordered(ReceiptFields(r)), "signer") == r.signer
    ensures GetStr(Ordered(ReceiptFields(r)), "signature") == r.signature
  {
    assert |ReceiptFields(r)| >= 18;
    hide Ordered, Lookup, GetStr, Strs, ReceiptFields;
    ReceiptStrAt(r, 7, r.receiptId);
    ReceiptStrAt(r, 8, r.runtimeId);
    ReceiptStrAt(r, 9, r.schemaVersion);
    ReceiptStrAt(r, 10, r.signer);
    ReceiptStrAt(r, 11, r.signature);
  }

  lemma ReceiptStrsHigh(r: Receipt)
    ensures GetStr(Ordered(ReceiptFields(r)), "started_at") == r.startedAt
    ensures GetStr(Ordered(ReceiptFields(r)), "status") == r.status
    ensures GetStr(Ordered(ReceiptFields(r)), "task_id") == r.taskId
    ensures GetStr(Ordered(ReceiptFields(r)), "tool_name") == r.toolName
    ensures GetStr(Ordered(ReceiptFields(r)), "prev_receipt_hash") == r.prevReceiptHash
  {
    assert |ReceiptFields(r)| >= 18;
    hide Ordered, Lookup, GetStr, Strs, ReceiptFields;
    ReceiptStrAt(r, 12, r.startedAt);
    ReceiptStrAt(r, 13, r.status);
    ReceiptStrAt(r, 15, r.taskId);
    ReceiptStrAt(r, 16, r.toolName);
    ReceiptStrAt(r, 17, r.prevReceiptHash);
  }

  lemma ReceiptOthers(r: Receipt)
    ensures GetInt(Ordered(ReceiptFields(r)), "duration_ms") == r.durationMs
    ensures GetStrs(Ordered(ReceiptFields(r)), "evidence_refs") == r.evidenceRefs
    ensures GetInt(Ordered(ReceiptFields(r)), "step_index") == r.stepIndex
  {
    var d := ReceiptFields(r);
    assert |d| >= 18;
    hide Ordered, Lookup, GetInt, GetStrs, Strs, ReceiptFields;
    ReceiptKeys(r);
    ReceiptEntry(r, 1);
    IntAt(d, 1, "duration_ms", r.durationMs);
    ReceiptEntry(r, 4);
    StrsAt(d, 4, "evidence_refs", r.evidenceRefs);
    ReceiptEntry(r, 14);
    IntAt(d, 14, "step_index", r.stepIndex);
  }

  lemma ReadReceiptBack(r: Receipt)
    ensures ReadReceipt(Ordered(ReceiptFields(r))) == r
  {
    hide Ordered, GetStr, GetInt, GetStrs, ReceiptFields;
    ReceiptStrsLow(r);
    ReceiptStrsMid(r);
    ReceiptStrsHigh(r);
    ReceiptOthers(r);
    ReceiptTrace(r);
  }

  // ------------------------------------------------------- what a text recovers

  /** Decoding a receipt's canonical text gives the receipt, trace or no trace. */
  lemma ReceiptRecovered(r: Receipt)
    ensures LoadsDict(ReceiptText(r)).Some?
    ensures ReadReceipt(LoadsDict(ReceiptText(r)).value) == r
  {
    hide ReceiptFields, ReadReceipt;
    LoadsInvertsDumps(Obj(ReceiptFields(r)), Compact);
    ReadReceiptBack(r);
  }

  lemma BundleRecovered(b: Bundle)
    ensures LoadsDict(BundleText(b)).Some?
    ensures ReadBundle(LoadsDict(BundleText(b)).value) == b
  {
    hide BundleFields, ReadBundle;
    LoadsInvertsDumps(Obj(BundleFields(b)), Compact);
    ReadBundleBack(b);
  }

  lemma TaskRecovered(t: Task)
    ensures LoadsDict(TaskText(t)).Some?
    ensures ReadTask(LoadsDict(TaskText(t)).value) == t
  {
    hide TaskFields, ReadTask;
    LoadsInvertsDumps(Obj(TaskFields(t)), Compact);
    ReadTaskBack(t);
  }

  lemma SameBodyText(r: Receipt, q: Receipt)
    requires BodyText(r) == BodyText(q)
    ensures forall i: nat :: i < 19 && i != 7 ==>
              Lookup(Ordered(ReceiptFields(r)), ReceiptKey(i)) == Lookup(Ordered(ReceiptFields(q)), ReceiptKey(i))
  {
    hide ReceiptFields, BodyFields, ReceiptKey, Lookup;
    BodyLookups(r);
    BodyLookups(q);
    CanonicalDetermines(Obj(BodyFields(r)), Obj(BodyFields(q)));
    assert Ordered(BodyFields(r)) == Ordered(BodyFields(q));
  }

  /** Receipts whose bodies have the same text differ in their id at most. */
  lemma BodyRecovered(r: Receipt, q: Receipt)
    ensures BodyText(r) == BodyText(q) <==> r == q.(receiptId := r.receiptId)
  {
    hide ReceiptFields, BodyFields, ReceiptKey, Lookup, Ordered, Canonical, ReadReceipt;
    if BodyText(r) == BodyText(q) {
      SameBodyText(r, q);
      ReadAgree(Ordered(ReceiptFields(r)), Ordered(ReceiptFields(q)));
      ReadReceiptBack(r);
      ReadReceiptBack(q);
    } else {
      BodyIgnoresId(q, r.receiptId);
    }
  }

  lemma BodyIgnoresId(q: Receipt, id: string)
    ensures BodyFields(q.(receiptId := id)) == BodyFields(q)
  {
    hide Strs;
    var p := q.(receiptId := id);
    forall i | 0 <= i < |BodyFields(q)|
      ensures BodyFields(p)[i] == BodyFields(q)[i]
    {
      var j := if i < 7 then i else i + 1;
      ReceiptEntry(p, j);
      ReceiptEntry(q, j);
    }
  }

  lemma ReadAgree(d: seq<Field>, e: seq<Field>)
    requires forall i: nat :: i < 19 && i != 7 ==> Lookup(d, ReceiptKey(i)) == Lookup(e, ReceiptKey(i))
    ensures ReadReceipt(e) == ReadReceipt(d).(receiptId := ReadReceipt(e).receiptId)
  {
    hide Lookup;
    var keys := [ReceiptKey(0), ReceiptKey(1), ReceiptKey(2), ReceiptKey(3), ReceiptKey(4), ReceiptKey(5),
                 ReceiptKey(6), ReceiptKey(8), ReceiptKey(9), ReceiptKey(10), ReceiptKey(11), ReceiptKey(12),
                 ReceiptKey(13), ReceiptKey(14), ReceiptKey(15), ReceiptKey(16), ReceiptKey(17), ReceiptKey(18)];
  }

  /** Deleting the id entry leaves every other look-up as it was. */
  lemma BodyLookups(r: Receipt)
    ensures forall i: nat :: i < 19 && i != 7 ==>
              Lookup(Ordered(BodyFields(r)), ReceiptKey(i)) == Lookup(Ordered(ReceiptFields(r)), ReceiptKey(i))
  {
    var d := ReceiptFields(r);
    assert |d| >= 18 && BodyFields(r) == d[..7] + d[8..];
    hide ReceiptFields, BodyFields;
    ReceiptKeys(r);
    ReceiptEntry(r, 7);
    hide ReceiptKey, ReceiptValue, ReceiptRank, KeyTag;
    forall i: nat | i < 19 && i != 7
      ensures Lookup(Ordered(BodyFields(r)), ReceiptKey(i)) == Lookup(Ordered(d), ReceiptKey(i))
    {
      var key := ReceiptKey(i);
      ReceiptKeyRank(i);
      ReceiptKeyRank(7);
      RemovedLookup(d, 7, key);
      LookupOrdered(d, key);
      LookupOrdered(BodyFields(r), key);
    }
  }

  lemma RemovedDistinct(d: seq<Field>, k: nat)
    requires k < |d| && DistinctKeys(d)
    ensures DistinctKeys(d[..k] + d[k + 1..])
  {
    var e := d[..k] + d[k + 1..];
    assert forall i :: 0 <= i < |e| ==> e[i] == d[if i < k then i else i + 1];
  }

  lemma RemovedLookup(d: seq<Field>, k: nat, key: string)
    requires k < |d| && DistinctKeys(d) && key != d[k].key
    ensures DistinctKeys(d[..k] + d[k + 1..])
    ensures Lookup(d[..k] + d[k + 1..], key) == Lookup(d, key)
  {
    var e := d[..k] + d[k + 1..];
    RemovedDistinct(d, k);
    hide DistinctKeys, Lookup;
    match Lookup(d, key) {
      case Some(v) =>
        LookupSome(d, key, v);
        assert d == d[..k] + [d[k]] + d[k + 1..];
        assert Field(key, v) in e;
        LookupMember(e, Field(key, v));
      case None =>
        LookupNone(d, key);
        assert forall f :: f in e ==> f in d;
        LookupAbsent(e, key);
    }
  }

  // -------------------------------------------------------------- commitments

  /** Equal record hashes mean equal receipts, or here is the collision. */
  lemma RecordHashCommits(h: Sha, r: Receipt, q: Receipt)
    requires RecordHash(h, r) == RecordHash(h, q)
    ensures r == q || Collides(h, ReceiptText(r), ReceiptText(q))
  {
    hide ReceiptText;
    ReceiptRecovered(r);
    ReceiptRecovered(q);
  }

  lemma BodyHashCommits(h: Sha, r: Receipt, q: Receipt)
    requires BodyHash(h, r) == BodyHash(h, q)
    ensures r == q.(receiptId := r.receiptId) || Collides(h, BodyText(r), BodyText(q))
  {
    hide BodyText;
    BodyRecovered(r, q);
  }

  lemma BundleHashCommits(h: Sha, a: Bundle, b: Bundle)
    requires BundleHash(h, a) == BundleHash(h, b)
    ensures a == b || Collides(h, BundleText(a), BundleText(b))
  {
    hide BundleText;
    BundleRecovered(a);
    BundleRecovered(b);
  }

  lemma TaskHashCommits(h: Sha, a: Task, b: Task)
    requires TaskHash(h, a) == TaskHash(h, b)
    ensures a == b || Collides(h, TaskText(a), TaskText(b))
  {
    hide TaskText;
    TaskRecovered(a);
    TaskRecovered(b);
  }
}

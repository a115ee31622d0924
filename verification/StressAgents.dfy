/**
 The receipts of the stress runner's agents: the honest producer loop, the five
 attacks on its result, and which of them the checks catch.
 */
module StressAgents {
  import opened Text
  import opened Sorting
  import opened JsonDict
  import opened Records
  import opened ReceiptStore
  import opened ReceiptChain
  import opened Timestamps
  import opened StressChecks

  // -------------------------------------------------------------------------- time

  /** Seconds from the base time to `_iso(agent, step, sec_offset)`. */
  function Seconds(agent: nat, step: nat, offset: nat): nat
  {
    (agent * 17 + step * 3) * 60 + offset
  }

  /** The calendar can represent this time; past year 9999 Python raises. */
  predicate Fits(t: nat)
  {
    TimeAt(t).date.year <= MAX_YEAR
  }

  function IsoAt(t: nat): string
  {
    if Fits(t) then Iso(TimeAt(t)) else ""
  }

  lemma FitsEarlier(s: nat, t: nat)
    requires s <= t && Fits(t)
    ensures Fits(s)
  {
    TimeOrder(s, t);
  }

  lemma IsoAtOrder(s: nat, t: nat)
    requires Fits(s) && Fits(t)
    ensures StrLt(IsoAt(s), IsoAt(t)) <==> s < t
    ensures ParseIso(IsoAt(s)) == Some(TimeAt(s))
  {
    hide TimeAt, Iso, StrLt, ParseIso, CivilLt;
    IsoOrder(TimeAt(s), TimeAt(t));
    TimeOrder(s, t);
    ParseInvertsIso(TimeAt(s));
  }

  // --------------------------------------------------------------- honest producers

  function HonestTask(seed: int, agent: nat): Task
  {
    var suffix := Dec(seed) + "-a" + Dec(agent);
    Task("stress-" + suffix, "agent-" + Dec(agent), "stress-runtime", "stress", TASK_SCHEMA, "trace-stress-" + suffix)
  }

  function IdPrefix(seed: int, agent: nat): string
  {
    "r-" + Dec(seed) + "-a" + Dec(agent) + "-s"
  }

  function InputText(seed: int, agent: nat, step: nat): string
  {
    "in-" + Dec(seed) + "-" + Dec(agent) + "-" + Dec(step)
  }

  function OutputText(seed: int, agent: nat, step: nat): string
  {
    "out-" + Dec(seed) + "-" + Dec(agent) + "-" + Dec(step)
  }

  function HonestReceipt(h: Sha, seed: int, agent: nat, step: nat, prev: string): Receipt
  {
    var task := HonestTask(seed, agent);
    Receipt(
      IdPrefix(seed, agent) + DecNat(step), task.taskId, task.agentId, task.runtimeId,
      step, "tool_" + DecNat(step), h(InputText(seed, agent, step)), h(OutputText(seed, agent, step)),
      IsoAt(Seconds(agent, step, 0)), IsoAt(Seconds(agent, step, 5 + step)), 100 + step * 7, "ok",
      "", [], "", "", RECEIPT_SCHEMA, prev, task.traceId)
  }

  /** The chain after `n` rounds of the producer loop. */
  function Honest(h: Sha, seed: int, agent: nat, n: nat): (rs: seq<Receipt>)
    ensures |rs| == n
  {
    if n == 0 then []
    else
      var rest := Honest(h, seed, agent, n - 1);
      rest + [HonestReceipt(h, seed, agent, n - 1, if n == 1 then "" else RecordHash(h, rest[n - 2]))]
  }

  /** All times of an agent's first `n` receipts can be represented. */
  predicate FitsAgent(agent: nat, n: nat)
  {
    n == 0 || Fits(Seconds(agent, n - 1, 4 + n))
  }

  /** What the task of a stress agent says. */
  ghost predicate StressTask(seed: int, agent: nat, task: Task)
  {
    && task.taskId == "stress-" + Dec(seed) + "-a" + Dec(agent)
    && task.traceId == "trace-stress-" + Dec(seed) + "-a" + Dec(agent)
    && task.agentId == "agent-" + Dec(agent) && task.runtimeId == "stress-runtime" && task.description == "stress"
    && task.schemaVersion == "karma.task_contract.v1"
  }

  lemma HonestTaskSays(seed: int, agent: nat)
    ensures StressTask(seed, agent, HonestTask(seed, agent))
  {
    hide Dec;
    var a, b := Dec(seed), Dec(agent);
    assert "stress-" + (a + "-a" + b) == "stress-" + a + "-a" + b;
    assert "trace-stress-" + (a + "-a" + b) == "trace-stress-" + a + "-a" + b;
  }

  /** The calendar ends with the year 9999. */
  lemma FitsExactly(t: nat)
    ensures Fits(t) <==> TimeAt(t).date.year < 10000
  {
  }

  /** What an honest receipt says about its step. */
  ghost predicate Honestly(h: Sha, seed: int, agent: nat, step: nat, task: Task, r: Receipt)
  {
    && r.stepIndex == step && r.status == "ok" && r.errorCode == "" && r.evidenceRefs == [] && r.signer == "" && r.signature == ""
    && r.taskId == task.taskId && r.agentId == task.agentId && r.runtimeId == task.runtimeId && r.traceId == task.traceId
    && r.toolName == "tool_" + Dec(step) && r.durationMs == 100 + 7 * step
    && r.receiptId == "r-" + Dec(seed) + "-a" + Dec(agent) + "-s" + Dec(step)
    && r.inputHash == h("in-" + Dec(seed) + "-" + Dec(agent) + "-" + Dec(step))
    && r.outputHash == h("out-" + Dec(seed) + "-" + Dec(agent) + "-" + Dec(step))
    && r.startedAt == IsoAt(60 * (17 * agent + 3 * step)) && r.endedAt == IsoAt(60 * (17 * agent + 3 * step) + 5 + step)
  }

  lemma {:induction false} HonestSays(h: Sha, seed: int, agent: nat, n: nat, k: nat)
    requires k < n
    ensures Honestly(h, seed, agent, k, HonestTask(seed, agent), Honest(h, seed, agent, n)[k])
  {
    hide Honest, RecordHash, IsoAt, HonestTask, Dec, DecNat;
    HonestAt(h, seed, agent, n, k);
    DecIsDecNat(k);
    assert Seconds(agent, k, 0) == 60 * (17 * agent + 3 * k);
    assert Seconds(agent, k, 5 + k) == 60 * (17 * agent + 3 * k) + 5 + k;
  }

  lemma DecIsDecNat(n: nat)
    ensures Dec(n) == DecNat(n)
  {
  }

  /** `_build_honest_receipts`; `overflow` stands for the OverflowError. */
  method BuildHonestReceipts(h: Sha, seed: int, agent: nat, steps: nat)
    returns (task: Task, receipts: seq<Receipt>, overflow: bool)
    ensures overflow <==> !FitsAgent(agent, steps)
    ensures !overflow ==> task == HonestTask(seed, agent) && receipts == Honest(h, seed, agent, steps)
    ensures !overflow ==> forall i :: 0 <= i < steps ==> Honestly(h, seed, agent, i, task, receipts[i])
    ensures !overflow ==> StressTask(seed, agent, task)
  {
    hide RecordHash, TimeAt, IsoAt, HonestTask, IdPrefix, InputText, OutputText, Fits, Honestly, StressTask;
    task := HonestTask(seed, agent);
    receipts, overflow := [], false;
    var prevHash := "";
    for step := 0 to steps
      invariant FitsAgent(agent, step)
      invariant receipts == Honest(h, seed, agent, step)
      invariant prevHash == if step == 0 then "" else RecordHash(h, receipts[step - 1])
    {
      if !Fits(Seconds(agent, step, 0)) || !Fits(Seconds(agent, step, 5 + step)) {
        FitsAgentEarlier(agent, step, steps);
        return task, receipts, true;
      }
      var r := Receipt(
        IdPrefix(seed, agent) + DecNat(step), task.taskId, task.agentId, task.runtimeId,
        step, "tool_" + DecNat(step), h(InputText(seed, agent, step)), h(OutputText(seed, agent, step)),
        IsoAt(Seconds(agent, step, 0)), IsoAt(Seconds(agent, step, 5 + step)), 100 + step * 7, "ok",
        "", [], "", "", RECEIPT_SCHEMA, prevHash, task.traceId);
      receipts := receipts + [r];
      prevHash := RecordHash(h, r);
    }
    HonestTaskSays(seed, agent);
    forall i | 0 <= i < steps
      ensures Honestly(h, seed, agent, i, task, receipts[i])
    {
      HonestSays(h, seed, agent, steps, i);
    }
  }

  lemma FitsAgentEarlier(agent: nat, k: nat, n: nat)
    requires k < n
    ensures FitsAgent(agent, n) ==> Fits(Seconds(agent, k, 0)) && Fits(Seconds(agent, k, 5 + k))
  {
    hide Fits;
    if FitsAgent(agent, n) {
      FitsEarlier(Seconds(agent, k, 5 + k), Seconds(agent, n - 1, 4 + n));
      FitsEarlier(Seconds(agent, k, 0), Seconds(agent, k, 5 + k));
    }
  }

  /** Each honest receipt, with the link it carries. */
  lemma {:induction false} HonestAt(h: Sha, seed: int, agent: nat, n: nat, k: nat)
    requires k < n
    ensures Honest(h, seed, agent, n)[k] ==
            HonestReceipt(h, seed, agent, k, if k == 0 then "" else RecordHash(h, Honest(h, seed, agent, n)[k - 1]))
  {
    hide HonestReceipt, RecordHash;
    if k < n - 1 {
      HonestAt(h, seed, agent, n - 1, k);
    }
  }

  lemma HonestLinked(h: Sha, seed: int, agent: nat, n: nat)
    ensures Linked(h, Honest(h, seed, agent, n))
    ensures Sort(Honest(h, seed, agent, n), ChainLe) == Honest(h, seed, agent, n)
  {
    hide Honest, RecordHash, IdPrefix, IsoAt, HonestTask, InputText, OutputText, Sort;
    var rs := Honest(h, seed, agent, n);
    forall k | 0 <= k < n
      ensures rs[k].stepIndex == k && LinkOk(h, rs, k)
    {
      HonestAt(h, seed, agent, n, k);
    }
    LinkedAsIs(rs);
  }

  /** Whenever the producer is interrupted, what it has written has no gaps. */
  lemma HonestPrefixGapFree(h: Sha, seed: int, agent: nat, n: nat, k: nat)
    requires 0 < k <= n
    ensures Honest(h, seed, agent, n)[..k] == Honest(h, seed, agent, k)
    ensures Gaps(h, Honest(h, seed, agent, n)[..k]) == []
  {
    hide Gaps, Linked, Sort;
    HonestPrefix(h, seed, agent, n, k);
    HonestLinked(h, seed, agent, k);
    NoGapsIffLinked(h, Honest(h, seed, agent, k));
  }

  lemma {:induction false} HonestPrefix(h: Sha, seed: int, agent: nat, n: nat, k: nat)
    requires k <= n
    ensures Honest(h, seed, agent, n)[..k] == Honest(h, seed, agent, k)
    decreases n
  {
    hide HonestReceipt, RecordHash;
    if k < n {
      HonestPrefix(h, seed, agent, n - 1, k);
      assert Honest(h, seed, agent, n)[..k] == Honest(h, seed, agent, n - 1)[..k];
    }
  }

  lemma HonestUniqueIds(h: Sha, seed: int, agent: nat, n: nat)
    ensures UniqueIds(Honest(h, seed, agent, n))
  {
    hide Honest, RecordHash, IdPrefix, IsoAt, HonestTask, InputText, OutputText, DecNat;
    var rs := Honest(h, seed, agent, n);
    forall j, k | 0 <= j < k < n
      ensures rs[j].receiptId != rs[k].receiptId
    {
      HonestAt(h, seed, agent, n, j);
      HonestAt(h, seed, agent, n, k);
      if rs[j].receiptId == rs[k].receiptId {
        SameSuffix(IdPrefix(seed, agent), DecNat(j), DecNat(k));
        DecNatInjective(j, k);
      }
    }
  }

  lemma SameSuffix(p: string, a: string, b: string)
    requires p + a == p + b
    ensures a == b
  {
    assert a == (p + a)[|p|..] && b == (p + b)[|p|..];
  }

  lemma HonestFields(seed: int, agent: nat, step: nat, h: Sha, prev: string)
    ensures OtherwiseClean(HonestReceipt(h, seed, agent, step, prev))
    ensures KnownStatus(HonestReceipt(h, seed, agent, step, prev).status)
  {
    hide IsoAt, InputText, OutputText, Dec, DecNat;
  }

  /** An honest receipt starts before it ends, and both times can be read. */
  lemma HonestTimes(agent: nat, step: nat)
    requires Fits(Seconds(agent, step, 0)) && Fits(Seconds(agent, step, 5 + step))
    ensures var s, e := IsoAt(Seconds(agent, step, 0)), IsoAt(Seconds(agent, step, 5 + step));
            && ParseIso(s).Some? && ParseIso(e).Some?
            && CivilLt(ParseIso(s).value, ParseIso(e).value)
  {
    hide IsoAt, Fits, ParseIso, TimeAt, CivilLt, StrLt;
    var s, e := Seconds(agent, step, 0), Seconds(agent, step, 5 + step);
    IsoAtOrder(s, e);
    IsoAtOrder(e, s);
    TimeOrder(s, e);
  }

  lemma HonestSchemaClean(h: Sha, seed: int, agent: nat, n: nat, k: nat)
    requires k < n && FitsAgent(agent, n)
    ensures OtherwiseClean(Honest(h, seed, agent, n)[k])
    ensures TimeErrors(Honest(h, seed, agent, n)[k]) == []
    ensures SchemaErrors(Honest(h, seed, agent, n)[k]) == []
  {
    hide Honest, RecordHash, IdPrefix, IsoAt, HonestTask, InputText, OutputText, Fits, SchemaErrors, ParseIso;
    HonestAt(h, seed, agent, n, k);
    var r := Honest(h, seed, agent, n)[k];
    FitsAgentEarlier(agent, k, n);
    HonestTimes(agent, k);
    CivilLtAsymmetric(ParseIso(r.startedAt).value, ParseIso(r.endedAt).value);
    HonestFields(seed, agent, k, h, r.prevReceiptHash);
    NoSchemaErrorIff(r);
  }

  lemma HonestLinksClean(h: Sha, seed: int, agent: nat, n: nat)
    ensures LinksClean(h, Sort(Honest(h, seed, agent, n), ChainLe))
  {
    hide Honest, RecordHash, Sort;
    HonestLinked(h, seed, agent, n);
    var rs := Honest(h, seed, agent, n);
    forall i | 0 <= i < n
      ensures !LinkBad(h, rs, i)
    {
      assert LinkOk(h, rs, i);
    }
  }

  /** Two different receipts of this agent have bodies that collide. */
  ghost predicate BodyCollision(h: Sha, seed: int, agent: nat, n: nat)
  {
    exists j, k :: 0 <= j < k < n &&
      Collides(h, BodyText(Honest(h, seed, agent, n)[j]), BodyText(Honest(h, seed, agent, n)[k]))
  }

  /** An honest chain shows no replay, unless SHA-256 collides on two of its bodies. */
  lemma HonestNoReplay(h: Sha, seed: int, agent: nat, n: nat)
    ensures NoReplay(h, Honest(h, seed, agent, n)) <==> !BodyCollision(h, seed, agent, n)
  {
    hide Honest, BodyText, Linked, Sort;
    var rs := Honest(h, seed, agent, n);
    HonestUniqueIds(h, seed, agent, n);
    if BodyCollision(h, seed, agent, n) {
      var j, k :| 0 <= j < k < n && Collides(h, BodyText(rs[j]), BodyText(rs[k]));
      assert rs[j] in rs && rs[k] in rs;
    } else {
      forall r, q | r in rs && q in rs && BodyHash(h, r) == BodyHash(h, q)
        ensures r.receiptId == q.receiptId
      {
        var j :| 0 <= j < n && rs[j] == r;
        var k :| 0 <= k < n && rs[k] == q;
        HonestBodies(h, seed, agent, n, j, k);
        HonestBodies(h, seed, agent, n, k, j);
      }
    }
  }

  lemma HonestBodies(h: Sha, seed: int, agent: nat, n: nat, j: nat, k: nat)
    requires j < n && k < n
    ensures j != k ==> BodyText(Honest(h, seed, agent, n)[j]) != BodyText(Honest(h, seed, agent, n)[k])
  {
    hide Honest, BodyText, Sort, LinkOk;
    HonestLinked(h, seed, agent, n);
    var rs := Honest(h, seed, agent, n);
    BodyRecovered(rs[j], rs[k]);
  }

  /** Exactly when an honest agent passes the aggregate test. */
  lemma HonestClean(h: Sha, seed: int, agent: nat, n: nat)
    requires FitsAgent(agent, n)
    ensures Clean(h, Honest(h, seed, agent, n)) <==> !BodyCollision(h, seed, agent, n)
  {
    hide Honest, BodyText, Sort, LinksClean, NoReplay, UniqueIds, BodyCollision, SchemaErrors;
    var rs := Honest(h, seed, agent, n);
    HonestUniqueIds(h, seed, agent, n);
    HonestLinksClean(h, seed, agent, n);
    HonestNoReplay(h, seed, agent, n);
    forall r | r in rs
      ensures SchemaErrors(r) == []
    {
      var k :| 0 <= k < n && rs[k] == r;
      HonestSchemaClean(h, seed, agent, n, k);
    }
  }

  // ----------------------------------------------------------------------- attacks

  datatype Attack = NoAttack | DuplicateId | Replay(suffix: nat) | Timeout | BadStatus | ForgedChain

  const FORGED_HASH := "0xdededededededededededededededededededededededededededededededede"

  /** The clone that replays `r` under a new id. */
  function ReplayClone(r: Receipt, suffix: nat): Receipt
  {
    r.(receiptId := r.receiptId + "-replayclone-" + Dec(suffix))
  }

  /** `_apply_attack`. */
  function Attacked(rs: seq<Receipt>, attack: Attack): (r: seq<Receipt>)
    ensures |r| == |rs| + if rs != [] && (attack.DuplicateId? || attack.Replay?) then 1 else 0
  {
    if rs == [] then rs
    else
      var last := |rs| - 1;
      match attack
      case NoAttack => rs
      case DuplicateId => rs + [rs[0]]
      case Replay(suffix) => rs + [ReplayClone(rs[0], suffix)]
      case Timeout => rs[last := rs[last].(startedAt := rs[last].endedAt, endedAt := rs[last].startedAt)]
      case BadStatus => rs[last := rs[last].(status := "BAD")]
      case ForgedChain => if |rs| > 1 then rs[1 := rs[1].(prevReceiptHash := FORGED_HASH)] else rs
  }

  /** The attack leaves a chain of this length as it was. */
  predicate Harmless(attack: Attack, n: nat)
  {
    attack.NoAttack? || n == 0 || (attack.ForgedChain? && n == 1)
  }

  lemma DuplicateCaught(h: Sha, rs: seq<Receipt>)
    requires rs != []
    ensures !Clean(h, rs + [rs[0]])
  {
    hide SchemaErrors, NoReplay, LinksClean, Sort;
    var t := rs + [rs[0]];
    assert t[0].receiptId == t[|rs|].receiptId;
  }

  lemma ReplayCaught(h: Sha, rs: seq<Receipt>, suffix: nat)
    requires rs != []
    ensures !Clean(h, rs + [ReplayClone(rs[0], suffix)])
  {
    hide SchemaErrors, LinksClean, Sort, UniqueIds, BodyText, Dec;
    var clone := ReplayClone(rs[0], suffix);
    var t := rs + [clone];
    BodyRecovered(clone, rs[0]);
    assert clone in t && rs[0] in t;
    assert |clone.receiptId| > |rs[0].receiptId|;
  }

  /** Swapping the times of a receipt that started before it ended. */
  lemma SwapTimes(r: Receipt)
    requires OtherwiseClean(r) && KnownStatus(r.status)
    requires ParseIso(r.startedAt).Some? && ParseIso(r.endedAt).Some?
    requires CivilLt(ParseIso(r.startedAt).value, ParseIso(r.endedAt).value)
    ensures SchemaErrors(r.(startedAt := r.endedAt, endedAt := r.startedAt)) == [TimeoutOrder]
  {
    hide ParseIso, CivilLt, SchemaErrors;
    SchemaErrorsOf(r.(startedAt := r.endedAt, endedAt := r.startedAt));
  }

  lemma SpoilStatus(r: Receipt)
    requires OtherwiseClean(r) && TimeErrors(r) == []
    ensures SchemaErrors(r.(status := "BAD")) == [MalformedStatus]
  {
    hide ParseIso, CivilLt, SchemaErrors;
    SchemaErrorsOf(r.(status := "BAD"));
  }

  lemma SchemaCaught(h: Sha, rs: seq<Receipt>, r: Receipt)
    requires r in rs && SchemaErrors(r) != []
    ensures !Clean(h, rs)
  {
    hide SchemaErrors, NoReplay, LinksClean, Sort, UniqueIds;
  }

  lemma ForgedCaught(h: Sha, seed: int, agent: nat, n: nat)
    requires n > 1 && HexValued(h)
    ensures !Clean(h, Attacked(Honest(h, seed, agent, n), ForgedChain))
  {
    hide Honest, SchemaErrors, NoReplay, Sort, UniqueIds, ReceiptText, LinkOk;
    HonestLinked(h, seed, agent, n);
    var t := Attacked(Honest(h, seed, agent, n), ForgedChain);
    LinkedAsIs(t);
    assert IsHex64(h(ReceiptText(t[0])));
    assert LinkBad(h, t, 1);
  }

  /** The last honest receipt, after the attack on it. */
  lemma LastAttacked(h: Sha, seed: int, agent: nat, n: nat)
    requires n > 0 && FitsAgent(agent, n)
    ensures var rs := Honest(h, seed, agent, n);
            && SchemaErrors(Attacked(rs, Timeout)[n - 1]) == [TimeoutOrder]
            && SchemaErrors(Attacked(rs, BadStatus)[n - 1]) == [MalformedStatus]
  {
    hide Honest, RecordHash, IdPrefix, IsoAt, HonestTask, InputText, OutputText, Fits, SchemaErrors, ParseIso, CivilLt, TimeErrors;
    var rs := Honest(h, seed, agent, n);
    HonestAt(h, seed, agent, n, n - 1);
    FitsAgentEarlier(agent, n - 1, n);
    HonestTimes(agent, n - 1);
    HonestSchemaClean(h, seed, agent, n, n - 1);
    SwapTimes(rs[n - 1]);
    SpoilStatus(rs[n - 1]);
  }

  /** An agent passes the aggregate test exactly when no attack took effect. */
  ghost predicate AgentClean(h: Sha, seed: int, agent: nat, n: nat, attack: Attack)
  {
    Harmless(attack, n) && !BodyCollision(h, seed, agent, n)
  }

  /** Each of the five attacks is caught on every chain it changes. */
  lemma AttacksCaught(h: Sha, seed: int, agent: nat, n: nat, attack: Attack)
    requires HexValued(h) && FitsAgent(agent, n)
    ensures Clean(h, Attacked(Honest(h, seed, agent, n), attack)) <==> AgentClean(h, seed, agent, n, attack)
    ensures Harmless(attack, n) ==> Attacked(Honest(h, seed, agent, n), attack) == Honest(h, seed, agent, n)
  {
    hide Honest, Clean, BodyCollision, SchemaErrors, ReplayClone;
    var rs := Honest(h, seed, agent, n);
    if Harmless(attack, n) {
      HonestClean(h, seed, agent, n);
    } else {
      var t := Attacked(rs, attack);
      match attack {
        case DuplicateId => DuplicateCaught(h, rs);
        case Replay(suffix) => ReplayCaught(h, rs, suffix);
        case Timeout =>
          LastAttacked(h, seed, agent, n);
          SchemaCaught(h, t, t[n - 1]);
        case BadStatus =>
          LastAttacked(h, seed, agent, n);
          SchemaCaught(h, t, t[n - 1]);
        case ForgedChain => ForgedCaught(h, seed, agent, n);
      }
    }
  }

  // ------------------------------------------------------------- what is attributed

  lemma {:induction false} CleanPrefixCounts(rs: seq<Receipt>)
    requires forall i :: 0 <= i < |rs| ==> SchemaErrors(rs[i]) == []
    ensures Timeouts(rs) == 0 && Malformed(rs) == 0
  {
    hide SchemaErrors;
    if rs != [] {
      CleanPrefixCounts(rs[..|rs| - 1]);
    }
  }

  /** When only the last receipt has schema errors, the tallies are its errors. */
  lemma LastOnly(rs: seq<Receipt>)
    requires rs != [] && forall i :: 0 <= i < |rs| - 1 ==> SchemaErrors(rs[i]) == []
    ensures Timeouts(rs) == CountTimeouts(SchemaErrors(rs[|rs| - 1]))
    ensures Malformed(rs) == |SchemaErrors(rs[|rs| - 1])| - CountTimeouts(SchemaErrors(rs[|rs| - 1]))
  {
    hide SchemaErrors;
    CleanPrefixCounts(rs[..|rs| - 1]);
  }

  /** Schema errors do not depend on the id being a clone's, nor on the link. */
  lemma CloneSchema(r: Receipt, suffix: nat, link: string)
    requires OtherwiseClean(r)
    ensures SchemaErrors(ReplayClone(r, suffix)) == SchemaErrors(r)
    ensures SchemaErrors(r.(prevReceiptHash := link)) == SchemaErrors(r)
  {
    hide SchemaErrors, ParseIso, Dec;
    SchemaErrorsOf(r);
    SchemaErrorsOf(ReplayClone(r, suffix));
    SchemaErrorsOf(r.(prevReceiptHash := link));
  }

  /** Timeouts and malformed statuses are attributed to exactly those attacks. */
  lemma SchemaAttribution(h: Sha, seed: int, agent: nat, n: nat, attack: Attack)
    requires FitsAgent(agent, n)
    ensures var t := Attacked(Honest(h, seed, agent, n), attack);
            && Timeouts(t) == (if n > 0 && attack.Timeout? then 1 else 0)
            && Malformed(t) == (if n > 0 && attack.BadStatus? then 1 else 0)
  {
    hide Honest, SchemaErrors, ReplayClone, OtherwiseClean, TimeErrors;
    var rs := Honest(h, seed, agent, n);
    var t := Attacked(rs, attack);
    forall k | 0 <= k < n
      ensures SchemaErrors(rs[k]) == [] && OtherwiseClean(rs[k])
    {
      HonestSchemaClean(h, seed, agent, n, k);
    }
    if n > 0 {
      CloneSchema(rs[0], if attack.Replay? then attack.suffix else 0, FORGED_HASH);
      if n > 1 {
        CloneSchema(rs[1], 0, FORGED_HASH);
      }
      if attack.Timeout? || attack.BadStatus? {
        LastAttacked(h, seed, agent, n);
        LastOnly(t);
        OneError(SchemaErrors(t[n - 1]));
      } else {
        CleanPrefixCounts(t);
      }
    }
  }

  lemma OneError(errs: seq<SchemaError>)
    requires |errs| == 1
    ensures CountTimeouts(errs) == if errs[0] == TimeoutOrder then 1 else 0
  {
  }

  /** Extra rows are reported for exactly the duplicated ids. */
  lemma DuplicateAttribution(h: Sha, seed: int, agent: nat, n: nat, attack: Attack)
    ensures var t := Attacked(Honest(h, seed, agent, n), attack);
            |t| - |IdSet(t)| == if n > 0 && attack.DuplicateId? then 1 else 0
  {
    hide Honest, IdSet, UniqueIds, ReplayClone;
    var rs := Honest(h, seed, agent, n);
    var t := Attacked(rs, attack);
    HonestUniqueIds(h, seed, agent, n);
    IdSetSize(rs);
    IdSetSize(t);
    if n > 0 && attack.DuplicateId? {
      IdSetSnoc(rs, rs[0]);
      FirstIdKnown(rs);
      assert IdSet(rs) + {rs[0].receiptId} == IdSet(rs);
    } else if n > 0 && attack.Replay? {
      var clone := ReplayClone(rs[0], attack.suffix);
      IdSetSnoc(rs, clone);
      CloneIdNew(h, seed, agent, n, attack.suffix);
    } else {
      SameIds(rs, t);
    }
  }

  lemma FirstIdKnown(rs: seq<Receipt>)
    requires rs != []
    ensures rs[0].receiptId in IdSet(rs)
  {
  }

  lemma SameIds(rs: seq<Receipt>, t: seq<Receipt>)
    requires |t| == |rs| && UniqueIds(rs)
    requires forall i :: 0 <= i < |rs| ==> t[i].receiptId == rs[i].receiptId
    ensures UniqueIds(t)
  {
  }

  /** A clone's id is longer than a step number, so no honest receipt has it. */
  lemma CloneIdNew(h: Sha, seed: int, agent: nat, n: nat, suffix: nat)
    requires n > 0
    ensures ReplayClone(Honest(h, seed, agent, n)[0], suffix).receiptId !in IdSet(Honest(h, seed, agent, n))
  {
    hide Honest, RecordHash, IdPrefix, IsoAt, HonestTask, InputText, OutputText, Dec;
    var rs := Honest(h, seed, agent, n);
    HonestAt(h, seed, agent, n, 0);
    var p := IdPrefix(seed, agent);
    var tail := DecNat(0) + "-replayclone-" + Dec(suffix);
    assert ReplayClone(rs[0], suffix).receiptId == p + tail;
    assert tail[1] == '-';
    forall r | r in rs
      ensures r.receiptId != p + tail
    {
      var k :| 0 <= k < n && rs[k] == r;
      HonestAt(h, seed, agent, n, k);
      if p + DecNat(k) == p + tail {
        SameSuffix(p, DecNat(k), tail);
        assert false;
      }
    }
  }

  /** The id is the one the producer gives to this step. */
  predicate IdByStep(seed: int, agent: nat, r: Receipt)
  {
    r.stepIndex >= 0 && r.receiptId == IdPrefix(seed, agent) + DecNat(r.stepIndex)
  }

  /** Among an agent's receipts only a replay clone has an id of its own. */
  lemma AttackedIds(h: Sha, seed: int, agent: nat, n: nat, attack: Attack)
    ensures var t := Attacked(Honest(h, seed, agent, n), attack);
            forall i :: 0 <= i < |t| && !(attack.Replay? && i == n) ==> IdByStep(seed, agent, t[i])
  {
    hide Honest, RecordHash, IdPrefix, IsoAt, HonestTask, InputText, OutputText, DecNat, IdByStep, ReplayClone;
    var rs := Honest(h, seed, agent, n);
    forall k | 0 <= k < n
      ensures IdByStep(seed, agent, rs[k])
    {
      HonestId(h, seed, agent, n, k);
    }
    forall i | 0 <= i < n
      ensures IdByStep(seed, agent, Attacked(rs, attack)[i])
    {
      var t := Attacked(rs, attack);
      SameIdSameStep(seed, agent, rs[i], t[i]);
    }
  }

  lemma HonestId(h: Sha, seed: int, agent: nat, n: nat, k: nat)
    requires k < n
    ensures IdByStep(seed, agent, Honest(h, seed, agent, n)[k])
  {
    hide Honest, RecordHash, IdPrefix, IsoAt, HonestTask, InputText, OutputText, DecNat;
    HonestAt(h, seed, agent, n, k);
  }

  lemma SameIdSameStep(seed: int, agent: nat, r: Receipt, q: Receipt)
    requires IdByStep(seed, agent, r) && q.receiptId == r.receiptId && q.stepIndex == r.stepIndex
    ensures IdByStep(seed, agent, q)
  {
  }

  /** Two of these receipts have bodies that are an explicit collision. */
  ghost predicate BodiesCollide(h: Sha, t: seq<Receipt>)
  {
    exists r, q :: r in t && q in t && Collides(h, BodyText(r), BodyText(q))
  }

  /** Without a collision, one body under two ids means one of them is a clone's. */
  lemma ReplayNeedsClone(h: Sha, seed: int, agent: nat, t: seq<Receipt>, r: Receipt, q: Receipt)
    requires r in t && q in t && BodyHash(h, r) == BodyHash(h, q) && !BodiesCollide(h, t)
    requires IdByStep(seed, agent, r) && IdByStep(seed, agent, q)
    ensures r.receiptId == q.receiptId
  {
    hide BodyText, IdPrefix, DecNat;
    BodyHashCommits(h, r, q);
  }

  /** One replayed body per replay attack and none otherwise, unless bodies collide. */
  lemma ReplayAttribution(h: Sha, seed: int, agent: nat, n: nat, attack: Attack)
    ensures var t := Attacked(Honest(h, seed, agent, n), attack);
            BodiesCollide(h, t) || |ReplayedHashes(h, t)| == if n > 0 && attack.Replay? then 1 else 0
  {
    hide Honest, BodyText, IdByStep, BodiesCollide, ReplayedHashes, ReplayClone;
    var rs := Honest(h, seed, agent, n);
    var t := Attacked(rs, attack);
    AttackedIds(h, seed, agent, n, attack);
    if !BodiesCollide(h, t) {
      if n > 0 && attack.Replay? {
        OneReplay(h, seed, agent, n, attack.suffix);
      } else {
        assert attack.Replay? ==> t == [];
        forall r, q | r in t && q in t && BodyHash(h, r) == BodyHash(h, q)
          ensures r.receiptId == q.receiptId
        {
          var i :| 0 <= i < |t| && t[i] == r;
          var j :| 0 <= j < |t| && t[j] == q;
          assert IdByStep(seed, agent, t[i]) && IdByStep(seed, agent, t[j]);
          ReplayNeedsClone(h, seed, agent, t, r, q);
        }
        NoReplayIff(h, t);
      }
    }
  }

  lemma OneReplay(h: Sha, seed: int, agent: nat, n: nat, suffix: nat)
    requires n > 0 && !BodiesCollide(h, Attacked(Honest(h, seed, agent, n), Replay(suffix)))
    ensures |ReplayedHashes(h, Attacked(Honest(h, seed, agent, n), Replay(suffix)))| == 1
  {
    hide Honest, BodyText, IdByStep, BodiesCollide, Dec;
    var rs := Honest(h, seed, agent, n);
    var clone := ReplayClone(rs[0], suffix);
    var t := rs + [clone];
    var x := BodyHash(h, clone);
    AttackedIds(h, seed, agent, n, Replay(suffix));
    BodyRecovered(clone, rs[0]);
    assert clone in t && rs[0] in t && clone.receiptId != rs[0].receiptId;
    TwoIds(IdsWith(h, t, x), clone.receiptId, rs[0].receiptId);
    assert x in ReplayedHashes(h, t);
    forall y | y in ReplayedHashes(h, t)
      ensures y == x
    {
      var a, b := ManyIds(IdsWith(h, t, y));
      var r :| r in t && BodyHash(h, r) == y && r.receiptId == a;
      var q :| q in t && BodyHash(h, q) == y && q.receiptId == b;
      if r != clone && q != clone {
        var i :| 0 <= i < |t| && t[i] == r;
        var j :| 0 <= j < |t| && t[j] == q;
        ReplayNeedsClone(h, seed, agent, t, r, q);
      }
    }
    assert ReplayedHashes(h, t) == {x};
  }

  // ----------------------------------------------------------------------- broken links

  /** The attack leaves a receipt whose link does not match. */
  predicate BreaksLinks(attack: Attack, n: nat)
  {
    n > 0 && (attack.DuplicateId? || attack.Replay? || (attack.ForgedChain? && n > 1))
  }

  /** How many links the attack breaks; a changed receipt also breaks the link after it. */
  function BrokenLinks(attack: Attack, n: nat): nat
  {
    if !BreaksLinks(attack, n) then 0
    else
      match attack
      case Replay(_) => if n > 1 then 2 else 1
      case ForgedChain => if n > 2 then 2 else 1
      case _ => 1
  }

  /** With all later links right, only the first two can count. */
  lemma {:induction false} EarlyForged(h: Sha, s: seq<Receipt>, n: nat)
    requires n <= |s| && forall i :: 3 <= i < n ==> !LinkBad(h, s, i)
    ensures ForgedUpTo(h, s, n) ==
            (if n > 1 && LinkBad(h, s, 1) then 1 else 0) + (if n > 2 && LinkBad(h, s, 2) then 1 else 0)
  {
    hide LinkBad;
    if n > 1 {
      EarlyForged(h, s, n - 1);
    }
  }

  /** A second copy, or a clone, of the first receipt sorts right behind it. */
  lemma CopySortsSecond(h: Sha, seed: int, agent: nat, n: nat, suffix: nat, clone: Receipt)
    requires n > 0
    requires clone == Honest(h, seed, agent, n)[0] || clone == ReplayClone(Honest(h, seed, agent, n)[0], suffix)
    ensures var rs := Honest(h, seed, agent, n);
            Sort(rs + [clone], ChainLe) == [rs[0], clone] + rs[1..]
  {
    hide Honest, Sort, LinkOk, StrLt, Dec;
    var rs := Honest(h, seed, agent, n);
    var s := [rs[0], clone] + rs[1..];
    HonestLinked(h, seed, agent, n);
    CloneAfter(rs[0], suffix);
    assert Sorted(s, ChainLe);
    assert s == [rs[0]] + [clone] + rs[1..] && rs == [rs[0]] + rs[1..];
    CloneNoTies(h, seed, agent, n, suffix, clone);
    ChainLeTotal();
    SortSorts(rs + [clone], ChainLe);
    SameMembers(s, rs + [clone]);
    SortedUnique(s, Sort(rs + [clone], ChainLe), ChainLe);
  }

  lemma CloneAfter(r: Receipt, suffix: nat)
    ensures StrLe(r.receiptId, r.receiptId) && StrLe(r.receiptId, ReplayClone(r, suffix).receiptId)
  {
    hide Dec;
    var id, more := r.receiptId, "-replayclone-" + Dec(suffix);
    StrLtTrichotomy(id, id);
    StrLtPrefix(id, more, "");
    assert id + "" == id && id + more == ReplayClone(r, suffix).receiptId;
  }

  lemma CloneNoTies(h: Sha, seed: int, agent: nat, n: nat, suffix: nat, clone: Receipt)
    requires n > 0
    requires clone == Honest(h, seed, agent, n)[0] || clone == ReplayClone(Honest(h, seed, agent, n)[0], suffix)
    ensures NoTies(Honest(h, seed, agent, n) + [clone], ChainLe)
  {
    hide Honest, ReplayClone, ChainLe, IdSet;
    var rs := Honest(h, seed, agent, n);
    HonestUniqueIds(h, seed, agent, n);
    if clone == rs[0] {
      UniqueNoTies(rs);
      assert forall r :: r in rs + [clone] <==> r in rs;
    } else {
      CloneIdNew(h, seed, agent, n, suffix);
      IdSetSnoc(rs, clone);
      UniqueNoTies(rs + [clone]);
    }
  }

  /** The links behind a copy of the first receipt. */
  lemma CopyLinks(h: Sha, rs: seq<Receipt>, clone: Receipt)
    requires HexValued(h) && rs != [] && Linked(h, rs) && clone.prevReceiptHash == rs[0].prevReceiptHash
    ensures var s := [rs[0], clone] + rs[1..];
            ForgedUpTo(h, s, |s|) == if |rs| > 1 && RecordHash(h, rs[0]) != RecordHash(h, clone) then 2 else 1
  {
    hide ReceiptText, ForgedUpTo;
    var s := [rs[0], clone] + rs[1..];
    assert LinkOk(h, rs, 0);
    assert IsHex64(h(ReceiptText(rs[0])));
    assert LinkBad(h, s, 1);
    if |rs| > 1 {
      assert LinkOk(h, rs, 1) && s[2] == rs[1];
    }
    forall i | 3 <= i < |s|
      ensures !LinkBad(h, s, i)
    {
      assert LinkOk(h, rs, i - 1) && s[i] == rs[i - 1] && s[i - 1] == rs[i - 2];
    }
    EarlyForged(h, s, |s|);
  }

  /** The links around a forged one. */
  lemma ForgedLinks(h: Sha, rs: seq<Receipt>, forged: Receipt)
    requires HexValued(h) && |rs| > 1 && Linked(h, rs) && forged == rs[1].(prevReceiptHash := FORGED_HASH)
    ensures var s := rs[1 := forged];
            ForgedUpTo(h, s, |s|) == if |rs| > 2 && RecordHash(h, rs[1]) != RecordHash(h, forged) then 2 else 1
  {
    hide ReceiptText, ForgedUpTo;
    var s := rs[1 := forged];
    assert IsHex64(h(ReceiptText(rs[0])));
    assert LinkBad(h, s, 1);
    if |rs| > 2 {
      assert LinkOk(h, rs, 2);
    }
    forall i | 3 <= i < |s|
      ensures !LinkBad(h, s, i)
    {
      assert LinkOk(h, rs, i);
    }
    EarlyForged(h, s, |s|);
  }

  lemma LinksKept(h: Sha, rs: seq<Receipt>, attack: Attack)
    requires Linked(h, rs) && !BreaksLinks(attack, |rs|)
    ensures var t := Attacked(rs, attack); ForgedUpTo(h, t, |t|) == 0
  {
    hide RecordHash, ForgedUpTo;
    var t := Attacked(rs, attack);
    forall i | 1 <= i < |t|
      ensures !LinkBad(h, t, i)
    {
      assert LinkOk(h, rs, i);
    }
    EarlyForged(h, t, |t|);
  }

  /** Different receipts with one record hash are a collision among the receipts at hand. */
  lemma SameRecordCollides(h: Sha, all: seq<Receipt>, x: Receipt, y: Receipt)
    requires x in all && y in all && x != y && RecordHash(h, x) == RecordHash(h, y)
    ensures CollisionAmong(h, all)
  {
    hide ReceiptText;
    RecordHashCommits(h, x, y);
  }

  /**
   Broken links are found for exactly the attacks that break one, and exactly as many
   as they break, or two receipts are a collision.
   */
  lemma ForgedAttribution(h: Sha, seed: int, agent: nat, n: nat, attack: Attack)
    requires HexValued(h)
    ensures var rs := Honest(h, seed, agent, n);
            var t := Attacked(rs, attack);
            var s := Sort(t, ChainLe);
            && (ForgedUpTo(h, s, |s|) > 0 <==> BreaksLinks(attack, n))
            && (ForgedUpTo(h, s, |s|) == BrokenLinks(attack, n) || CollisionAmong(h, rs + t))
  {
    hide Honest, Sort, RecordHash, ForgedUpTo, ReplayClone, CollisionAmong;
    var rs := Honest(h, seed, agent, n);
    var t := Attacked(rs, attack);
    HonestLinked(h, seed, agent, n);
    if n > 0 && (attack.DuplicateId? || attack.Replay?) {
      var clone, suffix := t[n], if attack.Replay? then attack.suffix else 0;
      CopySortsSecond(h, seed, agent, n, suffix, clone);
      CloneLink(rs[0], suffix);
      CopyLinks(h, rs, clone);
      if attack.Replay? && RecordHash(h, rs[0]) == RecordHash(h, clone) {
        SameRecordCollides(h, rs + t, rs[0], clone);
      }
    } else {
      LinkedAsIs(t);
      if BreaksLinks(attack, n) {
        ForgedLinks(h, rs, t[1]);
        ForgedDiffers(h, rs);
        if RecordHash(h, rs[1]) == RecordHash(h, t[1]) {
          SameRecordCollides(h, rs + t, rs[1], t[1]);
        }
      } else {
        LinksKept(h, rs, attack);
      }
    }
  }

  lemma ForgedDiffers(h: Sha, rs: seq<Receipt>)
    requires HexValued(h) && |rs| > 1 && Linked(h, rs)
    ensures rs[1].prevReceiptHash != FORGED_HASH
  {
    hide ReceiptText;
    assert LinkOk(h, rs, 1);
    assert IsHex64(h(ReceiptText(rs[0])));
  }

  lemma CloneLink(r: Receipt, suffix: nat)
    ensures ReplayClone(r, suffix).prevReceiptHash == r.prevReceiptHash && ReplayClone(r, suffix) != r
  {
  }
}

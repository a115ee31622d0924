/**
 What the stress runner checks about one agent's receipts: schema, duplicate ids,
 replayed bodies and chain links, per receipt and in aggregate.
 */
module StressChecks {
  import opened Text
  import opened Sorting
  import opened Records
  import opened ReceiptStore
  import opened Timestamps

  // ------------------------------------------------------------------------ schema

  datatype SchemaError =
    | BadSchemaVersion | MalformedStatus | MissingReceiptId | MissingToolName | NegativeStepIndex
    | MissingIdentity | TimeoutOrder | MalformedTimestamp | NegativeDuration

  function When(b: bool, e: SchemaError): seq<SchemaError>
  {
    if b then [e] else []
  }

  function TimeErrors(r: Receipt): seq<SchemaError>
  {
    var ts, te := ParseIso(r.startedAt), ParseIso(r.endedAt);
    if ts.None? || te.None? then [MalformedTimestamp]
    else When(CivilLt(te.value, ts.value), TimeoutOrder)
  }

  predicate KnownStatus(status: string)
  {
    status == "ok" || status == "error" || status == "skipped"
  }

  /** `_receipt_schema_errors`. */
  function SchemaErrors(r: Receipt): seq<SchemaError>
  {
    When(r.schemaVersion != RECEIPT_SCHEMA, BadSchemaVersion) +
    When(!KnownStatus(r.status), MalformedStatus) +
    When(r.receiptId == "", MissingReceiptId) +
    When(r.toolName == "", MissingToolName) +
    When(r.stepIndex < 0, NegativeStepIndex) +
    When(r.taskId == "" || r.agentId == "" || r.runtimeId == "", MissingIdentity) +
    TimeErrors(r) +
    When(r.durationMs < 0, NegativeDuration)
  }

  /** Everything but the two fields the attacks tamper with is in order. */
  ghost predicate OtherwiseClean(r: Receipt)
  {
    && r.schemaVersion == RECEIPT_SCHEMA && r.receiptId != "" && r.toolName != "" && r.stepIndex >= 0
    && r.taskId != "" && r.agentId != "" && r.runtimeId != "" && r.durationMs >= 0
  }

  lemma SchemaErrorsOf(r: Receipt)
    requires OtherwiseClean(r)
    ensures SchemaErrors(r) == When(!KnownStatus(r.status), MalformedStatus) + TimeErrors(r)
  {
    hide KnownStatus, TimeErrors;
  }

  /** Exactly which receipts have no schema error. */
  lemma NoSchemaErrorIff(r: Receipt)
    ensures SchemaErrors(r) == [] <==>
            && OtherwiseClean(r) && KnownStatus(r.status)
            && ParseIso(r.startedAt).Some? && ParseIso(r.endedAt).Some?
            && !CivilLt(ParseIso(r.endedAt).value, ParseIso(r.startedAt).value)
  {
    hide KnownStatus, ParseIso, CivilLt;
    assert |SchemaErrors(r)| ==
           |When(r.schemaVersion != RECEIPT_SCHEMA, BadSchemaVersion)| + |When(!KnownStatus(r.status), MalformedStatus)| +
           |When(r.receiptId == "", MissingReceiptId)| + |When(r.toolName == "", MissingToolName)| +
           |When(r.stepIndex < 0, NegativeStepIndex)| +
           |When(r.taskId == "" || r.agentId == "" || r.runtimeId == "", MissingIdentity)| +
           |TimeErrors(r)| + |When(r.durationMs < 0, NegativeDuration)|;
  }

  /** When each schema error applies. */
  predicate Applies(e: SchemaError, r: Receipt)
  {
    match e
    case BadSchemaVersion => r.schemaVersion != "karma.execution_receipt.v1"
    case MalformedStatus => r.status != "ok" && r.status != "error" && r.status != "skipped"
    case MissingReceiptId => r.receiptId == ""
    case MissingToolName => r.toolName == ""
    case NegativeStepIndex => r.stepIndex < 0
    case MissingIdentity => r.taskId == "" || r.agentId == "" || r.runtimeId == ""
    case TimeoutOrder =>
      var s, t := ParseIso(r.startedAt), ParseIso(r.endedAt);
      s.Some? && t.Some? && CivilLt(t.value, s.value)
    case MalformedTimestamp => ParseIso(r.startedAt).None? || ParseIso(r.endedAt).None?
    case NegativeDuration => r.durationMs < 0
  }

  function Times(errs: seq<SchemaError>, e: SchemaError): nat
  {
    multiset(errs)[e]
  }

  lemma TimesWhen(b: bool, e: SchemaError, f: SchemaError)
    ensures Times(When(b, e), f) == if b && e == f then 1 else 0
  {
  }

  lemma TimesConcat(a: seq<SchemaError>, b: seq<SchemaError>, e: SchemaError)
    ensures Times(a + b, e) == Times(a, e) + Times(b, e)
  {
  }

  lemma TimesTime(r: Receipt, e: SchemaError)
    ensures Times(TimeErrors(r), e) == if (e.TimeoutOrder? || e.MalformedTimestamp?) && Applies(e, r) then 1 else 0
  {
    hide ParseIso, CivilLt;
  }

  lemma TimesAll(
    a: seq<SchemaError>, b: seq<SchemaError>, c: seq<SchemaError>, d: seq<SchemaError>,
    f: seq<SchemaError>, g: seq<SchemaError>, t: seq<SchemaError>, n: seq<SchemaError>, e: SchemaError)
    ensures Times(a + b + c + d + f + g + t + n, e) ==
            Times(a, e) + Times(b, e) + Times(c, e) + Times(d, e) + Times(f, e) + Times(g, e) + Times(t, e) + Times(n, e)
  {
    hide Times;
    TimesConcat(a, b, e);
    TimesConcat(a + b, c, e);
    TimesConcat(a + b + c, d, e);
    TimesConcat(a + b + c + d, f, e);
    TimesConcat(a + b + c + d + f, g, e);
    TimesConcat(a + b + c + d + f + g, t, e);
    TimesConcat(a + b + c + d + f + g + t, n, e);
  }

  /** Every error that applies to a receipt is listed once, and no other. */
  lemma SchemaErrorsExactly(r: Receipt, e: SchemaError)
    ensures multiset(SchemaErrors(r))[e] == if Applies(e, r) then 1 else 0
  {
    hide Times, When, TimeErrors, KnownStatus, Applies;
    var version, status, identity :=
      r.schemaVersion != RECEIPT_SCHEMA, !KnownStatus(r.status), r.taskId == "" || r.agentId == "" || r.runtimeId == "";
    TimesAll(
      When(version, BadSchemaVersion), When(status, MalformedStatus), When(r.receiptId == "", MissingReceiptId),
      When(r.toolName == "", MissingToolName), When(r.stepIndex < 0, NegativeStepIndex),
      When(identity, MissingIdentity), TimeErrors(r), When(r.durationMs < 0, NegativeDuration), e);
    TimesWhen(version, BadSchemaVersion, e);
    TimesWhen(status, MalformedStatus, e);
    TimesWhen(r.receiptId == "", MissingReceiptId, e);
    TimesWhen(r.toolName == "", MissingToolName, e);
    TimesWhen(r.stepIndex < 0, NegativeStepIndex, e);
    TimesWhen(identity, MissingIdentity, e);
    TimesTime(r, e);
    TimesWhen(r.durationMs < 0, NegativeDuration, e);
    TimesIs(SchemaErrors(r), e);
    AppliesIs(r);
  }

  lemma AppliesIs(r: Receipt)
    ensures Applies(BadSchemaVersion, r) <==> r.schemaVersion != RECEIPT_SCHEMA
    ensures Applies(MalformedStatus, r) <==> !KnownStatus(r.status)
    ensures Applies(MissingReceiptId, r) <==> r.receiptId == ""
    ensures Applies(MissingToolName, r) <==> r.toolName == ""
    ensures Applies(NegativeStepIndex, r) <==> r.stepIndex < 0
    ensures Applies(MissingIdentity, r) <==> r.taskId == "" || r.agentId == "" || r.runtimeId == ""
    ensures Applies(NegativeDuration, r) <==> r.durationMs < 0
  {
  }

  lemma TimesIs(errs: seq<SchemaError>, e: SchemaError)
    ensures Times(errs, e) == multiset(errs)[e]
  {
  }

  function CountTimeouts(errs: seq<SchemaError>): (n: nat)
    ensures n <= |errs|
  {
    if errs == [] then 0
    else CountTimeouts(errs[..|errs| - 1]) + if errs[|errs| - 1] == TimeoutOrder then 1 else 0
  }

  function Timeouts(rs: seq<Receipt>): nat
  {
    if rs == [] then 0 else Timeouts(rs[..|rs| - 1]) + CountTimeouts(SchemaErrors(rs[|rs| - 1]))
  }

  function Malformed(rs: seq<Receipt>): nat
  {
    if rs == [] then 0
    else
      var errs := SchemaErrors(rs[|rs| - 1]);
      Malformed(rs[..|rs| - 1]) + (|errs| - CountTimeouts(errs))
  }

  /** The loop over all schema errors of all receipts. */
  method TallySchemaErrors(rs: seq<Receipt>) returns (timeouts: nat, malformed: nat, clean: bool)
    ensures timeouts == Timeouts(rs) && malformed == Malformed(rs)
    ensures clean <==> forall r :: r in rs ==> SchemaErrors(r) == []
  {
    hide SchemaErrors;
    timeouts, malformed, clean := 0, 0, true;
    for i := 0 to |rs|
      invariant timeouts == Timeouts(rs[..i]) && malformed == Malformed(rs[..i])
      invariant clean <==> forall r :: r in rs[..i] ==> SchemaErrors(r) == []
    {
      var errs := SchemaErrors(rs[i]);
      for j := 0 to |errs|
        invariant timeouts == Timeouts(rs[..i]) + CountTimeouts(errs[..j])
        invariant malformed == Malformed(rs[..i]) + (j - CountTimeouts(errs[..j]))
      {
        assert errs[..j + 1][..j] == errs[..j];
        if errs[j] == TimeoutOrder {
          timeouts := timeouts + 1;
        } else {
          malformed := malformed + 1;
        }
      }
      assert errs[..|errs|] == errs;
      clean := clean && errs == [];
      assert rs[..i + 1] == rs[..i] + [rs[i]];
      assert rs[..i + 1][..i] == rs[..i];
    }
    assert rs[..|rs|] == rs;
  }

  // -------------------------------------------------------------------- duplicates

  function IdSet(rs: seq<Receipt>): set<string>
  {
    set r | r in rs :: r.receiptId
  }

  /** How many of the receipts carry one of the given ids. */
  function CountIn(rs: seq<Receipt>, ids: set<string>): nat
  {
    if rs == [] then 0
    else CountIn(rs[..|rs| - 1], ids) + if rs[|rs| - 1].receiptId in ids then 1 else 0
  }

  lemma {:induction false} CountInAll(rs: seq<Receipt>, ids: set<string>)
    requires forall r :: r in rs ==> r.receiptId in ids
    ensures CountIn(rs, ids) == |rs|
  {
    if rs != [] {
      CountInAll(rs[..|rs| - 1], ids);
    }
  }

  lemma {:induction false} CountInSplit(rs: seq<Receipt>, ids: set<string>, id: string)
    requires id !in ids
    ensures CountIn(rs, ids + {id}) == CountIn(rs, ids) + CountIn(rs, {id})
  {
    if rs != [] {
      CountInSplit(rs[..|rs| - 1], ids, id);
    }
  }

  lemma {:induction false} CountInNone(rs: seq<Receipt>, ids: set<string>)
    requires forall r :: r in rs ==> r.receiptId !in ids
    ensures CountIn(rs, ids) == 0
  {
    if rs != [] {
      CountInNone(rs[..|rs| - 1], ids);
      assert rs[|rs| - 1] in rs;
    }
  }

  /** `Counter(r.receipt_id for r in receipts)`. */
  method CountIds(rs: seq<Receipt>) returns (counts: map<string, nat>)
    ensures counts.Keys == IdSet(rs)
    ensures forall id :: id in counts ==> counts[id] == CountIn(rs, {id})
  {
    counts := map[];
    for i := 0 to |rs|
      invariant counts.Keys == IdSet(rs[..i])
      invariant forall id :: id in counts ==> counts[id] == CountIn(rs[..i], {id})
    {
      var id := rs[i].receiptId;
      var before := if id in counts then counts[id] else 0;
      if id !in counts {
        CountInNone(rs[..i], {id});
      }
      assert rs[..i + 1] == rs[..i] + [rs[i]];
      assert rs[..i + 1][..i] == rs[..i];
      counts := counts[id := before + 1];
    }
    assert rs[..|rs|] == rs;
  }

  /** `_duplicate_extra_count`: list length minus the number of different ids. */
  method DuplicateExtraCount(rs: seq<Receipt>) returns (extra: nat)
    ensures extra == |rs| - |IdSet(rs)|
  {
    hide CountIn;
    var counts := CountIds(rs);
    var todo := counts.Keys;
    ghost var done: set<string> := {};
    extra := 0;
    CountInNone(rs, {});
    while todo != {}
      invariant todo !! done && todo + done == counts.Keys
      invariant extra == CountIn(rs, done) - |done|
      decreases todo
    {
      var id :| id in todo;
      var n := counts[id];
      CountPositive(rs, id);
      CountInSplit(rs, done, id);
      extra := extra + if n - 1 > 0 then n - 1 else 0;
      todo := todo - {id};
      done := done + {id};
    }
    assert done == IdSet(rs);
    CountInAll(rs, done);
  }

  lemma {:induction false} CountPositive(rs: seq<Receipt>, id: string)
    requires id in IdSet(rs)
    ensures CountIn(rs, {id}) >= 1
  {
    var r :| r in rs && r.receiptId == id;
    if rs[|rs| - 1].receiptId != id {
      assert rs == rs[..|rs| - 1] + [rs[|rs| - 1]];
      assert r in rs[..|rs| - 1];
      CountPositive(rs[..|rs| - 1], id);
    }
  }

  lemma IdSetSnoc(rest: seq<Receipt>, last: Receipt)
    ensures IdSet(rest + [last]) == IdSet(rest) + {last.receiptId}
    ensures UniqueIds(rest + [last]) <==> UniqueIds(rest) && last.receiptId !in IdSet(rest)
  {
    var rs := rest + [last];
    assert forall r :: r in rs <==> r in rest || r == last;
    if last.receiptId in IdSet(rest) {
      var r :| r in rest && r.receiptId == last.receiptId;
      var i :| 0 <= i < |rest| && rest[i] == r;
      assert rs[i].receiptId == rs[|rest|].receiptId;
    } else {
      assert forall i :: 0 <= i < |rest| ==> rest[i].receiptId in IdSet(rest);
      if UniqueIds(rs) {
        assert forall i :: 0 <= i < |rest| ==> rs[i] == rest[i];
      }
    }
  }

  lemma {:induction false} IdSetSize(rs: seq<Receipt>)
    ensures |IdSet(rs)| <= |rs|
    ensures |IdSet(rs)| == |rs| <==> UniqueIds(rs)
  {
    if rs != [] {
      var n := |rs| - 1;
      IdSetSize(rs[..n]);
      assert rs == rs[..n] + [rs[n]];
      IdSetSnoc(rs[..n], rs[n]);
      hide IdSet, UniqueIds;
      var ids, id := IdSet(rs[..n]), rs[n].receiptId;
      if id in ids {
        assert ids + {id} == ids;
      }
    }
  }

  /** A receipt's id is counted more than once exactly when another receipt has it. */
  lemma {:induction false} CountedOnce(rs: seq<Receipt>)
    ensures UniqueIds(rs) <==> forall r :: r in rs ==> CountIn(rs, {r.receiptId}) <= 1
  {
    if rs != [] {
      var n := |rs| - 1;
      var rest, last := rs[..n], rs[n];
      assert rs == rest + [last];
      CountedOnce(rest);
      if UniqueIds(rs) {
        forall r | r in rs
          ensures CountIn(rs, {r.receiptId}) <= 1
        {
          if r == last {
            CountInNone(rest, {r.receiptId});
          } else {
            assert r in rest;
          }
        }
      } else if UniqueIds(rest) {
        var i :| 0 <= i < n && rs[i].receiptId == last.receiptId;
        assert rest[i] in rest;
        CountPositive(rest, last.receiptId);
        assert CountIn(rs, {last.receiptId}) >= 2;
      } else {
        var r :| r in rest && CountIn(rest, {r.receiptId}) > 1;
        assert r in rs && CountIn(rs, {r.receiptId}) > 1;
      }
    }
  }

  // ----------------------------------------------------------------------- replays

  /** The ids under which one execution body appears. */
  function IdsWith(h: Sha, rs: seq<Receipt>, hash: string): set<string>
  {
    set r | r in rs && BodyHash(h, r) == hash :: r.receiptId
  }

  function BodyHashes(h: Sha, rs: seq<Receipt>): set<string>
  {
    set r | r in rs :: BodyHash(h, r)
  }

  /** The body hashes that occur under several ids. */
  function ReplayedHashes(h: Sha, rs: seq<Receipt>): set<string>
  {
    set x | x in BodyHashes(h, rs) && |IdsWith(h, rs, x)| > 1
  }

  ghost predicate NoReplay(h: Sha, rs: seq<Receipt>)
  {
    forall r, q :: r in rs && q in rs && BodyHash(h, r) == BodyHash(h, q) ==> r.receiptId == q.receiptId
  }

  method GroupByBody(h: Sha, rs: seq<Receipt>) returns (byHash: map<string, set<string>>)
    ensures byHash.Keys == BodyHashes(h, rs)
    ensures forall x :: x in byHash ==> byHash[x] == IdsWith(h, rs, x)
  {
    hide BodyHash;
    byHash := map[];
    for i := 0 to |rs|
      invariant byHash.Keys == BodyHashes(h, rs[..i])
      invariant forall x :: x in byHash ==> byHash[x] == IdsWith(h, rs[..i], x)
    {
      var x := BodyHash(h, rs[i]);
      var ids := if x in byHash then byHash[x] else {};
      GroupStep(h, rs[..i], rs[i]);
      assert rs[..i + 1] == rs[..i] + [rs[i]];
      byHash := byHash[x := ids + {rs[i].receiptId}];
    }
    assert rs[..|rs|] == rs;
  }

  lemma GroupStep(h: Sha, rest: seq<Receipt>, last: Receipt)
    ensures BodyHashes(h, rest + [last]) == BodyHashes(h, rest) + {BodyHash(h, last)}
    ensures forall x :: IdsWith(h, rest + [last], x) ==
              IdsWith(h, rest, x) + if x == BodyHash(h, last) then {last.receiptId} else {}
    ensures BodyHash(h, last) !in BodyHashes(h, rest) ==> IdsWith(h, rest, BodyHash(h, last)) == {}
  {
    hide BodyHash;
    assert forall r :: r in rest + [last] <==> r in rest || r == last;
  }

  /** `_replay_event_count`. */
  method ReplayEventCount(h: Sha, rs: seq<Receipt>) returns (n: nat)
    ensures n == |ReplayedHashes(h, rs)|
  {
    hide BodyHash;
    var byHash := GroupByBody(h, rs);
    var todo := byHash.Keys;
    ghost var found: set<string> := {};
    n := 0;
    while todo != {}
      invariant todo <= byHash.Keys
      invariant n == |found| && found == ReplayedHashes(h, rs) - todo
      decreases todo
    {
      var x :| x in todo;
      if |byHash[x]| > 1 {
        n := n + 1;
        found := found + {x};
      }
      todo := todo - {x};
    }
  }

  lemma TwoIds(ids: set<string>, a: string, b: string)
    requires a in ids && b in ids && a != b
    ensures |ids| > 1
  {
    assert {a, b} <= ids;
    var rest := ids - {a};
    assert b in rest && |rest| == |ids| - 1;
  }

  lemma ManyIds(ids: set<string>) returns (a: string, b: string)
    requires |ids| > 1
    ensures a in ids && b in ids && a != b
  {
    a :| a in ids;
    var rest := ids - {a};
    assert |rest| == |ids| - 1;
    b :| b in rest;
  }

  /** Nothing is counted as replayed exactly when no body has two ids. */
  lemma NoReplayIff(h: Sha, rs: seq<Receipt>)
    ensures NoReplay(h, rs) <==> ReplayedHashes(h, rs) == {}
    ensures NoReplay(h, rs) <==> forall r :: r in rs ==> |IdsWith(h, rs, BodyHash(h, r))| <= 1
  {
    hide BodyHash;
    if !NoReplay(h, rs) {
      var r, q :| r in rs && q in rs && BodyHash(h, r) == BodyHash(h, q) && r.receiptId != q.receiptId;
      TwoIds(IdsWith(h, rs, BodyHash(h, r)), r.receiptId, q.receiptId);
      assert BodyHash(h, r) in ReplayedHashes(h, rs);
    } else {
      forall x | x in BodyHashes(h, rs)
        ensures |IdsWith(h, rs, x)| <= 1
      {
        if |IdsWith(h, rs, x)| > 1 {
          var a, b := ManyIds(IdsWith(h, rs, x));
        }
      }
    }
  }

  // ------------------------------------------------------------------------- links

  /** Position `i` of the sorted receipts has a wrong link. */
  predicate LinkBad(h: Sha, s: seq<Receipt>, i: nat)
    requires i < |s|
  {
    if i == 0 then s[0].stepIndex == 0 && s[0].prevReceiptHash != ""
    else s[i].prevReceiptHash != RecordHash(h, s[i - 1])
  }

  ghost predicate LinksClean(h: Sha, s: seq<Receipt>)
  {
    forall i :: 0 <= i < |s| ==> !LinkBad(h, s, i)
  }

  function ForgedUpTo(h: Sha, s: seq<Receipt>, n: nat): nat
    requires n <= |s|
  {
    if n <= 1 then 0 else ForgedUpTo(h, s, n - 1) + if LinkBad(h, s, n - 1) then 1 else 0
  }

  /** `_chain_link_errors`; `forged` counts its "forged_prev_hash" entries. */
  method ChainLinkErrors(h: Sha, s: seq<Receipt>) returns (errors: nat, forged: nat)
    ensures forged == ForgedUpTo(h, s, |s|)
    ensures errors == forged + if s != [] && s[0].stepIndex == 0 && s[0].prevReceiptHash != "" then 1 else 0
    ensures errors == 0 <==> LinksClean(h, s)
  {
    hide RecordHash;
    errors, forged := 0, 0;
    for i := 0 to |s|
      invariant forged == ForgedUpTo(h, s, i)
      invariant errors == forged + if i > 0 && s[0].stepIndex == 0 && s[0].prevReceiptHash != "" then 1 else 0
      invariant errors == 0 <==> forall j :: 0 <= j < i ==> !LinkBad(h, s, j)
    {
      if i == 0 {
        if s[0].stepIndex == 0 && s[0].prevReceiptHash != "" {
          errors := errors + 1;
        }
      } else if s[i].prevReceiptHash != RecordHash(h, s[i - 1]) {
        errors := errors + 1;
        forged := forged + 1;
      }
    }
  }

  // --------------------------------------------------------------- object identity

  /** A list element together with which object it is. */
  datatype Tagged = Tagged(index: nat, r: Receipt)

  function Tag(rs: seq<Receipt>): (ts: seq<Tagged>)
    ensures |ts| == |rs|
    ensures forall i :: 0 <= i < |rs| ==> ts[i] == Tagged(i, rs[i])
  {
    seq(|rs|, i requires 0 <= i < |rs| => Tagged(i, rs[i]))
  }

  predicate TagLe(a: Tagged, b: Tagged)
  {
    ChainLe(a.r, b.r)
  }

  function Untag(ts: seq<Tagged>): (rs: seq<Receipt>)
    ensures |rs| == |ts|
    ensures forall i :: 0 <= i < |ts| ==> rs[i] == ts[i].r
  {
    seq(|ts|, i requires 0 <= i < |ts| => ts[i].r)
  }

  lemma UntagConcat(a: seq<Tagged>, b: seq<Tagged>)
    ensures Untag(a + b) == Untag(a) + Untag(b)
  {
  }

  lemma {:induction false} InsertUntag(t: Tagged, ts: seq<Tagged>)
    ensures Untag(Insert(t, ts, TagLe)) == Insert(t.r, Untag(ts), ChainLe)
  {
    hide ChainLe;
    if ts == [] || TagLe(t, ts[0]) {
      UntagConcat([t], ts);
    } else {
      InsertUntag(t, ts[1..]);
      assert Untag(ts)[1..] == Untag(ts[1..]);
      var rest := Insert(t, ts[1..], TagLe);
      UntagConcat([ts[0]], rest);
    }
  }

  /** Sorting objects sorts their values. */
  lemma {:induction false} SortUntag(ts: seq<Tagged>)
    ensures Untag(Sort(ts, TagLe)) == Sort(Untag(ts), ChainLe)
  {
    hide Insert, TagLe, ChainLe;
    if ts != [] {
      SortUntag(ts[1..]);
      InsertUntag(ts[0], Sort(ts[1..], TagLe));
      assert Untag(ts)[1..] == Untag(ts[1..]);
    }
  }

  ghost predicate Holds(ts: seq<Tagged>, index: nat)
  {
    exists t :: t in ts && t.index == index
  }

  /** `next(j for j, x in enumerate(sorted_rs) if x is r)`. */
  function PositionOf(ts: seq<Tagged>, index: nat): (j: nat)
    requires Holds(ts, index)
    ensures j < |ts| && ts[j].index == index
  {
    if ts[0].index == index then 0
    else
      assert ts == [ts[0]] + ts[1..];
      1 + PositionOf(ts[1..], index)
  }

  /** Objects keep their identity when sorted: every position is some object's. */
  lemma SortedObjects(rs: seq<Receipt>, ts: seq<Tagged>)
    requires ts == Sort(Tag(rs), TagLe)
    ensures |ts| == |rs|
    ensures forall i :: 0 <= i < |rs| ==> Holds(ts, i)
    ensures forall j :: 0 <= j < |ts| ==> ts[j].index < |rs| && ts[j].r == rs[ts[j].index]
    ensures forall j, k :: 0 <= j < k < |ts| ==> ts[j].index != ts[k].index
  {
    hide Sort;
    SameMembers(ts, Tag(rs));
    NoDupPermuted(Tag(rs), ts);
    forall i | 0 <= i < |rs|
      ensures Holds(ts, i)
    {
      assert Tag(rs)[i] in ts;
    }
    forall j | 0 <= j < |ts|
      ensures ts[j].index < |rs| && ts[j].r == rs[ts[j].index]
    {
      assert ts[j] in Tag(rs);
    }
  }

  // -------------------------------------------------------------- one agent's report

  /** The aggregate test: what `agent_ok` asks of an agent's receipts. */
  ghost predicate Clean(h: Sha, rs: seq<Receipt>)
  {
    && UniqueIds(rs)
    && NoReplay(h, rs)
    && (forall r :: r in rs ==> SchemaErrors(r) == [])
    && LinksClean(h, Sort(rs, ChainLe))
  }

  /** The link of object `i`, wherever sorting has put it, is wrong. */
  predicate BadFor(h: Sha, ts: seq<Tagged>, i: nat)
    requires Holds(ts, i)
  {
    LinkBad(h, Untag(ts), PositionOf(ts, i))
  }

  /** The per-receipt test: receipt `i` collects at least one error. */
  ghost predicate Invalid(h: Sha, rs: seq<Receipt>, ts: seq<Tagged>, i: nat)
    requires i < |rs| && Holds(ts, i)
  {
    || SchemaErrors(rs[i]) != []
    || CountIn(rs, {rs[i].receiptId}) > 1
    || |IdsWith(h, rs, BodyHash(h, rs[i]))| > 1
    || BadFor(h, ts, i)
  }

  /** Every position is reached by the object that sits there. */
  lemma AllLinksSeen(h: Sha, rs: seq<Receipt>, ts: seq<Tagged>)
    requires ts == Sort(Tag(rs), TagLe) && forall i :: 0 <= i < |rs| ==> Holds(ts, i)
    ensures LinksClean(h, Untag(ts)) <==> forall i :: 0 <= i < |rs| ==> !BadFor(h, ts, i)
  {
    hide Sort, RecordHash;
    SortedObjects(rs, ts);
    if LinksClean(h, Untag(ts)) {
      forall i | 0 <= i < |rs|
        ensures !BadFor(h, ts, i)
      {
        assert Holds(ts, i);
      }
    }
    if forall i :: 0 <= i < |rs| ==> !BadFor(h, ts, i) {
      forall j | 0 <= j < |ts|
        ensures !LinkBad(h, Untag(ts), j)
      {
        var i := ts[j].index;
        assert Holds(ts, i) && !BadFor(h, ts, i);
        assert PositionOf(ts, i) == j;
      }
    }
  }

  lemma CleanMeansNoneInvalid(h: Sha, rs: seq<Receipt>, ts: seq<Tagged>)
    requires (forall i :: 0 <= i < |rs| ==> Holds(ts, i)) && (forall i :: 0 <= i < |rs| ==> !BadFor(h, ts, i))
    requires forall r :: r in rs ==> SchemaErrors(r) == []
    requires forall r :: r in rs ==> CountIn(rs, {r.receiptId}) <= 1
    requires forall r :: r in rs ==> |IdsWith(h, rs, BodyHash(h, r))| <= 1
    ensures forall i :: 0 <= i < |rs| ==> !Invalid(h, rs, ts, i)
  {
    hide BodyHash, SchemaErrors, BadFor, CountIn, IdsWith;
    forall i | 0 <= i < |rs|
      ensures !Invalid(h, rs, ts, i)
    {
      assert rs[i] in rs;
    }
  }

  lemma NoneInvalidMeansClean(h: Sha, rs: seq<Receipt>, ts: seq<Tagged>)
    requires (forall i :: 0 <= i < |rs| ==> Holds(ts, i)) && (forall i :: 0 <= i < |rs| ==> !Invalid(h, rs, ts, i))
    ensures forall i :: 0 <= i < |rs| ==> !BadFor(h, ts, i)
    ensures forall r :: r in rs ==> SchemaErrors(r) == []
    ensures forall r :: r in rs ==> CountIn(rs, {r.receiptId}) <= 1
    ensures forall r :: r in rs ==> |IdsWith(h, rs, BodyHash(h, r))| <= 1
  {
    hide BodyHash, SchemaErrors, BadFor, CountIn, IdsWith;
    forall i | 0 <= i < |rs|
      ensures !BadFor(h, ts, i)
    {
      assert !Invalid(h, rs, ts, i);
    }
    forall r | r in rs
      ensures SchemaErrors(r) == [] && CountIn(rs, {r.receiptId}) <= 1 && |IdsWith(h, rs, BodyHash(h, r))| <= 1
    {
      var i :| 0 <= i < |rs| && rs[i] == r;
      assert !Invalid(h, rs, ts, i);
    }
  }

  /** An agent passes in aggregate exactly when none of its receipts is invalid. */
  lemma CleanIffNoneInvalid(h: Sha, rs: seq<Receipt>, ts: seq<Tagged>)
    requires ts == Sort(Tag(rs), TagLe) && forall i :: 0 <= i < |rs| ==> Holds(ts, i)
    ensures Clean(h, rs) <==> forall i :: 0 <= i < |rs| ==> !Invalid(h, rs, ts, i)
  {
    hide Sort, BodyHash, SchemaErrors, BadFor, CountIn, IdsWith, LinksClean, UniqueIds, NoReplay, Invalid, Holds;
    CountedOnce(rs);
    NoReplayIff(h, rs);
    AllLinksSeen(h, rs, ts);
    SortUntag(Tag(rs));
    assert Untag(Tag(rs)) == rs;
    if Clean(h, rs) {
      CleanMeansNoneInvalid(h, rs, ts);
    }
    if forall i :: 0 <= i < |rs| ==> !Invalid(h, rs, ts, i) {
      NoneInvalidMeansClean(h, rs, ts);
    }
  }

  /** Which receipts are invalid. */
  ghost function InvalidSet(h: Sha, rs: seq<Receipt>, ts: seq<Tagged>): set<nat>
    requires forall i :: 0 <= i < |rs| ==> Holds(ts, i)
  {
    InvalidUpTo(h, rs, ts, |rs|)
  }

  ghost function InvalidUpTo(h: Sha, rs: seq<Receipt>, ts: seq<Tagged>, n: nat): set<nat>
    requires n <= |rs| && forall i :: 0 <= i < |rs| ==> Holds(ts, i)
  {
    set i: nat | i < n && Invalid(h, rs, ts, i)
  }

  lemma NextInvalid(h: Sha, rs: seq<Receipt>, ts: seq<Tagged>, n: nat)
    requires n < |rs| && forall i :: 0 <= i < |rs| ==> Holds(ts, i)
    ensures |InvalidUpTo(h, rs, ts, n + 1)| == |InvalidUpTo(h, rs, ts, n)| + if Invalid(h, rs, ts, n) then 1 else 0
  {
    hide Invalid, Holds;
    var before, after := InvalidUpTo(h, rs, ts, n), InvalidUpTo(h, rs, ts, n + 1);
    if Invalid(h, rs, ts, n) {
      assert after == before + {n};
    } else {
      assert after == before;
    }
  }

  /** The loop that sorts receipts into valid and invalid ones. */
  method CountReceipts(h: Sha, rs: seq<Receipt>, ts: seq<Tagged>) returns (valid: nat, invalid: nat)
    requires forall i :: 0 <= i < |rs| ==> Holds(ts, i)
    ensures valid + invalid == |rs|
    ensures invalid == |InvalidSet(h, rs, ts)|
  {
    hide RecordHash, BodyHash, SchemaErrors, CountIn, IdsWith, PositionOf;
    var counts := CountIds(rs);
    var byHash := GroupByBody(h, rs);
    var sorted := Untag(ts);
    valid, invalid := 0, 0;
    for i := 0 to |rs|
      invariant valid + invalid == i
      invariant invalid == |InvalidUpTo(h, rs, ts, i)|
    {
      NextInvalid(h, rs, ts, i);
      var r := rs[i];
      assert r.receiptId in IdSet(rs) && BodyHash(h, r) in BodyHashes(h, rs);
      var errs := SchemaErrors(r) != [];
      if counts[r.receiptId] > 1 {
        errs := true;
      }
      if |byHash[BodyHash(h, r)]| > 1 {
        errs := true;
      }
      var pos := PositionOf(ts, i);
      assert LinkBad(h, sorted, pos) <==> BadFor(h, ts, i);
      if LinkBad(h, sorted, pos) {
        errs := true;
      }
      assert errs <==> Invalid(h, rs, ts, i);
      if errs {
        invalid := invalid + 1;
      } else {
        valid := valid + 1;
      }
    }
  }

  /** How many of an agent's receipts are invalid. */
  ghost function InvalidReceipts(h: Sha, rs: seq<Receipt>): nat
  {
    var ts := Sort(Tag(rs), TagLe);
    SortedObjects(rs, ts);
    |InvalidSet(h, rs, ts)|
  }

  lemma NoneInvalidIff(h: Sha, rs: seq<Receipt>, ts: seq<Tagged>)
    requires forall i :: 0 <= i < |rs| ==> Holds(ts, i)
    ensures |InvalidSet(h, rs, ts)| == 0 <==> forall i :: 0 <= i < |rs| ==> !Invalid(h, rs, ts, i)
  {
    hide Invalid, Holds;
    forall i | 0 <= i < |rs|
      ensures Invalid(h, rs, ts, i) <==> i in InvalidSet(h, rs, ts)
    {
    }
  }

  datatype Report = Report(
    receipts: nat, duplicates: nat, replays: nat, forged: nat, timeouts: nat, malformed: nat,
    valid: nat, invalid: nat, ok: bool)

  /** What `run_stress` finds out about one agent before it builds a bundle. */
  method Analyse(h: Sha, rs: seq<Receipt>) returns (report: Report, sorted: seq<Receipt>)
    ensures sorted == Sort(rs, ChainLe)
    ensures report.ok <==> Clean(h, rs)
    ensures report.ok <==> report.invalid == 0
    ensures report.valid + report.invalid == report.receipts == |rs|
    ensures InvalidReceipts(h, rs) == report.invalid
    ensures report.duplicates == |rs| - |IdSet(rs)|
    ensures report.replays == |ReplayedHashes(h, rs)|
    ensures report.timeouts == Timeouts(rs) && report.malformed == Malformed(rs)
    ensures report.forged == ForgedUpTo(h, sorted, |sorted|)
  {
    hide Sort, RecordHash, BodyHash, SchemaErrors, CountIn, IdsWith, Timeouts, Malformed, ForgedUpTo, IdSet, ReplayedHashes, LinksClean, UniqueIds, NoReplay, InvalidSet, Invalid;
    var duplicates := DuplicateExtraCount(rs);
    var replays := ReplayEventCount(h, rs);
    var timeouts, malformed, schemaClean := TallySchemaErrors(rs);
    var ts := Sort(Tag(rs), TagLe);
    SortUntag(Tag(rs));
    assert Untag(Tag(rs)) == rs;
    sorted := Untag(ts);
    var errors, forged := ChainLinkErrors(h, sorted);
    SortedObjects(rs, ts);
    var valid, invalid := CountReceipts(h, rs, ts);
    CleanIffNoneInvalid(h, rs, ts);
    NoneInvalidIff(h, rs, ts);
    IdSetSize(rs);
    NoReplayIff(h, rs);
    var ok := duplicates == 0 && replays == 0 && forged == 0 && schemaClean && errors == 0;
    report := Report(|rs|, duplicates, replays, forged, timeouts, malformed, valid, invalid, ok);
  }
}

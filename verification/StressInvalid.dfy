/**
 Exactly which receipts of an agent the stress runner counts as invalid, for each of
 the attacks, unless two bodies or two records collide.
 */
module StressInvalid {
  import opened Text
  import opened Sorting
  import opened Records
  import opened ReceiptStore
  import opened ReceiptChain
  import opened StressChecks
  import opened StressAgents

  /** The positions in an agent's list that the attack spoils. */
  function Spoiled(attack: Attack, n: nat): set<nat>
  {
    if n == 0 then {}
    else
      match attack
      case NoAttack => {}
      case DuplicateId => {0, n}
      case Replay(_) => if n > 1 then {0, 1, n} else {0, n}
      case Timeout => {n - 1}
      case BadStatus => {n - 1}
      case ForgedChain => if n > 2 then {1, 2} else if n > 1 then {1} else {}
  }

  function SpoiledCount(attack: Attack, n: nat): nat
  {
    if n == 0 then 0
    else
      match attack
      case NoAttack => 0
      case DuplicateId => 2
      case Replay(_) => if n > 1 then 3 else 2
      case Timeout => 1
      case BadStatus => 1
      case ForgedChain => if n > 2 then 2 else if n > 1 then 1 else 0
  }

  lemma SpoiledSize(attack: Attack, n: nat)
    ensures |Spoiled(attack, n)| == SpoiledCount(attack, n)
  {
  }

  // ------------------------------------------------------------------- where objects end up

  ghost predicate InStepOrder(t: seq<Receipt>)
  {
    forall i :: 0 <= i < |t| ==> t[i].stepIndex == i
  }

  /** Objects already in step order stay where they are. */
  lemma TagsStay(t: seq<Receipt>)
    requires InStepOrder(t)
    ensures Sort(Tag(t), TagLe) == Tag(t)
  {
    hide Sort;
    SortOfSorted(Tag(t), TagLe);
  }

  lemma {:induction false} PositionIs(ts: seq<Tagged>, i: nat, p: nat)
    requires p < |ts| && ts[p].index == i && forall j, k :: 0 <= j < k < |ts| ==> ts[j].index != ts[k].index
    requires Holds(ts, i)
    ensures PositionOf(ts, i) == p
  {
  }

  /** The sorted list once a copy of its first receipt has been appended. */
  function WithCopy(rs: seq<Receipt>, clone: Receipt): (ts: seq<Tagged>)
    requires rs != []
    ensures |ts| == |rs| + 1
  {
    [Tagged(0, rs[0]), Tagged(|rs|, clone)] + Tag(rs)[1..]
  }

  lemma CopyGoesSecond(rs: seq<Receipt>, clone: Receipt)
    requires rs != [] && InStepOrder(rs) && clone.stepIndex == 0 && StrLe(rs[0].receiptId, clone.receiptId)
    ensures Sort(Tag(rs + [clone]), TagLe) == WithCopy(rs, clone)
  {
    hide Sort, Insert, StrLt;
    var rest, first, copy := Tag(rs)[1..], Tagged(0, rs[0]), Tagged(|rs|, clone);
    assert Tag(rs + [clone]) == [first] + (rest + [copy]);
    assert Sorted(rest, TagLe);
    SmallestMovesFirst(rest, copy, TagLe);
    SortCons(first, rest + [copy], TagLe);
    assert TagLe(first, ([copy] + rest)[0]);
    InsertFirst(first, [copy] + rest, TagLe);
    assert [first] + ([copy] + rest) == WithCopy(rs, clone);
  }

  // ------------------------------------------------------------------------------ bad links

  /** Which objects have a wrong link after the attack. */
  predicate LinkSpoiled(attack: Attack, n: nat, i: nat)
  {
    match attack
    case DuplicateId => i == n
    case Replay(_) => i == n || (i == 1 && n > 1)
    case ForgedChain => n > 1 && (i == 1 || i == 2)
    case NoAttack => false
    case Timeout => false
    case BadStatus => false
  }

  /** The links of a chain with a copy of its first receipt behind it. */
  lemma CopyLinkAt(h: Sha, rs: seq<Receipt>, clone: Receipt, p: nat)
    requires HexValued(h) && rs != [] && Linked(h, rs) && clone.prevReceiptHash == rs[0].prevReceiptHash && p <= |rs|
    ensures var s := [rs[0], clone] + rs[1..];
            LinkBad(h, s, p) <==> p == 1 || (p == 2 && RecordHash(h, rs[0]) != RecordHash(h, clone))
  {
    hide ReceiptText;
    var s := [rs[0], clone] + rs[1..];
    assert LinkOk(h, rs, 0);
    assert IsHex64(h(ReceiptText(rs[0])));
    if p >= 2 {
      assert LinkOk(h, rs, p - 1) && s[p] == rs[p - 1];
      assert p > 2 ==> s[p - 1] == rs[p - 2];
    }
  }

  lemma WithCopyPlaces(rs: seq<Receipt>, clone: Receipt, i: nat)
    requires rs != [] && i <= |rs|
    ensures var ts := WithCopy(rs, clone);
            && Untag(ts) == [rs[0], clone] + rs[1..] && Holds(ts, i)
            && PositionOf(ts, i) == if i == 0 then 0 else if i == |rs| then 1 else i + 1
  {
    hide PositionOf;
    var ts := WithCopy(rs, clone);
    var p := if i == 0 then 0 else if i == |rs| then 1 else i + 1;
    assert ts[p].index == i && ts[p] in ts;
    PositionIs(ts, i, p);
  }

  lemma TagPlaces(t: seq<Receipt>, i: nat)
    requires i < |t|
    ensures Untag(Tag(t)) == t && Holds(Tag(t), i) && PositionOf(Tag(t), i) == i
  {
    hide PositionOf;
    assert Tag(t)[i] in Tag(t);
    PositionIs(Tag(t), i, i);
  }

  lemma CopyBadFor(h: Sha, rs: seq<Receipt>, clone: Receipt, i: nat)
    requires HexValued(h) && rs != [] && Linked(h, rs) && i <= |rs|
    requires clone.prevReceiptHash == rs[0].prevReceiptHash && clone.stepIndex == 0
    requires StrLe(rs[0].receiptId, clone.receiptId)
    ensures var ts := Sort(Tag(rs + [clone]), TagLe);
            Holds(ts, i) && (BadFor(h, ts, i) <==>
              i == |rs| || (i == 1 && RecordHash(h, rs[0]) != RecordHash(h, clone)))
  {
    hide Sort, LinkBad, RecordHash, PositionOf, Holds, StrLt, LinkOk;
    CopyGoesSecond(rs, clone);
    WithCopyPlaces(rs, clone, i);
    CopyLinkAt(h, rs, clone, if i == 0 then 0 else if i == |rs| then 1 else i + 1);
  }

  lemma PlainBadFor(h: Sha, t: seq<Receipt>, i: nat)
    requires InStepOrder(t) && i < |t|
    ensures var ts := Sort(Tag(t), TagLe); Holds(ts, i) && (BadFor(h, ts, i) <==> LinkBad(h, t, i))
  {
    hide Sort, LinkBad, PositionOf, Holds;
    TagsStay(t);
    TagPlaces(t, i);
  }

  /** Attacks that copy nothing: only a forged link, and the link behind it, go wrong. */
  lemma PlainLinkAt(h: Sha, rs: seq<Receipt>, attack: Attack, i: nat)
    requires HexValued(h) && Linked(h, rs) && i < |rs| && !attack.DuplicateId? && !attack.Replay?
    ensures var t := Attacked(rs, attack);
            && InStepOrder(t)
            && (LinkBad(h, t, i) <==>
                  attack.ForgedChain? && |rs| > 1 && (i == 1 || (i == 2 && RecordHash(h, rs[1]) != RecordHash(h, t[1]))))
  {
    hide ReceiptText;
    var t := Attacked(rs, attack);
    assert LinkOk(h, rs, i);
    if i > 0 {
      assert LinkOk(h, rs, i - 1);
      assert IsHex64(h(ReceiptText(rs[i - 1])));
    }
  }

  /** Which objects have a wrong link, unless two records collide. */
  lemma BadLinks(h: Sha, seed: int, agent: nat, n: nat, attack: Attack, i: nat)
    requires HexValued(h)
    requires var rs := Honest(h, seed, agent, n);
             var t := Attacked(rs, attack);
             i < |t| && !CollisionAmong(h, rs + t)
    ensures var ts := Sort(Tag(Attacked(Honest(h, seed, agent, n), attack)), TagLe);
            Holds(ts, i) && (BadFor(h, ts, i) <==> LinkSpoiled(attack, n, i))
  {
    hide Honest, Sort, RecordHash, LinkBad, BadFor, Holds, ReplayClone, CollisionAmong, StrLt, LinkOk;
    var rs := Honest(h, seed, agent, n);
    var t := Attacked(rs, attack);
    HonestLinked(h, seed, agent, n);
    if attack.DuplicateId? || attack.Replay? {
      var clone, suffix := t[n], if attack.Replay? then attack.suffix else 0;
      CloneLink(rs[0], suffix);
      CloneAfter(rs[0], suffix);
      CloneStep(rs[0], suffix);
      CopyBadFor(h, rs, clone, i);
      if attack.Replay? && RecordHash(h, rs[0]) == RecordHash(h, clone) {
        SameRecordCollides(h, rs + t, rs[0], clone);
      }
    } else {
      PlainLinkAt(h, rs, attack, i);
      PlainBadFor(h, t, i);
      if attack.ForgedChain? && n > 1 && RecordHash(h, rs[1]) == RecordHash(h, t[1]) {
        ForgedDiffers(h, rs);
        SameRecordCollides(h, rs + t, rs[1], t[1]);
      }
    }
  }

  lemma CloneStep(r: Receipt, suffix: nat)
    ensures ReplayClone(r, suffix).stepIndex == r.stepIndex
  {
  }

  // ---------------------------------------------------------------------------- repeated ids

  lemma CountInSnoc(rs: seq<Receipt>, r: Receipt, ids: set<string>)
    ensures CountIn(rs + [r], ids) == CountIn(rs, ids) + if r.receiptId in ids then 1 else 0
  {
    assert (rs + [r])[..|rs|] == rs;
  }

  lemma UniqueCount(rs: seq<Receipt>, i: nat)
    requires UniqueIds(rs) && i < |rs|
    ensures CountIn(rs, {rs[i].receiptId}) == 1
  {
    hide CountIn, UniqueIds;
    CountedOnce(rs);
    assert rs[i] in rs;
    CountPositive(rs, rs[i].receiptId);
  }

  /** Only a duplicated id is counted twice, at both places. */
  lemma RepeatedIds(h: Sha, seed: int, agent: nat, n: nat, attack: Attack, i: nat)
    requires i < |Attacked(Honest(h, seed, agent, n), attack)|
    ensures var t := Attacked(Honest(h, seed, agent, n), attack);
            CountIn(t, {t[i].receiptId}) > 1 <==> attack.DuplicateId? && (i == 0 || i == n)
  {
    hide Honest, CountIn, ReplayClone, IdSet;
    var rs := Honest(h, seed, agent, n);
    var t := Attacked(rs, attack);
    HonestUniqueIds(h, seed, agent, n);
    if attack.DuplicateId? {
      var k := if i == n then 0 else i;
      UniqueCount(rs, k);
      CountInSnoc(rs, rs[0], {rs[k].receiptId});
    } else {
      assert UniqueIds(t) by {
        if attack.Replay? && n > 0 {
          CloneIdNew(h, seed, agent, n, attack.suffix);
          IdSetSnoc(rs, t[n]);
        } else {
          SameIds(rs, t);
        }
      }
      UniqueCount(t, i);
    }
  }

  // -------------------------------------------------------------------------- repeated bodies

  /** Unless bodies collide, only a replayed body has two ids, at both places. */
  lemma RepeatedBodies(h: Sha, seed: int, agent: nat, n: nat, attack: Attack, i: nat)
    requires var t := Attacked(Honest(h, seed, agent, n), attack); i < |t| && !BodiesCollide(h, t)
    ensures var t := Attacked(Honest(h, seed, agent, n), attack);
            |IdsWith(h, t, BodyHash(h, t[i]))| > 1 <==> attack.Replay? && (i == 0 || i == n)
  {
    hide Honest, BodyText, IdByStep, BodiesCollide, ReplayClone;
    var rs := Honest(h, seed, agent, n);
    var t := Attacked(rs, attack);
    var x := BodyHash(h, t[i]);
    AttackedIds(h, seed, agent, n, attack);
    if attack.Replay? && (i == 0 || i == n) {
      SharedBody(rs[0], attack.suffix);
      assert t[0] in t && t[n] in t;
      TwoIds(IdsWith(h, t, x), t[0].receiptId, t[n].receiptId);
    } else if |IdsWith(h, t, x)| > 1 {
      var a, b := ManyIds(IdsWith(h, t, x));
      var r :| r in t && BodyHash(h, r) == x && r.receiptId == a;
      var q :| q in t && BodyHash(h, q) == x && q.receiptId == b;
      SameAsStep(h, seed, agent, n, attack, i, r);
      SameAsStep(h, seed, agent, n, attack, i, q);
      assert false;
    }
  }

  lemma SharedBody(r: Receipt, suffix: nat)
    ensures BodyText(ReplayClone(r, suffix)) == BodyText(r) && ReplayClone(r, suffix).receiptId != r.receiptId
  {
    hide BodyText, Dec;
    BodyRecovered(ReplayClone(r, suffix), r);
    assert |ReplayClone(r, suffix).receiptId| > |r.receiptId|;
  }

  /** Whoever has the body of a receipt that was not replayed has its id. */
  lemma SameAsStep(h: Sha, seed: int, agent: nat, n: nat, attack: Attack, i: nat, r: Receipt)
    requires var t := Attacked(Honest(h, seed, agent, n), attack);
             i < |t| && r in t && BodyHash(h, r) == BodyHash(h, t[i]) && !BodiesCollide(h, t)
    requires !(attack.Replay? && (i == 0 || i == n))
    ensures r.receiptId == Attacked(Honest(h, seed, agent, n), attack)[i].receiptId
  {
    hide Honest, BodyText, IdByStep, BodiesCollide, ReplayClone;
    var rs := Honest(h, seed, agent, n);
    var t := Attacked(rs, attack);
    AttackedIds(h, seed, agent, n, attack);
    var j :| 0 <= j < |t| && t[j] == r;
    assert IdByStep(seed, agent, t[i]);
    if attack.Replay? && j == n {
      SharedBody(rs[0], attack.suffix);
      assert t[0] in t && IdByStep(seed, agent, t[0]);
      ReplayNeedsClone(h, seed, agent, t, t[0], t[i]);
      HonestUniqueIds(h, seed, agent, n);
      assert false;
    } else {
      assert IdByStep(seed, agent, t[j]);
      ReplayNeedsClone(h, seed, agent, t, t[j], t[i]);
    }
  }

  // --------------------------------------------------------------------------- all together

  /** Schema errors are where the attack put them. */
  lemma SchemaSpoiled(h: Sha, seed: int, agent: nat, n: nat, attack: Attack, i: nat)
    requires FitsAgent(agent, n) && i < |Attacked(Honest(h, seed, agent, n), attack)|
    ensures SchemaErrors(Attacked(Honest(h, seed, agent, n), attack)[i]) != [] <==>
            (attack.Timeout? || attack.BadStatus?) && i == n - 1
  {
    hide Honest, SchemaErrors, ReplayClone, OtherwiseClean, TimeErrors;
    var rs := Honest(h, seed, agent, n);
    forall k | 0 <= k < n
      ensures SchemaErrors(rs[k]) == [] && OtherwiseClean(rs[k])
    {
      HonestSchemaClean(h, seed, agent, n, k);
    }
    CloneSchema(rs[0], if attack.Replay? then attack.suffix else 0, FORGED_HASH);
    if n > 1 {
      CloneSchema(rs[1], 0, FORGED_HASH);
    }
    LastAttacked(h, seed, agent, n);
  }

  lemma InvalidAt(h: Sha, seed: int, agent: nat, n: nat, attack: Attack, i: nat)
    requires HexValued(h) && FitsAgent(agent, n)
    requires var rs := Honest(h, seed, agent, n);
             var t := Attacked(rs, attack);
             i < |t| && !BodiesCollide(h, t) && !CollisionAmong(h, rs + t)
    ensures var t := Attacked(Honest(h, seed, agent, n), attack);
            var ts := Sort(Tag(t), TagLe);
            Holds(ts, i) && (Invalid(h, t, ts, i) <==> i in Spoiled(attack, n))
  {
    hide Honest, Sort, BadFor, Holds, SchemaErrors, CountIn, IdsWith, BodyHash, BodiesCollide, CollisionAmong, ReplayClone;
    SchemaSpoiled(h, seed, agent, n, attack, i);
    RepeatedIds(h, seed, agent, n, attack, i);
    RepeatedBodies(h, seed, agent, n, attack, i);
    BadLinks(h, seed, agent, n, attack, i);
  }

  /**
   How many of an agent's receipts are invalid: two for a duplicate, three for a replay
   of a longer chain, one for swapped times or a bad status, two for a forged link with
   a receipt behind it, none without an attack; or bodies or records collide.
   */
  lemma InvalidExactly(h: Sha, seed: int, agent: nat, n: nat, attack: Attack)
    requires HexValued(h) && FitsAgent(agent, n)
    ensures var rs := Honest(h, seed, agent, n);
            var t := Attacked(rs, attack);
            || InvalidReceipts(h, t) == SpoiledCount(attack, n)
            || BodiesCollide(h, t) || CollisionAmong(h, rs + t)
  {
    hide Honest, Sort, Invalid, Holds, BodiesCollide, CollisionAmong, ReplayClone, Spoiled, SpoiledCount;
    var rs := Honest(h, seed, agent, n);
    var t := Attacked(rs, attack);
    if !BodiesCollide(h, t) && !CollisionAmong(h, rs + t) {
      var ts := Sort(Tag(t), TagLe);
      SortedObjects(t, ts);
      forall i | 0 <= i < |t|
        ensures Invalid(h, t, ts, i) <==> i in Spoiled(attack, n)
      {
        InvalidAt(h, seed, agent, n, attack, i);
      }
      SpoiledInside(attack, n);
      assert InvalidSet(h, t, ts) == Spoiled(attack, n);
      SpoiledSize(attack, n);
    }
  }

  lemma SpoiledInside(attack: Attack, n: nat)
    ensures forall i :: i in Spoiled(attack, n) ==> n > 0 && i < n + if attack.DuplicateId? || attack.Replay? then 1 else 0
  {
  }
}

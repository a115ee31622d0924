/**
 The write-once, in-memory receipt store and its sorted listings. A store's dict is
 the sequence of its receipts in insertion order, each under its own receipt id.
 */
module ReceiptStore {
  import opened Text
  import opened Sorting
  import opened JsonDict
  import opened Records

  // ------------------------------------------------------------------- contents

  ghost predicate UniqueIds(s: seq<Receipt>)
  {
    forall i, j :: 0 <= i < j < |s| ==> s[i].receiptId != s[j].receiptId
  }

  /** `self._by_id.get(id)`. */
  function Find(s: seq<Receipt>, id: string): (r: Option<Receipt>)
    ensures r.Some? ==> r.value in s && r.value.receiptId == id
    ensures r.None? ==> forall x :: x in s ==> x.receiptId != id
  {
    if s == [] then None
    else if s[0].receiptId == id then Some(s[0])
    else Find(s[1..], id)
  }

  datatype Saved = Stored(entries: seq<Receipt>) | Refused(receiptId: string)

  /** One `save_receipt`: write once, ignore a repetition, refuse a different payload. */
  function Save(h: Sha, s: seq<Receipt>, r: Receipt): Saved
  {
    match Find(s, r.receiptId)
    case None => Stored(s + [r])
    case Some(x) => if RecordHash(h, x) == RecordHash(h, r) then Stored(s) else Refused(r.receiptId)
  }

  /** A batch of saves that stops at the first refusal. */
  function SaveAll(h: Sha, s: seq<Receipt>, batch: seq<Receipt>): Saved
    decreases |batch|
  {
    if batch == [] then Stored(s)
    else
      match Save(h, s, batch[0])
      case Refused(id) => Refused(id)
      case Stored(s') => SaveAll(h, s', batch[1..])
  }

  lemma {:induction false} SaveAllSnoc(h: Sha, s: seq<Receipt>, batch: seq<Receipt>, r: Receipt)
    requires SaveAll(h, s, batch).Stored?
    ensures SaveAll(h, s, batch + [r]) == Save(h, SaveAll(h, s, batch).entries, r)
    decreases |batch|
  {
    hide Save;
    if batch == [] {
      assert batch + [r] == [r];
    } else {
      assert (batch + [r])[1..] == batch[1..] + [r];
      SaveAllSnoc(h, Save(h, s, batch[0]).entries, batch[1..], r);
    }
  }

  // ------------------------------------------------------------------- listings

  function OfTask(s: seq<Receipt>, taskId: string): (r: seq<Receipt>)
    ensures forall x :: x in r <==> x in s && x.taskId == taskId
  {
    if s == [] then []
    else
      assert s == [s[0]] + s[1..];
      (if s[0].taskId == taskId then [s[0]] else []) + OfTask(s[1..], taskId)
  }

  predicate StepLe(a: Receipt, b: Receipt)
  {
    a.stepIndex <= b.stepIndex
  }

  /** The key `(step_index, receipt_id)`. */
  predicate ChainLe(a: Receipt, b: Receipt)
  {
    a.stepIndex < b.stepIndex || (a.stepIndex == b.stepIndex && StrLe(a.receiptId, b.receiptId))
  }

  /** `list_receipts_by_task`: stable by step, ties in insertion order. */
  function ListByTask(s: seq<Receipt>, taskId: string): seq<Receipt>
  {
    Sort(OfTask(s, taskId), StepLe)
  }

  /** The chain the verifier works on: the listing sorted once more by (step, id). */
  function ChainOf(s: seq<Receipt>, taskId: string): seq<Receipt>
  {
    Sort(ListByTask(s, taskId), ChainLe)
  }

  lemma StepLeTotal()
    ensures TotalPreorder(StepLe)
  {
  }

  lemma ChainLeTotal()
    ensures TotalPreorder(ChainLe)
  {
    forall x: Receipt, y: Receipt
      ensures ChainLe(x, y) || ChainLe(y, x)
    {
      StrLtTrichotomy(x.receiptId, y.receiptId);
    }
    forall x: Receipt, y: Receipt, z: Receipt | ChainLe(x, y) && ChainLe(y, z)
      ensures ChainLe(x, z)
    {
      if x.stepIndex == y.stepIndex == z.stepIndex {
        StrLeTransitive(x.receiptId, y.receiptId, z.receiptId);
      }
    }
  }

  lemma UniqueNoTies(s: seq<Receipt>)
    requires UniqueIds(s)
    ensures NoTies(s, ChainLe)
  {
    forall x, y | x in s && y in s && ChainLe(x, y) && ChainLe(y, x)
      ensures x == y
    {
      StrLtTrichotomy(x.receiptId, y.receiptId);
    }
  }

  lemma {:induction false} UniqueOfTask(s: seq<Receipt>, taskId: string)
    requires UniqueIds(s)
    ensures UniqueIds(OfTask(s, taskId))
  {
    if s != [] {
      UniqueOfTask(s[1..], taskId);
      assert forall x :: x in OfTask(s[1..], taskId) ==> x in s[1..];
    }
  }

  /** The two sorts together are one sort by (step, id), whatever the insertion order. */
  lemma TwoStageSort(s: seq<Receipt>, taskId: string)
    requires UniqueIds(s)
    ensures ChainOf(s, taskId) == Sort(OfTask(s, taskId), ChainLe)
    ensures Sorted(ChainOf(s, taskId), ChainLe)
    ensures multiset(ChainOf(s, taskId)) == multiset(OfTask(s, taskId))
    ensures forall x :: x in ChainOf(s, taskId) <==> x in s && x.taskId == taskId
  {
    UniqueOfTask(s, taskId);
    UniqueNoTies(OfTask(s, taskId));
    ChainLeTotal();
    SortSorts(ListByTask(s, taskId), ChainLe);
    SortCanonical(OfTask(s, taskId), ListByTask(s, taskId), ChainLe);
    SameMembers(ChainOf(s, taskId), OfTask(s, taskId));
  }

  /** A task's chain depends only on which receipts of the task are stored. */
  lemma ChainDependsOnContents(a: seq<Receipt>, b: seq<Receipt>, taskId: string)
    requires UniqueIds(a) && UniqueIds(b)
    requires forall r: Receipt :: r.taskId == taskId ==> (r in a <==> r in b)
    ensures ChainOf(a, taskId) == ChainOf(b, taskId)
  {
    TwoStageSort(a, taskId);
    TwoStageSort(b, taskId);
    UniqueOfTask(a, taskId);
    UniqueOfTask(b, taskId);
    NoDupSameMembers(OfTask(a, taskId), OfTask(b, taskId));
    UniqueNoTies(OfTask(a, taskId));
    ChainLeTotal();
    SortCanonical(OfTask(a, taskId), OfTask(b, taskId), ChainLe);
  }

  // --------------------------------------------------------------------- delivery

  /** Receipts that share an id also share a fingerprint. */
  ghost predicate ConflictFree(h: Sha, rs: seq<Receipt>)
  {
    forall x, y :: x in rs && y in rs && x.receiptId == y.receiptId ==> RecordHash(h, x) == RecordHash(h, y)
  }

  /** Two of the receipts at hand are different and hash alike. */
  ghost predicate CollisionAmong(h: Sha, rs: seq<Receipt>)
  {
    exists x, y :: x in rs && y in rs && Collides(h, ReceiptText(x), ReceiptText(y))
  }

  /** `e` has an entry with the id and the fingerprint of `x`. */
  predicate Known(h: Sha, e: seq<Receipt>, x: Receipt)
  {
    Find(e, x.receiptId).Some? && RecordHash(h, Find(e, x.receiptId).value) == RecordHash(h, x)
  }

  /** `e` holds exactly one representative, from `rs`, of every id in `rs`. */
  ghost predicate Represents(h: Sha, e: seq<Receipt>, rs: seq<Receipt>)
  {
    && UniqueIds(e)
    && (forall x :: x in e ==> x in rs)
    && (forall x :: x in rs ==> Known(h, e, x))
  }

  lemma {:induction false} FindAppend(s: seq<Receipt>, r: Receipt, id: string)
    ensures Find(s + [r], id) ==
            if Find(s, id).Some? then Find(s, id) else if r.receiptId == id then Some(r) else None
  {
    if s == [] {
      assert s + [r] == [r];
    } else {
      assert (s + [r])[1..] == s[1..] + [r];
      FindAppend(s[1..], r, id);
    }
  }

  lemma {:induction false} FindMember(s: seq<Receipt>, r: Receipt)
    requires UniqueIds(s) && r in s
    ensures Find(s, r.receiptId) == Some(r)
  {
    if s[0] != r {
      assert s == [s[0]] + s[1..];
      FindMember(s[1..], r);
    }
  }

  lemma SaveStep(h: Sha, s: seq<Receipt>, rs: seq<Receipt>, r: Receipt)
    requires Represents(h, s, rs)
    ensures Save(h, s, r).Stored? ==> Represents(h, Save(h, s, r).entries, rs + [r])
    ensures Save(h, s, r).Refused? ==> !ConflictFree(h, rs + [r])
  {
    hide ReceiptText;
    match Find(s, r.receiptId) {
      case None =>
        forall x | x in rs + [r]
          ensures Known(h, s + [r], x)
        {
          FindAppend(s, r, x.receiptId);
        }
      case Some(y) =>
        assert y in rs + [r] && r in rs + [r];
    }
  }

  /** A batch is accepted exactly when it and the store are free of conflicts. */
  lemma {:induction false} SaveAllRepresents(h: Sha, s: seq<Receipt>, rs: seq<Receipt>, batch: seq<Receipt>)
    requires Represents(h, s, rs)
    ensures ConflictFree(h, rs + batch) ==> SaveAll(h, s, batch).Stored?
    ensures SaveAll(h, s, batch).Stored? ==> Represents(h, SaveAll(h, s, batch).entries, rs + batch)
    decreases |batch|
  {
    hide ReceiptText;
    if batch == [] {
      assert rs + batch == rs;
    } else {
      SaveStep(h, s, rs, batch[0]);
      var rs' := rs + [batch[0]];
      assert rs + batch == rs' + batch[1..];
      match Save(h, s, batch[0]) {
        case Stored(s') => SaveAllRepresents(h, s', rs', batch[1..]);
        case Refused(_) =>
          assert forall x :: x in rs' ==> x in rs' + batch[1..];
      }
    }
  }

  lemma RepresentsConflictFree(h: Sha, e: seq<Receipt>, rs: seq<Receipt>)
    requires Represents(h, e, rs)
    ensures ConflictFree(h, rs)
  {
    hide ReceiptText;
    assert forall x :: x in rs ==> Known(h, e, x);
  }

  /** Without a collision a store holds exactly the receipts it was given. */
  lemma RepresentsAll(h: Sha, e: seq<Receipt>, rs: seq<Receipt>)
    requires Represents(h, e, rs)
    ensures CollisionAmong(h, rs) || forall r :: r in e <==> r in rs
  {
    hide ReceiptText;
    if !CollisionAmong(h, rs) {
      forall x | x in rs
        ensures x in e
      {
        assert Known(h, e, x);
        var y := Find(e, x.receiptId).value;
        RecordHashCommits(h, x, y);
      }
    }
  }

  lemma StoreRepresentsItself(h: Sha, s: seq<Receipt>)
    requires UniqueIds(s)
    ensures Represents(h, s, s)
  {
    hide ReceiptText;
    forall x | x in s
      ensures Known(h, s, x)
    {
      FindMember(s, x);
    }
  }

  /**
   Delivery order and repetition do not matter: two batches made of the same
   receipts are both accepted or both refused, and when accepted they leave the
   same receipts and the same chain of every task (or two delivered receipts
   collide).
   */
  lemma DeliveryOrderIrrelevant(h: Sha, s: seq<Receipt>, a: seq<Receipt>, b: seq<Receipt>)
    requires UniqueIds(s)
    requires forall r :: r in a <==> r in b
    ensures SaveAll(h, s, a).Stored? <==> ConflictFree(h, s + a)
    ensures SaveAll(h, s, a).Stored? <==> SaveAll(h, s, b).Stored?
    ensures SaveAll(h, s, a).Stored? ==>
              || CollisionAmong(h, s + a)
              || (&& (forall r :: r in SaveAll(h, s, a).entries <==> r in SaveAll(h, s, b).entries)
                  && (forall taskId :: ChainOf(SaveAll(h, s, a).entries, taskId) == ChainOf(SaveAll(h, s, b).entries, taskId)))
  {
    hide ReceiptText, SaveAll, ChainOf, Known;
    StoreRepresentsItself(h, s);
    SaveAllRepresents(h, s, s, a);
    SaveAllRepresents(h, s, s, b);
    assert forall r :: r in s + a <==> r in s + b;
    assert ConflictFree(h, s + a) <==> ConflictFree(h, s + b);
    if SaveAll(h, s, a).Stored? {
      RepresentsConflictFree(h, SaveAll(h, s, a).entries, s + a);
    }
    if SaveAll(h, s, b).Stored? {
      RepresentsConflictFree(h, SaveAll(h, s, b).entries, s + b);
    }
    if SaveAll(h, s, a).Stored? && !CollisionAmong(h, s + a) {
      var x, y := SaveAll(h, s, a).entries, SaveAll(h, s, b).entries;
      RepresentsAll(h, x, s + a);
      RepresentsAll(h, y, s + b);
      forall taskId
        ensures ChainOf(x, taskId) == ChainOf(y, taskId)
      {
        ChainDependsOnContents(x, y, taskId);
      }
    }
  }

  // ------------------------------------------------------------------ the object

  class InMemoryReceiptStore {
    var byId: seq<Receipt>

    ghost predicate Valid()
      reads this
    {
      UniqueIds(byId)
    }

    constructor ()
      ensures Valid() && byId == []
    {
      byId := [];
    }

    /** `raised` stands for the ValueError; a refused save changes nothing. */
    method SaveReceipt(h: Sha, receipt: Receipt) returns (raised: bool)
      requires Valid()
      modifies this
      ensures Valid()
      ensures raised <==> Save(h, old(byId), receipt).Refused?
      ensures byId == if raised then old(byId) else Save(h, old(byId), receipt).entries
    {
      var existing := Find(byId, receipt.receiptId);
      if existing.Some? {
        return RecordHash(h, existing.value) != RecordHash(h, receipt);
      }
      byId := byId + [receipt];
      raised := false;
    }

    /** `_sync_store`: saves in order and stops at the first refusal. */
    method SaveReceipts(h: Sha, receipts: seq<Receipt>) returns (raised: bool)
      requires Valid()
      modifies this
      ensures Valid()
      ensures raised <==> SaveAll(h, old(byId), receipts).Refused?
      ensures !raised ==> byId == SaveAll(h, old(byId), receipts).entries
      ensures raised ==>
                exists k :: 0 <= k < |receipts|
                  && SaveAll(h, old(byId), receipts[..k]) == Stored(byId) && Save(h, byId, receipts[k]).Refused?
    {
      hide Save;
      assert receipts[0..] == receipts;
      for i := 0 to |receipts|
        invariant Valid()
        invariant SaveAll(h, old(byId), receipts[..i]) == Stored(byId)
        invariant SaveAll(h, old(byId), receipts) == SaveAll(h, byId, receipts[i..])
      {
        assert receipts[i..][1..] == receipts[i + 1..];
        assert receipts[..i + 1] == receipts[..i] + [receipts[i]];
        SaveAllSnoc(h, old(byId), receipts[..i], receipts[i]);
        raised := SaveReceipt(h, receipts[i]);
        if raised {
          return;
        }
      }
      assert receipts[..|receipts|] == receipts;
      raised := false;
    }

    method GetReceipt(receiptId: string) returns (r: Option<Receipt>)
      requires Valid()
      ensures r.Some? <==> exists x :: x in byId && x.receiptId == receiptId
      ensures r.Some? ==> r.value in byId && r.value.receiptId == receiptId
    {
      r := Find(byId, receiptId);
    }

    method GetReceiptChain(taskId: string) returns (chain: seq<Receipt>)
      requires Valid()
      ensures chain == ListByTask(byId, taskId)
      ensures Sorted(chain, StepLe)
      ensures forall x :: x in chain <==> x in byId && x.taskId == taskId
    {
      chain := ListByTask(byId, taskId);
      StepLeTotal();
      SortSorts(OfTask(byId, taskId), StepLe);
      SameMembers(chain, OfTask(byId, taskId));
    }
  }
}

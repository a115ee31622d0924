/**
 Dicts as finite maps: canonical text identifies two dicts exactly when they hold
 the same keys with the same values, whatever order the entries were inserted in.
 */
module JsonDict {
  import opened Text
  import opened Sorting
  import opened Json
  import opened JsonRoundTrip

  datatype Option<+T> = None | Some(value: T)

  ghost predicate DistinctKeys(fields: seq<Field>)
  {
    forall i, j :: 0 <= i < j < |fields| ==> fields[i].key != fields[j].key
  }

  /** `d.get(key)`. */
  function Lookup(fields: seq<Field>, key: string): Option<Value>
  {
    if fields == [] then None
    else if fields[0].key == key then Some(fields[0].value)
    else Lookup(fields[1..], key)
  }

  /** `{k: d[k] for k in d if k not in skip}`. */
  function Without(fields: seq<Field>, skip: set<string>): seq<Field>
  {
    if fields == [] then []
    else if fields[0].key in skip then Without(fields[1..], skip)
    else [fields[0]] + Without(fields[1..], skip)
  }

  // ------------------------------------------------------------------- look-ups

  lemma {:induction false} LookupSome(fields: seq<Field>, key: string, v: Value)
    requires Lookup(fields, key) == Some(v)
    ensures Field(key, v) in fields
  {
    if fields[0].key != key {
      LookupSome(fields[1..], key, v);
    }
  }

  lemma {:induction false} LookupNone(fields: seq<Field>, key: string)
    requires Lookup(fields, key) == None
    ensures forall f :: f in fields ==> f.key != key
  {
    if fields != [] {
      LookupNone(fields[1..], key);
      assert fields == [fields[0]] + fields[1..];
    }
  }

  lemma {:induction false} LookupAbsent(fields: seq<Field>, key: string)
    requires forall f :: f in fields ==> f.key != key
    ensures Lookup(fields, key) == None
  {
    if fields != [] {
      assert fields[0] in fields;
      assert forall f :: f in fields[1..] ==> f in fields;
      LookupAbsent(fields[1..], key);
    }
  }

  lemma {:induction false} LookupAt(fields: seq<Field>, i: nat)
    requires i < |fields| && DistinctKeys(fields)
    ensures Lookup(fields, fields[i].key) == Some(fields[i].value)
  {
    if i > 0 {
      assert fields[0].key != fields[i].key;
      LookupAt(fields[1..], i - 1);
    }
  }

  lemma LookupMember(fields: seq<Field>, f: Field)
    requires f in fields && DistinctKeys(fields)
    ensures Lookup(fields, f.key) == Some(f.value)
  {
    var i :| 0 <= i < |fields| && fields[i] == f;
    LookupAt(fields, i);
  }

  // ------------------------------------------------------------- key-ordered form

  lemma {:induction false} NormalFieldAt(fields: seq<Field>, i: nat)
    requires i < |fields|
    ensures NormalFields(fields)[i] == Field(fields[i].key, Normal(fields[i].value))
  {
    if i > 0 {
      NormalFieldAt(fields[1..], i - 1);
    }
  }

  lemma NormalFieldsDistinct(fields: seq<Field>)
    requires DistinctKeys(fields)
    ensures DistinctKeys(NormalFields(fields))
  {
    forall i, j | 0 <= i < j < |fields|
      ensures NormalFields(fields)[i].key != NormalFields(fields)[j].key
    {
      NormalFieldAt(fields, i);
      NormalFieldAt(fields, j);
    }
  }

  lemma {:induction false} LookupNormalFields(fields: seq<Field>, key: string)
    ensures Lookup(NormalFields(fields), key) ==
            match Lookup(fields, key) { case None => None case Some(v) => Some(Normal(v)) }
  {
    if fields != [] {
      LookupNormalFields(fields[1..], key);
      assert NormalFields(fields)[1..] == NormalFields(fields[1..]);
    }
  }

  /** Fields with different keys never tie in key order. */
  lemma DistinctNoTies(fields: seq<Field>)
    requires DistinctKeys(fields)
    ensures NoTies(fields, KeyLe)
  {
    forall x, y | x in fields && y in fields && KeyLe(x, y) && KeyLe(y, x)
      ensures x == y
    {
      StrLtTrichotomy(x.key, y.key);
      LookupMember(fields, x);
      LookupMember(fields, y);
    }
  }

  /** Pairwise different keys survive any rearrangement. */
  lemma DistinctPermuted(a: seq<Field>, b: seq<Field>)
    requires DistinctKeys(a) && multiset(a) == multiset(b)
    ensures DistinctKeys(b)
  {
    NoDupPermuted(a, b);
    forall i, j | 0 <= i < j < |b|
      ensures b[i].key != b[j].key
    {
      SameMembers(a, b);
      LookupMember(a, b[i]);
      LookupMember(a, b[j]);
    }
  }

  lemma LookupPermuted(a: seq<Field>, b: seq<Field>, key: string)
    requires DistinctKeys(a) && multiset(a) == multiset(b)
    ensures Lookup(a, key) == Lookup(b, key)
  {
    DistinctPermuted(a, b);
    SameMembers(a, b);
    match Lookup(a, key) {
      case Some(v) =>
        LookupSome(a, key, v);
        LookupMember(b, Field(key, v));
      case None =>
        LookupNone(a, key);
        LookupAbsent(b, key);
    }
  }

  /** The fields of a dict as the decoder returns them. */
  function Ordered(fields: seq<Field>): (r: seq<Field>)
  {
    Sort(NormalFields(fields), KeyLe)
  }

  lemma LookupOrdered(fields: seq<Field>, key: string)
    requires DistinctKeys(fields)
    ensures Lookup(Ordered(fields), key) ==
            match Lookup(fields, key) { case None => None case Some(v) => Some(Normal(v)) }
  {
    NormalFieldsDistinct(fields);
    LookupPermuted(NormalFields(fields), Ordered(fields), key);
    LookupNormalFields(fields, key);
  }

  /** Same keys, same values (dicts inside values compared the same way). */
  ghost predicate SameDict(a: seq<Field>, b: seq<Field>)
  {
    forall key :: Lookup(Ordered(a), key) == Lookup(Ordered(b), key)
  }

  /** Canonical text is equal exactly for equal dicts. */
  lemma CanonicalIffSameDict(a: seq<Field>, b: seq<Field>)
    requires DistinctKeys(a) && DistinctKeys(b)
    ensures Canonical(Obj(a)) == Canonical(Obj(b)) <==> SameDict(a, b)
  {
    CanonicalDetermines(Obj(a), Obj(b));
    if SameDict(a, b) {
      SameDictSameOrder(a, b);
    }
  }

  lemma SameDictSameOrder(a: seq<Field>, b: seq<Field>)
    requires DistinctKeys(a) && DistinctKeys(b) && SameDict(a, b)
    ensures Ordered(a) == Ordered(b)
  {
    var x, y := Ordered(a), Ordered(b);
    NormalFieldsDistinct(a);
    NormalFieldsDistinct(b);
    DistinctPermuted(NormalFields(a), x);
    DistinctPermuted(NormalFields(b), y);
    KeyLeTotal();
    SortSorts(NormalFields(a), KeyLe);
    SortSorts(NormalFields(b), KeyLe);
    DistinctNoTies(x);
    forall f: Field
      ensures f in x <==> f in y
    {
      if f in x {
        LookupMember(x, f);
        LookupSome(y, f.key, f.value);
      }
      if f in y {
        LookupMember(y, f);
        LookupSome(x, f.key, f.value);
      }
    }
    NoDupSameMembers(x, y);
    SortedUnique(x, y, KeyLe);
  }

  /** The order in which entries were inserted does not reach the text. */
  lemma InsertionOrderIrrelevant(a: seq<Field>, b: seq<Field>)
    requires DistinctKeys(a) && multiset(a) == multiset(b)
    ensures Canonical(Obj(a)) == Canonical(Obj(b))
  {
    DistinctPermuted(a, b);
    forall key
      ensures Lookup(Ordered(a), key) == Lookup(Ordered(b), key)
    {
      LookupPermuted(a, b, key);
      LookupOrdered(a, key);
      LookupOrdered(b, key);
    }
    CanonicalIffSameDict(a, b);
  }

  // ----------------------------------------------------------------- idempotence

  lemma {:induction false} NormalIdempotent(v: Value)
    ensures Normal(Normal(v)) == Normal(v)
    decreases v, 1
  {
    match v {
      case Arr(items) => NormalItemsIdempotent(items);
      case Obj(fields) =>
        forall f | f in Ordered(fields)
          ensures Normal(f.value) == f.value
        {
          SameMembers(NormalFields(fields), Ordered(fields));
          NormalFieldValues(fields, f);
        }
        NormalFieldsFixed(Ordered(fields));
        KeyLeTotal();
        SortSorts(NormalFields(fields), KeyLe);
        SortOfSorted(Ordered(fields), KeyLe);
      case _ =>
    }
  }

  lemma {:induction false} NormalItemsIdempotent(items: seq<Value>)
    ensures NormalItems(NormalItems(items)) == NormalItems(items)
    decreases items, 0
  {
    if items != [] {
      NormalIdempotent(items[0]);
      NormalItemsIdempotent(items[1..]);
      assert NormalItems(items)[1..] == NormalItems(items[1..]);
    }
  }

  lemma {:induction false} NormalFieldValues(fields: seq<Field>, f: Field)
    requires f in NormalFields(fields)
    ensures Normal(f.value) == f.value
    decreases fields, 0
  {
    if f == NormalFields(fields)[0] {
      NormalIdempotent(fields[0].value);
    } else {
      assert NormalFields(fields) == [NormalFields(fields)[0]] + NormalFields(fields[1..]);
      NormalFieldValues(fields[1..], f);
    }
  }

  lemma NormalFieldsFixed(fields: seq<Field>)
    requires forall f :: f in fields ==> Normal(f.value) == f.value
    ensures NormalFields(fields) == fields
  {
    hide Normal, NormalFields;
    forall i | 0 <= i < |fields|
      ensures NormalFields(fields)[i] == fields[i]
    {
      NormalFieldAt(fields, i);
      assert fields[i] in fields;
    }
  }

  /** Dumping, decoding and dumping again reproduces the text. */
  lemma RedumpIsStable(v: Value, sp: Separators)
    ensures Loads(Dumps(v, sp)).Ok?
    ensures Dumps(Loads(Dumps(v, sp)).value, sp) == Dumps(v, sp)
  {
    LoadsInvertsDumps(v, sp);
    NormalIdempotent(v);
  }
}

/**
 Python's `sorted(xs, key=...)`: the stable sort by a total preorder, with the
 facts the rest of the project needs about it.
 */
module Sorting {

  ghost predicate TotalPreorder<T(!new)>(le: (T, T) -> bool)
  {
    && (forall x, y :: le(x, y) || le(y, x))
    && (forall x, y, z :: le(x, y) && le(y, z) ==> le(x, z))
  }

  ghost predicate Sorted<T>(s: seq<T>, le: (T, T) -> bool)
  {
    forall i, j :: 0 <= i < j < |s| ==> le(s[i], s[j])
  }

  /** No two different elements of `s` tie. */
  ghost predicate NoTies<T>(s: seq<T>, le: (T, T) -> bool)
  {
    forall x, y :: x in s && y in s && le(x, y) && le(y, x) ==> x == y
  }

  /** Put `x` before the first element that does not precede it. */
  function Insert<T>(x: T, s: seq<T>, le: (T, T) -> bool): (r: seq<T>)
    ensures |r| == |s| + 1
    ensures multiset(r) == multiset(s) + multiset{x}
  {
    if s == [] || le(x, s[0]) then [x] + s
    else
      assert s == [s[0]] + s[1..];
      [s[0]] + Insert(x, s[1..], le)
  }

  /** The stable sort of `s`. */
  function Sort<T>(s: seq<T>, le: (T, T) -> bool): (r: seq<T>)
    ensures |r| == |s|
    ensures multiset(r) == multiset(s)
  {
    if s == [] then []
    else
      assert s == [s[0]] + s[1..];
      Insert(s[0], Sort(s[1..], le), le)
  }

  lemma SameMembers<T>(a: seq<T>, b: seq<T>)
    requires multiset(a) == multiset(b)
    ensures forall x :: x in a <==> x in b
  {
    forall x
      ensures x in a <==> x in b
    {
      assert x in a <==> x in multiset(a);
      assert x in b <==> x in multiset(b);
    }
  }

  lemma {:induction false} InsertSorted<T(!new)>(x: T, s: seq<T>, le: (T, T) -> bool)
    requires TotalPreorder(le) && Sorted(s, le)
    ensures Sorted(Insert(x, s, le), le)
  {
    if s == [] {
    } else if le(x, s[0]) {
    } else {
      InsertSorted(x, s[1..], le);
      var t := Insert(x, s[1..], le);
      assert s == [s[0]] + s[1..];
      forall y | y in t
        ensures le(s[0], y)
      {
        assert y in multiset(t);
        assert y == x || y in s[1..];
      }
    }
  }

  lemma {:induction false} SortSorts<T(!new)>(s: seq<T>, le: (T, T) -> bool)
    requires TotalPreorder(le)
    ensures Sorted(Sort(s, le), le)
  {
    if s != [] {
      SortSorts(s[1..], le);
      InsertSorted(s[0], Sort(s[1..], le), le);
    }
  }

  /** A sorted list is left alone (this uses stability). */
  lemma {:induction false} SortOfSorted<T>(s: seq<T>, le: (T, T) -> bool)
    requires Sorted(s, le)
    ensures Sort(s, le) == s
  {
    if s != [] {
      SortOfSorted(s[1..], le);
      if |s| > 1 {
        assert le(s[0], s[1]);
      }
    }
  }

  lemma SortCons<T>(x: T, s: seq<T>, le: (T, T) -> bool)
    ensures Sort([x] + s, le) == Insert(x, Sort(s, le), le)
  {
    hide Insert;
    assert ([x] + s)[1..] == s;
  }

  lemma InsertFirst<T>(x: T, s: seq<T>, le: (T, T) -> bool)
    requires s == [] || le(x, s[0])
    ensures Insert(x, s, le) == [x] + s
  {
  }

  lemma InsertSecond<T>(x: T, first: T, s: seq<T>, le: (T, T) -> bool)
    requires !le(x, first) && (s == [] || le(x, s[0]))
    ensures Insert(x, [first] + s, le) == [first, x] + s
  {
    var all := [first] + s;
    assert all[1..] == s;
    InsertFirst(x, s, le);
    assert Insert(x, all, le) == [first] + ([x] + s);
  }

  lemma MovePast<T>(y: T, tail: seq<T>, x: T, le: (T, T) -> bool)
    requires Sort(tail + [x], le) == [x] + tail && !le(y, x) && (tail == [] || le(y, tail[0]))
    ensures Sort([y] + (tail + [x]), le) == [x, y] + tail
  {
    hide Sort, Insert;
    SortCons(y, tail + [x], le);
    InsertSecond(y, x, tail, le);
  }

  lemma SortOne<T>(x: T, le: (T, T) -> bool)
    ensures Sort([x], le) == [x]
  {
    assert [x][1..] == [];
  }

  lemma Regroup<T>(y: T, tail: seq<T>, x: T)
    ensures ([y] + tail) + [x] == [y] + (tail + [x])
    ensures [x, y] + tail == [x] + ([y] + tail)
  {
  }

  /** What is smaller than everything before it moves to the front. */
  lemma {:induction false} SmallestMovesFirst<T>(rest: seq<T>, x: T, le: (T, T) -> bool)
    requires Sorted(rest, le) && forall i :: 0 <= i < |rest| ==> !le(rest[i], x)
    ensures Sort(rest + [x], le) == [x] + rest
  {
    hide Sort;
    if rest == [] {
      SortOne(x, le);
      assert rest + [x] == [x] && [x] + rest == [x];
    } else {
      var y, tail := rest[0], rest[1..];
      SmallestMovesFirst(tail, x, le);
      MovePast(y, tail, x, le);
      Regroup(y, tail, x);
      assert rest == [y] + tail;
    }
  }

  /** The least element leads every tie-free sorted arrangement. */
  lemma SortedHead<T>(a: seq<T>, b: seq<T>, le: (T, T) -> bool)
    requires a != [] && b != [] && a[0] in b && b[0] in a
    requires Sorted(a, le) && Sorted(b, le) && NoTies(a, le)
    ensures a[0] == b[0]
  {
    var i :| 0 <= i < |b| && b[i] == a[0];
    var j :| 0 <= j < |a| && a[j] == b[0];
    if i != 0 && j != 0 {
      assert le(b[0], b[i]) && le(a[0], a[j]);
    }
  }

  lemma MultisetTail<T>(s: seq<T>)
    requires s != []
    ensures multiset(s[1..]) == multiset(s) - multiset{s[0]}
  {
    assert s == [s[0]] + s[1..];
  }

  lemma SortedTail<T>(s: seq<T>, le: (T, T) -> bool)
    requires s != [] && Sorted(s, le)
    ensures Sorted(s[1..], le) && (NoTies(s, le) ==> NoTies(s[1..], le))
  {
    assert forall x :: x in s[1..] ==> x in s;
  }

  lemma HeadAndTail<T>(a: seq<T>, b: seq<T>)
    requires a != [] && b != [] && a[0] == b[0] && a[1..] == b[1..]
    ensures a == b
  {
    assert a == [a[0]] + a[1..] && b == [b[0]] + b[1..];
  }

  lemma SameSize<T>(a: seq<T>, b: seq<T>)
    requires multiset(a) == multiset(b)
    ensures |a| == |b|
  {
    assert |a| == |multiset(a)| == |multiset(b)| == |b|;
  }

  /** Two tie-free sorted arrangements of the same elements are the same list. */
  lemma {:induction false} SortedUnique<T>(a: seq<T>, b: seq<T>, le: (T, T) -> bool)
    requires multiset(a) == multiset(b)
    requires Sorted(a, le) && Sorted(b, le) && NoTies(a, le)
    ensures a == b
  {
    hide Sorted, NoTies;
    SameSize(a, b);
    if a != [] {
      SameMembers(a, b);
      SortedHead(a, b, le);
      MultisetTail(a);
      MultisetTail(b);
      SortedTail(a, le);
      SortedTail(b, le);
      SortedUnique(a[1..], b[1..], le);
      HeadAndTail(a, b);
    }
  }

  /** Sorting forgets the order its input arrived in. */
  lemma SortCanonical<T(!new)>(a: seq<T>, b: seq<T>, le: (T, T) -> bool)
    requires TotalPreorder(le)
    requires multiset(a) == multiset(b) && NoTies(a, le)
    ensures Sort(a, le) == Sort(b, le)
  {
    SortSorts(a, le);
    SortSorts(b, le);
    SameMembers(a, Sort(a, le));
    SortedUnique(Sort(a, le), Sort(b, le), le);
  }

  // ---------------------------------------------------------------- repetitions

  ghost predicate NoDup<T>(s: seq<T>)
  {
    forall i, j :: 0 <= i < j < |s| ==> s[i] != s[j]
  }

  lemma {:induction false} NoDupOnce<T>(s: seq<T>, x: T)
    requires NoDup(s)
    ensures multiset(s)[x] == if x in s then 1 else 0
  {
    if s != [] {
      NoDupOnce(s[1..], x);
      assert s == [s[0]] + s[1..];
    }
  }

  lemma TwiceInMultiset<T>(s: seq<T>, i: nat, j: nat)
    requires i < j < |s| && s[i] == s[j]
    ensures multiset(s)[s[i]] >= 2
  {
    assert s == s[..j] + [s[j]] + s[j + 1..];
    assert s[i] in s[..j];
  }

  lemma NoDupPermuted<T>(a: seq<T>, b: seq<T>)
    requires NoDup(a) && multiset(a) == multiset(b)
    ensures NoDup(b)
  {
    forall i, j | 0 <= i < j < |b|
      ensures b[i] != b[j]
    {
      NoDupOnce(a, b[i]);
      if b[i] == b[j] {
        TwiceInMultiset(b, i, j);
        assert false;
      }
    }
  }

  /** Two repetition-free lists of the same things are rearrangements of each other. */
  lemma NoDupSameMembers<T>(a: seq<T>, b: seq<T>)
    requires NoDup(a) && NoDup(b) && forall x :: x in a <==> x in b
    ensures multiset(a) == multiset(b)
  {
    forall x: T | x in multiset(a) || x in multiset(b)
      ensures multiset(a)[x] == multiset(b)[x]
    {
      NoDupOnce(a, x);
      NoDupOnce(b, x);
    }
  }
}

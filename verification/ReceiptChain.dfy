/**
 Gap diagnosis of interrupted receipt chains. A chain without gaps is one hash-linked
 history: its last record hash commits to all of it, and any loss or edit before the
 last receipt is reported.
 */
module ReceiptChain {
  import opened Text
  import opened Sorting
  import opened Records
  import opened ReceiptStore
  import opened EvidenceAdapter

  /** Position `i` carries its predecessor's hash, or nothing if it is the first. */
  predicate LinkOk(h: Sha, s: seq<Receipt>, i: nat)
    requires i < |s|
  {
    s[i].prevReceiptHash == if i == 0 then "" else RecordHash(h, s[i - 1])
  }

  /** Steps 0..n-1, no link on the first, every other link the predecessor's hash. */
  ghost predicate Linked(h: Sha, s: seq<Receipt>)
  {
    && (forall i :: 0 <= i < |s| ==> s[i].stepIndex == i)
    && (forall i :: 0 <= i < |s| ==> LinkOk(h, s, i))
  }

  // ----------------------------------------------------------------- the messages

  function NonContiguous(expected: nat, got: int): string
  {
    "non_contiguous_step_index:expected_" + Dec(expected) + "_got_" + Dec(got)
  }

  function UnexpectedPrev(): string
  {
    "unexpected_prev_hash_on_first_step"
  }

  function PrevMismatch(step: int): string
  {
    "prev_hash_mismatch_at_step_" + Dec(step)
  }

  function StepMessages(s: seq<Receipt>, i: nat): seq<string>
    requires i <= |s|
  {
    if i == 0 then []
    else
      StepMessages(s, i - 1) +
      if s[i - 1].stepIndex == i - 1 then [] else [NonContiguous(i - 1, s[i - 1].stepIndex)]
  }

  /** What the second loop says about position `i` of the sorted chain. */
  function LinkMessage(h: Sha, s: seq<Receipt>, i: nat): seq<string>
    requires i < |s|
  {
    if i == 0 then
      if s[0].stepIndex == 0 && s[0].prevReceiptHash != "" then [UnexpectedPrev()] else []
    else if s[i].prevReceiptHash != RecordHash(h, s[i - 1]) then [PrevMismatch(s[i].stepIndex)]
    else []
  }

  function LinkMessages(h: Sha, s: seq<Receipt>, i: nat): seq<string>
    requires i <= |s|
  {
    if i == 0 then [] else LinkMessages(h, s, i - 1) + LinkMessage(h, s, i - 1)
  }

  function Gaps(h: Sha, chain: seq<Receipt>): seq<string>
  {
    if chain == [] then ["empty_chain"]
    else
      var s := Sort(chain, ChainLe);
      StepMessages(s, |s|) + LinkMessages(h, s, |s|)
  }

  method DescribeReceiptChainGaps(h: Sha, chain: seq<Receipt>) returns (msgs: seq<string>)
    ensures msgs == Gaps(h, chain)
    ensures msgs == [] <==> chain != [] && Linked(h, Sort(chain, ChainLe))
  {
    hide RecordHash, NonContiguous, UnexpectedPrev, PrevMismatch, Sort, Linked;
    NoGapsIffLinked(h, chain);
    if chain == [] {
      return ["empty_chain"];
    }
    msgs := [];
    var sorted := Sort(chain, ChainLe);
    for i := 0 to |sorted|
      invariant msgs == StepMessages(sorted, i)
    {
      if sorted[i].stepIndex != i {
        msgs := msgs + [NonContiguous(i, sorted[i].stepIndex)];
      }
    }
    ghost var steps := msgs;
    assert steps + [] == steps;
    for i := 0 to |sorted|
      invariant msgs == steps + LinkMessages(h, sorted, i)
    {
      ghost var before := LinkMessages(h, sorted, i);
      if i == 0 {
        if sorted[i].stepIndex == 0 && sorted[i].prevReceiptHash != "" {
          msgs := msgs + [UnexpectedPrev()];
        }
      } else {
        var prev := sorted[i - 1];
        if sorted[i].prevReceiptHash != RecordHash(h, prev) {
          msgs := msgs + [PrevMismatch(sorted[i].stepIndex)];
        }
      }
      assert msgs == steps + (before + LinkMessage(h, sorted, i));
    }
  }

  lemma {:induction false} NoStepMessages(s: seq<Receipt>, n: nat)
    requires n <= |s|
    ensures StepMessages(s, n) == [] <==> forall i :: 0 <= i < n ==> s[i].stepIndex == i
  {
    hide NonContiguous;
    if n > 0 {
      NoStepMessages(s, n - 1);
    }
  }

  lemma {:induction false} NoLinkMessages(h: Sha, s: seq<Receipt>, n: nat)
    requires n <= |s|
    ensures LinkMessages(h, s, n) == [] <==> forall i :: 0 <= i < n ==> LinkMessage(h, s, i) == []
  {
    hide LinkMessage;
    if n > 0 {
      NoLinkMessages(h, s, n - 1);
    }
  }

  lemma NoLinkMessage(h: Sha, s: seq<Receipt>, i: nat)
    requires i < |s| && s[i].stepIndex == i
    ensures LinkMessage(h, s, i) == [] <==> LinkOk(h, s, i)
  {
    hide RecordHash, UnexpectedPrev, PrevMismatch;
  }

  /** No message exactly for a complete, correctly linked, non-empty chain. */
  lemma NoGapsIffLinked(h: Sha, chain: seq<Receipt>)
    ensures Gaps(h, chain) == [] <==> chain != [] && Linked(h, Sort(chain, ChainLe))
  {
    hide LinkMessage, LinkOk, StepMessages, LinkMessages, Sort;
    if chain != [] {
      var s := Sort(chain, ChainLe);
      NoStepMessages(s, |s|);
      NoLinkMessages(h, s, |s|);
      forall i | 0 <= i < |s| && s[i].stepIndex == i
        ensures LinkMessage(h, s, i) == [] <==> LinkOk(h, s, i)
      {
        NoLinkMessage(h, s, i);
      }
    }
  }

  /** The sorted chain has a step out of place, or a link that does not fit, at position `i`. */
  predicate StepWrong(s: seq<Receipt>, i: nat)
    requires i < |s|
  {
    s[i].stepIndex != i
  }

  predicate LinkWrong(h: Sha, s: seq<Receipt>, i: nat)
    requires i < |s|
  {
    if i > 0 then s[i].prevReceiptHash != RecordHash(h, s[i - 1])
    else s[i].stepIndex == 0 && s[i].prevReceiptHash != ""
  }

  /** What each fault is called, with the position and the steps it names. */
  function StepFault(s: seq<Receipt>, i: nat): string
    requires i < |s|
  {
    "non_contiguous_step_index:expected_" + Dec(i) + "_got_" + Dec(s[i].stepIndex)
  }

  function LinkFault(s: seq<Receipt>, i: nat): string
    requires i < |s|
  {
    if i == 0 then "unexpected_prev_hash_on_first_step" else "prev_hash_mismatch_at_step_" + Dec(s[i].stepIndex)
  }

  ghost predicate Ascending(at: seq<nat>, n: nat)
  {
    && (forall k :: 0 <= k < |at| ==> at[k] < n)
    && (forall j, k :: 0 <= j < k < |at| ==> at[j] < at[k])
  }

  /** The messages are the faults at the wrong ones of the first `n` positions, in order. */
  ghost predicate Listed(msgs: seq<string>, at: seq<nat>, n: nat, wrong: seq<bool>, faults: seq<string>)
  {
    && n <= |wrong| == |faults| && |at| == |msgs| && Ascending(at, n)
    && (forall k :: 0 <= k < |at| ==> msgs[k] == faults[at[k]])
    && (forall i :: 0 <= i < n ==> (i in at <==> wrong[i]))
  }

  lemma ListedNext(msgs: seq<string>, at: seq<nat>, n: nat, wrong: seq<bool>, faults: seq<string>)
    requires Listed(msgs, at, n, wrong, faults) && n < |wrong|
    ensures wrong[n] ==> Listed(msgs + [faults[n]], at + [n], n + 1, wrong, faults)
    ensures !wrong[n] ==> Listed(msgs, at, n + 1, wrong, faults)
  {
  }

  function StepFaults(s: seq<Receipt>): (r: seq<string>)
    ensures |r| == |s| && forall i :: 0 <= i < |s| ==> r[i] == StepFault(s, i)
  {
    seq(|s|, i requires 0 <= i < |s| => StepFault(s, i))
  }

  function LinkFaults(s: seq<Receipt>): (r: seq<string>)
    ensures |r| == |s| && forall i :: 0 <= i < |s| ==> r[i] == LinkFault(s, i)
  {
    seq(|s|, i requires 0 <= i < |s| => LinkFault(s, i))
  }

  function StepsWrong(s: seq<Receipt>): (r: seq<bool>)
    ensures |r| == |s| && forall i :: 0 <= i < |s| ==> r[i] == StepWrong(s, i)
  {
    seq(|s|, i requires 0 <= i < |s| => StepWrong(s, i))
  }

  function LinksWrong(h: Sha, s: seq<Receipt>): (r: seq<bool>)
    ensures |r| == |s| && forall i :: 0 <= i < |s| ==> r[i] == LinkWrong(h, s, i)
  {
    seq(|s|, i requires 0 <= i < |s| => LinkWrong(h, s, i))
  }

  lemma {:induction false} StepMessagesListed(s: seq<Receipt>, n: nat) returns (at: seq<nat>)
    requires n <= |s|
    ensures Listed(StepMessages(s, n), at, n, StepsWrong(s), StepFaults(s))
  {
    hide Dec, StepFault;
    if n == 0 {
      at := [];
    } else {
      at := StepMessagesListed(s, n - 1);
      hide Listed;
      ListedNext(StepMessages(s, n - 1), at, n - 1, StepsWrong(s), StepFaults(s));
      StepMessageNames(s, n - 1);
      if StepWrong(s, n - 1) {
        at := at + [n - 1];
      } else {
        assert StepMessages(s, n - 1) + [] == StepMessages(s, n - 1);
      }
    }
  }

  lemma StepMessageNames(s: seq<Receipt>, i: nat)
    requires i < |s|
    ensures StepMessages(s, i + 1) == StepMessages(s, i) + if StepWrong(s, i) then [StepFault(s, i)] else []
  {
    hide Dec;
  }

  lemma LinkMessageNames(h: Sha, s: seq<Receipt>, i: nat)
    requires i < |s|
    ensures LinkMessage(h, s, i) == if LinkWrong(h, s, i) then [LinkFault(s, i)] else []
  {
    hide Dec, RecordHash;
  }

  lemma {:induction false} LinkMessagesListed(h: Sha, s: seq<Receipt>, n: nat) returns (at: seq<nat>)
    requires n <= |s|
    ensures Listed(LinkMessages(h, s, n), at, n, LinksWrong(h, s), LinkFaults(s))
  {
    hide LinkMessage, LinkWrong, LinkFault;
    if n == 0 {
      at := [];
    } else {
      at := LinkMessagesListed(h, s, n - 1);
      hide Listed;
      ListedNext(LinkMessages(h, s, n - 1), at, n - 1, LinksWrong(h, s), LinkFaults(s));
      LinkMessageNames(h, s, n - 1);
      if LinkWrong(h, s, n - 1) {
        at := at + [n - 1];
      } else {
        assert LinkMessages(h, s, n - 1) + [] == LinkMessages(h, s, n - 1);
      }
    }
  }

  /**
   Exactly one message for each wrong step of the sorted chain and then for each wrong
   link, in order, each naming its step.
   */
  lemma GapsExactly(h: Sha, chain: seq<Receipt>) returns (steps: seq<nat>, links: seq<nat>)
    ensures chain == [] ==> Gaps(h, chain) == ["empty_chain"]
    ensures var s, gaps := Sort(chain, ChainLe), Gaps(h, chain);
            chain != [] ==>
            && |gaps| == |steps| + |links|
            && Listed(gaps[..|steps|], steps, |s|, StepsWrong(s), StepFaults(s))
            && Listed(gaps[|steps|..], links, |s|, LinksWrong(h, s), LinkFaults(s))
  {
    hide Sort, StepMessages, LinkMessages, StepsWrong, LinksWrong, StepFaults, LinkFaults;
    var s := Sort(chain, ChainLe);
    steps := StepMessagesListed(s, |s|);
    links := LinkMessagesListed(h, s, |s|);
    if chain != [] {
      var a, b := StepMessages(s, |s|), LinkMessages(h, s, |s|);
      assert (a + b)[..|steps|] == a && (a + b)[|steps|..] == b;
    }
  }

  /** The diagnosis does not depend on the order in which receipts were reloaded. */
  lemma GapsOrderIrrelevant(h: Sha, a: seq<Receipt>, b: seq<Receipt>)
    requires UniqueIds(a) && multiset(a) == multiset(b)
    ensures Gaps(h, a) == Gaps(h, b)
  {
    UniqueNoTies(a);
    ChainLeTotal();
    SortCanonical(a, b, ChainLe);
    assert |a| == |multiset(a)| == |multiset(b)| == |b|;
  }

  // ------------------------------------------------------------------- commitment

  /**
   Two gap-free chains with the same last record hash are the same chain, or two of
   their receipts are an explicit SHA-256 collision.
   */
  lemma {:induction false} HeadCommitsToHistory(h: Sha, a: seq<Receipt>, b: seq<Receipt>)
    requires a != [] && b != [] && Linked(h, a) && Linked(h, b)
    requires RecordHash(h, a[|a| - 1]) == RecordHash(h, b[|b| - 1])
    ensures a == b || CollisionAmong(h, a + b)
    decreases |a|
  {
    hide ReceiptText;
    var x, y := a[|a| - 1], b[|b| - 1];
    RecordHashCommits(h, x, y);
    if x != y {
      assert x in a + b && y in a + b;
    } else {
      assert |a| == |b|;
      var a', b' := a[..|a| - 1], b[..|b| - 1];
      assert a == a' + [x] && b == b' + [y];
      if |a| > 1 {
        assert LinkOk(h, a, |a| - 1) && LinkOk(h, b, |b| - 1);
        LinkedPrefix(h, a, |a| - 1);
        LinkedPrefix(h, b, |b| - 1);
        HeadCommitsToHistory(h, a', b');
        if a' != b' {
          var p, q :| p in a' + b' && q in a' + b' && Collides(h, ReceiptText(p), ReceiptText(q));
          assert p in a + b && q in a + b;
        }
      }
    }
  }

  /** The same for bundles: over gap-free chains, the final hash alone pins the receipts. */
  lemma FinalHashCommitsToHistory(
    h: Sha, a: seq<Receipt>, b: seq<Receipt>, task: Task, task': Task, refs: seq<string>, refs': seq<string>,
    bundleId: string, bundleId': string, createdAt: string, createdAt': string)
    requires Gaps(h, a) == [] && Gaps(h, b) == []
    requires BundleOver(h, task, Sort(a, ChainLe), refs, bundleId, createdAt).finalResultHash ==
             BundleOver(h, task', Sort(b, ChainLe), refs', bundleId', createdAt').finalResultHash
    ensures multiset(a) == multiset(b) || CollisionAmong(h, a + b)
  {
    hide ReceiptText, Gaps, Sort, ChainLe, LinkOk, TaskHash;
    NoGapsIffLinked(h, a);
    NoGapsIffLinked(h, b);
    var s, t := Sort(a, ChainLe), Sort(b, ChainLe);
    assert s != [] && t != [];
    HeadCommitsToHistory(h, s, t);
    if s != t {
      SameMembers(s, a);
      SameMembers(t, b);
      var p, q :| p in s + t && q in s + t && Collides(h, ReceiptText(p), ReceiptText(q));
      assert p in a + b && q in a + b;
    }
  }

  // -------------------------------------------------------------------- detection

  /** The receipt found at position `i` after sorting is the one with step `i`. */
  lemma SteppedMember(h: Sha, chain: seq<Receipt>, i: nat)
    requires Linked(h, Sort(chain, ChainLe)) && i < |chain|
    ensures exists r :: r in chain && r.stepIndex == i
  {
    hide LinkOk, Sort, ChainLe;
    var s := Sort(chain, ChainLe);
    SameMembers(s, chain);
    assert s[i] in chain && s[i].stepIndex == i;
  }

  lemma LinkedPrefix(h: Sha, s: seq<Receipt>, k: nat)
    requires Linked(h, s) && k <= |s|
    ensures Linked(h, s[..k])
  {
    hide RecordHash;
    forall i | 0 <= i < k
      ensures LinkOk(h, s[..k], i)
    {
      assert LinkOk(h, s, i);
    }
  }

  /** A linked chain drawn from another is a prefix of it. */
  lemma DrawnIsPrefix(h: Sha, s: seq<Receipt>, u: seq<Receipt>)
    requires Linked(h, s) && Linked(h, u) && forall r :: r in u ==> r in s
    ensures |u| <= |s| && u == s[..|u|]
  {
    hide LinkOk;
    forall i | 0 <= i < |u|
      ensures i < |s| && u[i] == s[i]
    {
      assert u[i] in s;
      var j :| 0 <= j < |s| && s[j] == u[i];
      assert s[j].stepIndex == j && u[i].stepIndex == i;
    }
    if u != [] {
      var last := u[|u| - 1];
      assert last == s[|u| - 1];
    }
  }

  /**
   What is left of a chain after any losses and repetitions goes unreported exactly
   when it is one copy of a non-empty prefix, in any order.
   */
  lemma LossesDetected(h: Sha, s: seq<Receipt>, t: seq<Receipt>)
    requires Linked(h, s) && forall r :: r in t ==> r in s
    ensures Gaps(h, t) == [] <==> t != [] && |t| <= |s| && Sort(t, ChainLe) == s[..|t|]
  {
    hide Gaps, Linked, Sort, ChainLe;
    NoGapsIffLinked(h, t);
    var u := Sort(t, ChainLe);
    SameMembers(u, t);
    if Linked(h, u) {
      DrawnIsPrefix(h, s, u);
    } else if |t| <= |s| && u == s[..|t|] {
      LinkedPrefix(h, s, |t|);
      assert false;
    }
  }

  /** So losing one receipt goes unreported exactly when it was the last of several. */
  lemma LossDetected(h: Sha, s: seq<Receipt>, k: nat)
    requires Linked(h, s) && k < |s|
    ensures Gaps(h, s[..k] + s[k + 1..]) == [] <==> k == |s| - 1 && k > 0
  {
    hide Gaps, RecordHash;
    var t := s[..k] + s[k + 1..];
    NoGapsIffLinked(h, t);
    if k == |s| - 1 {
      assert t == s[..k];
      if k > 0 {
        LinkedPrefix(h, s, k);
        LinkedAsIs(t);
      }
    } else if Gaps(h, t) == [] {
      SteppedMember(h, t, k);
      assert false;
    }
  }

  /**
   Replacing a receipt before the last by any different one is reported, unless the
   two collide.
   */
  lemma EditDetected(h: Sha, s: seq<Receipt>, k: nat, r: Receipt)
    requires Linked(h, s) && k < |s| - 1 && r != s[k]
    ensures Gaps(h, s[k := r]) != [] || Collides(h, ReceiptText(s[k]), ReceiptText(r))
  {
    hide Gaps, ReceiptText, Sort, ChainLe;
    var t := s[k := r];
    NoGapsIffLinked(h, t);
    if Gaps(h, t) == [] {
      EditKeepsStep(h, s, k, r);
      LinkedAsIs(t);
      assert LinkOk(h, t, k + 1) && LinkOk(h, s, k + 1);
      RecordHashCommits(h, s[k], r);
    }
  }

  /** Replacing the last receipt goes unreported exactly when step and link stay. */
  lemma LastEditDetected(h: Sha, s: seq<Receipt>, r: Receipt)
    requires Linked(h, s) && s != []
    ensures Gaps(h, s[|s| - 1 := r]) == [] <==>
            r.stepIndex == |s| - 1 && r.prevReceiptHash == s[|s| - 1].prevReceiptHash
  {
    hide Gaps, RecordHash, Sort, ChainLe;
    var k := |s| - 1;
    var t := s[k := r];
    NoGapsIffLinked(h, t);
    if Gaps(h, t) == [] {
      EditKeepsStep(h, s, k, r);
      LinkedAsIs(t);
      assert LinkOk(h, t, k) && LinkOk(h, s, k);
    } else if r.stepIndex == k && r.prevReceiptHash == s[k].prevReceiptHash {
      forall i | 0 <= i < |t|
        ensures LinkOk(h, t, i)
      {
        assert LinkOk(h, s, i);
      }
      LinkedAsIs(t);
    }
  }

  lemma EditKeepsStep(h: Sha, s: seq<Receipt>, k: nat, r: Receipt)
    requires Linked(h, s) && k < |s|
    requires Linked(h, Sort(s[k := r], ChainLe))
    ensures r.stepIndex == k
  {
    hide LinkOk, Sort, ChainLe;
    SteppedMember(h, s[k := r], k);
    var x :| x in s[k := r] && x.stepIndex == k;
    var j :| 0 <= j < |s| && s[k := r][j] == x;
  }

  /** Receipts already in step order are not moved by the sort. */
  lemma LinkedAsIs(t: seq<Receipt>)
    requires forall i :: 0 <= i < |t| ==> t[i].stepIndex == i
    ensures Sort(t, ChainLe) == t
  {
    SortOfSorted(t, ChainLe);
  }
}

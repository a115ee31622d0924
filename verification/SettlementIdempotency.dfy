/**
 Step keys and the in-process idempotency book. However many submissions of settlement
 plans are interleaved, and wherever they stop, the steps that get through for one plan
 are the canonical steps in order, each once, as far as the furthest submission went.
 */
module SettlementIdempotency {
  /** The five calls of a plan, by name and in order. */
  function Steps(): (s: seq<string>)
    ensures |s| == 5
  {
    ["lockBuyer", "lockAgent", "bind", "settle", "finalizeSettle"]
  }

  predicate PipeFree(s: string)
  {
    forall i :: 0 <= i < |s| ==> s[i] != '|'
  }

  /** `trace_id or "<no_trace>"`. */
  function Tid(traceId: string): (t: string)
    ensures t != ""
  {
    if traceId == "" then "<no_trace>" else traceId
  }

  /** What the keys of one plan share. */
  function Scope(traceId: string, bundleId: string): string
  {
    Tid(traceId) + "|" + bundleId
  }

  function StepKey(traceId: string, bundleId: string, fn: string): string
  {
    Scope(traceId, bundleId) + "|" + fn
  }

  // ------------------------------------------------------------------------- keys

  /** The text after the last bar and the text before it can both be read back. */
  lemma LastBar(p: string, f: string, q: string, g: string)
    requires PipeFree(f) && PipeFree(g) && p + "|" + f == q + "|" + g
    ensures p == q && f == g
  {
    var s := p + "|" + f;
    assert s[|p|] == '|' && s[|q|] == '|';
    assert p == s[..|p|] && q == s[..|q|];
    assert f == s[|p| + 1..] && g == s[|q| + 1..];
  }

  lemma StepNames()
    ensures forall i :: 0 <= i < 5 ==> PipeFree(Steps()[i])
    ensures forall i, j :: 0 <= i < j < 5 ==> Steps()[i] != Steps()[j]
  {
    assert Steps()[0] == "lockBuyer" && Steps()[1] == "lockAgent" && Steps()[2] == "bind";
    assert Steps()[3] == "settle" && Steps()[4] == "finalizeSettle";
    assert Steps()[0][4] == 'B' && Steps()[1][4] == 'A';
  }

  /** Keys agree exactly when step and scope agree, with nothing assumed of the ids. */
  lemma KeyIffScopeAndStep(t: string, b: string, i: nat, u: string, c: string, j: nat)
    requires i < 5 && j < 5
    ensures StepKey(t, b, Steps()[i]) == StepKey(u, c, Steps()[j]) <==> i == j && Scope(t, b) == Scope(u, c)
  {
    StepNames();
    if StepKey(t, b, Steps()[i]) == StepKey(u, c, Steps()[j]) {
      LastBar(Scope(t, b), Steps()[i], Scope(u, c), Steps()[j]);
    }
  }

  /** Bar-free bundle ids and honest traces: a scope names one trace and one bundle. */
  lemma ScopeIdentifiesPlan(t: string, b: string, u: string, c: string)
    requires PipeFree(b) && PipeFree(c) && t != "<no_trace>" && u != "<no_trace>"
    ensures Scope(t, b) == Scope(u, c) <==> t == u && b == c
  {
    if Scope(t, b) == Scope(u, c) {
      LastBar(Tid(t), b, Tid(u), c);
    }
  }

  /** Some other trace and bundle produce the keys of this one. */
  ghost predicate Ambiguous(t: string, b: string)
  {
    exists u, c :: (u != t || c != b) && Scope(u, c) == Scope(t, b)
  }

  lemma SplitBar(s: string, i: nat)
    requires i < |s| && s[i] == '|'
    ensures s == s[..i] + "|" + s[i + 1..]
  {
  }

  lemma BarInBundle(t: string, b: string, i: nat)
    requires t != "" && i < |b| && b[i] == '|'
    ensures Ambiguous(t, b)
  {
    SplitBar(b, i);
    var u, c := t + "|" + b[..i], b[i + 1..];
    assert |c| < |b| && Scope(u, c) == Scope(t, b);
  }

  lemma BarInTrace(t: string, b: string, i: nat)
    requires 0 < i < |t| && t[i] == '|'
    ensures Ambiguous(t, b)
  {
    SplitBar(t, i);
    var u, c := t[..i], t[i + 1..] + "|" + b;
    assert |c| > |b| && Scope(u, c) == Scope(t, b);
  }

  /** Exactly which plans share their keys with another trace or bundle. */
  lemma AmbiguousExactly(t: string, b: string)
    ensures Ambiguous(t, b) <==>
            || t == "" || t == "<no_trace>"
            || !PipeFree(b)
            || exists i :: 0 < i < |t| && t[i] == '|'
  {
    if t == "" {
      assert Scope("<no_trace>", b) == Scope(t, b);
    } else if t == "<no_trace>" {
      assert Scope("", b) == Scope(t, b);
    } else if !PipeFree(b) {
      var i :| 0 <= i < |b| && b[i] == '|';
      BarInBundle(t, b, i);
    } else if exists i :: 0 < i < |t| && t[i] == '|' {
      var i :| 0 < i < |t| && t[i] == '|';
      BarInTrace(t, b, i);
    } else if Ambiguous(t, b) {
      var u, c :| (u != t || c != b) && Scope(u, c) == Scope(t, b);
      OneScope(t, b, u, c);
      assert false;
    }
  }

  lemma OneScope(t: string, b: string, u: string, c: string)
    requires t != "" && t != "<no_trace>" && PipeFree(b) && forall i :: 0 < i < |t| ==> t[i] != '|'
    requires Scope(u, c) == Scope(t, b)
    ensures u == t && c == b
  {
    var s := Scope(t, b);
    var p := Tid(u);
    assert s == p + "|" + c;
    assert s[|p|] == '|' && s[|t|] == '|';
    assert p == s[..|p|] && t == s[..|t|] && c == s[|p| + 1..] && b == s[|t| + 1..];
  }

  // --------------------------------------------------------------------- the book

  class SettlementIdempotencyBook {
    var seen: set<string>

    constructor ()
      ensures seen == {}
    {
      seen := {};
    }

    method TryOnce(key: string) returns (first: bool)
      modifies this
      ensures first <==> key !in old(seen)
      ensures seen == old(seen) + {key}
    {
      if key in seen {
        return false;
      }
      seen := seen + {key};
      first := true;
    }
  }

  // ----------------------------------------------------------------- interleavings

  /** One pass through a plan's step keys; a paused payout leaves only three. */
  datatype Submission = Submission(traceId: string, bundleId: string, paused: bool)
  {
    function PlanScope(): string
    {
      Scope(traceId, bundleId)
    }

    function Length(): (n: nat)
      ensures n == 3 || n == 5
    {
      if paused then 3 else 5
    }

    function Key(i: nat): string
      requires i < 5
    {
      StepKey(traceId, bundleId, Steps()[i])
    }
  }

  /** One question to the book: who asked, for which step of which scope, and the answer. */
  datatype Attempt = Attempt(who: nat, scope: string, step: string, first: bool)

  /** The steps let through for one scope, in order. */
  function PassedOf(log: seq<Attempt>, scope: string): seq<string>
  {
    if log == [] then []
    else
      var last := log[|log| - 1];
      PassedOf(log[..|log| - 1], scope) + if last.first && last.scope == scope then [last.step] else []
  }

  /** The steps one submission asked for, in order, whatever the answers. */
  function TriedBy(log: seq<Attempt>, who: nat): seq<string>
  {
    if log == [] then []
    else
      var last := log[|log| - 1];
      TriedBy(log[..|log| - 1], who) + if last.who == who then [last.step] else []
  }

  lemma AttemptAdded(log: seq<Attempt>, a: Attempt)
    ensures forall scope :: PassedOf(log + [a], scope) ==
                            PassedOf(log, scope) + if a.first && a.scope == scope then [a.step] else []
    ensures forall who :: TriedBy(log + [a], who) == TriedBy(log, who) + if a.who == who then [a.step] else []
  {
    assert (log + [a])[..|log|] == log;
  }

  /** The submissions' positions, the keys in the book, and all questions so far. */
  datatype State = State(pos: seq<nat>, seen: set<string>, log: seq<Attempt>)

  function Start(subs: seq<Submission>): (s: State)
    ensures |s.pos| == |subs|
  {
    State(seq(|subs|, _ => 0), {}, [])
  }

  /** Submission `c` moves: it asks for its next step, if it has one left. */
  function Move(subs: seq<Submission>, s: State, c: nat): (t: State)
    requires c < |subs| == |s.pos|
    ensures |t.pos| == |subs|
  {
    if s.pos[c] >= subs[c].Length() then s
    else
      var key := subs[c].Key(s.pos[c]);
      State(
        s.pos[c := s.pos[c] + 1], s.seen + {key},
        s.log + [Attempt(c, subs[c].PlanScope(), Steps()[s.pos[c]], key !in s.seen)])
  }

  ghost predicate ValidSchedule(subs: seq<Submission>, schedule: seq<nat>)
  {
    forall i :: 0 <= i < |schedule| ==> schedule[i] < |subs|
  }

  /**
   Any interleaving of any submissions against one book. `schedule` names the
   submission that moves next; a submission that crashes is simply never named again,
   and a retry is one more submission.
   */
  ghost function Run(subs: seq<Submission>, schedule: seq<nat>): (s: State)
    requires ValidSchedule(subs, schedule)
    ensures |s.pos| == |subs|
  {
    if schedule == [] then Start(subs)
    else Move(subs, Run(subs, schedule[..|schedule| - 1]), schedule[|schedule| - 1])
  }

  function Min(a: nat, b: nat): nat
  {
    if a < b then a else b
  }

  function Max(a: nat, b: nat): nat
  {
    if a < b then b else a
  }

  /** How far the schedule takes one submission. */
  function Reach(subs: seq<Submission>, schedule: seq<nat>, c: nat): nat
    requires c < |subs|
  {
    Min(multiset(schedule)[c], subs[c].Length())
  }

  /** How far it takes the furthest of the first `n` submissions of one scope. */
  function Furthest(subs: seq<Submission>, schedule: seq<nat>, scope: string, n: nat): (d: nat)
    requires n <= |subs|
    ensures d <= 5
  {
    if n == 0 then 0
    else if subs[n - 1].PlanScope() == scope
    then Max(Furthest(subs, schedule, scope, n - 1), Reach(subs, schedule, n - 1))
    else Furthest(subs, schedule, scope, n - 1)
  }

  // ----------------------------------------------------------------- one move

  /** How far the plan with this scope has got. */
  function Depth(log: seq<Attempt>, scope: string): nat
  {
    |PassedOf(log, scope)|
  }

  /** Which keys the book has seen, in terms of what was let through. */
  ghost predicate SeenMatches(s: State)
  {
    forall t, b, i :: 0 <= i < 5 ==> (StepKey(t, b, Steps()[i]) in s.seen <==> i < Depth(s.log, Scope(t, b)))
  }

  ghost predicate InOrder(s: State)
  {
    forall scope :: PassedOf(s.log, scope) <= Steps()
  }

  /** Every submission has asked for its first steps, in order, and for nothing else. */
  ghost predicate TriedMatches(subs: seq<Submission>, s: State)
  {
    && |s.pos| == |subs|
    && forall c :: 0 <= c < |subs| ==> s.pos[c] <= subs[c].Length() && TriedBy(s.log, c) == Steps()[..s.pos[c]]
  }

  /** No submission is ahead of its plan, and one of them is exactly as far. */
  ghost predicate PositionsMatch(subs: seq<Submission>, s: State)
  {
    && |s.pos| == |subs|
    && (forall c :: 0 <= c < |subs| ==> s.pos[c] <= Depth(s.log, subs[c].PlanScope()))
    && (forall scope :: Depth(s.log, scope) > 0 ==>
          exists c :: 0 <= c < |subs| && subs[c].PlanScope() == scope && s.pos[c] == Depth(s.log, scope))
  }

  ghost predicate Consistent(subs: seq<Submission>, s: State)
  {
    SeenMatches(s) && InOrder(s) && TriedMatches(subs, s) && PositionsMatch(subs, s)
  }

  /** A key that is new is the next step of its plan. */
  lemma NewKeyIsNext(subs: seq<Submission>, s: State, c: nat)
    requires Consistent(subs, s) && c < |subs| && s.pos[c] < subs[c].Length()
    ensures subs[c].Key(s.pos[c]) in s.seen <==> s.pos[c] < Depth(s.log, subs[c].PlanScope())
  {
  }

  lemma SeenAfterMove(subs: seq<Submission>, s: State, c: nat)
    requires Consistent(subs, s) && c < |subs| && s.pos[c] < subs[c].Length()
    ensures SeenMatches(Move(subs, s, c))
  {
    hide PassedOf, TriedBy, Steps, StepKey, Scope, InOrder, TriedMatches;
    NewKeyIsNext(subs, s, c);
    var s' := Move(subs, s, c);
    AttemptAdded(s.log, s'.log[|s.log|]);
    forall t, b, i | 0 <= i < 5
      ensures StepKey(t, b, Steps()[i]) in s'.seen <==> i < Depth(s'.log, Scope(t, b))
    {
      KeyIffScopeAndStep(t, b, i, subs[c].traceId, subs[c].bundleId, s.pos[c]);
    }
  }

  lemma OrderAfterMove(subs: seq<Submission>, s: State, c: nat)
    requires Consistent(subs, s) && c < |subs| && s.pos[c] < subs[c].Length()
    ensures InOrder(Move(subs, s, c))
  {
    hide PassedOf, TriedBy, Steps, StepKey, Scope, SeenMatches, TriedMatches;
    NewKeyIsNext(subs, s, c);
    var s' := Move(subs, s, c);
    AttemptAdded(s.log, s'.log[|s.log|]);
    forall scope
      ensures PassedOf(s'.log, scope) <= Steps()
    {
      assert PassedOf(s.log, scope) <= Steps();
    }
  }

  lemma TriedAfterMove(subs: seq<Submission>, s: State, c: nat)
    requires Consistent(subs, s) && c < |subs| && s.pos[c] < subs[c].Length()
    ensures TriedMatches(subs, Move(subs, s, c))
  {
    hide PassedOf, TriedBy, Steps, StepKey, Scope, SeenMatches, InOrder, PositionsMatch;
    var s' := Move(subs, s, c);
    AttemptAdded(s.log, s'.log[|s.log|]);
    assert Steps()[..s.pos[c] + 1] == Steps()[..s.pos[c]] + [Steps()[s.pos[c]]];
  }

  lemma PositionsAfterMove(subs: seq<Submission>, s: State, c: nat)
    requires Consistent(subs, s) && c < |subs| && s.pos[c] < subs[c].Length()
    ensures PositionsMatch(subs, Move(subs, s, c))
  {
    hide PassedOf, TriedBy, Steps, StepKey, Scope, SeenMatches, InOrder, TriedMatches;
    NewKeyIsNext(subs, s, c);
    var s' := Move(subs, s, c);
    var a := s'.log[|s.log|];
    AttemptAdded(s.log, a);
    forall scope | Depth(s'.log, scope) > 0
      ensures exists d :: 0 <= d < |subs| && subs[d].PlanScope() == scope && s'.pos[d] == Depth(s'.log, scope)
    {
      if a.first && scope == a.scope {
        assert s'.pos[c] == Depth(s'.log, scope);
      } else {
        assert Depth(s'.log, scope) == Depth(s.log, scope);
        var d :| 0 <= d < |subs| && subs[d].PlanScope() == scope && s.pos[d] == Depth(s.log, scope);
        assert d != c && s'.pos[d] == Depth(s'.log, scope);
      }
    }
  }

  // ----------------------------------------------------------------- whole runs

  lemma {:induction false} RunConsistent(subs: seq<Submission>, schedule: seq<nat>)
    requires ValidSchedule(subs, schedule)
    ensures Consistent(subs, Run(subs, schedule))
    ensures forall c :: 0 <= c < |subs| ==> Run(subs, schedule).pos[c] == Reach(subs, schedule, c)
  {
    hide Consistent, Move;
    if schedule == [] {
      NothingYet(subs);
    } else {
      var before, c := schedule[..|schedule| - 1], schedule[|schedule| - 1];
      RunConsistent(subs, before);
      MoveConsistent(subs, Run(subs, before), c);
      assert schedule == before + [c];
    }
  }

  lemma NothingYet(subs: seq<Submission>)
    ensures Consistent(subs, Start(subs))
  {
  }

  lemma MoveConsistent(subs: seq<Submission>, s: State, c: nat)
    requires Consistent(subs, s) && c < |subs| == |s.pos|
    ensures Consistent(subs, Move(subs, s, c))
    ensures Move(subs, s, c).pos == s.pos[c := Min(s.pos[c] + 1, subs[c].Length())]
  {
    hide SeenMatches, InOrder, PositionsMatch;
    if s.pos[c] < subs[c].Length() {
      SeenAfterMove(subs, s, c);
      OrderAfterMove(subs, s, c);
      TriedAfterMove(subs, s, c);
      PositionsAfterMove(subs, s, c);
    }
  }

  lemma {:induction false} FurthestIsMax(subs: seq<Submission>, schedule: seq<nat>, scope: string, n: nat)
    requires n <= |subs|
    ensures forall c :: 0 <= c < n && subs[c].PlanScope() == scope ==>
              Reach(subs, schedule, c) <= Furthest(subs, schedule, scope, n)
    ensures Furthest(subs, schedule, scope, n) > 0 ==>
              exists c :: 0 <= c < n && subs[c].PlanScope() == scope
                && Reach(subs, schedule, c) == Furthest(subs, schedule, scope, n)
  {
    hide Reach, Scope;
    if n > 0 {
      FurthestIsMax(subs, schedule, scope, n - 1);
    }
  }

  /**
   After any interleaving: every submission has asked for its first steps, as many as
   the schedule gave it moves; and per scope the book has let through the canonical
   steps in order, each once, exactly as far as the furthest submission went.
   */
  lemma ExactlyOnce(subs: seq<Submission>, schedule: seq<nat>)
    requires ValidSchedule(subs, schedule)
    ensures forall c :: 0 <= c < |subs| ==>
              && Run(subs, schedule).pos[c] == Reach(subs, schedule, c)
              && TriedBy(Run(subs, schedule).log, c) == Steps()[..Reach(subs, schedule, c)]
    ensures forall scope ::
              PassedOf(Run(subs, schedule).log, scope) == Steps()[..Furthest(subs, schedule, scope, |subs|)]
  {
    hide PassedOf, TriedBy, Steps, Scope, SeenMatches, Run, Reach;
    RunConsistent(subs, schedule);
    var s := Run(subs, schedule);
    forall scope
      ensures PassedOf(s.log, scope) == Steps()[..Furthest(subs, schedule, scope, |subs|)]
    {
      FurthestIsMax(subs, schedule, scope, |subs|);
      assert PassedOf(s.log, scope) <= Steps();
      assert Depth(s.log, scope) == Furthest(subs, schedule, scope, |subs|);
    }
  }

  lemma {:induction false} FurthestByCounts(subs: seq<Submission>, a: seq<nat>, b: seq<nat>, scope: string, n: nat)
    requires n <= |subs| && multiset(a) == multiset(b)
    ensures Furthest(subs, a, scope, n) == Furthest(subs, b, scope, n)
  {
    if n > 0 {
      FurthestByCounts(subs, a, b, scope, n - 1);
    }
  }

  /** How the moves were interleaved does not matter, only how many each submission got. */
  lemma InterleavingIrrelevant(subs: seq<Submission>, a: seq<nat>, b: seq<nat>, scope: string)
    requires ValidSchedule(subs, a) && ValidSchedule(subs, b) && multiset(a) == multiset(b)
    ensures PassedOf(Run(subs, a).log, scope) == PassedOf(Run(subs, b).log, scope)
  {
    hide PassedOf, Run, Steps;
    ExactlyOnce(subs, a);
    ExactlyOnce(subs, b);
    FurthestByCounts(subs, a, b, scope, |subs|);
  }

  /** The run with the book itself, one `try_once` per question. */
  method RunInterleaving(subs: seq<Submission>, schedule: seq<nat>)
    returns (log: seq<Attempt>, pos: seq<nat>)
    requires ValidSchedule(subs, schedule)
    ensures log == Run(subs, schedule).log && pos == Run(subs, schedule).pos
    ensures forall c :: 0 <= c < |subs| ==>
              pos[c] == Reach(subs, schedule, c) && TriedBy(log, c) == Steps()[..Reach(subs, schedule, c)]
    ensures forall scope :: PassedOf(log, scope) == Steps()[..Furthest(subs, schedule, scope, |subs|)]
  {
    hide PassedOf, TriedBy, Steps, StepKey, Scope, Reach, Furthest;
    var book := new SettlementIdempotencyBook();
    log, pos := [], seq(|subs|, _ => 0);
    for n := 0 to |schedule|
      invariant State(pos, book.seen, log) == Run(subs, schedule[..n])
    {
      var c := schedule[n];
      assert schedule[..n + 1][..n] == schedule[..n];
      if pos[c] < subs[c].Length() {
        var first := book.TryOnce(subs[c].Key(pos[c]));
        log := log + [Attempt(c, subs[c].PlanScope(), Steps()[pos[c]], first)];
        pos := pos[c := pos[c] + 1];
      }
    }
    assert schedule[..|schedule|] == schedule;
    ExactlyOnce(subs, schedule);
  }
}

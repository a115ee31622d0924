/**
 The verifier network: auto-verify, which hands out attestations and counts them, the
 reputation update, attestations that nodes submit themselves, and slashes. What any run
 of these does to a node is a function of that node and the run. Floating point scores are modelled as real numbers and the
 final rounding to four places as round-half-even.
 */
module VerifierNetwork {
  import opened Sorting
  import opened Json
  import opened JsonDict

  // -------------------------------------------------------------------------- decisions

  datatype Decision = AttestedOk | AttestedFail | Flagged

  /** What the two rule calls did: the dicts they returned, or an exception. */
  datatype Rules =
    | Unavailable
    | Raised
    | RaisedSecond(structural: seq<Field>)
    | Checked(structural: seq<Field>, integrity: seq<Field>)

  datatype Attestation = Attestation(
    verifierId: string, decision: Decision, confidence: Option<real>, checksPassed: nat, checksTotal: nat)

  /** Python's truth value. */
  predicate Truthy(v: Value)
  {
    match v
    case Null => false
    case Bool(b) => b
    case Int(n) => n != 0
    case Str(s) => s != ""
    case Arr(items) => items != []
    case Obj(fields) => fields != []
  }

  /** `result.get("valid", False)` as a condition. */
  predicate ValidFlag(result: seq<Field>)
  {
    Lookup(result, "valid").Some? && Truthy(Lookup(result, "valid").value)
  }

  /** The rules lead to an OK attestation. */
  predicate Approving(rules: Rules)
  {
    rules.Unavailable? || (rules.Checked? && ValidFlag(rules.structural) && ValidFlag(rules.integrity))
  }

  function Count(b: bool): nat
  {
    if b then 1 else 0
  }

  /** The row for one verifier. */
  function AttestationOf(verifierId: string, rules: Rules): Attestation
  {
    match rules
    case Unavailable => Attestation(verifierId, AttestedOk, Some(1.0), 1, 1)
    case Raised => Attestation(verifierId, Flagged, Some(0.0), 0, 0)
    case RaisedSecond(s) => Attestation(verifierId, Flagged, Some(0.0), Count(ValidFlag(s)), 1)
    case Checked(s, i) =>
      Attestation(
        verifierId,
        if Approving(rules) then AttestedOk else AttestedFail,
        Some(if Approving(rules) then 1.0 else if ValidFlag(i) then 0.5 else 0.3),
        Count(ValidFlag(s)) + Count(ValidFlag(i)), 2)
  }

  /** Decision, confidence and checks for one verifier. */
  method Decide(verifierId: string, rules: Rules) returns (a: Attestation)
    ensures a == AttestationOf(verifierId, rules)
    ensures a.decision == AttestedOk <==> Approving(rules)
    ensures a.confidence.Some? && 0.0 <= a.confidence.value <= 1.0 && a.checksPassed <= a.checksTotal
    ensures a.decision == AttestedOk <==> a.confidence.value == 1.0
    ensures a.decision == Flagged <==> a.confidence.value == 0.0
    ensures a.decision == AttestedOk ==> a.checksPassed == a.checksTotal
    ensures rules.Unavailable? ==> a.checksTotal == 1
    ensures rules.Raised? ==> a.decision == Flagged && a.checksTotal == 0
    ensures rules.RaisedSecond? ==> a.decision == Flagged && a.checksTotal == 1 && (a.checksPassed == 1 <==> ValidFlag(rules.structural))
    ensures rules.Checked? ==>
              && a.decision != Flagged && a.checksTotal == 2
              && (!ValidFlag(rules.integrity) ==> a.confidence.value == 0.3)
              && (ValidFlag(rules.integrity) && !ValidFlag(rules.structural) ==> a.confidence.value == 0.5)
              && (a.checksPassed == 0 <==> !ValidFlag(rules.structural) && !ValidFlag(rules.integrity))
  {
    hide ValidFlag;
    var passed, total := 0, 0;
    var decision, confidence := AttestedOk, 1.0;
    match rules {
      case Unavailable =>
        passed, total := 1, 1;
      case Raised =>
        decision, confidence := Flagged, 0.0;
      case RaisedSecond(structural) =>
        total := total + 1;
        if ValidFlag(structural) {
          passed := passed + 1;
        }
        decision, confidence := Flagged, 0.0;
      case Checked(structural, integrity) =>
        total := total + 1;
        if ValidFlag(structural) {
          passed := passed + 1;
        } else {
          decision, confidence := AttestedFail, 0.5;
        }
        total := total + 1;
        if ValidFlag(integrity) {
          passed := passed + 1;
        } else {
          decision := AttestedFail;
          confidence := if confidence < 0.3 then confidence else 0.3;
        }
    }
    a := Attestation(verifierId, decision, Some(confidence), passed, total);
  }

  // ------------------------------------------------------------------------------ rounding

  /** `round(x, 4)`: the nearest multiple of 1/10000, ties to the even one. */
  function Round4(x: real): real
  {
    var scaled := x * 10000.0;
    var low := scaled.Floor;
    var frac := scaled - low as real;
    var n := if frac < 0.5 || (frac == 0.5 && low % 2 == 0) then low else low + 1;
    n as real / 10000.0
  }

  function Abs(x: real): (r: real)
    ensures r >= 0.0
  {
    if x < 0.0 then -x else x
  }

  lemma Round4Error(x: real)
    ensures Abs(Round4(x) - x) <= 0.00005
  {
  }

  /** The result is the nearest multiple of 1/10000, and on a tie the even one. */
  lemma Round4Nearest(x: real) returns (n: int)
    ensures Round4(x) == n as real / 10000.0
    ensures Abs(x * 10000.0 - n as real) <= 0.5
    ensures Abs(x * 10000.0 - n as real) == 0.5 ==> n % 2 == 0
  {
    var scaled := x * 10000.0;
    var low := scaled.Floor;
    var frac := scaled - low as real;
    n := if frac < 0.5 || (frac == 0.5 && low % 2 == 0) then low else low + 1;
  }

  /** Rounding never crosses a representable bound. */
  lemma Round4Bounds(x: real, lo: int, hi: int)
    requires lo as real <= x <= hi as real
    ensures lo as real <= Round4(x) <= hi as real
  {
    var scaled := x * 10000.0;
    assert (lo * 10000) as real <= scaled <= (hi * 10000) as real;
    assert lo * 10000 <= scaled.Floor <= hi * 10000;
  }

  /** One update toward 100 times the success rate. */
  function Smoothed(score: real, rate: real): real
  {
    Round4(0.7 * score + 0.3 * (rate * 100.0))
  }

  function Repeat(score: real, rate: real, n: nat): real
  {
    if n == 0 then score else Smoothed(Repeat(score, rate, n - 1), rate)
  }

  function Pow07(n: nat): (p: real)
    ensures 0.0 < p <= 1.0
  {
    if n == 0 then 1.0 else 0.7 * Pow07(n - 1)
  }

  /** One update contracts the distance to the target, up to one rounding. */
  lemma UpdateContracts(score: real, rate: real)
    ensures Abs(Smoothed(score, rate) - 100.0 * rate) <= 0.7 * Abs(score - 100.0 * rate) + 0.00005
  {
    hide Round4;
    var target := 100.0 * rate;
    var x := 0.7 * score + 0.3 * (rate * 100.0);
    Round4Error(x);
    assert x - target == 0.7 * (score - target);
  }

  /**
   With a fixed success rate, n updates bring the score within 0.7^n of its initial
   distance from 100 times the rate, plus 1/6000 for all the roundings together.
   */
  lemma {:induction false} ReputationConverges(score: real, rate: real, n: nat)
    ensures Abs(Repeat(score, rate, n) - 100.0 * rate) <= Pow07(n) * Abs(score - 100.0 * rate) + 1.0 / 6000.0
  {
    hide Smoothed, Abs;
    if n > 0 {
      ReputationConverges(score, rate, n - 1);
      UpdateContracts(Repeat(score, rate, n - 1), rate);
      var start := Abs(score - 100.0 * rate);
      assert Pow07(n) * start == 0.7 * (Pow07(n - 1) * start);
    }
  }

  // ------------------------------------------------------------------------ nodes and rows

  /** A verifier node; `owner` is its owner identity with surrounding blanks removed. */
  datatype Node = Node(score: real, total: nat, successful: nat, active: bool, owner: string)

  /** How the database creates a node. */
  predicate Unused(n: Node)
  {
    n.score == 0.0 && n.total == 0 && n.successful == 0
  }

  /** One node's rows, in order. */
  function RowsFor(rows: seq<Attestation>, id: string): seq<Attestation>
  {
    if rows == [] then []
    else
      var last := rows[|rows| - 1];
      RowsFor(rows[..|rows| - 1], id) + if last.verifierId == id then [last] else []
  }

  function OkCount(rows: seq<Attestation>): (n: nat)
    ensures n <= |rows|
  {
    if rows == [] then 0
    else OkCount(rows[..|rows| - 1]) + Count(rows[|rows| - 1].decision == AttestedOk)
  }

  lemma RowAdded(rows: seq<Attestation>, a: Attestation)
    ensures forall id :: RowsFor(rows + [a], id) == RowsFor(rows, id) + if a.verifierId == id then [a] else []
    ensures OkCount(rows + [a]) == OkCount(rows) + Count(a.decision == AttestedOk)
  {
    assert (rows + [a])[..|rows|] == rows;
  }

  function Credit(n: Node, d: Decision): Node
  {
    n.(total := n.total + 1, successful := n.successful + if d == AttestedOk then 1 else 0)
  }

  /** A node is handed work if it is active and appointed, or its bond is good. */
  predicate Selected(n: Node, bonded: bool)
  {
    n.active && (n.owner == "" || bonded)
  }

  function Rated(n: Node): Node
  {
    if n.total > 0 then n.(score := Smoothed(n.score, n.successful as real / n.total as real)) else n
  }

  /** Everything outside the database that one auto-verify run depends on. */
  datatype Circumstances = Circumstances(bonded: string -> bool, rules: string -> Rules)

  /**
   A slash takes 25 points, but not below 0; one that leaves too small a bond also
   releases the node.
   */
  function Slashed(n: Node, releases: bool): Node
  {
    n.(score := Round4(if n.score < 25.0 then 0.0 else n.score - 25.0), active := n.active && !releases)
  }

  /**
   Whatever changes a node: the two jobs, a row that a node submits, with the state of
   its bond and whether its signature verifies, a slash on the books for the first
   time, and operators switching nodes on and off.
   */
  datatype Job =
    | Verify(circumstances: Circumstances)
    | Rate
    | Submit(row: Attestation, bonded: bool, signed: bool)
    | Slash(id: string, releases: bool)
    | SetActive(id: string, active: bool)

  // -------------------------------------------------------------------- what runs do to a node

  /** The submission is this node's and is taken. */
  predicate Taken(n: Node, id: string, row: Attestation, bonded: bool, signed: bool)
  {
    row.verifierId == id && Selected(n, bonded) && signed
  }

  /** The rows that one job adds for a node. */
  function Given(n: Node, id: string, job: Job): seq<Attestation>
  {
    match job
    case Verify(c) => if Selected(n, c.bonded(id)) then [AttestationOf(id, c.rules(id))] else []
    case Rate => []
    case Submit(row, bonded, signed) => if Taken(n, id, row, bonded, signed) then [row] else []
    case Slash(_, _) => []
    case SetActive(_, _) => []
  }

  /** What one job does to a node. */
  function JobOn(n: Node, id: string, job: Job): Node
  {
    match job
    case Verify(c) => if Selected(n, c.bonded(id)) then Credit(n, AttestationOf(id, c.rules(id)).decision) else n
    case Rate => Rated(n)
    case Submit(row, bonded, signed) => if Taken(n, id, row, bonded, signed) then Credit(n, row.decision) else n
    case Slash(other, releases) => if other == id then Slashed(n, releases) else n
    case SetActive(other, active) => if other == id then n.(active := active) else n
  }

  function After(n: Node, id: string, jobs: seq<Job>): Node
  {
    if jobs == [] then n else JobOn(After(n, id, jobs[..|jobs| - 1]), id, jobs[|jobs| - 1])
  }

  /** All rows that a run of jobs adds for a node, in order. */
  function Attested(n: Node, id: string, jobs: seq<Job>): seq<Attestation>
  {
    if jobs == [] then []
    else
      var before := jobs[..|jobs| - 1];
      Attested(n, id, before) + Given(After(n, id, before), id, jobs[|jobs| - 1])
  }

  lemma {:induction false} NoDupSize(s: seq<string>)
    requires NoDup(s)
    ensures |set x | x in s| == |s|
  {
    if s != [] {
      var front, last := s[..|s| - 1], s[|s| - 1];
      NoDupSize(front);
      assert (set x | x in s) == (set x | x in front) + {last};
      assert last !in front;
    }
  }

  /** Every node and its rows went through the job, and no other row was written. */
  ghost predicate JobDone(
    nodes: map<string, Node>, rows: seq<Attestation>, job: Job, nodes': map<string, Node>, rows': seq<Attestation>)
  {
    && nodes'.Keys == nodes.Keys
    && (forall id :: id in nodes ==> nodes'[id] == JobOn(nodes[id], id, job))
    && (forall id :: RowsFor(rows', id) == RowsFor(rows, id) + if id in nodes then Given(nodes[id], id, job) else [])
  }

  /** Auto-verify has dealt with the nodes in `done`. */
  ghost predicate Credited(nodes: map<string, Node>, done: seq<string>, c: Circumstances, nodes': map<string, Node>)
  {
    && nodes'.Keys == nodes.Keys
    && forall id :: id in nodes ==>
         nodes'[id] == if id in done then Credit(nodes[id], AttestationOf(id, c.rules(id)).decision) else nodes[id]
  }

  ghost predicate Recorded(rows: seq<Attestation>, done: seq<string>, c: Circumstances, rows': seq<Attestation>)
  {
    forall id :: RowsFor(rows', id) == RowsFor(rows, id) + if id in done then [AttestationOf(id, c.rules(id))] else []
  }

  lemma CreditOne(nodes: map<string, Node>, done: seq<string>, c: Circumstances, nodes': map<string, Node>, id: string)
    requires Credited(nodes, done, c, nodes') && id in nodes && id !in done
    ensures Credited(nodes, done + [id], c, nodes'[id := Credit(nodes'[id], AttestationOf(id, c.rules(id)).decision)])
  {
    hide Credit, AttestationOf;
  }

  lemma RecordOne(rows: seq<Attestation>, done: seq<string>, c: Circumstances, rows': seq<Attestation>, id: string)
    requires Recorded(rows, done, c, rows') && id !in done
    ensures Recorded(rows, done + [id], c, rows' + [AttestationOf(id, c.rules(id))])
  {
    hide RowsFor, AttestationOf;
    RowIsNamed(id, c.rules(id));
    RowAdded(rows', AttestationOf(id, c.rules(id)));
  }

  lemma NothingRecorded(nodes: map<string, Node>, rows: seq<Attestation>, c: Circumstances)
    ensures Credited(nodes, [], c, nodes) && Recorded(rows, [], c, rows)
  {
    hide RowsFor;
  }

  lemma AllRecorded(
    nodes: map<string, Node>, rows: seq<Attestation>, done: seq<string>, c: Circumstances,
    nodes': map<string, Node>, rows': seq<Attestation>)
    requires Credited(nodes, done, c, nodes') && Recorded(rows, done, c, rows')
    requires forall id :: id in done <==> id in nodes && Selected(nodes[id], c.bonded(id))
    ensures JobDone(nodes, rows, Verify(c), nodes', rows')
  {
    hide RowsFor, AttestationOf, Selected, Credit;
  }

  class Network {
    var nodes: map<string, Node>
    var rows: seq<Attestation>

    constructor (registered: map<string, Node>)
      ensures nodes == registered && rows == []
    {
      nodes, rows := registered, [];
    }

    /** The nodes that one auto-verify run selects. */
    ghost function Chosen(c: Circumstances): set<string>
      reads this
    {
      set id | id in nodes && Selected(nodes[id], c.bonded(id))
    }

    /** The first loop: drop the nodes whose bond is no longer good. */
    method Backed(order: seq<string>, c: Circumstances) returns (verifiers: seq<string>)
      requires NoDup(order) && forall id :: id in order <==> id in nodes && nodes[id].active
      ensures NoDup(verifiers)
      ensures forall id :: id in verifiers <==> id in nodes && Selected(nodes[id], c.bonded(id))
      ensures forall id :: id in verifiers <==> id in nodes && nodes[id].active && (nodes[id].owner == "" || c.bonded(id))
    {
      verifiers := [];
      for i := 0 to |order|
        invariant NoDup(verifiers)
        invariant forall id :: id in verifiers <==> id in order[..i] && Selected(nodes[id], c.bonded(id))
      {
        var id := order[i];
        assert id in order && id !in order[..i];
        if nodes[id].owner == "" || c.bonded(id) {
          verifiers := verifiers + [id];
        }
        assert order[..i + 1] == order[..i] + [id];
      }
      assert order[..|order|] == order;
    }

    /**
     `_async_auto_verify`. Exactly the selected nodes get one row and one credit each;
     every other node is untouched, and no other rows are written.
     */
    method AutoVerify(order: seq<string>, c: Circumstances) returns (attestations: nat)
      requires NoDup(order) && forall id :: id in order <==> id in nodes && nodes[id].active
      modifies this
      ensures JobDone(old(nodes), old(rows), Verify(c), nodes, rows) && old(rows) <= rows
      ensures |rows| == |old(rows)| + attestations && attestations == |old(Chosen(c))|
    {
      hide Credited, Recorded, JobDone, Selected, AttestationOf, Credit;
      var verifiers := Backed(order, c);
      NoDupSize(verifiers);
      assert Chosen(c) == set x | x in verifiers;
      attestations := 0;
      NothingRecorded(nodes, rows, c);
      for i := 0 to |verifiers|
        invariant nodes.Keys == old(nodes).Keys && attestations == i
        invariant |rows| == |old(rows)| + i && old(rows) <= rows
        invariant Credited(old(nodes), verifiers[..i], c, nodes) && Recorded(old(rows), verifiers[..i], c, rows)
      {
        var id := verifiers[i];
        assert id in verifiers && id !in verifiers[..i];
        var a := Decide(id, c.rules(id));
        CreditOne(old(nodes), verifiers[..i], c, nodes, id);
        RecordOne(old(rows), verifiers[..i], c, rows, id);
        rows := rows + [a];
        nodes := nodes[id := Credit(nodes[id], a.decision)];
        attestations := attestations + 1;
        assert verifiers[..i + 1] == verifiers[..i] + [id];
      }
      assert verifiers[..|verifiers|] == verifiers;
      AllRecorded(old(nodes), old(rows), verifiers, c, nodes, rows);
    }

    /** `_async_update_reputation` over all nodes, in whatever order they are read. */
    method UpdateReputation(order: seq<string>) returns (updated: nat)
      requires NoDup(order) && forall id :: id in order <==> id in nodes
      modifies `nodes
      ensures nodes.Keys == old(nodes).Keys && updated == |nodes|
      ensures forall id :: id in nodes ==> nodes[id] == Rated(old(nodes)[id])
    {
      hide Smoothed;
      updated := 0;
      for i := 0 to |order|
        invariant nodes.Keys == old(nodes).Keys && updated == i
        invariant forall id :: id in nodes ==>
                    nodes[id] == if id in order[..i] then Rated(old(nodes)[id]) else old(nodes)[id]
      {
        var id := order[i];
        assert id in order && id !in order[..i];
        var n := nodes[id];
        if n.total > 0 {
          var rate := n.successful as real / n.total as real;
          nodes := nodes[id := n.(score := Smoothed(n.score, rate))];
        }
        updated := updated + 1;
        assert order[..i + 1] == order[..i] + [id];
      }
      assert order[..|order|] == order;
      NoDupSize(order);
      assert nodes.Keys == set x | x in order;
    }

    /** `submit_attestation`: taken from an active node in good standing that signed it. */
    method SubmitAttestation(row: Attestation, bonded: bool, signed: bool) returns (taken: bool)
      modifies this
      ensures JobDone(old(nodes), old(rows), Submit(row, bonded, signed), nodes, rows)
      ensures taken <==>
                && row.verifierId in old(nodes) && signed && old(nodes)[row.verifierId].active
                && (old(nodes)[row.verifierId].owner == "" || bonded)
      ensures rows == old(rows) + if taken then [row] else []
    {
      hide JobDone, Credit;
      var id := row.verifierId;
      if id !in nodes || !nodes[id].active || (nodes[id].owner != "" && !bonded) || !signed {
        NoneTaken(nodes, rows, row, bonded, signed);
        return false;
      }
      OneTaken(nodes, rows, row, bonded, signed);
      rows := rows + [row];
      nodes := nodes[id := Credit(nodes[id], row.decision)];
      taken := true;
    }

    /** The part of `_apply_upheld_slash` that changes one node. */
    method ApplySlash(id: string, releases: bool)
      modifies `nodes
      ensures JobDone(old(nodes), rows, Slash(id, releases), nodes, rows)
      ensures id in nodes ==>
                && (old(nodes)[id].score >= 25.0 ==> nodes[id].score == Round4(old(nodes)[id].score - 25.0))
                && (old(nodes)[id].score < 25.0 ==> nodes[id].score == Round4(0.0))
                && (nodes[id].active <==> old(nodes)[id].active && !releases)
    {
      hide RowsFor, Round4;
      if id in nodes {
        var n := nodes[id];
        if releases {
          n := n.(active := false);
        }
        var lower := if n.score - 25.0 < 0.0 then 0.0 else n.score - 25.0;
        nodes := nodes[id := n.(score := Round4(lower))];
      }
    }
  }

  lemma OneTaken(nodes: map<string, Node>, rows: seq<Attestation>, row: Attestation, bonded: bool, signed: bool)
    requires row.verifierId in nodes && Taken(nodes[row.verifierId], row.verifierId, row, bonded, signed)
    ensures var id := row.verifierId;
            JobDone(nodes, rows, Submit(row, bonded, signed), nodes[id := Credit(nodes[id], row.decision)], rows + [row])
  {
    hide RowsFor, Credit, Selected;
    RowAdded(rows, row);
  }

  lemma NoneTaken(nodes: map<string, Node>, rows: seq<Attestation>, row: Attestation, bonded: bool, signed: bool)
    requires row.verifierId in nodes ==> !Taken(nodes[row.verifierId], row.verifierId, row, bonded, signed)
    ensures JobDone(nodes, rows, Submit(row, bonded, signed), nodes, rows)
  {
    hide RowsFor, Credit, Selected;
  }

  lemma RowIsNamed(id: string, rules: Rules)
    ensures AttestationOf(id, rules).verifierId == id
  {
  }

  // ------------------------------------------------------------------------------ whole runs

  method Listing(ids: set<string>) returns (order: seq<string>)
    ensures NoDup(order) && forall id :: id in order <==> id in ids
  {
    var todo := ids;
    order := [];
    while todo != {}
      invariant todo <= ids && NoDup(order)
      invariant forall id :: id in order <==> id in ids && id !in todo
      decreases todo
    {
      var id :| id in todo;
      order := order + [id];
      todo := todo - {id};
    }
  }

  /**
   Any interleaving of jobs, submissions, slashes and operators' switches: every node
   and its rows are what the jobs make of that node alone, in whatever order the
   nodes are read, and no row names an unknown node.
   */
  method RunJobs(registered: map<string, Node>, jobs: seq<Job>)
    returns (nodes: map<string, Node>, rows: seq<Attestation>)
    ensures nodes.Keys == registered.Keys
    ensures forall id :: id in nodes ==> nodes[id] == After(registered[id], id, jobs)
    ensures forall id :: RowsFor(rows, id) == if id in registered then Attested(registered[id], id, jobs) else []
  {
    hide Ran, JobDone;
    var net := new Network(registered);
    NothingRan(registered);
    for i := 0 to |jobs|
      invariant Ran(registered, jobs[..i], net.nodes, net.rows)
    {
      ghost var nodes0, rows0 := net.nodes, net.rows;
      match jobs[i] {
        case Verify(c) =>
          var order := Listing(set id | id in net.nodes && net.nodes[id].active);
          var _ := net.AutoVerify(order, c);
        case Rate =>
          var order := Listing(net.nodes.Keys);
          var _ := net.UpdateReputation(order);
          AllRated(nodes0, rows0, net.nodes);
        case Submit(row, bonded, signed) =>
          var _ := net.SubmitAttestation(row, bonded, signed);
        case Slash(id, releases) =>
          net.ApplySlash(id, releases);
        case SetActive(id, active) =>
          if id in net.nodes {
            net.nodes := net.nodes[id := net.nodes[id].(active := active)];
          }
          Switched(nodes0, rows0, id, active);
      }
      JobRan(registered, jobs[..i], jobs[i], nodes0, rows0, net.nodes, net.rows);
      assert jobs[..i + 1] == jobs[..i] + [jobs[i]];
    }
    assert jobs[..|jobs|] == jobs;
    nodes, rows := net.nodes, net.rows;
    RanMeans(registered, jobs, nodes, rows);
  }

  ghost predicate Ran(registered: map<string, Node>, jobs: seq<Job>, nodes: map<string, Node>, rows: seq<Attestation>)
  {
    && nodes.Keys == registered.Keys
    && (forall id :: id in nodes ==> nodes[id] == After(registered[id], id, jobs))
    && (forall id :: RowsFor(rows, id) == if id in registered then Attested(registered[id], id, jobs) else [])
  }

  lemma RanMeans(registered: map<string, Node>, jobs: seq<Job>, nodes: map<string, Node>, rows: seq<Attestation>)
    requires Ran(registered, jobs, nodes, rows)
    ensures nodes.Keys == registered.Keys
    ensures forall id :: id in nodes ==> nodes[id] == After(registered[id], id, jobs)
    ensures forall id :: RowsFor(rows, id) == if id in registered then Attested(registered[id], id, jobs) else []
  {
    hide RowsFor, After, Attested;
  }

  lemma NothingRan(registered: map<string, Node>)
    ensures Ran(registered, [], registered, [])
  {
  }

  lemma AllRated(nodes: map<string, Node>, rows: seq<Attestation>, nodes': map<string, Node>)
    requires nodes'.Keys == nodes.Keys && forall id :: id in nodes' ==> nodes'[id] == Rated(nodes[id])
    ensures JobDone(nodes, rows, Rate, nodes', rows)
  {
    hide Rated, RowsFor;
  }

  lemma Switched(nodes: map<string, Node>, rows: seq<Attestation>, id: string, active: bool)
    ensures JobDone(nodes, rows, SetActive(id, active), if id in nodes then nodes[id := nodes[id].(active := active)] else nodes, rows)
  {
    hide RowsFor;
  }

  lemma JobRan(
    registered: map<string, Node>, jobs: seq<Job>, job: Job, nodes: map<string, Node>, rows: seq<Attestation>,
    nodes': map<string, Node>, rows': seq<Attestation>)
    requires Ran(registered, jobs, nodes, rows) && JobDone(nodes, rows, job, nodes', rows')
    ensures Ran(registered, jobs + [job], nodes', rows')
  {
    hide RowsFor, JobOn, Given;
    assert (jobs + [job])[..|jobs|] == jobs;
  }

  // ----------------------------------------------------------------------------- accounting

  /** Counters are the rows they count, and the score is a percentage. */
  ghost predicate Accounted(n: Node, rows: seq<Attestation>)
  {
    n.total == |rows| && n.successful == OkCount(rows) && 0.0 <= n.score <= 100.0
  }

  lemma SmoothedInRange(score: real, rate: real)
    requires 0.0 <= score <= 100.0 && 0.0 <= rate <= 1.0
    ensures 0.0 <= Smoothed(score, rate) <= 100.0
  {
    Round4Bounds(0.7 * score + 0.3 * (rate * 100.0), 0, 100);
  }

  lemma RateInRange(successful: nat, total: nat)
    requires successful <= total && total > 0
    ensures 0.0 <= successful as real / total as real <= 1.0
  {
  }

  lemma RatedInRange(n: Node)
    requires n.successful <= n.total && 0.0 <= n.score <= 100.0
    ensures 0.0 <= Rated(n).score <= 100.0
  {
    hide Smoothed;
    if n.total > 0 {
      RateInRange(n.successful, n.total);
      SmoothedInRange(n.score, n.successful as real / n.total as real);
    }
  }

  lemma JobAccounted(n: Node, id: string, rows: seq<Attestation>, job: Job)
    requires Accounted(n, rows)
    ensures Accounted(JobOn(n, id, job), rows + Given(n, id, job))
  {
    hide Smoothed, AttestationOf, OkCount, Round4, Selected;
    match job
    case Verify(c) =>
      RowAdded(rows, AttestationOf(id, c.rules(id)));
      assert rows + [] == rows;
    case Rate =>
      RatedInRange(n);
      assert rows + [] == rows;
    case Submit(row, _, _) =>
      RowAdded(rows, row);
      assert rows + [] == rows;
    case Slash(_, _) =>
      SlashInRange(n.score);
      assert rows + [] == rows;
    case SetActive(_, _) =>
      assert rows + [] == rows;
  }

  lemma SlashInRange(score: real)
    requires 0.0 <= score <= 100.0
    ensures 0.0 <= Round4(if score < 25.0 then 0.0 else score - 25.0) <= 100.0
  {
    hide Round4;
    Round4Bounds(if score < 25.0 then 0.0 else score - 25.0, 0, 100);
  }

  /** After every run the counters are those of the rows and the score is in range. */
  lemma {:induction false} RunsAccounted(n: Node, id: string, jobs: seq<Job>)
    requires Unused(n)
    ensures Accounted(After(n, id, jobs), Attested(n, id, jobs))
  {
    if jobs != [] {
      hide Accounted, JobOn, Given;
      var before := jobs[..|jobs| - 1];
      RunsAccounted(n, id, before);
      JobAccounted(After(n, id, before), id, Attested(n, id, before), jobs[|jobs| - 1]);
    }
  }

  // -------------------------------------------------------------------------- who is handed work

  /** One auto-verify gives a node a row, and a credit, exactly if it is active and has no owner or a good bond. */
  lemma WorkForTheBacked(n: Node, id: string, c: Circumstances)
    ensures var job := Verify(c);
            && (n.active && (n.owner == "" || c.bonded(id)) ==>
                  Given(n, id, job) == [AttestationOf(id, c.rules(id))] && JobOn(n, id, job).total == n.total + 1)
            && (!n.active || (n.owner != "" && !c.bonded(id)) ==> Given(n, id, job) == [] && JobOn(n, id, job) == n)
  {
    hide AttestationOf;
  }

  /** The node's bond is bad whenever it is looked at. */
  ghost predicate NeverBonded(id: string, jobs: seq<Job>)
  {
    forall j :: j in jobs ==>
      && (j.Verify? ==> !j.circumstances.bonded(id))
      && (j.Submit? && j.row.verifierId == id ==> !j.bonded)
  }

  /** An owned node without a good bond gets no row and no credit in any run. */
  lemma {:induction false} UnbackedGetsNothing(n: Node, id: string, jobs: seq<Job>)
    requires n.owner != "" && NeverBonded(id, jobs)
    ensures Attested(n, id, jobs) == []
    ensures After(n, id, jobs).total == n.total && After(n, id, jobs).successful == n.successful
    ensures After(n, id, jobs).owner == n.owner
  {
    hide Smoothed, Round4, AttestationOf;
    if jobs != [] {
      var before, job := jobs[..|jobs| - 1], jobs[|jobs| - 1];
      assert job in jobs && forall j :: j in before ==> j in jobs;
      UnbackedGetsNothing(n, id, before);
    }
  }

  /** Neither does a node that is switched off and never switched on. */
  lemma {:induction false} InactiveGetsNothing(n: Node, id: string, jobs: seq<Job>)
    requires !n.active && forall j :: j in jobs && j.SetActive? && j.id == id ==> !j.active
    ensures Attested(n, id, jobs) == []
    ensures After(n, id, jobs).total == n.total && !After(n, id, jobs).active
  {
    hide Smoothed, Round4, AttestationOf;
    if jobs != [] {
      var before, job := jobs[..|jobs| - 1], jobs[|jobs| - 1];
      assert job in jobs && forall j :: j in before ==> j in jobs;
      InactiveGetsNothing(n, id, before);
    }
  }

  /** The job gives the node an OK row: auto-verify with approving rules, or its own submission. */
  predicate Earns(n: Node, id: string, job: Job)
  {
    match job
    case Verify(c) => Selected(n, c.bonded(id)) && Approving(c.rules(id))
    case Submit(row, bonded, signed) => Taken(n, id, row, bonded, signed) && row.decision == AttestedOk
    case Rate => false
    case Slash(_, _) => false
    case SetActive(_, _) => false
  }

  ghost predicate EarnsAt(n: Node, id: string, jobs: seq<Job>, k: nat)
    requires k < |jobs|
  {
    Earns(After(n, id, jobs[..k]), id, jobs[k])
  }

  /** A node has a successful attestation exactly if some job of the run earned it one. */
  lemma {:induction false} SuccessfulIff(n: Node, id: string, jobs: seq<Job>)
    requires Unused(n)
    ensures After(n, id, jobs).successful > 0 <==> exists k :: 0 <= k < |jobs| && EarnsAt(n, id, jobs, k)
  {
    hide Earns, JobOn;
    if jobs != [] {
      var last := |jobs| - 1;
      var before := jobs[..last];
      SuccessfulIff(n, id, before);
      forall k | 0 <= k < last
        ensures EarnsAt(n, id, before, k) <==> EarnsAt(n, id, jobs, k)
      {
        assert before[..k] == jobs[..k];
      }
      JobSucceeds(After(n, id, before), id, jobs[last]);
      if EarnsAt(n, id, jobs, last) {
      } else if exists k :: 0 <= k < last && EarnsAt(n, id, before, k) {
        var k :| 0 <= k < last && EarnsAt(n, id, before, k);
        assert EarnsAt(n, id, jobs, k);
      }
    }
  }

  lemma JobSucceeds(n: Node, id: string, job: Job)
    ensures JobOn(n, id, job).successful == n.successful + Count(Earns(n, id, job))
  {
    hide Smoothed, ValidFlag, Selected, Round4;
  }

  // ---------------------------------------------------------------------- the shipped rules

  /** What the shipped rules return: a decision and its reasons. */
  function RuleResult(decision: string, reasons: seq<Value>): seq<Field>
  {
    [Field("decision", Str(decision)), Field("reasons", Arr(reasons))]
  }

  ghost predicate IsRuleResult(result: seq<Field>)
  {
    exists d, r :: result == RuleResult(d, r)
  }

  /** The shipped rules were loaded: each call returned one of its results or raised. */
  ghost predicate Shipped(rules: Rules)
  {
    match rules
    case Unavailable => false
    case Raised => true
    case RaisedSecond(s) => IsRuleResult(s)
    case Checked(s, i) => IsRuleResult(s) && IsRuleResult(i)
  }

  /** The flag is the truth of the `valid` entry; nothing else in the result matters. */
  lemma ValidFlagExactly(result: seq<Field>)
    ensures Lookup(result, "valid") == None ==> !ValidFlag(result)
    ensures forall b :: Lookup(result, "valid") == Some(Bool(b)) ==> (ValidFlag(result) <==> b)
    ensures forall n :: Lookup(result, "valid") == Some(Int(n)) ==> (ValidFlag(result) <==> n != 0)
    ensures forall s :: Lookup(result, "valid") == Some(Str(s)) ==> (ValidFlag(result) <==> s != "")
    ensures forall x :: Lookup(result, "valid") == Some(Arr(x)) ==> (ValidFlag(result) <==> x != [])
    ensures forall x :: Lookup(result, "valid") == Some(Obj(x)) ==> (ValidFlag(result) <==> x != [])
    ensures Lookup(result, "valid") == Some(Null) ==> !ValidFlag(result)
  {
    hide Lookup;
  }

  lemma NoValidKey(result: seq<Field>)
    requires IsRuleResult(result)
    ensures !ValidFlag(result)
  {
    var d, r :| result == RuleResult(d, r);
    assert result[0].key == "decision" && result[1].key == "reasons" && |result| == 2;
    LookupAbsent(result, "valid");
  }

  lemma ShippedNeverApproves(rules: Rules)
    requires Shipped(rules)
    ensures !Approving(rules)
  {
    hide ValidFlag, IsRuleResult;
    if rules.Checked? {
      NoValidKey(rules.structural);
    }
  }

  /** Every auto-verify run of these has the shipped rules for this node. */
  ghost predicate AllShipped(id: string, jobs: seq<Job>)
  {
    forall j :: j in jobs && j.Verify? ==> Shipped(j.circumstances.rules(id))
  }

  /** The node submits no OK row of its own. */
  ghost predicate ClaimsNothing(id: string, jobs: seq<Job>)
  {
    forall j :: j in jobs && j.Submit? && j.row.verifierId == id ==> j.row.decision != AttestedOk
  }

  /** With the shipped rules, only the node's own submissions ever succeed. */
  lemma OnlySubmissionsSucceed(n: Node, id: string, jobs: seq<Job>)
    requires Unused(n) && AllShipped(id, jobs)
    ensures After(n, id, jobs).successful > 0 <==>
            exists k :: 0 <= k < |jobs| && jobs[k].Submit? && EarnsAt(n, id, jobs, k)
  {
    hide Shipped, Approving, Selected, After;
    SuccessfulIff(n, id, jobs);
    forall k | 0 <= k < |jobs| && EarnsAt(n, id, jobs, k)
      ensures jobs[k].Submit?
    {
      assert jobs[k] in jobs;
      if jobs[k].Verify? {
        ShippedNeverApproves(jobs[k].circumstances.rules(id));
      }
    }
  }

  lemma ZeroStaysZero(total: nat)
    requires total > 0
    ensures Smoothed(0.0, 0 as real / total as real) == 0.0
  {
    assert 0 as real / total as real == 0.0;
  }

  lemma UnrewardingJob(n: Node, id: string, job: Job)
    requires n.successful == 0 && n.score == 0.0 && !Earns(n, id, job)
    ensures JobOn(n, id, job).successful == 0 && JobOn(n, id, job).score == 0.0
    ensures forall a :: a in Given(n, id, job) ==> a.decision != AttestedOk
  {
    hide Smoothed, ValidFlag, Selected;
    JobSucceeds(n, id, job);
    if n.total > 0 {
      ZeroStaysZero(n.total);
    }
  }

  /**
   Runs with the shipped rules and no OK row of the node's own: whatever the rules
   decide or raise, no row of the node is ever OK, its success counter stays 0, and so
   does its score, exactly.
   */
  lemma {:induction false} ShippedRulesNeverReward(n: Node, id: string, jobs: seq<Job>)
    requires Unused(n) && AllShipped(id, jobs) && ClaimsNothing(id, jobs)
    ensures forall a :: a in Attested(n, id, jobs) ==> a.decision != AttestedOk
    ensures After(n, id, jobs).successful == 0 && After(n, id, jobs).score == 0.0
  {
    hide JobOn, Given, Shipped, Approving, Selected;
    if jobs != [] {
      var before, job := jobs[..|jobs| - 1], jobs[|jobs| - 1];
      assert job in jobs && forall j :: j in before ==> j in jobs;
      ShippedRulesNeverReward(n, id, before);
      if job.Verify? {
        ShippedNeverApproves(job.circumstances.rules(id));
      }
      UnrewardingJob(After(n, id, before), id, job);
    }
  }

  // ------------------------------------------------------------------------ long-run ratings

  function Ratings(k: nat): seq<Job>
  {
    seq(k, _ => Rate)
  }

  lemma {:induction false} RatingsRepeat(n: Node, id: string, jobs: seq<Job>, k: nat)
    requires After(n, id, jobs).total > 0
    ensures var m := After(n, id, jobs);
            After(n, id, jobs + Ratings(k)) == m.(score := Repeat(m.score, m.successful as real / m.total as real, k))
  {
    hide Smoothed;
    var all := jobs + Ratings(k);
    if k == 0 {
      assert all == jobs;
    } else {
      RatingsRepeat(n, id, jobs, k - 1);
      assert all[..|all| - 1] == jobs + Ratings(k - 1) && all[|all| - 1] == Rate;
    }
  }

  /** The bound of a contraction that starts at most `y` away. */
  lemma Widened(value: real, p: real, x: real, y: real, slack: real)
    requires 0.0 <= p && x <= y && value <= p * x + slack
    ensures value <= p * y + slack
  {
    assert p * (y - x) >= 0.0;
  }

  lemma WithinHundred(score: real, rate: real)
    requires 0.0 <= score <= 100.0 && 0.0 <= rate <= 1.0
    ensures Abs(score - 100.0 * rate) <= 100.0
  {
  }

  lemma SettlesFrom(score: real, rate: real, k: nat)
    requires 0.0 <= score <= 100.0 && 0.0 <= rate <= 1.0
    ensures Abs(Repeat(score, rate, k) - 100.0 * rate) <= Pow07(k) * 100.0 + 1.0 / 6000.0
  {
    hide Repeat, Pow07, Abs;
    ReputationConverges(score, rate, k);
    WithinHundred(score, rate);
    Widened(Abs(Repeat(score, rate, k) - 100.0 * rate), Pow07(k), Abs(score - 100.0 * rate), 100.0, 1.0 / 6000.0);
  }

  /**
   After any run, k more ratings bring the score of a node that has attested within
   100 * 0.7^k of its success percentage, plus 1/6000.
   */
  lemma RatingsSettle(n: Node, id: string, jobs: seq<Job>, k: nat)
    requires Unused(n) && After(n, id, jobs).total > 0
    ensures var m := After(n, id, jobs);
            Abs(After(n, id, jobs + Ratings(k)).score - 100.0 * (m.successful as real / m.total as real))
            <= Pow07(k) * 100.0 + 1.0 / 6000.0
  {
    hide Repeat, Pow07, Abs, After, Attested, OkCount;
    RunsAccounted(n, id, jobs);
    var m := After(n, id, jobs);
    RateInRange(m.successful, m.total);
    RatingsRepeat(n, id, jobs, k);
    SettlesFrom(m.score, m.successful as real / m.total as real, k);
  }
}

/**
 The SDK's request-signing state against the runtime gateway. The gateway rejects
 signed requests for unbound keys and unsigned ones for bound keys; the client must
 switch signing on and off at the right moment from the answers alone, while the
 owner binds and unbinds the key at any time.
 */
module RuntimeClient {

  /** How far the key's binding to the agent has got. */
  datatype Binding = Unbound | Pending | Bound

  /** An application carries the agent id it is made for. */
  datatype Endpoint = Permissions | BindKey(agentId: string) | Other

  // ------------------------------------------------------------------------- agent ids

  /** `str.isspace` of one character. */
  predicate IsSpace(c: char)
  {
    var n := c as int;
    || 9 <= n <= 13 || 28 <= n <= 32 || n == 0x85 || n == 0xA0 || n == 0x1680 || 0x2000 <= n <= 0x200A
    || n == 0x2028 || n == 0x2029 || n == 0x202F || n == 0x205F || n == 0x3000
  }

  /** `str.strip`. */
  function Strip(s: string): string
  {
    if s != "" && IsSpace(s[0]) then Strip(s[1..])
    else if s != "" && IsSpace(s[|s| - 1]) then Strip(s[..|s| - 1])
    else s
  }

  /** The agent ids that the gateway takes: at most 128 characters out of `[A-Za-z0-9_.-]`. */
  predicate SafeId(id: string)
  {
    1 <= |id| <= 128 && forall i :: 0 <= i < |id| ==> SafeChar(id[i])
  }

  predicate SafeChar(c: char)
  {
    'A' <= c <= 'Z' || 'a' <= c <= 'z' || '0' <= c <= '9' || c == '_' || c == '.' || c == '-'
  }

  /** The gateway gets as far as looking at the key. */
  predicate Admitted(e: Endpoint)
  {
    e.BindKey? ==> SafeId(e.agentId)
  }

  // ------------------------------------------------------------------------ the gateway

  /** What the client can tell about a response. */
  datatype Reply =
    | Lost                                          // no response at all
    | Failed(code: int, asksForSignature: bool)     // an HTTP error and whether its detail names the header
    | Garbled                                       // not JSON, or its HMAC does not verify
    | NotADict
    | Data(keyBinding: string, status: string, agentBinding: string, chainMatches: bool)

  /** The gateway dealt with the request: it was neither lost nor put off (429) nor broken off (5xx). */
  predicate Answered(r: Reply)
  {
    r.Data? || r.NotADict? || (r.Failed? && r.code < 500 && r.code != 429)
  }

  predicate AsksForSignature(r: Reply)
  {
    r.Failed? && r.code == 401 && r.asksForSignature
  }

  /**
   What the gateway's answers reveal. It refuses an application with an unsafe id
   before it looks at the key, and nothing else. Then it asks for a signature exactly
   when a bound key has none, and turns a signature down when the key is not bound,
   except while applying; "agent" and "active" are said of bound keys and of no others.
   */
  ghost predicate Truthful(b: Binding, e: Endpoint, signed: bool, r: Reply)
  {
    && (!Admitted(e) && Answered(r) ==> r.Failed? && !AsksForSignature(r))
    && (AsksForSignature(r) ==> b == Bound && !signed)
    && (Admitted(e) && b == Bound && !signed && Answered(r) ==> AsksForSignature(r))
    && (b != Bound && signed && !e.BindKey? && Answered(r) ==> r.Failed? && r.code == 403)
    && (r.Data? && !e.Other? ==> (r.keyBinding == "agent" <==> b == Bound))
    && (r.Data? && e.BindKey? ==> (r.status == "active" <==> b == Bound))
  }

  /** What one request meets: the key's binding, the replies, and how long they take. */
  datatype Exchange = Exchange(binding: Binding, answer: (Endpoint, bool) -> Reply, took: nat)

  /** The n-th request meets the n-th exchange; times are in milliseconds. */
  type World = nat -> Exchange

  ghost predicate Fair(w: World)
  {
    forall n, e, signed :: Truthful(w(n).binding, e, signed, w(n).answer(e, signed))
  }

  /** A request as the gateway saw it, with the reply to it. */
  datatype Sent = Sent(endpoint: Endpoint, binding: Binding, signed: bool, reply: Reply)

  datatype Outcome =
    | Returned(keyBinding: string, status: string, agentBinding: string)
    | RuntimeError
    | TransportError
    | TimedOut

  // --------------------------------------------------------------------------- the client

  datatype Client = Client(log: seq<Sent>, signing: bool, agentId: string, now: nat)

  datatype Result = Result(client: Client, outcome: Outcome)

  function Reads(w: World, hasKey: bool, c: Client, e: Endpoint): Reply
  {
    w(|c.log|).answer(e, c.signing && hasKey)
  }

  /** One request through the signing hook and the error part of `_parse_response`. */
  function RequestStep(w: World, hasKey: bool, c: Client, e: Endpoint): Client
  {
    var x, signed := w(|c.log|), c.signing && hasKey;
    var r := x.answer(e, signed);
    Client(
      c.log + [Sent(e, x.binding, signed, r)],
      c.signing || (hasKey && AsksForSignature(r)),
      c.agentId, c.now + x.took)
  }

  /** The exception for a reply that is not a payload. */
  function Raised(r: Reply): Outcome
  {
    if r.Lost? then TransportError else RuntimeError
  }

  function PermissionsStep(w: World, hasKey: bool, c: Client): (r: Result)
    ensures r.client.now >= c.now && |r.client.log| == |c.log| + 1
  {
    var reply, c' := Reads(w, hasKey, c, Permissions), RequestStep(w, hasKey, c, Permissions);
    if !reply.Data? then Result(c', Raised(reply))
    else
      Result(
        c'.(signing := c'.signing || (reply.keyBinding == "agent" && hasKey)),
        if reply.chainMatches then Returned(reply.keyBinding, reply.status, reply.agentBinding) else RuntimeError)
  }

  /** The application itself, once the agent id is known. */
  function ApplyStep(w: World, hasKey: bool, c: Client, who: string): Result
  {
    var reply, c' := Reads(w, hasKey, c, BindKey(who)), RequestStep(w, hasKey, c, BindKey(who));
    if who == "" then Result(c, RuntimeError)
    else if reply.NotADict? then Result(c'.(agentId := who), RuntimeError)
    else if !reply.Data? then Result(c', Raised(reply))
    else
      Result(
        c'.(agentId := who, signing := reply.status == "active"),
        Returned(reply.keyBinding, reply.status, reply.agentBinding))
  }

  function BindStep(w: World, hasKey: bool, c: Client, target: string): Result
  {
    var known := Strip(if target != "" then target else c.agentId);
    if !hasKey then Result(c, RuntimeError)
    else if known != "" then ApplyStep(w, hasKey, c, known)
    else
      var info := PermissionsStep(w, hasKey, c);
      if info.outcome.Returned? then ApplyStep(w, hasKey, info.client, Strip(info.outcome.agentBinding)) else info
  }

  /** Ask for the permissions, and once more if the first answer only switched signing on. */
  function PollStep(w: World, hasKey: bool, c: Client): (r: Result)
    ensures r.client.now >= c.now && |c.log| < |r.client.log| <= |c.log| + 2
  {
    var info := PermissionsStep(w, hasKey, c);
    if info.outcome.RuntimeError? && info.client.signing then PermissionsStep(w, hasKey, info.client) else info
  }

  const SHORTEST_PAUSE: nat := 500

  function Pause(interval: int): (p: nat)
    ensures p >= SHORTEST_PAUSE
  {
    if interval < SHORTEST_PAUSE then SHORTEST_PAUSE else interval
  }

  function AwaitStep(w: World, hasKey: bool, c: Client, deadline: nat, interval: int): Result
    decreases if c.now < deadline then deadline - c.now else 0
  {
    var info := PollStep(w, hasKey, c);
    if !info.outcome.Returned? then info
    else if info.outcome.keyBinding == "agent" then Result(info.client.(signing := true), info.outcome)
    else if info.client.now >= deadline then Result(info.client, TimedOut)
    else AwaitStep(w, hasKey, info.client.(now := info.client.now + Pause(interval)), deadline, interval)
  }

  function Deadline(c: Client, timeout: int): nat
  {
    c.now + if timeout < 0 then 0 else timeout
  }

  function EnsureStep(w: World, hasKey: bool, c: Client): Result
  {
    var info := PermissionsStep(w, hasKey, c);
    if !info.outcome.Returned? then info
    else if info.outcome.keyBinding == "agent" then Result(info.client.(signing := true), info.outcome)
    else
      var out := BindStep(w, hasKey, info.client, Strip(info.outcome.agentBinding));
      if out.outcome.Returned? && out.outcome.status == "active" then PermissionsStep(w, hasKey, out.client) else out
  }

  datatype ApiCall =
    | CallPermissions
    | CallBind(target: string)
    | CallAwait(timeout: int, interval: int)
    | CallEnsure
    | CallOther

  function CallStep(w: World, hasKey: bool, c: Client, call: ApiCall): Client
  {
    match call
    case CallPermissions => PermissionsStep(w, hasKey, c).client
    case CallBind(target) => BindStep(w, hasKey, c, target).client
    case CallAwait(timeout, interval) => AwaitStep(w, hasKey, c, Deadline(c, timeout), interval).client
    case CallEnsure => EnsureStep(w, hasKey, c).client
    case CallOther => RequestStep(w, hasKey, c, Other)
  }

  function Fresh(agentId: string): Client
  {
    Client([], false, Strip(agentId), 0)
  }

  /** Any sequence of SDK calls. */
  function Run(w: World, hasKey: bool, agentId: string, calls: seq<ApiCall>): Client
  {
    if calls == [] then Fresh(agentId)
    else CallStep(w, hasKey, Run(w, hasKey, agentId, calls[..|calls| - 1]), calls[|calls| - 1])
  }

  // ------------------------------------------------------------------------- the SDK class

  class KarmaRuntime {
    const world: World
    const hasKey: bool
    var log: seq<Sent>
    var signEnabled: bool
    var agentId: string
    var now: nat

    function State(): Client
      reads this
    {
      Client(log, signEnabled, agentId, now)
    }

    constructor (world: World, hasKey: bool, agentId: string)
      ensures this.world == world && this.hasKey == hasKey && State() == Fresh(agentId)
    {
      this.world, this.hasKey, this.agentId := world, hasKey, Strip(agentId);
      log, signEnabled, now := [], false, 0;
    }

    /** `raised` is the exception if there was one; otherwise `ok`, and `reply` came back. */
    method Request(e: Endpoint) returns (reply: Reply, raised: Outcome, ok: bool)
      modifies `log, `signEnabled, `now
      ensures State() == RequestStep(world, hasKey, old(State()), e)
      ensures reply == Reads(world, hasKey, old(State()), e)
      ensures ok <==> reply.Data? || reply.NotADict?
      ensures raised == Raised(reply)
    {
      var x := world(|log|);
      var signed := signEnabled && hasKey;
      reply := x.answer(e, signed);
      log := log + [Sent(e, x.binding, signed, reply)];
      now := now + x.took;
      raised, ok := RuntimeError, false;
      match reply {
        case Lost =>
          raised := TransportError;
        case Failed(code, asks) =>
          if code == 401 && hasKey && !signEnabled && asks {
            signEnabled := true;
          }
        case Garbled =>
        case NotADict =>
          ok := true;
        case Data(_, _, _, _) =>
          ok := true;
      }
    }

    /** `get_permissions`. */
    method GetPermissions() returns (r: Outcome)
      modifies `log, `signEnabled, `now
      ensures Result(State(), r) == PermissionsStep(world, hasKey, old(State()))
    {
      hide RequestStep;
      var reply, raised, ok := Request(Permissions);
      if !ok {
        return raised;
      }
      if reply.NotADict? {
        return RuntimeError;
      }
      if reply.keyBinding == "agent" && hasKey {
        signEnabled := true;
      }
      if !reply.chainMatches {
        return RuntimeError;
      }
      r := Returned(reply.keyBinding, reply.status, reply.agentBinding);
    }

    /** `bind_key`; `target` is the agent id given by the caller, or "". */
    method ApplyForBinding(target: string) returns (r: Outcome)
      modifies `log, `signEnabled, `now, `agentId
      ensures Result(State(), r) == BindStep(world, hasKey, old(State()), target)
    {
      hide RequestStep, PermissionsStep, Strip;
      if !hasKey {
        return RuntimeError;
      }
      var who := Strip(if target != "" then target else agentId);
      if who == "" {
        var info := GetPermissions();
        if !info.Returned? {
          return info;
        }
        who := Strip(info.agentBinding);
      }
      if who == "" {
        return RuntimeError;
      }
      var reply, raised, ok := Request(BindKey(who));
      if !ok {
        return raised;
      }
      agentId := who;
      if reply.NotADict? {
        return RuntimeError;
      }
      signEnabled := reply.status == "active";
      r := Returned(reply.keyBinding, reply.status, reply.agentBinding);
    }

    /** `await_binding_activation`: poll until the owner has confirmed, or time is up. */
    method AwaitBindingActivation(timeout: int, interval: int) returns (r: Outcome)
      modifies `log, `signEnabled, `now
      ensures Result(State(), r) == AwaitStep(world, hasKey, old(State()), Deadline(old(State()), timeout), interval)
    {
      hide PermissionsStep;
      var deadline := now + if timeout < 0 then 0 else timeout;
      while true
        invariant AwaitStep(world, hasKey, old(State()), Deadline(old(State()), timeout), interval) ==
                  AwaitStep(world, hasKey, State(), deadline, interval)
        decreases if now < deadline then deadline - now else 0
      {
        var info := GetPermissions();
        if info.RuntimeError? {
          if !signEnabled {
            return info;
          }
          info := GetPermissions();
        }
        if !info.Returned? {
          return info;
        }
        if info.keyBinding == "agent" {
          signEnabled := true;
          return info;
        }
        if now >= deadline {
          return TimedOut;
        }
        now := now + Pause(interval);
      }
    }

    /** `ensure_bound`. */
    method EnsureBound() returns (r: Outcome)
      modifies `log, `signEnabled, `now, `agentId
      ensures Result(State(), r) == EnsureStep(world, hasKey, old(State()))
    {
      hide PermissionsStep, BindStep, Strip;
      var info := GetPermissions();
      if !info.Returned? {
        return info;
      }
      if info.keyBinding == "agent" {
        signEnabled := true;
        return info;
      }
      r := ApplyForBinding(Strip(info.agentBinding));
      if !r.Returned? || r.status != "active" {
        return;
      }
      r := GetPermissions();
    }
  }

  /** Any sequence of SDK calls on one client. */
  method RunClient(w: World, hasKey: bool, agentId: string, calls: seq<ApiCall>)
    returns (log: seq<Sent>, signing: bool)
    ensures log == Run(w, hasKey, agentId, calls).log && signing == Run(w, hasKey, agentId, calls).signing
  {
    hide PermissionsStep, BindStep, AwaitStep, EnsureStep, RequestStep;
    var client := new KarmaRuntime(w, hasKey, agentId);
    for i := 0 to |calls|
      invariant client.world == w && client.hasKey == hasKey
      invariant client.State() == Run(w, hasKey, agentId, calls[..i])
    {
      assert calls[..i + 1][..i] == calls[..i];
      match calls[i] {
        case CallPermissions =>
          var _ := client.GetPermissions();
        case CallBind(target) =>
          var _ := client.ApplyForBinding(target);
        case CallAwait(timeout, interval) =>
          var _ := client.AwaitBindingActivation(timeout, interval);
        case CallEnsure =>
          var _ := client.EnsureBound();
        case CallOther =>
          var _, _, _ := client.Request(Other);
      }
    }
    assert calls[..|calls|] == calls;
    log, signing := client.log, client.signEnabled;
  }

  // ----------------------------------------------------------------------------- invariants

  /** An answered request for a bound key without a signature; every such answer is a refusal. */
  predicate Refused(s: Sent)
  {
    s.binding == Bound && !s.signed && Answered(s.reply)
  }

  /** Refused for want of a signature and not for the agent id. */
  predicate Bare(s: Sent)
  {
    Refused(s) && Admitted(s.endpoint)
  }

  function RefusedCount(log: seq<Sent>): nat
  {
    if log == [] then 0 else RefusedCount(log[..|log| - 1]) + if Refused(log[|log| - 1]) then 1 else 0
  }

  /** Applications with an unsafe agent id. */
  function UnsafeCount(log: seq<Sent>): nat
  {
    if log == [] then 0 else UnsafeCount(log[..|log| - 1]) + if Admitted(log[|log| - 1].endpoint) then 0 else 1
  }

  function BareCount(log: seq<Sent>): nat
  {
    if log == [] then 0 else BareCount(log[..|log| - 1]) + if Bare(log[|log| - 1]) then 1 else 0
  }

  predicate LastBound(log: seq<Sent>)
  {
    log != [] && log[|log| - 1].binding == Bound
  }

  /** How often the log shows the key bound at one request and not bound at the next. */
  function Unbindings(log: seq<Sent>): nat
  {
    if log == [] then 0
    else
      var before := log[..|log| - 1];
      Unbindings(before) + if LastBound(before) && !LastBound(log) then 1 else 0
  }

  lemma SentAdded(log: seq<Sent>, s: Sent)
    ensures BareCount(log + [s]) == BareCount(log) + if Bare(s) then 1 else 0
    ensures Unbindings(log + [s]) == Unbindings(log) + if LastBound(log) && s.binding != Bound then 1 else 0
    ensures LastBound(log + [s]) <==> s.binding == Bound
  {
    assert (log + [s])[..|log|] == log;
  }

  /** The log is what the world did: entry n met the n-th exchange. */
  ghost predicate Faithful(w: World, log: seq<Sent>)
  {
    forall n :: 0 <= n < |log| ==>
      log[n].binding == w(n).binding && log[n].reply == w(n).answer(log[n].endpoint, log[n].signed)
  }

  ghost predicate EverBound(log: seq<Sent>)
  {
    exists n :: 0 <= n < |log| && log[n].binding == Bound
  }

  /** A signed request met a key that is not bound only after the key had been bound. */
  ghost predicate SignedAfterBound(log: seq<Sent>)
  {
    forall n :: 0 <= n < |log| && log[n].signed && log[n].binding != Bound ==> EverBound(log[..n])
  }

  /**
   Signing is on only if the key has been bound; and with an agent key, requests
   without a needed signature are paid for by unbindings, but for one, after which
   signing is on.
   */
  ghost predicate Sound(w: World, hasKey: bool, c: Client)
  {
    && Faithful(w, c.log)
    && (c.signing ==> EverBound(c.log))
    && SignedAfterBound(c.log)
    && (hasKey ==> BareCount(c.log) <= Unbindings(c.log) + if c.signing && LastBound(c.log) then 1 else 0)
  }

  lemma LogGrows(log: seq<Sent>, s: Sent)
    requires SignedAfterBound(log) && (s.signed && s.binding != Bound ==> EverBound(log))
    ensures SignedAfterBound(log + [s])
    ensures EverBound(log + [s]) <==> EverBound(log) || s.binding == Bound
  {
    var more := log + [s];
    forall n | 0 <= n < |more| && more[n].signed && more[n].binding != Bound
      ensures EverBound(more[..n])
    {
      assert more[..n] == log[..n];
      assert n == |log| ==> log[..n] == log;
    }
    if s.binding == Bound {
      assert more[|log|].binding == Bound;
    }
    if EverBound(log) {
      var n :| 0 <= n < |log| && log[n].binding == Bound;
      assert more[n].binding == Bound;
    }
  }

  lemma RequestSound(w: World, hasKey: bool, c: Client, e: Endpoint)
    requires Fair(w) && Sound(w, hasKey, c)
    ensures var c' := RequestStep(w, hasKey, c, e);
            && Sound(w, hasKey, c') && |c'.log| == |c.log| + 1
            && Truthful(w(|c.log|).binding, e, c.signing && hasKey, Reads(w, hasKey, c, e))
            && (LastBound(c'.log) <==> w(|c.log|).binding == Bound)
  {
    hide BareCount, Unbindings, LastBound, SignedAfterBound, EverBound;
    var s := RequestStep(w, hasKey, c, e).log[|c.log|];
    SentAdded(c.log, s);
    LogGrows(c.log, s);
  }

  /** Setting the signing flag by what the last request revealed. */
  lemma FlagSound(w: World, hasKey: bool, c: Client, signing: bool, agentId: string, now: nat)
    requires Sound(w, hasKey, c) && c.log != []
    requires signing != c.signing ==> (signing <==> LastBound(c.log))
    ensures Sound(w, hasKey, c.(signing := signing, agentId := agentId, now := now))
  {
    hide BareCount, Unbindings, SignedAfterBound, Faithful;
    if LastBound(c.log) {
      assert EverBound(c.log);
    }
  }

  /** An answer that says "agent" is about a bound key. */
  lemma PermissionsSound(w: World, hasKey: bool, c: Client)
    requires Fair(w) && Sound(w, hasKey, c)
    ensures var r := PermissionsStep(w, hasKey, c);
            && Sound(w, hasKey, r.client) && r.client.log != []
            && (c.signing ==> r.client.signing)
            && (r.outcome.Returned? ==> (r.outcome.keyBinding == "agent" <==> LastBound(r.client.log)))
            && (r.outcome.Returned? && hasKey && LastBound(r.client.log) ==> c.signing)
  {
    hide Sound, LastBound;
    RequestSound(w, hasKey, c, Permissions);
    var c' := RequestStep(w, hasKey, c, Permissions);
    FlagSound(w, hasKey, c', PermissionsStep(w, hasKey, c).client.signing, c'.agentId, c'.now);
  }

  lemma ApplySound(w: World, hasKey: bool, c: Client, who: string)
    requires Fair(w) && Sound(w, hasKey, c)
    ensures var r := ApplyStep(w, hasKey, c, who);
            && Sound(w, hasKey, r.client)
            && (r.outcome.Returned? ==>
                  && r.client.log != [] && (r.outcome.status == "active" <==> LastBound(r.client.log))
                  && (r.client.signing <==> LastBound(r.client.log)))
  {
    hide Sound, LastBound;
    RequestSound(w, hasKey, c, BindKey(who));
    var c' := RequestStep(w, hasKey, c, BindKey(who));
    FlagSound(w, hasKey, c', c'.signing, who, c'.now);
    if Reads(w, hasKey, c, BindKey(who)).Data? {
      FlagSound(w, hasKey, c', LastBound(c'.log), who, c'.now);
    }
  }

  /** When an application is answered, signing is on exactly if the key is bound. */
  lemma BindSound(w: World, hasKey: bool, c: Client, target: string)
    requires Fair(w) && Sound(w, hasKey, c)
    ensures var r := BindStep(w, hasKey, c, target);
            && Sound(w, hasKey, r.client)
            && (r.outcome.Returned? ==>
                  && hasKey && r.client.log != [] && (r.outcome.status == "active" <==> LastBound(r.client.log))
                  && (r.client.signing <==> LastBound(r.client.log)))
            && (r.outcome.Returned? && Strip(target) != "" ==> r.client.agentId == Strip(target))
            && (r.outcome.Returned? && target == "" && Strip(c.agentId) != "" ==> r.client.agentId == Strip(c.agentId))
  {
    hide Sound, LastBound, PermissionsStep, Strip;
    assert target == "" ==> Strip(target) == "" by { StripNothing(); }
    PermissionsSound(w, hasKey, c);
    ApplySound(w, hasKey, c, Strip(if target != "" then target else c.agentId));
    var info := PermissionsStep(w, hasKey, c);
    if info.outcome.Returned? {
      ApplySound(w, hasKey, info.client, Strip(info.outcome.agentBinding));
    }
  }

  lemma StripNothing()
    ensures Strip("") == ""
  {
  }

  lemma PollSound(w: World, hasKey: bool, c: Client)
    requires Fair(w) && Sound(w, hasKey, c)
    ensures var r := PollStep(w, hasKey, c);
            && Sound(w, hasKey, r.client) && r.client.log != []
            && (r.outcome.Returned? ==> (r.outcome.keyBinding == "agent" <==> LastBound(r.client.log)))
  {
    hide Sound, LastBound, PermissionsStep;
    PermissionsSound(w, hasKey, c);
    PermissionsSound(w, hasKey, PermissionsStep(w, hasKey, c).client);
  }

  /** The wait is over with the key bound and signing on, or it fails. */
  lemma {:induction false} AwaitSound(w: World, hasKey: bool, c: Client, deadline: nat, interval: int)
    requires Fair(w) && Sound(w, hasKey, c)
    ensures var r := AwaitStep(w, hasKey, c, deadline, interval);
            && Sound(w, hasKey, r.client)
            && (r.outcome.Returned? ==> r.outcome.keyBinding == "agent" && LastBound(r.client.log) && r.client.signing)
            && (r.outcome.TimedOut? ==> !LastBound(r.client.log))
    decreases if c.now < deadline then deadline - c.now else 0
  {
    hide Sound, LastBound, PollStep;
    PollSound(w, hasKey, c);
    NotTimedOut(w, hasKey, c);
    var info := PollStep(w, hasKey, c);
    var c' := info.client;
    if info.outcome.Returned? {
      if info.outcome.keyBinding == "agent" {
        FlagSound(w, hasKey, c', true, c'.agentId, c'.now);
      } else if c'.now < deadline {
        FlagSound(w, hasKey, c', c'.signing, c'.agentId, c'.now + Pause(interval));
        AwaitSound(w, hasKey, c'.(now := c'.now + Pause(interval)), deadline, interval);
      }
    }
  }

  lemma NotTimedOut(w: World, hasKey: bool, c: Client)
    ensures !PollStep(w, hasKey, c).outcome.TimedOut?
  {
  }

  /** Polls go on for at most the timeout, half a second apart, and give up only past the deadline. */
  lemma {:induction false} AwaitStops(w: World, hasKey: bool, c: Client, deadline: nat, interval: int)
    ensures var r := AwaitStep(w, hasKey, c, deadline, interval);
            && (r.outcome.TimedOut? ==> r.client.now >= deadline)
            && |r.client.log| - |c.log| <= 2 + if c.now < deadline then 2 * ((deadline - c.now + 499) / 500) else 0
    decreases if c.now < deadline then deadline - c.now else 0
  {
    hide PollStep;
    NotTimedOut(w, hasKey, c);
    var info := PollStep(w, hasKey, c);
    var c' := info.client;
    if info.outcome.Returned? && info.outcome.keyBinding != "agent" && c'.now < deadline {
      var next := c'.(now := c'.now + Pause(interval));
      AwaitStops(w, hasKey, next, deadline, interval);
    }
  }

  lemma EnsureSound(w: World, hasKey: bool, c: Client)
    requires Fair(w) && Sound(w, hasKey, c)
    ensures Sound(w, hasKey, EnsureStep(w, hasKey, c).client)
  {
    hide Sound, LastBound, PermissionsStep, BindStep;
    PermissionsSound(w, hasKey, c);
    var info := PermissionsStep(w, hasKey, c);
    if info.outcome.Returned? {
      if info.outcome.keyBinding == "agent" {
        FlagSound(w, hasKey, info.client, true, info.client.agentId, info.client.now);
      } else {
        BindSound(w, hasKey, info.client, Strip(info.outcome.agentBinding));
        PermissionsSound(w, hasKey, BindStep(w, hasKey, info.client, Strip(info.outcome.agentBinding)).client);
      }
    }
  }

  lemma CallSound(w: World, hasKey: bool, c: Client, call: ApiCall)
    requires Fair(w) && Sound(w, hasKey, c)
    ensures Sound(w, hasKey, CallStep(w, hasKey, c, call))
  {
    hide Sound, PermissionsStep, BindStep, AwaitStep, EnsureStep, RequestStep;
    match call
    case CallPermissions => PermissionsSound(w, hasKey, c);
    case CallBind(target) => BindSound(w, hasKey, c, target);
    case CallAwait(timeout, interval) => AwaitSound(w, hasKey, c, Deadline(c, timeout), interval);
    case CallEnsure => EnsureSound(w, hasKey, c);
    case CallOther => RequestSound(w, hasKey, c, Other);
  }

  lemma {:induction false} RunIsSound(w: World, hasKey: bool, agentId: string, calls: seq<ApiCall>)
    requires Fair(w)
    ensures Sound(w, hasKey, Run(w, hasKey, agentId, calls))
  {
    hide CallStep;
    if calls != [] {
      hide Sound;
      RunIsSound(w, hasKey, agentId, calls[..|calls| - 1]);
      CallSound(w, hasKey, Run(w, hasKey, agentId, calls[..|calls| - 1]), calls[|calls| - 1]);
    }
  }

  lemma {:induction false} NeverUnbound(log: seq<Sent>)
    requires forall i, j :: 0 <= i < j < |log| && log[i].binding == Bound ==> log[j].binding == Bound
    ensures Unbindings(log) == 0
  {
    if log != [] {
      NeverUnbound(log[..|log| - 1]);
    }
  }

  /** A refusal is for want of a signature or for an unsafe id. */
  lemma {:induction false} RefusalsSplit(log: seq<Sent>)
    ensures BareCount(log) <= RefusedCount(log) <= BareCount(log) + UnsafeCount(log)
  {
    hide Answered, Admitted;
    if log != [] {
      RefusalsSplit(log[..|log| - 1]);
    }
  }

  lemma {:induction false} NoneUnsafe(log: seq<Sent>)
    ensures UnsafeCount(log) == 0 <==> forall n :: 0 <= n < |log| ==> Admitted(log[n].endpoint)
  {
    hide Admitted;
    if log != [] {
      NoneUnsafe(log[..|log| - 1]);
    }
  }

  /** The owner never takes a binding back. */
  ghost predicate StaysBound(log: seq<Sent>)
  {
    forall i, j :: 0 <= i < j < |log| && log[i].binding == Bound ==> log[j].binding == Bound
  }

  /**
   Every run: a signed request meets a key that is not bound only after an unbinding,
   and with an agent key the requests refused for lack of a signature are at most one,
   plus one for every unbinding, plus the applications with an unsafe agent id. If
   the owner never unbinds the key, no signed request meets an unbound key, at most
   one other request is refused, and signing is on after it.
   */
  lemma SigningIsRight(w: World, hasKey: bool, agentId: string, calls: seq<ApiCall>)
    requires Fair(w)
    ensures var c := Run(w, hasKey, agentId, calls);
            && Faithful(w, c.log) && SignedAfterBound(c.log)
            && (hasKey ==> BareCount(c.log) <= Unbindings(c.log) + 1)
            && (hasKey ==> RefusedCount(c.log) <= Unbindings(c.log) + 1 + UnsafeCount(c.log))
            && (StaysBound(c.log) ==>
                  && (forall n :: 0 <= n < |c.log| && c.log[n].signed ==> c.log[n].binding == Bound)
                  && (hasKey ==> BareCount(c.log) <= 1)
                  && (hasKey && BareCount(c.log) == 1 ==> c.signing))
  {
    hide Run, BareCount, Unbindings, RefusedCount, UnsafeCount;
    RunIsSound(w, hasKey, agentId, calls);
    var log := Run(w, hasKey, agentId, calls).log;
    RefusalsSplit(log);
    if StaysBound(log) {
      NeverUnbound(log);
      forall n | 0 <= n < |log| && log[n].signed
        ensures log[n].binding == Bound
      {
        if log[n].binding != Bound {
          assert false;
        }
      }
    }
  }

  // ------------------------------------------------------------------------- safe ids only

  /** The id is safe, or blank and so never sent. */
  predicate SafeOrBlank(id: string)
  {
    Strip(id) == "" || SafeId(Strip(id))
  }

  /** The ids that the gateway itself names are safe or blank. */
  ghost predicate NamesSafeIds(w: World)
  {
    forall n, e, signed :: w(n).answer(e, signed).Data? ==> SafeOrBlank(w(n).answer(e, signed).agentBinding)
  }

  /** The caller never gives an unsafe id. */
  ghost predicate SafeCalls(calls: seq<ApiCall>)
  {
    forall i :: 0 <= i < |calls| && calls[i].CallBind? ==> SafeOrBlank(calls[i].target)
  }

  /** Every application so far had a safe id, and so will one with the id at hand. */
  ghost predicate SafeSoFar(c: Client)
  {
    SafeOrBlank(c.agentId) && forall n :: 0 <= n < |c.log| ==> Admitted(c.log[n].endpoint)
  }

  ghost predicate AllSpace(s: string)
  {
    forall i :: 0 <= i < |s| ==> IsSpace(s[i])
  }

  /** Stripping removes the blanks around a text and nothing else. */
  lemma {:induction false} StripExactly(s: string) returns (left: string, right: string)
    ensures s == left + Strip(s) + right && AllSpace(left) && AllSpace(right)
    ensures Strip(s) != "" ==> !IsSpace(Strip(s)[0]) && !IsSpace(Strip(s)[|Strip(s)| - 1])
  {
    hide IsSpace;
    left, right := "", "";
    if s != "" && IsSpace(s[0]) {
      left, right := StripExactly(s[1..]);
      left := [s[0]] + left;
      assert s == [s[0]] + s[1..];
    } else if s != "" && IsSpace(s[|s| - 1]) {
      left, right := StripExactly(s[..|s| - 1]);
      right := right + [s[|s| - 1]];
      assert s == s[..|s| - 1] + [s[|s| - 1]];
    }
  }

  /** An id with a blank, a slash, a colon or any other character outside the safe ones is refused, and so is one that is empty or too long. */
  lemma UnsafeIds(id: string, i: nat)
    ensures id == "" || |id| > 128 ==> !SafeId(id)
    ensures i < |id| && (id[i] < '-' || id[i] == '/' || '9' < id[i] < 'A' || 'Z' < id[i] < '_' || id[i] == '`' || 'z' < id[i]) ==>
              !SafeId(id)
  {
  }

  lemma SafeLetters(id: string)
    requires 1 <= |id| <= 128
    requires forall i :: 0 <= i < |id| ==>
               '-' <= id[i] <= '.' || '0' <= id[i] <= '9' || 'A' <= id[i] <= 'Z' || id[i] == '_' || 'a' <= id[i] <= 'z'
    ensures SafeId(id)
  {
  }

  lemma {:induction false} StripTwice(s: string)
    ensures Strip(Strip(s)) == Strip(s)
  {
    if s != "" && IsSpace(s[0]) {
      StripTwice(s[1..]);
    } else if s != "" && IsSpace(s[|s| - 1]) {
      StripTwice(s[..|s| - 1]);
    }
  }

  lemma PermissionsSafe(w: World, hasKey: bool, c: Client)
    requires NamesSafeIds(w) && SafeSoFar(c)
    ensures var r := PermissionsStep(w, hasKey, c);
            SafeSoFar(r.client) && (r.outcome.Returned? ==> SafeOrBlank(r.outcome.agentBinding))
  {
    hide SafeOrBlank;
  }

  lemma ApplySafe(w: World, hasKey: bool, c: Client, who: string)
    requires SafeSoFar(c) && (who == "" || SafeId(who)) && Strip(who) == who
    ensures SafeSoFar(ApplyStep(w, hasKey, c, who).client)
  {
    hide SafeId, Strip;
  }

  lemma BindSafe(w: World, hasKey: bool, c: Client, target: string)
    requires NamesSafeIds(w) && SafeSoFar(c) && SafeOrBlank(target)
    ensures SafeSoFar(BindStep(w, hasKey, c, target).client)
  {
    hide PermissionsStep, ApplyStep, NamesSafeIds, Strip, SafeId, Admitted;
    var given := if target != "" then target else c.agentId;
    StripTwice(given);
    PermissionsSafe(w, hasKey, c);
    var info := PermissionsStep(w, hasKey, c);
    if Strip(given) != "" {
      ApplySafe(w, hasKey, c, Strip(given));
    } else if info.outcome.Returned? {
      StripTwice(info.outcome.agentBinding);
      ApplySafe(w, hasKey, info.client, Strip(info.outcome.agentBinding));
    }
  }

  lemma {:induction false} AwaitSafe(w: World, hasKey: bool, c: Client, deadline: nat, interval: int)
    requires NamesSafeIds(w) && SafeSoFar(c)
    ensures SafeSoFar(AwaitStep(w, hasKey, c, deadline, interval).client)
    decreases if c.now < deadline then deadline - c.now else 0
  {
    hide PermissionsStep, NamesSafeIds, SafeOrBlank, Admitted;
    PermissionsSafe(w, hasKey, c);
    PermissionsSafe(w, hasKey, PermissionsStep(w, hasKey, c).client);
    var c' := PollStep(w, hasKey, c).client;
    assert SafeSoFar(c');
    if c'.now < deadline {
      AwaitSafe(w, hasKey, c'.(now := c'.now + Pause(interval)), deadline, interval);
    }
  }

  lemma EnsureSafe(w: World, hasKey: bool, c: Client)
    requires NamesSafeIds(w) && SafeSoFar(c)
    ensures SafeSoFar(EnsureStep(w, hasKey, c).client)
  {
    hide PermissionsStep, BindStep, NamesSafeIds, Strip, SafeId, Admitted;
    PermissionsSafe(w, hasKey, c);
    var info := PermissionsStep(w, hasKey, c);
    if info.outcome.Returned? && info.outcome.keyBinding != "agent" {
      StripTwice(info.outcome.agentBinding);
      BindSafe(w, hasKey, info.client, Strip(info.outcome.agentBinding));
      PermissionsSafe(w, hasKey, BindStep(w, hasKey, info.client, Strip(info.outcome.agentBinding)).client);
    }
  }

  lemma CallSafe(w: World, hasKey: bool, c: Client, call: ApiCall)
    requires NamesSafeIds(w) && SafeSoFar(c) && (call.CallBind? ==> SafeOrBlank(call.target))
    ensures SafeSoFar(CallStep(w, hasKey, c, call))
  {
    hide PermissionsStep, BindStep, AwaitStep, EnsureStep, NamesSafeIds, SafeOrBlank;
    match call
    case CallPermissions => PermissionsSafe(w, hasKey, c);
    case CallBind(target) => BindSafe(w, hasKey, c, target);
    case CallAwait(timeout, interval) => AwaitSafe(w, hasKey, c, Deadline(c, timeout), interval);
    case CallEnsure => EnsureSafe(w, hasKey, c);
    case CallOther =>
  }

  lemma {:induction false} RunSafe(w: World, hasKey: bool, agentId: string, calls: seq<ApiCall>)
    requires NamesSafeIds(w) && SafeOrBlank(agentId) && SafeCalls(calls)
    ensures SafeSoFar(Run(w, hasKey, agentId, calls))
  {
    hide CallStep, NamesSafeIds, Strip, SafeId, Admitted;
    StripTwice(agentId);
    if calls != [] {
      RunSafe(w, hasKey, agentId, calls[..|calls| - 1]);
      CallSafe(w, hasKey, Run(w, hasKey, agentId, calls[..|calls| - 1]), calls[|calls| - 1]);
    }
  }

  /**
   With safe ids only, at most one request is refused in all, plus one for every
   unbinding, whatever else goes wrong.
   */
  lemma SafeIdsBoundRefusals(w: World, agentId: string, calls: seq<ApiCall>)
    requires Fair(w) && NamesSafeIds(w) && SafeOrBlank(agentId) && SafeCalls(calls)
    ensures var log := Run(w, true, agentId, calls).log; RefusedCount(log) <= Unbindings(log) + 1
  {
    hide Run, RefusedCount, UnsafeCount, Unbindings, Fair, NamesSafeIds, SafeOrBlank, Admitted;
    RunSafe(w, true, agentId, calls);
    SigningIsRight(w, true, agentId, calls);
    NoneUnsafe(Run(w, true, agentId, calls).log);
  }

  // --------------------------------------------------------------------- exact conditions

  /**
   An answer to an unsigned request for a bound key switches signing on exactly if the
   request is not an application or its agent id is safe; and so `bind_key` itself
   fails on such a key, with signing on exactly for a safe id.
   */
  lemma SwitchesOnIffSafe(w: World, c: Client, e: Endpoint, target: string)
    requires Fair(w) && !c.signing && w(|c.log|).binding == Bound
    ensures Answered(Reads(w, true, c, e)) ==>
              (RequestStep(w, true, c, e).signing <==> !e.BindKey? || SafeId(e.agentId))
    ensures var who, r := Strip(target), BindStep(w, true, c, target);
            who != "" && Answered(Reads(w, true, c, BindKey(who))) ==>
              r.outcome == RuntimeError && (r.client.signing <==> SafeId(who))
  {
    hide Strip, SafeId;
    assert target == "" ==> Strip(target) == "" by { StripNothing(); }
    var who := Strip(target);
    assert Truthful(w(|c.log|).binding, e, false, w(|c.log|).answer(e, false));
    assert Truthful(w(|c.log|).binding, BindKey(who), false, w(|c.log|).answer(BindKey(who), false));
  }

  /** A gateway with a bound key and nothing else in the way. */
  function AlreadyBound(n: nat): Exchange
  {
    Exchange(
      Bound,
      (e: Endpoint, signed: bool) =>
        if !Admitted(e) then Failed(400, false)
        else if signed then Data("agent", "active", "", true)
        else Failed(401, true),
      0)
  }

  lemma AlreadyBoundIsFair()
    ensures Fair(AlreadyBound) && NamesSafeIds(AlreadyBound)
  {
  }

  /**
   There, a client that applies n times is told to sign exactly if its id is safe: with
   an unsafe id every application is refused and signing stays off for ever, with a
   safe id only the first is refused.
   */
  lemma {:induction false} EndlessExactly(agentId: string, n: nat)
    requires Strip(agentId) != ""
    ensures var c := Run(AlreadyBound, true, agentId, seq(n, _ => CallBind("")));
            && |c.log| == n && c.agentId == Strip(agentId)
            && (c.signing <==> n > 0 && SafeId(Strip(agentId)))
            && RefusedCount(c.log) == if SafeId(Strip(agentId)) && n > 0 then 1 else n
  {
    if n == 0 {
    } else {
      hide Strip, SafeId, BindStep, Run, RefusedCount, Answered;
      StripTwice(agentId);
      EndlessExactly(agentId, n - 1);
      OneMoreBind(agentId, n);
      var c := Run(AlreadyBound, true, agentId, seq(n - 1, _ => CallBind("")));
      var c' := BindStep(AlreadyBound, true, c, "").client;
      BindWhenBound(c);
      RefusedAdded(c.log, c'.log[|c.log|]);
      assert c'.log == c.log + [c'.log[|c.log|]];
    }
  }

  lemma OneMoreBind(agentId: string, n: nat)
    requires n > 0
    ensures Run(AlreadyBound, true, agentId, seq(n, _ => CallBind(""))) ==
            BindStep(AlreadyBound, true, Run(AlreadyBound, true, agentId, seq(n - 1, _ => CallBind(""))), "").client
  {
    hide BindStep;
    var calls := seq(n, _ => CallBind(""));
    assert calls[..n - 1] == seq(n - 1, _ => CallBind(""));
  }

  /** An application there is refused unless it is signed and its id is safe. */
  lemma BindWhenBound(c: Client)
    requires c.agentId != "" && Strip(c.agentId) == c.agentId
    ensures var r := BindStep(AlreadyBound, true, c, "").client;
            && |r.log| == |c.log| + 1 && r.log[..|c.log|] == c.log
            && (Refused(r.log[|c.log|]) <==> !c.signing)
            && r.agentId == c.agentId && (r.signing <==> c.signing || SafeId(c.agentId))
  {
    hide Strip, SafeId;
  }

  lemma RefusedAdded(log: seq<Sent>, s: Sent)
    ensures RefusedCount(log + [s]) == RefusedCount(log) + if Refused(s) then 1 else 0
  {
    assert (log + [s])[..|log|] == log;
  }

  /**
   `ensure_bound` on a bound key returns exactly if signing was on already and the
   answer is a payload for the right chain; if the gateway answered at all, signing
   is on afterwards. On a key that is not bound it never returns while signing is on.
   */
  lemma EnsureExactly(w: World, c: Client)
    requires Fair(w)
    ensures var x, r := w(|c.log|), EnsureStep(w, true, c);
            var a := x.answer(Permissions, c.signing);
            && (x.binding == Bound ==> (r.outcome.Returned? <==> c.signing && a.Data? && a.chainMatches))
            && (x.binding == Bound && r.outcome.Returned? ==> r.outcome.keyBinding == "agent")
            && (x.binding == Bound && Answered(a) ==> r.client.signing)
            && (x.binding != Bound && c.signing ==> !r.outcome.Returned? && r.client.signing)
  {
    hide BindStep;
    assert Truthful(w(|c.log|).binding, Permissions, c.signing, w(|c.log|).answer(Permissions, c.signing));
  }

  /**
   `ensure_bound` on a key that is not bound, with signing off and a payload for the
   right chain that names an agent: the next request is the application for that agent,
   and its answer is the result, unless it says "active"; then the permissions are
   asked for once more and their answer is the result.
   */
  lemma EnsureApplies(w: World, c: Client)
    requires Fair(w) && !c.signing && w(|c.log|).binding != Bound
    requires var a := w(|c.log|).answer(Permissions, false);
             a.Data? && a.chainMatches && Strip(a.agentBinding) != ""
    ensures var n, r := |c.log|, EnsureStep(w, true, c);
            var who := Strip(w(n).answer(Permissions, false).agentBinding);
            var b := w(n + 1).answer(BindKey(who), false);
            && |r.client.log| == n + (if b.Data? && b.status == "active" then 3 else 2)
            && r.client.log[n].endpoint == Permissions
            && r.client.log[n + 1] == Sent(BindKey(who), w(n + 1).binding, false, b)
            && (b.Data? && b.status != "active" ==>
                  r.outcome == Returned(b.keyBinding, b.status, b.agentBinding) && r.client.agentId == who && !r.client.signing)
            && (b.Data? && b.status == "active" ==>
                  && r.client.log[n + 2] ==
                       Sent(Permissions, w(n + 2).binding, true, w(n + 2).answer(Permissions, true))
                  && r.client.agentId == who && r.client.signing)
            && (!b.Data? ==> !r.outcome.Returned?)
  {
    hide Strip, SafeId, Answered;
    var a := w(|c.log|).answer(Permissions, false);
    assert Truthful(w(|c.log|).binding, Permissions, false, a);
    StripTwice(a.agentBinding);
    StripNothing();
    EnsureUnfolds(w, c, Strip(a.agentBinding));
  }

  /** What `ensure_bound` does then, step by step. */
  lemma EnsureUnfolds(w: World, c: Client, who: string)
    requires var a := w(|c.log|).answer(Permissions, false);
             a.Data? && a.chainMatches && a.keyBinding != "agent" && who == Strip(a.agentBinding) == Strip(who) && who != ""
    requires !c.signing
    ensures var first := PermissionsStep(w, true, c);
            var second := ApplyStep(w, true, first.client, who);
            && first.client.log == c.log + [Sent(Permissions, w(|c.log|).binding, false, w(|c.log|).answer(Permissions, false))]
            && !first.client.signing
            && EnsureStep(w, true, c) ==
                 if second.outcome.Returned? && second.outcome.status == "active"
                 then PermissionsStep(w, true, second.client) else second
  {
    hide Strip, ApplyStep;
  }

  /** Signing goes on at a reply exactly if it is a 401 that names the signature header; only answers to applications turn it off. */
  lemma RequestExactly(w: World, hasKey: bool, c: Client, e: Endpoint)
    ensures var r, c' := Reads(w, hasKey, c, e), RequestStep(w, hasKey, c, e);
            && r == w(|c.log|).answer(e, c.signing && hasKey)
            && c'.log == c.log + [Sent(e, w(|c.log|).binding, c.signing && hasKey, r)]
            && (c'.signing <==> c.signing || (hasKey && r == Failed(401, true)))
            && c'.agentId == c.agentId && c'.now == c.now + w(|c.log|).took
  {
  }

  /** One permissions request: what goes out, what comes of it, and when signing is on afterwards. */
  lemma PermissionsExactly(w: World, hasKey: bool, c: Client)
    ensures var x, signed, r := w(|c.log|), c.signing && hasKey, PermissionsStep(w, hasKey, c);
            var a := x.answer(Permissions, signed);
            && r.client.log == c.log + [Sent(Permissions, x.binding, signed, a)]
            && r.client.agentId == c.agentId && r.client.now == c.now + x.took
            && (r.client.signing <==>
                  c.signing || (hasKey && (a == Failed(401, true) || (a.Data? && a.keyBinding == "agent"))))
            && (a.Data? && a.chainMatches ==> r.outcome == Returned(a.keyBinding, a.status, a.agentBinding))
            && (a.Data? && !a.chainMatches ==> r.outcome == RuntimeError)
            && (a.Lost? ==> r.outcome == TransportError)
            && (a.Failed? || a.Garbled? || a.NotADict? ==> r.outcome == RuntimeError)
  {
  }

  /**
   `bind_key`: without an agent key nothing is sent. The id is the caller's, else the
   client's own, else the one the gateway names for the key; an application goes out
   exactly if it is not blank. The id is kept once the gateway has answered with a
   payload of any kind, and signing then follows its status.
   */
  lemma BindExactly(w: World, hasKey: bool, c: Client, target: string)
    ensures var r, own := BindStep(w, hasKey, c, target), Strip(if target != "" then target else c.agentId);
            && (!hasKey ==> r == Result(c, RuntimeError))
            && (hasKey && own != "" ==> Applied(w, c, own, r))
            && (hasKey && own == "" ==>
                  var info := PermissionsStep(w, hasKey, c);
                  var named := if info.outcome.Returned? then Strip(info.outcome.agentBinding) else "";
                  && (named != "" ==> Applied(w, info.client, named, r))
                  && (named == "" ==> r.client == info.client && !r.outcome.Returned?))
  {
    hide Strip, PermissionsStep;
    PermissionsNotTimed(w, hasKey, c);
  }

  lemma PermissionsNotTimed(w: World, hasKey: bool, c: Client)
    ensures !PermissionsStep(w, hasKey, c).outcome.TimedOut?
  {
  }

  /** The application for `who` was sent, and `r` is what came of it. */
  ghost predicate Applied(w: World, c: Client, who: string, r: Result)
  {
    var x, a := w(|c.log|), w(|c.log|).answer(BindKey(who), c.signing);
    && r.client.log == c.log + [Sent(BindKey(who), x.binding, c.signing, a)]
    && r.client.now == c.now + x.took
    && (r.client.agentId == if a.Data? || a.NotADict? then who else c.agentId)
    && (a.Data? ==>
          && (r.client.signing <==> a.status == "active")
          && r.outcome == Returned(a.keyBinding, a.status, a.agentBinding))
    && (!a.Data? ==> (r.client.signing <==> c.signing || a == Failed(401, true)))
    && (a.Lost? ==> r.outcome == TransportError)
    && (a.Failed? || a.Garbled? || a.NotADict? ==> r.outcome == RuntimeError)
  }

  // ---------------------------------------------------------------------------- waiting, exactly

  /**
   One round of waiting: an error that switched signing on is tried again at once, any
   other error ends the wait. A bound key ends it with signing on; otherwise it ends
   at the deadline, and before the deadline the next round starts after the interval,
   but not before half a second.
   */
  lemma AwaitRound(w: World, hasKey: bool, c: Client, deadline: nat, interval: int)
    ensures var first := PermissionsStep(w, hasKey, c);
            var retried := first.outcome == RuntimeError && first.client.signing;
            var last := if retried then PermissionsStep(w, hasKey, first.client) else first;
            var r := AwaitStep(w, hasKey, c, deadline, interval);
            && (!last.outcome.Returned? ==> r == last)
            && (last.outcome.Returned? && last.outcome.keyBinding == "agent" ==>
                  r.outcome == last.outcome && r.client.signing && r.client.log == last.client.log)
            && (last.outcome.Returned? && last.outcome.keyBinding != "agent" && last.client.now >= deadline ==>
                  r.outcome == TimedOut && r.client == last.client)
            && (last.outcome.Returned? && last.outcome.keyBinding != "agent" && last.client.now < deadline ==>
                  var next := last.client.now + if interval > 500 then interval else 500;
                  r == AwaitStep(w, hasKey, last.client.(now := next), deadline, interval))
  {
    hide PermissionsStep;
  }

  /**
   A wait during which the owner confirms: the unsigned poll is refused, signing goes
   on, the poll is repeated at once and returns.
   */
  lemma AwaitSeesActivation(w: World, c: Client, deadline: nat, interval: int)
    requires Fair(w) && !c.signing && w(|c.log|).binding == Bound && w(|c.log| + 1).binding == Bound
    requires Answered(w(|c.log|).answer(Permissions, false))
    requires var b := w(|c.log| + 1).answer(Permissions, true); b.Data? && b.chainMatches
    ensures var r := AwaitStep(w, true, c, deadline, interval);
            r.outcome.Returned? && r.outcome.keyBinding == "agent" && r.client.signing && |r.client.log| == |c.log| + 2
  {
    hide AwaitStep, Answered;
    var n := |c.log|;
    assert Truthful(w(n).binding, Permissions, false, w(n).answer(Permissions, false));
    assert Truthful(w(n + 1).binding, Permissions, true, w(n + 1).answer(Permissions, true));
    AwaitRound(w, true, c, deadline, interval);
  }

  /** A wait gives up only once the whole timeout has passed. */
  lemma WaitsItsTime(w: World, hasKey: bool, c: Client, timeout: int, interval: int)
    ensures var r := AwaitStep(w, hasKey, c, Deadline(c, timeout), interval);
            r.outcome == TimedOut ==> r.client.now >= c.now + timeout
  {
    AwaitStops(w, hasKey, c, Deadline(c, timeout), interval);
  }

  /** Without time to wait there is one round: nothing is asked for after the deadline. */
  lemma NoTimeNoWait(w: World, hasKey: bool, c: Client, timeout: int, interval: int)
    requires timeout <= 0
    ensures |AwaitStep(w, hasKey, c, Deadline(c, timeout), interval).client.log| <= |c.log| + 2
  {
    hide AwaitStep, PermissionsStep;
    AwaitRound(w, hasKey, c, Deadline(c, timeout), interval);
  }

  /** There the first `ensure_bound` of a new client raises, and the second returns. */
  lemma EnsureRaisesOnce(agentId: string)
    ensures Fair(AlreadyBound)
    ensures var first := EnsureStep(AlreadyBound, true, Fresh(agentId));
            && first.outcome == RuntimeError && first.client.signing
            && EnsureStep(AlreadyBound, true, first.client).outcome == Returned("agent", "active", "")
  {
    hide SafeId, Strip;
    AlreadyBoundIsFair();
  }

  /** An application, unlike `ensure_bound`, ends the signing that an unbinding left behind. */
  lemma ApplyingRecovers(w: World, c: Client, target: string)
    requires Fair(w) && Strip(target) != "" && w(|c.log|).binding != Bound
    ensures var r := BindStep(w, true, c, target);
            r.outcome.Returned? ==> !r.client.signing && r.outcome.status != "active"
  {
    hide Strip;
    assert target == "" ==> Strip(target) == "" by { StripNothing(); }
    var e := BindKey(Strip(target));
    assert Truthful(w(|c.log|).binding, e, c.signing, w(|c.log|).answer(e, c.signing));
  }
}

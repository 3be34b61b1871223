/** The security and audit middleware: rate limit, role, idempotency, handler, audit. */
module RequestGate {
  import opened Basics
  import opened RateLimiter

  datatype EndpointRule = EndpointRule(method_: string, prefix: string, rank: nat)

  datatype Principal = Principal(actor: string, rank: nat, authenticated: bool)

  /** What the endpoint does if it is reached. */
  datatype Handler = Responds(status: int) | Raises

  datatype Request = Request(
    method_: string,
    path: string,
    principal: Principal,
    client: string,
    traceHeader: Option<string>,
    idempotencyKey: Option<string>,
    now: int,
    freshTrace: string,     // what `trace_id()` would generate
    handler: Handler,
    checkUp: bool,          // the audit store answers the idempotency check
    writeUp: bool)          // the audit store accepts the audit event

  datatype Outcome = Succeeded | Failed | Rejected

  datatype AuditEvent = AuditEvent(endpoint: string, idempotencyKey: Option<string>, result: Outcome, status: int,
                                   traceId: string)

  datatype Config = Config(rules: seq<EndpointRule>, limits: Limits)

  datatype GateState = GateState(audit: seq<AuditEvent>, buckets: map<string, Bucket>)

  datatype Response = Response(status: int, traceId: string)

  /** Where a request ended. */
  datatype Verdict = RateLimited | Forbidden | Duplicate | Handled

  function UpperChar(c: char): char {
    if 'a' <= c <= 'z' then c - 'a' + 'A' else c
  }

  function Upper(s: string): string {
    seq(|s|, i requires 0 <= i < |s| => UpperChar(s[i]))
  }

  /** `endpoint_rule`: the first rule with this method whose prefix the path has. */
  function RuleFor(rules: seq<EndpointRule>, method_: string, path: string): Option<EndpointRule> {
    if rules == [] then None
    else if Upper(method_) == rules[0].method_ && rules[0].prefix <= path then Some(rules[0])
    else RuleFor(rules[1..], method_, path)
  }

  predicate Given(h: Option<string>) {
    h.Some? && h.value != ""
  }

  predicate Matches(e: AuditEvent, path: string, key: string) {
    e.endpoint == path && e.idempotencyKey == Some(key) && e.result == Succeeded
  }

  /** `idempotency_seen`: a succeeded audit event with this endpoint and key exists. */
  predicate Seen(audit: seq<AuditEvent>, path: string, key: string) {
    exists i :: 0 <= i < |audit| && Matches(audit[i], path, key)
  }

  function TraceOf(r: Request): string {
    if Given(r.traceHeader) then r.traceHeader.value else r.freshTrace
  }

  function RateKey(r: Request): string {
    r.principal.actor + ":" + r.client + ":" + r.path
  }

  predicate Allowed(r: Request, rule: EndpointRule) {
    r.principal.authenticated && r.principal.rank >= rule.rank
  }

  function Write(audit: seq<AuditEvent>, up: bool, e: AuditEvent): seq<AuditEvent> {
    if up then audit + [e] else audit
  }

  function HandlerStatus(h: Handler): int {
    match h
    case Responds(status) => status
    case Raises => 500
  }

  function HandlerResult(h: Handler): Outcome {
    if h.Responds? && h.status < 400 then Succeeded else Failed
  }

  datatype Turn = Turn(state: GateState, response: Response, verdict: Verdict)

  /** One request through the middleware. */
  function Handle(cfg: Config, s: GateState, r: Request): Turn {
    var rule := RuleFor(cfg.rules, r.method_, r.path);
    if rule.None? then
      Turn(s, Response(HandlerStatus(r.handler), TraceOf(r)), Handled)
    else
      var (ok, buckets) := Allow(cfg.limits, s.buckets, RateKey(r), r.now);
      if !ok then Turn(s.(buckets := buckets), Response(429, TraceOf(r)), RateLimited)
      else if !Allowed(r, rule.value) then
        Turn(GateState(Write(s.audit, r.writeUp, AuditEvent(r.path, None, Rejected, 403, TraceOf(r))), buckets),
             Response(403, TraceOf(r)), Forbidden)
      else if Given(r.idempotencyKey) && Upper(r.method_) != "GET" && r.checkUp
          && Seen(s.audit, r.path, r.idempotencyKey.value) then
        Turn(s.(buckets := buckets), Response(409, TraceOf(r)), Duplicate)
      else
        var status := HandlerStatus(r.handler);
        var event := AuditEvent(r.path, r.idempotencyKey, HandlerResult(r.handler), status, TraceOf(r));
        Turn(GateState(Write(s.audit, r.writeUp, event), buckets),
             Response(status, TraceOf(r)), Handled)
  }

  class Gate {
    const config: Config
    var audit: seq<AuditEvent>
    var limiter: Limiter

    ghost predicate Valid()
      reads this, limiter
    {
      limiter.limits == config.limits
    }

    ghost function State(): GateState
      reads this, limiter
    {
      GateState(audit, limiter.buckets)
    }

    constructor (config: Config)
      ensures Valid() && fresh(limiter)
      ensures this.config == config && State() == INITIAL
    {
      this.config := config;
      audit := [];
      limiter := new Limiter(config.limits);
    }

    /** `_write_audit_safely`: an unreachable store drops the event silently. */
    method WriteAuditSafely(up: bool, e: AuditEvent)
      modifies this`audit
      ensures audit == Write(old(audit), up, e)
    {
      if up {
        audit := audit + [e];
      }
    }

    /** `_idempotency_seen_safely`: an unreachable store answers "not seen". */
    method IdempotencySeenSafely(up: bool, path: string, key: string) returns (seen: bool)
      ensures seen == (up && Seen(audit, path, key))
    {
      seen := false;
      if up {
        for i := 0 to |audit|
          invariant seen <==> exists j :: 0 <= j < i && Matches(audit[j], path, key)
        {
          if Matches(audit[i], path, key) {
            seen := true;
          }
        }
      }
    }

    method SecurityAuditMiddleware(r: Request) returns (response: Response, ghost verdict: Verdict)
      requires Valid()
      modifies this`audit, limiter
      ensures Valid() && limiter == old(limiter)
      ensures Turn(State(), response, verdict) == Handle(config, old(State()), r)
    {
      var trace := TraceOf(r);
      var rule := RuleFor(config.rules, r.method_, r.path);
      if rule.Some? {
        var ok := limiter.AllowRequest(RateKey(r), r.now);
        if !ok {
          return Response(429, trace), RateLimited;
        }
        if !Allowed(r, rule.value) {
          WriteAuditSafely(r.writeUp, AuditEvent(r.path, None, Rejected, 403, trace));
          return Response(403, trace), Forbidden;
        }
        if Given(r.idempotencyKey) && Upper(r.method_) != "GET" {
          var seen := IdempotencySeenSafely(r.checkUp, r.path, r.idempotencyKey.value);
          if seen {
            return Response(409, trace), Duplicate;
          }
        }
      }
      match r.handler {
        case Raises =>
          if rule.Some? {
            WriteAuditSafely(r.writeUp, AuditEvent(r.path, r.idempotencyKey, Failed, 500, trace));
          }
          return Response(500, trace), Handled;
        case Responds(status) =>
          if rule.Some? {
            var result := if status < 400 then Succeeded else Failed;
            WriteAuditSafely(r.writeUp, AuditEvent(r.path, r.idempotencyKey, result, status, trace));
          }
          return Response(status, trace), Handled;
      }
    }
  }

  // ---------- runs ----------

  const INITIAL := GateState([], map[])

  function StateAt(cfg: Config, rs: seq<Request>, n: nat): GateState
    requires n <= |rs|
  {
    if n == 0 then INITIAL else Handle(cfg, StateAt(cfg, rs, n - 1), rs[n - 1]).state
  }

  function TurnAt(cfg: Config, rs: seq<Request>, i: nat): Turn
    requires i < |rs|
  {
    Handle(cfg, StateAt(cfg, rs, i), rs[i])
  }

  ghost predicate Ruled(cfg: Config, r: Request) {
    RuleFor(cfg.rules, r.method_, r.path).Some?
  }

  /** The handler answers with a status below 400. */
  ghost predicate Succeeds(h: Handler) {
    h.Responds? && h.status < 400
  }

  /** Request `i` ran its handler successfully for this path and key, under a rule. */
  ghost predicate Completes(cfg: Config, rs: seq<Request>, i: nat, path: string, key: string)
    requires i < |rs|
  {
    && Ruled(cfg, rs[i]) && rs[i].path == path && rs[i].idempotencyKey == Some(key)
    && TurnAt(cfg, rs, i).verdict == Handled && Succeeds(rs[i].handler)
  }

  ghost predicate IsMutation(r: Request) {
    Upper(r.method_) != "GET"
  }

  /** A key is seen exactly when some earlier request completed with it and its audit event was
      stored: refusals (403, 409, 429), failures and exceptions never consume a key. */
  lemma {:induction false} SeenIffCompleted(cfg: Config, rs: seq<Request>, n: nat, path: string, key: string)
    requires n <= |rs|
    ensures Seen(StateAt(cfg, rs, n).audit, path, key)
            <==> exists i :: 0 <= i < n && Completes(cfg, rs, i, path, key) && rs[i].writeUp
  {
    if n > 0 {
      SeenIffCompleted(cfg, rs, n - 1, path, key);
      var before, after := StateAt(cfg, rs, n - 1).audit, StateAt(cfg, rs, n).audit;
      assert TurnAt(cfg, rs, n - 1).state.audit == after;
      assert after == before || (|after| == |before| + 1 && after[..|before|] == before);
      if i :| 0 <= i < |before| && Matches(before[i], path, key) {
        assert after[i] == before[i];
      }
      if i :| 0 <= i < |after| && Matches(after[i], path, key) {
        assert i < |before| ==> before[i] == after[i];
      }
      if Completes(cfg, rs, n - 1, path, key) && rs[n - 1].writeUp {
        assert Matches(after[|before|], path, key);
      }
    }
  }

  /** No answer of 400 or above consumes a key: neither a refusal nor a failed or raising handler
      changes what is seen, for any path and key. */
  lemma FailureConsumesNothing(cfg: Config, rs: seq<Request>, i: nat, path: string, key: string)
    requires i < |rs|
    requires TurnAt(cfg, rs, i).response.status >= 400
    ensures Seen(StateAt(cfg, rs, i + 1).audit, path, key) == Seen(StateAt(cfg, rs, i).audit, path, key)
  {
    SeenIffCompleted(cfg, rs, i, path, key);
    SeenIffCompleted(cfg, rs, i + 1, path, key);
    assert !Completes(cfg, rs, i, path, key);
  }

  /** The limiter lets request `i` of the run through. */
  ghost predicate LetThrough(cfg: Config, rs: seq<Request>, i: nat)
    requires i < |rs|
  {
    var r := rs[i];
    Allow(cfg.limits, StateAt(cfg, rs, i).buckets, r.principal.actor + ":" + r.client + ":" + r.path, r.now).0
  }

  /** The first rule that fits names a rank, and an authenticated caller has it. */
  ghost predicate Permitted(cfg: Config, r: Request) {
    exists k :: FirstFit(cfg.rules, r, k) && r.principal.authenticated && r.principal.rank >= cfg.rules[k].rank
  }

  ghost predicate Fits(rule: EndpointRule, r: Request) {
    |rule.prefix| <= |r.path| && r.path[..|rule.prefix|] == rule.prefix && rule.method_ == Upper(r.method_)
  }

  ghost predicate FirstFit(rules: seq<EndpointRule>, r: Request, k: int) {
    0 <= k < |rules| && Fits(rules[k], r) && forall j :: 0 <= j < k ==> !Fits(rules[j], r)
  }

  lemma {:induction false} RuleForIsFirstFit(rules: seq<EndpointRule>, r: Request)
    ensures RuleFor(rules, r.method_, r.path).Some? <==> exists k :: 0 <= k < |rules| && Fits(rules[k], r)
    ensures forall k :: FirstFit(rules, r, k) ==> RuleFor(rules, r.method_, r.path) == Some(rules[k])
    ensures RuleFor(rules, r.method_, r.path).Some? ==> exists k :: FirstFit(rules, r, k)
  {
    if rules != [] {
      RuleForIsFirstFit(rules[1..], r);
      if Fits(rules[0], r) {
        assert FirstFit(rules, r, 0);
      } else {
        forall k ensures FirstFit(rules, r, k) <==> k > 0 && FirstFit(rules[1..], r, k - 1) {
          assert forall j :: 0 <= j < |rules| - 1 ==> rules[1..][j] == rules[j + 1];
          if k > 0 && FirstFit(rules[1..], r, k - 1) {
            forall j | 0 <= j < k ensures !Fits(rules[j], r) { assert j > 0 ==> rules[j] == rules[1..][j - 1]; }
          }
        }
        if k :| FirstFit(rules[1..], r, k) { assert FirstFit(rules, r, k + 1); }
        if k :| 0 <= k < |rules| && Fits(rules[k], r) { assert rules[k] == rules[1..][k - 1]; }
      }
    }
  }

  lemma PermittedMeans(cfg: Config, r: Request)
    ensures Permitted(cfg, r) <==> Ruled(cfg, r) && Allowed(r, RuleFor(cfg.rules, r.method_, r.path).value)
  {
    RuleForIsFirstFit(cfg.rules, r);
  }

  /** Where every request ends, in the order of the checks: the limiter, which counts every ruled
      request and no other; the role; the idempotency key of anything but a GET; the handler. */
  lemma VerdictMeans(cfg: Config, rs: seq<Request>, i: nat)
    requires i < |rs|
    ensures var r, t := rs[i], TurnAt(cfg, rs, i);
            var ruled := exists k :: 0 <= k < |cfg.rules| && Fits(cfg.rules[k], r);
            var duplicate := exists key :: key != "" && r.idempotencyKey == Some(key) && IsMutation(r) && r.checkUp
                                           && CompletedBefore(cfg, rs, i, r.path, key);
            && t.verdict == (if !ruled then Handled
                             else if !LetThrough(cfg, rs, i) then RateLimited
                             else if !Permitted(cfg, r) then Forbidden
                             else if duplicate then Duplicate
                             else Handled)
            && t.response.status == (match t.verdict
                                     case RateLimited => 429
                                     case Forbidden => 403
                                     case Duplicate => 409
                                     case Handled => if r.handler.Raises? then 500 else r.handler.status)
            && t.state.buckets == (if !ruled then StateAt(cfg, rs, i).buckets
                                   else Allow(cfg.limits, StateAt(cfg, rs, i).buckets,
                                              r.principal.actor + ":" + r.client + ":" + r.path, r.now).1)
  {
    var r := rs[i];
    RuleForIsFirstFit(cfg.rules, r);
    PermittedMeans(cfg, r);
    assert RateKey(r) == r.principal.actor + ":" + r.client + ":" + r.path;
    if r.idempotencyKey.Some? { SeenIffCompleted(cfg, rs, i, r.path, r.idempotencyKey.value); }
  }

  /** An earlier request completed with this path and key, and its audit event was stored. */
  ghost predicate CompletedBefore(cfg: Config, rs: seq<Request>, n: nat, path: string, key: string)
    requires n <= |rs|
  {
    exists i :: 0 <= i < n && Completes(cfg, rs, i, path, key) && rs[i].writeUp
  }

  /** When a mutation with a key completes, and when it is turned away as a duplicate, on every run
      and whatever the store does: it must pass the limiter and the role check; then it is a duplicate
      exactly if the store can be asked and kept an earlier completion. */
  lemma CompletesIff(cfg: Config, rs: seq<Request>, j: nat, key: string)
    requires j < |rs| && IsMutation(rs[j]) && rs[j].idempotencyKey == Some(key) && key != "" && Ruled(cfg, rs[j])
    ensures var path := rs[j].path;
            var kept := rs[j].checkUp && CompletedBefore(cfg, rs, j, path, key);
            var admitted := LetThrough(cfg, rs, j) && Permitted(cfg, rs[j]);
            && (Completes(cfg, rs, j, path, key)
                <==> admitted && !kept && Succeeds(rs[j].handler))
            && (TurnAt(cfg, rs, j).verdict == Duplicate <==> admitted && kept)
  {
    PermittedMeans(cfg, rs[j]);
    SeenIffCompleted(cfg, rs, j, rs[j].path, key);
  }

  /** So at most one mutation succeeds per path and key, unless the audit store lost the first one's
      event or could not be asked by the second. */
  lemma AtMostOnce(cfg: Config, rs: seq<Request>, i: nat, j: nat, path: string, key: string)
    requires i < j < |rs| && key != ""
    requires Completes(cfg, rs, i, path, key) && Completes(cfg, rs, j, path, key) && IsMutation(rs[j])
    ensures !rs[i].writeUp || !rs[j].checkUp
  {
    SeenIffCompleted(cfg, rs, j, path, key);
  }

  /** Neither exception can be dropped: sent twice, a permitted mutation that succeeds completes twice
      exactly if the store loses its event or cannot be asked. */
  lemma CompletesTwiceIff(cfg: Config, r: Request, key: string)
    requires Permitted(cfg, r) && IsMutation(r) && r.idempotencyKey == Some(key) && key != ""
    requires Succeeds(r.handler) && (cfg.limits.maxRequests >= 2 || cfg.limits.windowSeconds <= 0)
    ensures Completes(cfg, [r, r], 0, r.path, key)
    ensures Completes(cfg, [r, r], 1, r.path, key) <==> !r.writeUp || !r.checkUp
  {
    PermittedMeans(cfg, r);
    CompletesIff(cfg, [r, r], 0, key);
    CompletesIff(cfg, [r, r], 1, key);
    assert StateAt(cfg, [r, r], 1) == TurnAt(cfg, [r, r], 0).state;
  }

  /** The event that a request's verdict calls for, and whose writing the store accepts. */
  ghost function EventOf(cfg: Config, r: Request, v: Verdict): seq<AuditEvent> {
    if !Ruled(cfg, r) || !r.writeUp then []
    else match v
      case Forbidden => [AuditEvent(r.path, None, Rejected, 403, TraceOf(r))]
      case Handled =>
        (match r.handler
         case Raises => [AuditEvent(r.path, r.idempotencyKey, Failed, 500, TraceOf(r))]
         case Responds(status) =>
           [AuditEvent(r.path, r.idempotencyKey, if status < 400 then Succeeded else Failed, status, TraceOf(r))])
      case RateLimited | Duplicate => []
  }

  ghost function ExpectedEvents(cfg: Config, rs: seq<Request>, n: nat): seq<AuditEvent>
    requires n <= |rs|
  {
    if n == 0 then []
    else ExpectedEvents(cfg, rs, n - 1) + EventOf(cfg, rs[n - 1], TurnAt(cfg, rs, n - 1).verdict)
  }

  /** The log itself, on every run: in order, one event per ruled request that ran its handler or got
      a 403, with its path, key, result, status and trace, if the store accepted it; and no other. */
  lemma {:induction false} AuditIsComplete(cfg: Config, rs: seq<Request>, n: nat)
    requires n <= |rs|
    ensures StateAt(cfg, rs, n).audit == ExpectedEvents(cfg, rs, n)
  {
    if n > 0 { AuditIsComplete(cfg, rs, n - 1); }
  }

  /** Every response carries the caller's trace id, or a fresh one when the header is missing or empty. */
  lemma EveryResponseIsTraced(cfg: Config, rs: seq<Request>, i: nat)
    requires i < |rs|
    ensures TurnAt(cfg, rs, i).response.traceId
            == match rs[i].traceHeader
               case Some(id) => if id == "" then rs[i].freshTrace else id
               case None => rs[i].freshTrace
  {
  }

  // ---------- is the 409 message true? ----------

  /** Whenever the gate answers 409 on this path, "Mutation already completed for this idempotency
      key" is true: an earlier request that is not a GET completed with it. */
  ghost predicate DuplicateMessageHolds(cfg: Config, path: string) {
    forall rs: seq<Request>, n: nat ::
      n < |rs| && rs[n].path == path && TurnAt(cfg, rs, n).verdict == Duplicate ==>
      exists i :: 0 <= i < n && IsMutation(rs[i]) && Completes(cfg, rs, i, path, rs[n].idempotencyKey.value)
  }

  ghost predicate HasReadRule(cfg: Config, path: string) {
    RuleFor(cfg.rules, "GET", path).Some?
  }

  ghost predicate HasMutationRule(cfg: Config, path: string) {
    exists m: string :: Upper(m) != "GET" && RuleFor(cfg.rules, m, path).Some?
  }

  /** The limiter lets a first request through. */
  ghost predicate Admits(l: Limits) {
    l.maxRequests > 0 || l.windowSeconds <= 0
  }

  /** The 26 small letters, codes 97 to 122, become capitals; nothing else changes. */
  lemma UpperCharMeans(c: char)
    ensures UpperChar(c) as int == if 97 <= c as int <= 122 then c as int - 32 else c as int
  {
  }

  /** GET in any mixture of cases, and nothing else, is not a mutation. */
  lemma MutationMeans(r: Request)
    ensures !IsMutation(r) <==>
            var m := r.method_; |m| == 3 && m[0] in {'g', 'G'} && m[1] in {'e', 'E'} && m[2] in {'t', 'T'}
  {
    var m := r.method_;
    if |m| == 3 { assert Upper(m) == [UpperChar(m[0]), UpperChar(m[1]), UpperChar(m[2])]; }
  }

  lemma {:induction false} RuleIgnoresCase(rules: seq<EndpointRule>, m: string, n: string, path: string)
    requires Upper(m) == Upper(n)
    ensures RuleFor(rules, m, path) == RuleFor(rules, n, path)
  {
    if rules != [] { RuleIgnoresCase(rules[1..], m, n, path); }
  }

  lemma {:induction false} NothingAdmitted(cfg: Config, rs: seq<Request>, n: nat)
    requires n <= |rs| && !Admits(cfg.limits)
    ensures StateAt(cfg, rs, n).buckets == map[]
  {
    if n > 0 { NothingAdmitted(cfg, rs, n - 1); }
  }

  lemma MessageHoldsWithoutReads(cfg: Config, path: string, rs: seq<Request>, n: nat)
    requires !(HasReadRule(cfg, path) && HasMutationRule(cfg, path) && Admits(cfg.limits))
    requires n < |rs| && rs[n].path == path && TurnAt(cfg, rs, n).verdict == Duplicate
    ensures exists i :: 0 <= i < n && IsMutation(rs[i]) && Completes(cfg, rs, i, path, rs[n].idempotencyKey.value)
  {
    if !Admits(cfg.limits) { NothingAdmitted(cfg, rs, n); }
    assert HasMutationRule(cfg, path) by { assert Upper(rs[n].method_) != "GET"; }
    var key := rs[n].idempotencyKey.value;
    SeenIffCompleted(cfg, rs, n, path, key);
    var i :| 0 <= i < n && Completes(cfg, rs, i, path, key) && rs[i].writeUp;
    if !IsMutation(rs[i]) {
      assert Upper("GET") == "GET";
      RuleIgnoresCase(cfg.rules, rs[i].method_, "GET", path);
    }
  }

  ghost function Trusted(cfg: Config, method_: string, path: string, rank: nat, now: int): Request {
    Request(method_, path, Principal("admin", rank, true), "c", None, Some("k"), now, "t", Responds(200), true, true)
  }

  /** A successful GET with a key and then a mutation with the same one, a window later. */
  ghost function ReadThenMutate(cfg: Config, path: string, m: string): seq<Request>
    requires RuleFor(cfg.rules, m, path).Some? && HasReadRule(cfg, path)
  {
    var l := cfg.limits;
    [Trusted(cfg, "GET", path, RuleFor(cfg.rules, "GET", path).value.rank, 0),
     Trusted(cfg, m, path, RuleFor(cfg.rules, m, path).value.rank, if l.windowSeconds > 0 then l.windowSeconds else 0)]
  }

  /** The GET consumes the key, and the mutation is turned away unrun: no mutation had completed. */
  lemma ReadConsumesKey(cfg: Config, path: string, m: string)
    requires Upper(m) != "GET" && RuleFor(cfg.rules, m, path).Some? && HasReadRule(cfg, path) && Admits(cfg.limits)
    ensures var rs := ReadThenMutate(cfg, path, m);
            && !IsMutation(rs[0]) && Completes(cfg, rs, 0, path, "k")
            && IsMutation(rs[1]) && TurnAt(cfg, rs, 1).verdict == Duplicate && TurnAt(cfg, rs, 1).response.status == 409
            && StateAt(cfg, rs, 1).audit == TurnAt(cfg, rs, 1).state.audit
    ensures !DuplicateMessageHolds(cfg, path)
  {
    var rs := ReadThenMutate(cfg, path, m);
    ReadThenMutateRuns(cfg, path, m);
    assert rs[1].path == path && rs[1].idempotencyKey == Some("k");
    assert forall i :: 0 <= i < 1 ==> !IsMutation(rs[i]);
  }

  lemma ReadThenMutateRuns(cfg: Config, path: string, m: string)
    requires Upper(m) != "GET" && RuleFor(cfg.rules, m, path).Some? && HasReadRule(cfg, path) && Admits(cfg.limits)
    ensures var rs := ReadThenMutate(cfg, path, m);
            && !IsMutation(rs[0]) && Completes(cfg, rs, 0, path, "k")
            && IsMutation(rs[1]) && TurnAt(cfg, rs, 1).verdict == Duplicate && TurnAt(cfg, rs, 1).response.status == 409
            && StateAt(cfg, rs, 1).audit == TurnAt(cfg, rs, 1).state.audit
  {
    var rs := ReadThenMutate(cfg, path, m);
    assert Upper("GET") == "GET";
    var t := TurnAt(cfg, rs, 0);
    assert StateAt(cfg, rs, 1) == t.state && t.verdict == Handled;
    assert Matches(t.state.audit[0], path, "k");
    assert RateKey(rs[0]) == RateKey(rs[1]);
  }

  /** The 409 message is true on a path exactly when the rule table does not guard both a GET and
      a mutation there (`/approvals` and `/catalog/import/staged` are guarded for both). */
  lemma DuplicateMessageIff(cfg: Config, path: string)
    ensures DuplicateMessageHolds(cfg, path)
            <==> !(HasReadRule(cfg, path) && HasMutationRule(cfg, path) && Admits(cfg.limits))
  {
    if HasReadRule(cfg, path) && HasMutationRule(cfg, path) && Admits(cfg.limits) {
      var m: string :| Upper(m) != "GET" && RuleFor(cfg.rules, m, path).Some?;
      ReadConsumesKey(cfg, path, m);
    } else {
      forall rs: seq<Request>, n: nat | n < |rs| && rs[n].path == path && TurnAt(cfg, rs, n).verdict == Duplicate
        ensures exists i :: 0 <= i < n && IsMutation(rs[i]) && Completes(cfg, rs, i, path, rs[n].idempotencyKey.value)
      {
        MessageHoldsWithoutReads(cfg, path, rs, n);
      }
    }
  }
}

/**
 * The per-request orchestration of the gateway middleware: authenticate,
 * evaluate the policy, record a denial or consult the anomaly detector, then
 * forward to the backend and echo its answer; any failure becomes the 503
 * fallback response.
 *
 * The authenticator, the policy file, the backend, the audit trail and the
 * log store are collaborators: the principal, the policy tables and the
 * backend's outcome are parameters, the audit trail and the log store are
 * write-only sinks, and an exception thrown by any collaborator is the
 * parameter `fault`, naming the stage at which it is thrown.
 */
module Gateway {
  import opened JsValues
  import opened Requests
  import opened DecisionEngine
  import opened Heuristics
  import opened AnomalyDetector

  /** The policy file: the role table and the optional table of anomaly profiles. */
  datatype Policy = Policy(roles: map<string, RoleRules>, anomalyProfiles: Option<map<string, AnomalyConfig>>)

  /**
   * What the backend call came to: an answer, or a transport error carrying
   * the error response's status, if any, and the error message. An answer
   * may carry any status, although the HTTP client resolves only 2xx answers
   * and reports the others as errors; allowing more outcomes than occur only
   * makes the properties proved over them stronger.
   */
  datatype Upstream = Answered(status: int, body: Value) | TransportError(responseStatus: Option<int>, message: string)

  /** The proxy's `{status, body}` result. */
  datatype Forwarded = Forwarded(status: int, body: Value)

  /** The stages at which a collaborator may throw. */
  datatype FaultPoint =
    | BeforeDetector  // the authenticator, the policy lookups, the audit and log calls before the detector
    | AfterDetector   // the audit and log calls after `onBlock` or after an anomaly was reported
    | AfterForward    // the audit and log calls after the backend answered

  datatype Fault = Fault(point: FaultPoint, message: string)

  /** One finding as the 429 response lists it; the message text is rendered from the value and threshold. */
  datatype AnomalySummary = AnomalySummary(kind: string, severity: Severity, value: real, threshold: real)

  datatype Body =
    | Unauthorized
    | Forbidden(reason: string)
    | TooManyRequests(anomalies: seq<AnomalySummary>)
    | Echoed(payload: Value)
    | ScaaFailure(details: string)

  datatype Response = Response(status: int, body: Body)

  /** The result of one request: the detector's store afterwards, the response, and the payload sent to the backend, if any. */
  datatype Outcome = Outcome(store: map<string, UserRecord>, response: Response, forwarded: Option<Value>)

  /** `proxy.forward`: the answer as is, or on a transport error the error status or 500 and `{error: message}`. */
  function Proxy(upstream: Upstream): (f: Forwarded)
    ensures upstream.Answered? ==> f == Forwarded(upstream.status, upstream.body)
    ensures upstream.TransportError? ==>
              f.body == Obj(map["error" := Str(upstream.message)]) &&
              (f.status == 500 <==> upstream.responseStatus.None? || upstream.responseStatus.value in {0, 500})
    ensures upstream.TransportError? && upstream.responseStatus.Some? && upstream.responseStatus.value != 0 ==>
              f.status == upstream.responseStatus.value
  {
    match upstream
    case Answered(status, body) => Forwarded(status, body)
    case TransportError(responseStatus, message) =>
      var status := match responseStatus case Some(s) => (if s != 0 then s else 500) case None => 500;
      Forwarded(status, Obj(map["error" := Str(message)]))
  }

  /** `fallback.handleFailure`: 503 with the error's message as the details. */
  function HandleFailure(message: string): (r: Response)
    ensures r.status == 503 && r.body.ScaaFailure? && r.body.details == message
  {
    Response(503, ScaaFailure(message))
  }

  /**
   * `anomalyProfiles?.[rules.anomalyProfile] || {}`: the role's named profile,
   * where a missing name is looked up as "undefined"; no overrides when the
   * table or the entry is missing.
   */
  function AnomalyConfigFor(policy: Policy, profile: Option<string>): (cfg: AnomalyConfig)
    ensures policy.anomalyProfiles.None? ==> cfg == NoOverrides
    ensures policy.anomalyProfiles.Some? ==>
              var key := match profile case Some(p) => p case None => "undefined";
              cfg == (if key in policy.anomalyProfiles.value then policy.anomalyProfiles.value[key] else NoOverrides)
  {
    match policy.anomalyProfiles
    case None => NoOverrides
    case Some(profiles) =>
      var key := match profile case Some(p) => p case None => "undefined";
      if key in profiles then profiles[key] else NoOverrides
  }

  /** The 429 body: each finding's type, severity and message. */
  function Summaries(fs: seq<Finding>): (ss: seq<AnomalySummary>)
    ensures |ss| == |fs|
    ensures forall i :: 0 <= i < |fs| ==>
              ss[i].kind == fs[i].kind.Code() && ss[i].severity == fs[i].severity
  {
    seq(|fs|, i requires 0 <= i < |fs| => AnomalySummary(fs[i].kind.Code(), fs[i].severity, fs[i].value, fs[i].threshold))
  }

  /** Whether the collaborator throws at `point`, if that stage is reached. */
  predicate ThrowsAt(fault: Option<Fault>, point: FaultPoint) {
    fault.Some? && fault.value.point == point
  }

  /** The middleware's effect on the detector and its response, as a function of the collaborators' outcomes. */
  function Step(store: map<string, UserRecord>, principal: Option<User>, policy: Policy, req: Request,
                upstream: Upstream, fault: Option<Fault>, now: int): Outcome
  {
    if ThrowsAt(fault, BeforeDetector) then Outcome(store, HandleFailure(fault.value.message), None)
    else if principal.None? then Outcome(store, Response(401, Unauthorized), None)
    else PolicyStep(store, principal.value, policy, req, upstream, fault, now)
  }

  /** The stages after authentication: the policy decision, then the denial or the detector and the backend. */
  function PolicyStep(store: map<string, UserRecord>, user: User, policy: Policy, req: Request,
                      upstream: Upstream, fault: Option<Fault>, now: int): Outcome
  {
    var roleRules := LoadRulesFor(policy.roles, user.role);
    var decision := Evaluate(roleRules, req);
    if decision.Denied? then
      var after := if user.id != "" then WithBlockedAttempt(store, user.id, req, decision.reason.Code(), now) else store;
      if ThrowsAt(fault, AfterDetector) then Outcome(after, HandleFailure(fault.value.message), None)
      else Outcome(after, Response(403, Forbidden(decision.reason.Code())), None)
    else CheckedStep(store, user, Merge(AnomalyConfigFor(policy, roleRules.value.anomalyProfile)),
                     OrElse(decision.filteredPayload, req.body), req, upstream, fault, now)
  }

  /** An allowed request: `check` records the event and analyses the window, then the stages after it. */
  function CheckedStep(store: map<string, UserRecord>, user: User, s: Settings, payload: Value, req: Request,
                       upstream: Upstream, fault: Option<Fault>, now: int): Outcome
  {
    if user.id == "" then AllowedStep(store, None, payload, upstream, fault)
    else
      AllowedStep(WithEvent(store, user.id, req, None, now), CheckVerdict(store, user.id, req, None, s, now),
                  payload, upstream, fault)
  }

  /** The stages after `check`: the 429 exit on `block`, otherwise the forward and the echoed answer. */
  function AllowedStep(after: map<string, UserRecord>, verdict: Option<Verdict>, payload: Value,
                       upstream: Upstream, fault: Option<Fault>): Outcome
  {
    if verdict.Some? && ThrowsAt(fault, AfterDetector) then Outcome(after, HandleFailure(fault.value.message), None)
    else if Blocks(verdict) then
      Outcome(after, Response(429, TooManyRequests(Summaries(verdict.value.anomalies))), None)
    else
      var answer := Proxy(upstream);
      if ThrowsAt(fault, AfterForward) then Outcome(after, HandleFailure(fault.value.message), Some(payload))
      else Outcome(after, Response(answer.status, Echoed(answer.body)), Some(payload))
  }

  /**
   * `middleware`: the stages in order with their early returns, updating
   * the detector's store as `onBlock` and `check` do.
   */
  method Middleware(detector: Detector, principal: Option<User>, policy: Policy, req: Request,
                    upstream: Upstream, fault: Option<Fault>, now: int)
    returns (response: Response, forwarded: Option<Value>)
    requires detector.Valid()
    modifies detector
    ensures detector.Valid()
    ensures Outcome(detector.userEvents, response, forwarded)
              == Step(old(detector.userEvents), principal, policy, req, upstream, fault, now)
  {
    forwarded := None;
    if ThrowsAt(fault, BeforeDetector) {
      return HandleFailure(fault.value.message), None;
    }
    if principal.None? {
      return Response(401, Unauthorized), None;
    }
    var user := principal.value;
    var rules := LoadRulesFor(policy.roles, user.role);
    var decision := Evaluate(rules, req);

    if decision.Denied? {
      var _ := detector.OnBlock(principal, req, decision.reason.Code(), now);
      if ThrowsAt(fault, AfterDetector) {
        return HandleFailure(fault.value.message), None;
      }
      return Response(403, Forbidden(decision.reason.Code())), None;
    }

    var anomalyConfig := AnomalyConfigFor(policy, rules.value.anomalyProfile);
    var anomaly := detector.Check(principal, req, None, anomalyConfig, now);
    if anomaly.Some? {
      if ThrowsAt(fault, AfterDetector) {
        return HandleFailure(fault.value.message), None;
      }
      if anomaly.value.action == Block {
        return Response(429, TooManyRequests(Summaries(anomaly.value.anomalies))), None;
      }
    }

    forwarded := Some(OrElse(decision.filteredPayload, req.body));
    var backendResp := Proxy(upstream);
    if ThrowsAt(fault, AfterForward) {
      return HandleFailure(fault.value.message), forwarded;
    }
    response := Response(backendResp.status, Echoed(backendResp.body));
  }

  /**
   * After `check`: the store is the one `check` left; a response is 429,
   * 503 or the proxy's status; what is forwarded is the payload; and with no
   * fault after the forward, the backend's answer is echoed.
   */
  lemma AllowedStepShape(after: map<string, UserRecord>, verdict: Option<Verdict>, payload: Value,
                         upstream: Upstream, fault: Option<Fault>)
    ensures AllowedStep(after, verdict, payload, upstream, fault).store == after
    ensures var o := AllowedStep(after, verdict, payload, upstream, fault);
      o.response.status in {429, 503} || (o.forwarded.Some? && o.response.status == Proxy(upstream).status)
    ensures var o := AllowedStep(after, verdict, payload, upstream, fault);
      o.forwarded.Some? ==> o.forwarded.value == payload
    ensures var o := AllowedStep(after, verdict, payload, upstream, fault);
      o.forwarded.Some? && !ThrowsAt(fault, AfterForward) ==>
        o.response == Response(Proxy(upstream).status, Echoed(Proxy(upstream).body))
  {
  }

  /**
   * `AllowedStepShape`, lifted through `check`: the store is the one `check`
   * leaves (the request recorded for an identified principal, untouched
   * otherwise).
   */
  lemma CheckedStepShape(store: map<string, UserRecord>, user: User, s: Settings, payload: Value, req: Request,
                         upstream: Upstream, fault: Option<Fault>, now: int)
    ensures CheckedStep(store, user, s, payload, req, upstream, fault, now).store
              == if user.id != "" then WithEvent(store, user.id, req, None, now) else store
    ensures var o := CheckedStep(store, user, s, payload, req, upstream, fault, now);
      o.response.status in {429, 503} || (o.forwarded.Some? && o.response.status == Proxy(upstream).status)
    ensures var o := CheckedStep(store, user, s, payload, req, upstream, fault, now);
      o.forwarded.Some? ==> o.forwarded.value == payload
    ensures var o := CheckedStep(store, user, s, payload, req, upstream, fault, now);
      o.forwarded.Some? && !ThrowsAt(fault, AfterForward) ==>
        o.response == Response(Proxy(upstream).status, Echoed(Proxy(upstream).body))
  {
    if user.id != "" {
      AllowedStepShape(WithEvent(store, user.id, req, None, now), CheckVerdict(store, user.id, req, None, s, now),
                       payload, upstream, fault);
    } else {
      AllowedStepShape(store, None, payload, upstream, fault);
    }
  }

  /**
   * After authentication: a response is 403, 429, 503 or the proxy's status;
   * only an allowed request is forwarded, carrying the engine's filtered
   * payload; with no fault after the forward the backend's answer is echoed.
   */
  lemma PolicyStepShape(store: map<string, UserRecord>, user: User, policy: Policy, req: Request,
                        upstream: Upstream, fault: Option<Fault>, now: int)
    ensures var o := PolicyStep(store, user, policy, req, upstream, fault, now);
      o.response.status in {403, 429, 503} || (o.forwarded.Some? && o.response.status == Proxy(upstream).status)
    ensures var o := PolicyStep(store, user, policy, req, upstream, fault, now);
      var d := Evaluate(LoadRulesFor(policy.roles, user.role), req);
      o.forwarded.Some? ==> d.Allowed? && o.forwarded.value == d.filteredPayload && o.forwarded.value == OrElse(req.body, EmptyObject)
    ensures var o := PolicyStep(store, user, policy, req, upstream, fault, now);
      o.forwarded.Some? && !ThrowsAt(fault, AfterForward) ==>
        o.response == Response(Proxy(upstream).status, Echoed(Proxy(upstream).body))
  {
    match LoadRulesFor(policy.roles, user.role)
    case None =>
    case Some(rules) =>
      if Evaluate(Some(rules), req).Allowed? {
        CheckedStepShape(store, user, Merge(AnomalyConfigFor(policy, rules.anomalyProfile)),
                         OrElse(Evaluate(Some(rules), req).filteredPayload, req.body), req, upstream, fault, now);
      }
  }

  /** Every response is 401, 403, 429, 503, or the status the proxy returned. */
  lemma StepStatuses(store: map<string, UserRecord>, principal: Option<User>, policy: Policy, req: Request,
                     upstream: Upstream, fault: Option<Fault>, now: int)
    ensures var o := Step(store, principal, policy, req, upstream, fault, now);
      o.response.status in {401, 403, 429, 503} || (o.forwarded.Some? && o.response.status == Proxy(upstream).status)
  {
    if !ThrowsAt(fault, BeforeDetector) && principal.Some? {
      PolicyStepShape(store, principal.value, policy, req, upstream, fault, now);
    }
  }

  /**
   * Without a principal the answer is 401 (or 503 if a collaborator throws
   * first): the detector is neither consulted nor updated and nothing is
   * forwarded.
   */
  lemma UnauthenticatedIsRejected(store: map<string, UserRecord>, policy: Policy, req: Request,
                                  upstream: Upstream, fault: Option<Fault>, now: int)
    ensures var o := Step(store, None, policy, req, upstream, fault, now);
      && o.store == store && o.forwarded.None?
      && o.response == (if ThrowsAt(fault, BeforeDetector) then HandleFailure(fault.value.message)
                        else Response(401, Unauthorized))
  {
  }

  /**
   * A policy denial answers 403 with the engine's reason code, records one
   * blocked attempt for an identified principal, leaves its events as they
   * were, and never forwards.
   */
  lemma DenialIsRecordedAndRejected(store: map<string, UserRecord>, user: User, policy: Policy, req: Request,
                                    upstream: Upstream, now: int)
    requires Evaluate(LoadRulesFor(policy.roles, user.role), req).Denied?
    ensures var o := Step(store, Some(user), policy, req, upstream, None, now);
      var reason := Evaluate(LoadRulesFor(policy.roles, user.role), req).reason.Code();
      && o.response == Response(403, Forbidden(reason))
      && o.forwarded.None?
      && (user.id != "" ==>
            && user.id in o.store
            && o.store[user.id].events == RecordOrNew(store, user.id, now).events
            && o.store[user.id].blockedAttempts
                 == RecordOrNew(store, user.id, now).blockedAttempts + [BlockedAttempt(now, reason, req.httpMethod, req.path)])
      && (user.id == "" ==> o.store == store)
  {
  }

  /**
   * Only an allowed request reaches the backend, and what it carries is the
   * engine's filtered payload: the `req.body` fallback never applies, since
   * an allowed decision's payload is never falsy.
   */
  lemma ForwardOnlyAllowed(store: map<string, UserRecord>, principal: Option<User>, policy: Policy, req: Request,
                           upstream: Upstream, fault: Option<Fault>, now: int)
    ensures var o := Step(store, principal, policy, req, upstream, fault, now);
      o.forwarded.Some? ==>
        && principal.Some?
        && var d := Evaluate(LoadRulesFor(policy.roles, principal.value.role), req);
        && d.Allowed?
        && o.forwarded.value == d.filteredPayload
        && o.forwarded.value == OrElse(req.body, EmptyObject)
  {
    if !ThrowsAt(fault, BeforeDetector) && principal.Some? {
      PolicyStepShape(store, principal.value, policy, req, upstream, fault, now);
    }
  }

  /**
   * With no fault, an allowed request that is not blocked by the detector
   * answers exactly what the backend answered.
   */
  lemma UpstreamAnswerIsEchoed(store: map<string, UserRecord>, principal: Option<User>, policy: Policy, req: Request,
                               upstream: Upstream, now: int)
    ensures var o := Step(store, principal, policy, req, upstream, None, now);
      o.forwarded.Some? ==> o.response == Response(Proxy(upstream).status, Echoed(Proxy(upstream).body))
  {
    if principal.Some? {
      PolicyStepShape(store, principal.value, policy, req, upstream, None, now);
    }
  }

  /** A `block` verdict ends the request with 429 and nothing forwarded, unless the logging after it throws. */
  lemma AllowedStepBlocks(after: map<string, UserRecord>, verdict: Option<Verdict>, payload: Value,
                          upstream: Upstream, fault: Option<Fault>)
    requires Blocks(verdict)
    requires !ThrowsAt(fault, AfterDetector)
    ensures AllowedStep(after, verdict, payload, upstream, fault).response.status == 429
    ensures AllowedStep(after, verdict, payload, upstream, fault).forwarded.None?
  {
  }

  /**
   * A verdict that does not block (`throttle`, `alert` or none), with no
   * fault, lets the request through: the payload is forwarded and the
   * backend's answer echoed.
   */
  lemma AllowedStepProceeds(after: map<string, UserRecord>, verdict: Option<Verdict>, payload: Value, upstream: Upstream)
    requires !Blocks(verdict)
    ensures AllowedStep(after, verdict, payload, upstream, None)
              == Outcome(after, Response(Proxy(upstream).status, Echoed(Proxy(upstream).body)), Some(payload))
  {
  }

  /**
   * For an allowed request with no fault, the detector's verdict alone
   * decides: a `block` answers 429 with the findings' summaries and nothing
   * is forwarded; anything else forwards the engine's filtered payload and
   * echoes the backend.
   */
  lemma AllowedRequestProceedsUnlessBlocked(store: map<string, UserRecord>, user: User, policy: Policy, req: Request,
                                            upstream: Upstream, now: int, rules: RoleRules)
    requires LoadRulesFor(policy.roles, user.role) == Some(rules)
    requires Evaluate(Some(rules), req).Allowed?
    ensures var s := Merge(AnomalyConfigFor(policy, rules.anomalyProfile));
      var verdict := if user.id != "" then CheckVerdict(store, user.id, req, None, s, now) else None;
      var o := Step(store, Some(user), policy, req, upstream, None, now);
      && (o.forwarded.Some? <==> !Blocks(verdict))
      && (!Blocks(verdict) ==>
            && o.forwarded == Some(Evaluate(Some(rules), req).filteredPayload)
            && o.response == Response(Proxy(upstream).status, Echoed(Proxy(upstream).body)))
      && (Blocks(verdict) ==> o.response == Response(429, TooManyRequests(Summaries(verdict.value.anomalies))))
  {
    PolicyStepWhenAllowed(store, user, policy, req, upstream, None, now, rules);
  }

  /**
   * Any exception ends in the 503 fallback: one thrown before the detector
   * leaves the store as it was and forwards nothing; one thrown after the
   * detector answers 503 whenever the backend is not called; one thrown
   * after the forward answers 503 in place of the backend's answer.
   */
  lemma FaultAnswers503(store: map<string, UserRecord>, principal: Option<User>, policy: Policy, req: Request,
                        upstream: Upstream, f: Fault, now: int)
    ensures var o := Step(store, principal, policy, req, upstream, Some(f), now);
      f.point == BeforeDetector ==> o == Outcome(store, HandleFailure(f.message), None)
    ensures var o := Step(store, principal, policy, req, upstream, Some(f), now);
      f.point == AfterDetector && principal.Some? && o.forwarded.None? ==> o.response == HandleFailure(f.message)
    ensures var o := Step(store, principal, policy, req, upstream, Some(f), now);
      f.point == AfterForward && o.forwarded.Some? ==> o.response == HandleFailure(f.message)
  {
  }

  /** For a principal whose request the policy allows, what follows is `check` under the role's merged profile. */
  lemma PolicyStepWhenAllowed(store: map<string, UserRecord>, user: User, policy: Policy, req: Request,
                              upstream: Upstream, fault: Option<Fault>, now: int, rules: RoleRules)
    requires LoadRulesFor(policy.roles, user.role) == Some(rules)
    requires Evaluate(Some(rules), req).Allowed?
    ensures PolicyStep(store, user, policy, req, upstream, fault, now)
              == CheckedStep(store, user, Merge(AnomalyConfigFor(policy, rules.anomalyProfile)),
                             OrElse(Evaluate(Some(rules), req).filteredPayload, req.body), req, upstream, fault, now)
  {
  }

  /**
   * An identified principal's request that alone carries more bytes than
   * its settings allow in a positive window is refused with 429 before the
   * backend is called, whatever its earlier history.
   */
  lemma OversizedEventIsRefused(store: map<string, UserRecord>, user: User, s: Settings, payload: Value,
                                req: Request, upstream: Upstream, now: int)
    requires user.id != ""
    requires req.payloadSize > s.maxBytesPerWindow && s.timeWindow > 0
    ensures CheckedStep(store, user, s, payload, req, upstream, None, now).response.status == 429
    ensures CheckedStep(store, user, s, payload, req, upstream, None, now).forwarded.None?
  {
    OversizedEventBlocks(store, user.id, req, None, s, now);
    AllowedStepBlocks(WithEvent(store, user.id, req, None, now), CheckVerdict(store, user.id, req, None, s, now),
                      payload, upstream, None);
  }

  /**
   * An identified principal whose allowed request alone carries more bytes
   * than its role's profile allows is refused with 429 and nothing is
   * forwarded, whatever its earlier history, provided the window is positive.
   */
  lemma OversizedRequestIsRefused(store: map<string, UserRecord>, user: User, policy: Policy, req: Request,
                                  upstream: Upstream, now: int, rules: RoleRules)
    requires user.id != ""
    requires LoadRulesFor(policy.roles, user.role) == Some(rules)
    requires Evaluate(Some(rules), req).Allowed?
    requires req.payloadSize > Merge(AnomalyConfigFor(policy, rules.anomalyProfile)).maxBytesPerWindow
    requires Merge(AnomalyConfigFor(policy, rules.anomalyProfile)).timeWindow > 0
    ensures Step(store, Some(user), policy, req, upstream, None, now).response.status == 429
    ensures Step(store, Some(user), policy, req, upstream, None, now).forwarded.None?
  {
    PolicyStepWhenAllowed(store, user, policy, req, upstream, None, now, rules);
    OversizedEventIsRefused(store, user, Merge(AnomalyConfigFor(policy, rules.anomalyProfile)),
                            OrElse(Evaluate(Some(rules), req).filteredPayload, req.body), req, upstream, now);
  }
}

/**
 * The policy decision engine: a pure function of a role's rules and the
 * request that allows the request, passing its body through, or denies it
 * with one of three reason codes, checked in a fixed order.
 */
module DecisionEngine {
  import opened JsValues
  import opened Strings
  import opened Requests

  /** A resource's entry in a role's policy: the logical actions it permits. */
  datatype ResourcePolicy = ResourcePolicy(actions: seq<string>)

  /** A role's rules: the resource table and the name of its anomaly profile. */
  datatype RoleRules = RoleRules(resources: map<string, ResourcePolicy>, anomalyProfile: Option<string>)

  datatype DenyReason = RoleNotFound | NoResourcePermission | ActionNotAllowed
  {
    /** The reason code sent to the client and the audit trail. */
    function Code(): string {
      match this
      case RoleNotFound => "role_not_found"
      case NoResourcePermission => "no_resource_permission"
      case ActionNotAllowed => "action_not_allowed"
    }
  }

  datatype DecisionResult = Allowed(filteredPayload: Value) | Denied(reason: DenyReason)

  /** `rules.roles[role] || null`: the role's entry, or null for a role not in the table. */
  function LoadRulesFor(roles: map<string, RoleRules>, role: string): (r: Option<RoleRules>)
    ensures r.Some? <==> role in roles
    ensures role in roles ==> r.value == roles[role]
  {
    if role in roles then Some(roles[role]) else None
  }

  /**
   * The key the engine looks the resource up under: `path.split('/')[1]`,
   * where an `undefined` index becomes the property name "undefined".
   */
  function ResourceKey(path: string): string {
    match PathResource(path)
    case Some(r) => r
    case None => "undefined"
  }

  /** The logical action of an HTTP method: `get` is read, `post` is write, in any letter case. */
  function ActionFor(httpMethod: string): (a: string)
    ensures a == "read" <==> ToLower(httpMethod) == "get"
    ensures a == "write" <==> ToLower(httpMethod) == "post"
    ensures a != "read" && a != "write" ==> a == "unknown"
  {
    var m := ToLower(httpMethod);
    if m == "get" then "read" else if m == "post" then "write" else "unknown"
  }

  /** Whether the role's rules grant the request's action on the request's resource. */
  predicate Grants(rules: RoleRules, req: Request) {
    var key := ResourceKey(req.path);
    key in rules.resources && ActionFor(req.httpMethod) in rules.resources[key].actions
  }

  /**
   * The decision. The denial reason is that of the first failing check in
   * the order role, resource, action; an allowed request carries its body,
   * or `{}` when the body is falsy.
   */
  function Evaluate(roleRules: Option<RoleRules>, req: Request): (d: DecisionResult)
    ensures roleRules.None? ==> d == Denied(RoleNotFound)
    ensures d == Denied(NoResourcePermission) <==>
              roleRules.Some? && ResourceKey(req.path) !in roleRules.value.resources
    ensures d == Denied(ActionNotAllowed) <==>
              roleRules.Some? && ResourceKey(req.path) in roleRules.value.resources && !Grants(roleRules.value, req)
    ensures d.Allowed? <==> roleRules.Some? && Grants(roleRules.value, req)
    ensures d.Allowed? ==> Truthy(d.filteredPayload)
    ensures d.Allowed? && Truthy(req.body) ==> d.filteredPayload == req.body
    ensures d.Allowed? && !Truthy(req.body) ==> d.filteredPayload == EmptyObject
  {
    if roleRules.None? then Denied(RoleNotFound)
    else
      var resources := roleRules.value.resources;
      var resource := ResourceKey(req.path);
      if resource !in resources then Denied(NoResourcePermission)
      else
        var action := ActionFor(req.httpMethod);
        if action !in resources[resource].actions then Denied(ActionNotAllowed)
        else Allowed(OrElse(req.body, EmptyObject))
  }

  lemma LowerCharIdempotent(c: char)
    ensures LowerChar(LowerChar(c)) == LowerChar(c)
  {
  }

  /** The decision depends on the method only through its lower-cased form. */
  lemma EvaluateIgnoresMethodCase(roleRules: Option<RoleRules>, req: Request)
    ensures Evaluate(roleRules, req) == Evaluate(roleRules, req.(httpMethod := ToLower(req.httpMethod)))
  {
    var m := req.httpMethod;
    forall i | 0 <= i < |m|
      ensures ToLower(ToLower(m))[i] == ToLower(m)[i]
    {
      LowerCharIdempotent(m[i]);
    }
    assert ToLower(ToLower(m)) == ToLower(m);
  }

  /**
   * A policy whose action lists never name "unknown" allows only methods
   * that lower-case to `get` or `post`.
   */
  lemma OnlyReadAndWriteAllowed(rules: RoleRules, req: Request)
    requires forall k :: k in rules.resources ==> "unknown" !in rules.resources[k].actions
    requires Evaluate(Some(rules), req).Allowed?
    ensures ToLower(req.httpMethod) == "get" || ToLower(req.httpMethod) == "post"
  {
    var key := ResourceKey(req.path);
    assert key in rules.resources;
  }

  /** `wider` grants at least every action on every resource that `narrower` grants. */
  predicate Widens(narrower: RoleRules, wider: RoleRules) {
    forall k :: k in narrower.resources ==>
      k in wider.resources &&
      forall a :: a in narrower.resources[k].actions ==> a in wider.resources[k].actions
  }

  /** Widening a role's rules never turns an allowed request into a denied one, nor changes its payload. */
  lemma EvaluateMonotoneInRules(narrower: RoleRules, wider: RoleRules, req: Request)
    requires Widens(narrower, wider)
    requires Evaluate(Some(narrower), req).Allowed?
    ensures Evaluate(Some(wider), req) == Evaluate(Some(narrower), req)
  {
    var key := ResourceKey(req.path);
    assert ActionFor(req.httpMethod) in narrower.resources[key].actions;
  }
}

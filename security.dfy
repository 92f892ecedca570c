/// The attribute-based access control of packages/security. A context holds
/// the current principal and an append-only list of policies. A policy names
/// an optional action and up to three attribute maps (principal, resource
/// and environment); it grants a request when its action, if set, is the
/// requested one and every listed attribute is strictly equal to the
/// corresponding attribute of the request. A request is allowed when some
/// policy grants it, checked in the order the policies were added.
module Security {
  import opened JsValue
  import opened Iterate

  /** `{}`: the environment `can` uses when none is passed. Only its (absent) properties are read. */
  const EmptyEnvironment := Obj(0, [])

  /** The `environment = {}` default parameter: it replaces `undefined` and nothing else. */
  function DefaultEnvironment(environment: Value): (r: Value)
    ensures environment.Undefined? ==> r == EmptyEnvironment
    ensures !environment.Undefined? ==> r == environment
  {
    if environment.Undefined? then EmptyEnvironment else environment
  }

  /** `policy[name]` for a policy that is neither `null` nor `undefined`. */
  function Field(policy: Value, name: string): Value
    requires !IsNullish(policy)
  {
    Get(policy, name).value
  }

  // ---------------------------------------------------------------------------
  // What a policy means

  /** A falsy policy action applies to every action; a truthy one only to an action `===` to it. */
  predicate ActionApplies(policyAction: Value, action: Value) {
    !Truthy(policyAction) || StrictEquals(policyAction, action)
  }

  /**
   * A falsy attribute map imposes nothing; otherwise each of its entries
   * `[key, value]` needs `target[key]` to be readable and `=== value`.
   */
  predicate AttributesMatch(attrs: Value, target: Value) {
    !Truthy(attrs) ||
    forall i :: 0 <= i < |Entries(attrs)| ==>
      Get(target, Entries(attrs)[i].0).Ok? && StrictEquals(Get(target, Entries(attrs)[i].0).value, Entries(attrs)[i].1)
  }

  /** The policy grants the request: its action applies and all three attribute maps match. */
  predicate Grants(policy: Value, principal: Value, action: Value, resource: Value, environment: Value) {
    && !IsNullish(policy)
    && ActionApplies(Field(policy, "action"), action)
    && AttributesMatch(Field(policy, "principalAttributes"), principal)
    && AttributesMatch(Field(policy, "resourceAttributes"), resource)
    && AttributesMatch(Field(policy, "environmentAttributes"), environment)
  }

  // ---------------------------------------------------------------------------
  // How `evaluatePolicy` and `can` compute it

  /** `target[key] !== value`, negated, where the read throws on a nullish target. */
  function AttributeHolds(target: Value, key: string, expected: Value): Result<bool, Thrown>
  {
    match Get(target, key)
    case Err(t) => Err(t)
    case Ok(v) => Ok(StrictEquals(v, expected))
  }

  /** The body of an attribute loop for one `[key, value]` entry. */
  function AttributeTest(target: Value): ((string, Value)) -> Result<bool, Thrown> {
    (e: (string, Value)) => AttributeHolds(target, e.0, e.1)
  }

  /**
   * `if (attrs) { for (const [key, value] of Object.entries(attrs)) { if (target[key] !== value) return false; } }`
   * The loop passes exactly when the attributes match, and it can only
   * throw by reading a key of a nullish target.
   */
  function AttributesHold(attrs: Value, target: Value): (r: Result<bool, Thrown>)
    ensures r == Ok(true) <==> AttributesMatch(attrs, target)
    ensures r.Err? <==> Truthy(attrs) && Entries(attrs) != [] && IsNullish(target)
    ensures r != Ok(true) ==> Truthy(attrs) && exists i ::
      && 0 <= i < |Entries(attrs)|
      && AttributeHolds(target, Entries(attrs)[i].0, Entries(attrs)[i].1) == r
      && forall j :: 0 <= j < i ==> AttributeHolds(target, Entries(attrs)[j].0, Entries(attrs)[j].1) == Ok(true)
  {
    if !Truthy(attrs) then Ok(true)
    else
      assert Entries(attrs) != [] && IsNullish(target) ==> AttributeTest(target)(Entries(attrs)[0]).Err?;
      AllOf(Entries(attrs), AttributeTest(target))
  }

  /**
   * One check followed by the next: a `false` or an exception from the first
   * ends the evaluation with it, and `true` hands over to the second.
   */
  function AndThen(first: Result<bool, Thrown>, next: Result<bool, Thrown>): (r: Result<bool, Thrown>)
    ensures r == Ok(true) <==> first == Ok(true) && next == Ok(true)
    ensures r.Err? ==> r == first || r == next
    ensures first.Err? ==> r == first
    ensures first == Ok(true) && next.Err? ==> r == next
  {
    if first == Ok(true) then next else first
  }

  /**
   * `evaluatePolicy(policy, action, resource, environment)` with
   * `this.principal` passed as `principal`. The action is checked first,
   * then the principal, resource and environment attributes, each check
   * returning `false` at its first mismatch.
   */
  function EvaluatePolicy(policy: Value, principal: Value, action: Value, resource: Value, environment: Value): (r: Result<bool, Thrown>)
    ensures IsNullish(policy) ==> r == Err(Get(policy, "action").error)
    ensures !IsNullish(policy) && !ActionApplies(Field(policy, "action"), action) ==> r == Ok(false)
    ensures r.Err? ==> IsNullish(policy) || IsNullish(principal) || IsNullish(resource) || IsNullish(environment)
    ensures !IsNullish(policy) && ActionApplies(Field(policy, "action"), action) ==>
      (r.Err? <==>
        || AttributesHold(Field(policy, "principalAttributes"), principal).Err?
        || (&& AttributesHold(Field(policy, "principalAttributes"), principal) == Ok(true)
            && AttributesHold(Field(policy, "resourceAttributes"), resource).Err?)
        || (&& AttributesHold(Field(policy, "principalAttributes"), principal) == Ok(true)
            && AttributesHold(Field(policy, "resourceAttributes"), resource) == Ok(true)
            && AttributesHold(Field(policy, "environmentAttributes"), environment).Err?))
  {
    match Get(policy, "action")
    case Err(t) => Err(t)
    case Ok(policyAction) =>
      if !ActionApplies(policyAction, action) then Ok(false)
      else
        AndThen(AttributesHold(Field(policy, "principalAttributes"), principal),
          AndThen(AttributesHold(Field(policy, "resourceAttributes"), resource),
            AttributesHold(Field(policy, "environmentAttributes"), environment)))
  }

  /** Past the action check, `evaluatePolicy` is the three attribute loops in turn. */
  lemma EvaluatePolicyPastAction(policy: Value, principal: Value, action: Value, resource: Value, environment: Value)
    requires !IsNullish(policy)
    requires ActionApplies(Field(policy, "action"), action)
    ensures EvaluatePolicy(policy, principal, action, resource, environment) ==
      AndThen(AttributesHold(Field(policy, "principalAttributes"), principal),
        AndThen(AttributesHold(Field(policy, "resourceAttributes"), resource),
          AttributesHold(Field(policy, "environmentAttributes"), environment)))
  {
    assert Get(policy, "action") == Ok(Field(policy, "action"));
  }

  /** `evaluatePolicy` returns `true` exactly when every stage passes. */
  lemma EvaluatePolicyStages(policy: Value, principal: Value, action: Value, resource: Value, environment: Value)
    ensures EvaluatePolicy(policy, principal, action, resource, environment) == Ok(true) <==>
      && !IsNullish(policy)
      && ActionApplies(Field(policy, "action"), action)
      && AttributesHold(Field(policy, "principalAttributes"), principal) == Ok(true)
      && AttributesHold(Field(policy, "resourceAttributes"), resource) == Ok(true)
      && AttributesHold(Field(policy, "environmentAttributes"), environment) == Ok(true)
  {
    if !IsNullish(policy) && ActionApplies(Field(policy, "action"), action) {
      EvaluatePolicyPastAction(policy, principal, action, resource, environment);
    }
  }

  /** A policy grants a request exactly when its action applies and its three attribute loops pass. */
  lemma GrantsByStages(policy: Value, principal: Value, action: Value, resource: Value, environment: Value)
    requires !IsNullish(policy)
    ensures Grants(policy, principal, action, resource, environment) ==
      (ActionApplies(Field(policy, "action"), action)
      && AttributesHold(Field(policy, "principalAttributes"), principal) == Ok(true)
      && AttributesHold(Field(policy, "resourceAttributes"), resource) == Ok(true)
      && AttributesHold(Field(policy, "environmentAttributes"), environment) == Ok(true))
  {
  }

  /** `evaluatePolicy` returns `true` exactly when the policy grants the request. */
  lemma EvaluatePolicyMeansGrants(policy: Value, principal: Value, action: Value, resource: Value, environment: Value)
    ensures EvaluatePolicy(policy, principal, action, resource, environment) == Ok(true) <==>
      Grants(policy, principal, action, resource, environment)
  {
    EvaluatePolicyStages(policy, principal, action, resource, environment);
    if !IsNullish(policy) {
      GrantsByStages(policy, principal, action, resource, environment);
    }
  }

  /** The loop body of `can`: whether `policy` allows the request. */
  function PolicyTest(principal: Value, action: Value, resource: Value, environment: Value): Value -> Result<bool, Thrown> {
    policy => EvaluatePolicy(policy, principal, action, resource, environment)
  }

  /**
   * `can(action, resource, environment)` on a context whose principal is
   * `principal` and whose policy list is `policies`. Without a principal
   * the answer is `false`; otherwise it is `true` at the first policy that
   * grants the request, and an exception thrown by an earlier policy wins.
   */
  function Decide(principal: Value, policies: seq<Value>, action: Value, resource: Value, environment: Value): (r: Result<bool, Thrown>)
    ensures !Truthy(principal) ==> r == Ok(false)
    ensures r == Ok(true) ==> exists i :: 0 <= i < |policies| && Grants(policies[i], principal, action, resource, DefaultEnvironment(environment))
    ensures r.Err? ==> exists i ::
      && 0 <= i < |policies|
      && EvaluatePolicy(policies[i], principal, action, resource, DefaultEnvironment(environment)) == r
      && forall j :: 0 <= j < i ==> EvaluatePolicy(policies[j], principal, action, resource, DefaultEnvironment(environment)) == Ok(false)
  {
    if !Truthy(principal) then Ok(false)
    else AnyOf(policies, PolicyTest(principal, action, resource, DefaultEnvironment(environment)))
  }

  /** No policy throws when the request's values and the policies can all be read. */
  predicate Readable(policies: seq<Value>, resource: Value, environment: Value) {
    && (forall i :: 0 <= i < |policies| ==> !IsNullish(policies[i]))
    && !IsNullish(resource)
    && !IsNullish(DefaultEnvironment(environment))
  }

  /** With a principal set, no policy's evaluation throws on this request. */
  predicate NeverThrows(principal: Value, policies: seq<Value>, action: Value, resource: Value, environment: Value) {
    Truthy(principal) ==>
      forall i :: 0 <= i < |policies| ==> EvaluatePolicy(policies[i], principal, action, resource, DefaultEnvironment(environment)).Ok?
  }

  // ---------------------------------------------------------------------------
  // Properties of the decision

  /** With a principal set and everything readable, no policy throws. */
  lemma ReadableNeverThrows(principal: Value, policies: seq<Value>, action: Value, resource: Value, environment: Value)
    requires Truthy(principal) && Readable(policies, resource, environment)
    ensures forall i :: 0 <= i < |policies| ==> EvaluatePolicy(policies[i], principal, action, resource, DefaultEnvironment(environment)).Ok?
  {
  }

  /** Some policy of the list grants the request. */
  predicate SomeGrant(policies: seq<Value>, principal: Value, action: Value, resource: Value, environment: Value) {
    exists i :: 0 <= i < |policies| && Grants(policies[i], principal, action, resource, environment)
  }

  /**
   * When nothing can throw, a request is allowed exactly when a principal
   * is set and some policy grants it.
   */
  lemma DecideIsSomeGrant(principal: Value, policies: seq<Value>, action: Value, resource: Value, environment: Value)
    requires NeverThrows(principal, policies, action, resource, environment)
    ensures Decide(principal, policies, action, resource, environment) ==
      Ok(Truthy(principal) && SomeGrant(policies, principal, action, resource, DefaultEnvironment(environment)))
  {
    if Truthy(principal) {
      var env := DefaultEnvironment(environment);
      var test := PolicyTest(principal, action, resource, env);
      SomeGrantIsSomeTrue(principal, policies, action, resource, env);
      PolicyTestIsEvaluation(principal, policies, action, resource, env);
      AnyOfWithoutThrows(policies, test);
    }
  }

  /** Some policy grants the request exactly when some policy's evaluation returns `true`. */
  lemma SomeGrantIsSomeTrue(principal: Value, policies: seq<Value>, action: Value, resource: Value, env: Value)
    ensures SomeGrant(policies, principal, action, resource, env) <==>
      exists i :: 0 <= i < |policies| && EvaluatePolicy(policies[i], principal, action, resource, env) == Ok(true)
  {
    if SomeGrant(policies, principal, action, resource, env) {
      var i :| 0 <= i < |policies| && Grants(policies[i], principal, action, resource, env);
      EvaluatePolicyMeansGrants(policies[i], principal, action, resource, env);
    } else {
      forall i | 0 <= i < |policies| ensures EvaluatePolicy(policies[i], principal, action, resource, env) != Ok(true) {
        EvaluatePolicyMeansGrants(policies[i], principal, action, resource, env);
      }
    }
  }

  /** The callback `can` runs on each policy is `evaluatePolicy` with the request's values. */
  lemma PolicyTestIsEvaluation(principal: Value, policies: seq<Value>, action: Value, resource: Value, env: Value)
    requires forall i :: 0 <= i < |policies| ==> EvaluatePolicy(policies[i], principal, action, resource, env).Ok?
    ensures forall i :: 0 <= i < |policies| ==> PolicyTest(principal, action, resource, env)(policies[i]).Ok?
    ensures (exists i :: 0 <= i < |policies| && EvaluatePolicy(policies[i], principal, action, resource, env) == Ok(true)) <==>
      exists i :: 0 <= i < |policies| && PolicyTest(principal, action, resource, env)(policies[i]) == Ok(true)
  {
    var test := PolicyTest(principal, action, resource, env);
    if exists i :: 0 <= i < |policies| && EvaluatePolicy(policies[i], principal, action, resource, env) == Ok(true) {
      var i :| 0 <= i < |policies| && EvaluatePolicy(policies[i], principal, action, resource, env) == Ok(true);
      assert test(policies[i]) == Ok(true);
    }
    if exists i :: 0 <= i < |policies| && test(policies[i]) == Ok(true) {
      var i :| 0 <= i < |policies| && test(policies[i]) == Ok(true);
      assert EvaluatePolicy(policies[i], principal, action, resource, env) == Ok(true);
    }
  }

  /** With a principal set, `can` is its policy loop. */
  lemma DecideIsLoop(principal: Value, policies: seq<Value>, action: Value, resource: Value, environment: Value)
    requires Truthy(principal)
    ensures Decide(principal, policies, action, resource, environment) ==
      AnyOf(policies, PolicyTest(principal, action, resource, DefaultEnvironment(environment)))
  {
  }

  /**
   * Adding a policy is `can` over the old list and, only where that said
   * `false`, the new policy: an allowed request stays allowed, and a denied
   * one is allowed exactly when the new policy grants it.
   */
  lemma AddPolicyExtendsDecision(principal: Value, policies: seq<Value>, policy: Value, action: Value, resource: Value, environment: Value)
    ensures Decide(principal, policies, action, resource, environment) == Ok(true) ==>
      Decide(principal, policies + [policy], action, resource, environment) == Ok(true)
    ensures Truthy(principal) && Decide(principal, policies, action, resource, environment) == Ok(false) ==>
      Decide(principal, policies + [policy], action, resource, environment) ==
        EvaluatePolicy(policy, principal, action, resource, DefaultEnvironment(environment))
  {
    if Truthy(principal) {
      var test := PolicyTest(principal, action, resource, DefaultEnvironment(environment));
      DecideIsLoop(principal, policies, action, resource, environment);
      DecideIsLoop(principal, policies + [policy], action, resource, environment);
      AnyOfAppendOne(policies, policy, test);
      assert test(policy) == EvaluatePolicy(policy, principal, action, resource, DefaultEnvironment(environment));
    }
  }

  /** When nothing can throw, the order of the policies does not change the answer. */
  lemma PolicyOrderIsIrrelevant(principal: Value, policies: seq<Value>, reordered: seq<Value>, action: Value, resource: Value, environment: Value)
    requires multiset(policies) == multiset(reordered)
    requires NeverThrows(principal, policies, action, resource, environment)
    ensures Decide(principal, policies, action, resource, environment) == Decide(principal, reordered, action, resource, environment)
  {
    if Truthy(principal) {
      var test := PolicyTest(principal, action, resource, DefaultEnvironment(environment));
      forall p | p in policies ensures test(p).Ok? {
        var i :| 0 <= i < |policies| && policies[i] == p;
      }
      AnyOfReorder(policies, reordered, test);
    }
  }

  /**
   * With a throwing read the order does matter: an open policy placed first
   * allows a request on a `null` resource, while a policy with resource
   * attributes placed first makes `can` throw.
   */
  lemma OrderMattersWhenAReadThrows(principal: Value, action: Value)
    requires Truthy(principal)
    ensures Decide(principal, [OpenPolicy, OwnerPolicy], action, Null, Undefined) == Ok(true)
    ensures Decide(principal, [OwnerPolicy, OpenPolicy], action, Null, Undefined) ==
      Err(TypeError("Cannot read properties of null (reading 'ownerId')"))
  {
    assert Field(OpenPolicy, "action") == Undefined;
    assert Field(OpenPolicy, "principalAttributes") == Undefined;
    assert Field(OpenPolicy, "resourceAttributes") == Undefined;
    assert Field(OpenPolicy, "environmentAttributes") == Undefined;
    OpenPolicyGrantsEverything(OpenPolicy, principal, action, Null, EmptyEnvironment);
    OwnerPolicyThrowsOnNull(principal, action);
    DecideFirst(principal, OpenPolicy, [OwnerPolicy], action, Null, Undefined);
    DecideFirst(principal, OwnerPolicy, [OpenPolicy], action, Null, Undefined);
  }

  lemma OwnerPolicyThrowsOnNull(principal: Value, action: Value)
    ensures EvaluatePolicy(OwnerPolicy, principal, action, Null, EmptyEnvironment) ==
      Err(TypeError("Cannot read properties of null (reading 'ownerId')"))
  {
    var message := "Cannot read properties of null (reading 'ownerId')";
    assert "Cannot read properties of null (reading '" + "ownerId" + "')" == message;
    assert AttributeHolds(Null, "ownerId", Str("user1")) == Err(TypeError(message));
    SingleAttribute(32, "ownerId", Str("user1"), Null);
    assert Get(OwnerPolicy, "action") == Ok(Undefined);
    assert Field(OwnerPolicy, "principalAttributes") == Undefined;
    assert Field(OwnerPolicy, "resourceAttributes") == Obj(32, [("ownerId", Str("user1"))]);
  }

  /** `{}` as a policy. */
  const OpenPolicy := Obj(30, [])

  /** `{ resourceAttributes: { ownerId: 'user1' } }` */
  const OwnerPolicy := Obj(31, [("resourceAttributes", Obj(32, [("ownerId", Str("user1"))]))])

  // ---------------------------------------------------------------------------
  // Properties of a single policy

  /**
   * A policy whose action and three attribute maps are absent or falsy, such
   * as `{}` or `{ name: 'open' }`, grants every request.
   */
  lemma OpenPolicyGrantsEverything(policy: Value, principal: Value, action: Value, resource: Value, environment: Value)
    requires !IsNullish(policy) && !Truthy(Field(policy, "action"))
    requires !Truthy(Field(policy, "principalAttributes")) && !Truthy(Field(policy, "resourceAttributes"))
    requires !Truthy(Field(policy, "environmentAttributes"))
    ensures EvaluatePolicy(policy, principal, action, resource, environment) == Ok(true)
  {
    EvaluatePolicyPastAction(policy, principal, action, resource, environment);
  }

  /** `{ name: 'open' }` is open: a property other than the four a policy reads changes nothing. */
  lemma NamedOpenPolicyGrantsEverything(ref: nat, principal: Value, action: Value, resource: Value, environment: Value)
    ensures EvaluatePolicy(Obj(ref, [("name", Str("open"))]), principal, action, resource, environment) == Ok(true)
  {
    var policy := Obj(ref, [("name", Str("open"))]);
    assert Field(policy, "action") == Undefined;
    assert Field(policy, "principalAttributes") == Undefined;
    assert Field(policy, "resourceAttributes") == Undefined;
    assert Field(policy, "environmentAttributes") == Undefined;
    OpenPolicyGrantsEverything(policy, principal, action, resource, environment);
  }

  /** A policy without a truthy action gives the same answer for every action. */
  lemma UnscopedPolicyIgnoresAction(policy: Value, principal: Value, action: Value, other: Value, resource: Value, environment: Value)
    requires !IsNullish(policy) && !Truthy(Field(policy, "action"))
    ensures EvaluatePolicy(policy, principal, action, resource, environment) == EvaluatePolicy(policy, principal, other, resource, environment)
  {
  }

  /**
   * Under the default environment `{}`, every environment attribute reads as
   * `undefined`, so a policy that lists one with a defined value never grants.
   */
  lemma DefaultEnvironmentFailsEnvironmentAttributes(policy: Value, principal: Value, action: Value, resource: Value, i: nat)
    requires !IsNullish(policy)
    requires i < |Entries(Field(policy, "environmentAttributes"))|
    requires !Entries(Field(policy, "environmentAttributes"))[i].1.Undefined?
    ensures EvaluatePolicy(policy, principal, action, resource, DefaultEnvironment(Undefined)) != Ok(true)
  {
    var entry := Entries(Field(policy, "environmentAttributes"))[i];
    assert Get(EmptyEnvironment, entry.0) == Ok(Undefined);
  }

  /**
   * The security context. `ctx` is the application context it was created
   * with; the source stores it and never reads it.
   */
  class SecurityContext {
    const ctx: Value
    var principal: Value
    var policies: seq<Value>

    /** `new SecurityContext(ctx)`: no principal and no policies. */
    constructor(ctx: Value)
      ensures this.ctx == ctx && principal == Null && policies == []
    {
      this.ctx := ctx;
      principal := Null;
      policies := [];
    }

    /** `setPrincipal(principal)`: replaces the principal; the policies stay. */
    method SetPrincipal(principal: Value)
      modifies this
      ensures this.principal == principal && policies == old(policies)
    {
      this.principal := principal;
    }

    /** `addPolicy(policy)`: appends; the principal stays, and every allowed request stays allowed. */
    method AddPolicy(policy: Value)
      modifies this
      ensures policies == old(policies) + [policy] && principal == old(principal)
      ensures forall action, resource, environment ::
        Decide(old(principal), old(policies), action, resource, environment) == Ok(true) ==>
          Decide(principal, policies, action, resource, environment) == Ok(true)
    {
      policies := policies + [policy];
      forall action, resource, environment
        ensures Decide(old(principal), old(policies), action, resource, environment) == Ok(true) ==>
          Decide(principal, policies, action, resource, environment) == Ok(true)
      {
        AddPolicyExtendsDecision(principal, old(policies), policy, action, resource, environment);
      }
    }

    /** `can(action, resource, environment)`, with `undefined` for an omitted environment. */
    function Can(action: Value, resource: Value, environment: Value): (r: Result<bool, Thrown>)
      reads this
      ensures !Truthy(principal) ==> r == Ok(false)
      ensures r == Ok(true) ==> exists i :: 0 <= i < |policies| && Grants(policies[i], principal, action, resource, DefaultEnvironment(environment))
    {
      Decide(principal, policies, action, resource, environment)
    }
  }

  // ---------------------------------------------------------------------------
  // The scenarios of packages/security/src/index.test.js

  /** `{ type: 'document' }` */
  const Document := Obj(20, [("type", Str("document"))])

  /**
   * One step of `can`'s loop: the first policy decides unless it returns
   * `false`, in which case the rest of the list does.
   */
  lemma DecideFirst(principal: Value, policy: Value, rest: seq<Value>, action: Value, resource: Value, environment: Value)
    requires Truthy(principal)
    ensures Decide(principal, [policy] + rest, action, resource, environment) ==
      var first := EvaluatePolicy(policy, principal, action, resource, DefaultEnvironment(environment));
      if first == Ok(false) then Decide(principal, rest, action, resource, environment) else first
  {
    var policies := [policy] + rest;
    assert policies[0] == policy && policies[1..] == rest;
  }

  /** An attribute map with one entry is one comparison. */
  lemma SingleAttribute(ref: nat, key: string, expected: Value, target: Value)
    ensures AttributesHold(Obj(ref, [(key, expected)]), target) == AttributeHolds(target, key, expected)
  {
    var entries := [(key, expected)];
    assert entries[1..] == [];
  }

  /**
   * A policy `{ action: name, principalAttributes: { role } }` allows exactly
   * the action `name` to a principal with that role, whatever the resource.
   */
  lemma RolePolicyDecides(policy: Value, name: string, ref: nat, role: string, principal: Value, action: Value, resource: Value)
    requires name != []
    requires Get(policy, "action") == Ok(Str(name))
    requires Get(policy, "principalAttributes") == Ok(Obj(ref, [("role", Str(role))]))
    requires Get(policy, "resourceAttributes") == Ok(Undefined)
    requires Get(policy, "environmentAttributes") == Ok(Undefined)
    requires Get(principal, "role") == Ok(Str(role))
    ensures EvaluatePolicy(policy, principal, action, resource, EmptyEnvironment) == Ok(action == Str(name))
  {
    SingleAttribute(ref, "role", Str(role), principal);
  }

  /**
   * A policy `{ action: 'read', principalAttributes: { role: 'user' },
   * resourceAttributes: { ownerId: 'user1' } }` lets a user read exactly the
   * resources owned by `user1`.
   */
  lemma OwnerPolicyDecides(policy: Value, refs: (nat, nat), principal: Value, resource: Value, owner: string)
    requires Get(policy, "action") == Ok(Str("read"))
    requires Get(policy, "principalAttributes") == Ok(Obj(refs.0, [("role", Str("user"))]))
    requires Get(policy, "resourceAttributes") == Ok(Obj(refs.1, [("ownerId", Str("user1"))]))
    requires Get(policy, "environmentAttributes") == Ok(Undefined)
    requires Get(principal, "role") == Ok(Str("user"))
    requires Get(resource, "ownerId") == Ok(Str(owner))
    ensures EvaluatePolicy(policy, principal, Str("read"), resource, EmptyEnvironment) == Ok(owner == "user1")
  {
    SingleAttribute(refs.0, "role", Str("user"), principal);
    SingleAttribute(refs.1, "ownerId", Str("user1"), resource);
  }

  /**
   * A policy `{ action: 'read', principalAttributes: { role: 'user' },
   * environmentAttributes: { timeOfDay: 'business' } }` lets a user read
   * exactly during business hours.
   */
  lemma BusinessHoursPolicyDecides(policy: Value, refs: (nat, nat), principal: Value, resource: Value, environment: Value, time: string)
    requires Get(policy, "action") == Ok(Str("read"))
    requires Get(policy, "principalAttributes") == Ok(Obj(refs.0, [("role", Str("user"))]))
    requires Get(policy, "resourceAttributes") == Ok(Undefined)
    requires Get(policy, "environmentAttributes") == Ok(Obj(refs.1, [("timeOfDay", Str("business"))]))
    requires Get(principal, "role") == Ok(Str("user"))
    requires Get(environment, "timeOfDay") == Ok(Str(time))
    ensures EvaluatePolicy(policy, principal, Str("read"), resource, environment) == Ok(time == "business")
  {
    SingleAttribute(refs.0, "role", Str("user"), principal);
    SingleAttribute(refs.1, "timeOfDay", Str("business"), environment);
  }

  /**
   * A policy `{ action: 'read', resourceAttributes: { visibility: 'public' } }`
   * lets anyone read exactly the public resources.
   */
  lemma VisibilityPolicyDecides(policy: Value, ref: nat, principal: Value, action: Value, resource: Value, visibility: Value)
    requires Get(policy, "action") == Ok(Str("read"))
    requires Get(policy, "principalAttributes") == Ok(Undefined)
    requires Get(policy, "resourceAttributes") == Ok(Obj(ref, [("visibility", Str("public"))]))
    requires Get(policy, "environmentAttributes") == Ok(Undefined)
    requires Get(resource, "visibility") == Ok(visibility)
    ensures EvaluatePolicy(policy, principal, action, resource, EmptyEnvironment) == Ok(action == Str("read") && visibility == Str("public"))
  {
    SingleAttribute(ref, "visibility", Str("public"), resource);
  }

  /** Without a principal nothing is allowed. */
  method NoPrincipalScenario()
  {
    var security := new SecurityContext(Obj(40, []));
    var r := security.Can(Str("read"), Obj(21, [("id", Num(1))]), Undefined);
    assert r == Ok(false);
  }

  const Admin := Obj(1, [("id", Str("user1")), ("role", Str("admin")), ("department", Str("engineering"))])
  const AdminReadPolicy := Obj(2, [("action", Str("read")), ("principalAttributes", Obj(3, [("role", Str("admin"))]))])

  /** An admin may read through a role policy, but not write. */
  method RolePolicyScenario()
  {
    var security := new SecurityContext(Obj(40, []));
    security.SetPrincipal(Admin);
    security.AddPolicy(AdminReadPolicy);
    assert security.policies == [AdminReadPolicy] + [];
    assert Get(Admin, "role") == Ok(Str("admin"));
    RolePolicyDecides(AdminReadPolicy, "read", 3, "admin", Admin, Str("read"), Document);
    RolePolicyDecides(AdminReadPolicy, "read", 3, "admin", Admin, Str("write"), Document);
    DecideFirst(Admin, AdminReadPolicy, [], Str("read"), Document, Undefined);
    DecideFirst(Admin, AdminReadPolicy, [], Str("write"), Document, Undefined);
    assert security.Can(Str("read"), Document, Undefined) == Ok(true);
    assert security.Can(Str("write"), Document, Undefined) == Ok(false);
  }

  const User := Obj(5, [("id", Str("user1")), ("role", Str("user"))])
  const OwnDocumentsPolicy := Obj(6, [
    ("action", Str("read")),
    ("principalAttributes", Obj(7, [("role", Str("user"))])),
    ("resourceAttributes", Obj(8, [("ownerId", Str("user1"))]))])

  function OwnedDocument(ref: nat, owner: string): Value {
    Obj(ref, [("type", Str("document")), ("ownerId", Str(owner))])
  }

  /** A resource attribute policy lets a user read their own document and no other. */
  method ResourceAttributesScenario()
  {
    var security := new SecurityContext(Obj(40, []));
    security.SetPrincipal(User);
    security.AddPolicy(OwnDocumentsPolicy);
    assert security.policies == [OwnDocumentsPolicy] + [];
    assert Get(User, "role") == Ok(Str("user"));
    OwnerPolicyDecides(OwnDocumentsPolicy, (7, 8), User, OwnedDocument(22, "user1"), "user1");
    OwnerPolicyDecides(OwnDocumentsPolicy, (7, 8), User, OwnedDocument(26, "user2"), "user2");
    DecideFirst(User, OwnDocumentsPolicy, [], Str("read"), OwnedDocument(22, "user1"), Undefined);
    DecideFirst(User, OwnDocumentsPolicy, [], Str("read"), OwnedDocument(26, "user2"), Undefined);
    assert security.Can(Str("read"), OwnedDocument(22, "user1"), Undefined) == Ok(true);
    assert security.Can(Str("read"), OwnedDocument(26, "user2"), Undefined) == Ok(false);
  }

  const BusinessHoursPolicy := Obj(9, [
    ("action", Str("read")),
    ("principalAttributes", Obj(10, [("role", Str("user"))])),
    ("environmentAttributes", Obj(11, [("timeOfDay", Str("business"))]))])

  function TimeOfDay(ref: nat, time: string): Value {
    Obj(ref, [("timeOfDay", Str(time))])
  }

  /** An environment attribute policy allows reads during business hours only. */
  method EnvironmentAttributesScenario()
  {
    var security := new SecurityContext(Obj(40, []));
    security.SetPrincipal(User);
    security.AddPolicy(BusinessHoursPolicy);
    assert security.policies == [BusinessHoursPolicy] + [];
    assert Get(User, "role") == Ok(Str("user"));
    BusinessHoursPolicyDecides(BusinessHoursPolicy, (10, 11), User, Document, TimeOfDay(23, "business"), "business");
    BusinessHoursPolicyDecides(BusinessHoursPolicy, (10, 11), User, Document, TimeOfDay(27, "after-hours"), "after-hours");
    DecideFirst(User, BusinessHoursPolicy, [], Str("read"), Document, TimeOfDay(23, "business"));
    DecideFirst(User, BusinessHoursPolicy, [], Str("read"), Document, TimeOfDay(27, "after-hours"));
    assert security.Can(Str("read"), Document, TimeOfDay(23, "business")) == Ok(true);
    assert security.Can(Str("read"), Document, TimeOfDay(27, "after-hours")) == Ok(false);
  }

  const Manager := Obj(12, [("id", Str("user1")), ("role", Str("manager"))])
  const ApprovePolicy := Obj(13, [("action", Str("approve")), ("principalAttributes", Obj(14, [("role", Str("manager"))]))])
  const PublicReadPolicy := Obj(15, [("action", Str("read")), ("resourceAttributes", Obj(16, [("visibility", Str("public"))]))])
  const Expense := Obj(24, [("type", Str("expense"))])
  const PublicDocument := Obj(25, [("type", Str("document")), ("visibility", Str("public"))])

  /** A manager may approve through the first of two policies. */
  method ApproveScenario()
  {
    var security := new SecurityContext(Obj(40, []));
    security.SetPrincipal(Manager);
    security.AddPolicy(ApprovePolicy);
    security.AddPolicy(PublicReadPolicy);
    assert security.policies == [ApprovePolicy] + [PublicReadPolicy];
    assert Get(Manager, "role") == Ok(Str("manager"));
    RolePolicyDecides(ApprovePolicy, "approve", 14, "manager", Manager, Str("approve"), Expense);
    DecideFirst(Manager, ApprovePolicy, [PublicReadPolicy], Str("approve"), Expense, Undefined);
    assert security.Can(Str("approve"), Expense, Undefined) == Ok(true);
  }

  /**
   * `can('approve', null)` under the approve policy alone answers without
   * throwing, since that policy reads nothing of the resource: a request can
   * be free of throws without being `Readable`.
   */
  lemma ApproveNeedsNoResource()
    ensures !Readable([ApprovePolicy], Null, Undefined)
    ensures NeverThrows(Manager, [ApprovePolicy], Str("approve"), Null, Undefined)
    ensures Decide(Manager, [ApprovePolicy], Str("approve"), Null, Undefined) == Ok(true)
  {
    ApprovePolicyOnNull();
    assert DefaultEnvironment(Undefined) == EmptyEnvironment;
    DecideFirst(Manager, ApprovePolicy, [], Str("approve"), Null, Undefined);
    assert [ApprovePolicy] + [] == [ApprovePolicy];
  }

  /** The approve policy reads nothing of the resource, so a `null` one does not throw. */
  lemma ApprovePolicyOnNull()
    ensures EvaluatePolicy(ApprovePolicy, Manager, Str("approve"), Null, EmptyEnvironment) == Ok(true)
  {
    assert Get(Manager, "role") == Ok(Str("manager"));
    RolePolicyDecides(ApprovePolicy, "approve", 14, "manager", Manager, Str("approve"), Null);
  }

  /** A public document is readable through the second policy. */
  method PublicReadScenario()
  {
    var security := new SecurityContext(Obj(40, []));
    security.SetPrincipal(Manager);
    security.AddPolicy(ApprovePolicy);
    security.AddPolicy(PublicReadPolicy);
    assert security.policies == [ApprovePolicy] + [PublicReadPolicy];
    assert [PublicReadPolicy] == [PublicReadPolicy] + [];
    assert Get(Manager, "role") == Ok(Str("manager"));
    RolePolicyDecides(ApprovePolicy, "approve", 14, "manager", Manager, Str("read"), PublicDocument);
    VisibilityPolicyDecides(PublicReadPolicy, 16, Manager, Str("read"), PublicDocument, Str("public"));
    DecideFirst(Manager, PublicReadPolicy, [], Str("read"), PublicDocument, Undefined);
    assert Decide(Manager, [PublicReadPolicy], Str("read"), PublicDocument, Undefined) == Ok(true);
    DecideFirst(Manager, ApprovePolicy, [PublicReadPolicy], Str("read"), PublicDocument, Undefined);
    assert Decide(Manager, security.policies, Str("read"), PublicDocument, Undefined) == Ok(true);
    assert security.Can(Str("read"), PublicDocument, Undefined) == Ok(true);
  }

  /** An action no policy names is refused. */
  method RefusedActionScenario()
  {
    var security := new SecurityContext(Obj(40, []));
    security.SetPrincipal(Manager);
    security.AddPolicy(ApprovePolicy);
    security.AddPolicy(PublicReadPolicy);
    assert security.policies == [ApprovePolicy] + [PublicReadPolicy];
    assert [PublicReadPolicy] == [PublicReadPolicy] + [];
    assert Get(Manager, "role") == Ok(Str("manager"));
    RolePolicyDecides(ApprovePolicy, "approve", 14, "manager", Manager, Str("delete"), Document);
    VisibilityPolicyDecides(PublicReadPolicy, 16, Manager, Str("delete"), Document, Undefined);
    DecideFirst(Manager, PublicReadPolicy, [], Str("delete"), Document, Undefined);
    assert Decide(Manager, [PublicReadPolicy], Str("delete"), Document, Undefined) == Ok(false);
    DecideFirst(Manager, ApprovePolicy, [PublicReadPolicy], Str("delete"), Document, Undefined);
    assert Decide(Manager, security.policies, Str("delete"), Document, Undefined) == Ok(false);
    assert security.Can(Str("delete"), Document, Undefined) == Ok(false);
  }
}

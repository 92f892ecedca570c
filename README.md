# Valt core: schema registry, query filter and ABAC evaluator

This project models three small components of the Valt repository in Dafny and proves properties of them:

- **Schema registry** (`packages/schema`). A process-wide store from schema name to schema object.
  - `registerSchema` and `getSchema` throw on a malformed name.
  - `hasSchema` answers `false` for a malformed name instead of throwing.
  - Registration is last-write-wins.
  - `getAllSchemas` takes a snapshot and `clearAllSchemas` forgets everything.
  - The store is the class `SchemaRegistry.Registry`, whose `map` field its methods update. Each method is proved against the pure functions `Register`, `Lookup` and `Has`.
- **Query filter** (`packages/query`). A record filter used by `query({from, where})`.
  - A condition object maps keys to literals, compared with `===`, or to operator objects (`$eq $ne $gt $gte $lt $lte $in $nin`).
  - Keys and operators combine conjunctively.
  - An unknown operator throws when evaluation reaches it.
  - Everything here is pure, so the filter is modelled as functions.
- **ABAC evaluator** (`packages/security`). A `SecurityContext` holds a principal and an append-only list of policies.
  - A policy grants a request when its optional action is the requested one and its principal, resource and environment attributes all match.
  - `can` allows a request when some policy, checked in order, grants it.
  - The context is the class `Security.SecurityContext`; `SetPrincipal` and `AddPolicy` update its fields.
  - `can` (`Can`, `Decide`) and `evaluatePolicy` (`EvaluatePolicy`) are pure functions.

All three sit on a shared model of the JavaScript values they observe (module `JsValue`). It covers:

- `undefined`, `null`, booleans, integers, strings, arrays and plain objects, with arrays and objects carrying a reference so that `===` is identity;
- truthiness;
- property reads, where `null[k]` and `undefined[k]` throw a `TypeError`;
- `Object.entries`;
- `String.prototype.trim`;
- the abstract relational comparison behind `<`, `<=`, `>` and `>=`.

Module `Iterate` holds the loop shapes the components share, each with a callback that may throw:

- the early-`false` loop (`AllOf`);
- the early-`true` loop (`AnyOf`);
- `Array.prototype.filter` (`Filter`).

A thrown exception is a `Result` error carrying the exception's class and message.

`packages/schema/src/index.js` holds only the registry. There is no schema validator in the code, so none is modelled.

## Model

| member | source | states |
|---|---|---|
| JsValue.Truthy | packages/query/src/index.js:16 | the values `!v` treats as false: `undefined`, `null`, `false`, `0` and `""` |
| JsValue.StrictEquals | packages/query/src/index.js:95 | `===`: identity for arrays and objects, value equality for primitives |
| JsValue.Entries | packages/query/src/index.js:75 | `Object.entries`: an object's own properties in order, an array's or string's indices with their elements |
| JsValue.Compare | packages/query/src/index.js:100-111 | the abstract relational comparison: two strings compare lexicographically, anything else numerically after conversion, unordered when a side is not a number |
| JsValue.Get | packages/query/src/index.js:76 | `v[key]` throws exactly when `v` is `null` or `undefined`; on an object it is the own property, or `undefined` when there is none |
| JsValue.EntriesAgreeWithGet | packages/query/src/index.js:75 | every `[key, value]` pair that `Object.entries(v)` lists is what reading `v[key]` gives |
| JsValue.ParseDecimalString | packages/query/src/index.js:75 | the index keys `Object.entries` gives an array read back as the index they name |
| JsValue.ParseIndexIsCanonical | packages/query/src/index.js:75 | only the canonical decimal spelling of an index reads as that index (`"01"` is not index 1) |
| JsValue.Trim | packages/schema/src/index.js:4 | `s.trim()` is empty exactly when every character of `s` is whitespace, and otherwise starts and ends with a non-whitespace character |
| JsValue.CompareStrings | packages/query/src/index.js:100-111 | the string order never reports unordered, and it reports equal exactly for equal strings |
| JsValue.CompareFlip | packages/query/src/index.js:100-111 | swapping the operands swaps less and greater, so `a < b` is `b > a` and `a <= b` is `b >= a` |
| JsValue.CompareNumbers | packages/query/src/index.js:100-111 | on numbers, `<`, `<=`, `>` and `>=` are the integer order |
| JsValue.UndefinedIsUnordered | packages/query/src/index.js:100-111 | `undefined` compares as NaN, so every relational operator is false on it, on either side |
| Iterate.AllOf | packages/query/src/index.js:74-81 | the early-`false` loop returns `true` exactly when every element passes; otherwise it returns the outcome of the first element that does not pass, and every earlier element passed |
| Iterate.AnyOf | packages/security/src/index.js:33-39 | the early-`true` loop returns `false` exactly when every element fails; otherwise it returns the outcome of the first element that does not fail |
| Iterate.Filter | packages/query/src/index.js:61 | `filter` succeeds exactly when no callback throws, and otherwise throws the first exception; every kept element is an input element that passed |
| Iterate.FilterSelects | packages/query/src/index.js:61 | a successful `filter` returns the order-preserving subsequence of exactly the elements that pass |
| Iterate.FilterAllPass | packages/query/src/index.js:61 | when every element passes, `filter` returns the input |
| Iterate.AnyOfWithoutThrows | packages/security/src/index.js:33-39 | when no callback throws, the early-`true` loop answers whether some element passes |
| Iterate.AnyOfConcat | packages/security/src/index.js:33-39 | the early-`true` loop over `xs + ys` is the loop over `xs`, continued over `ys` only when `xs` gave `false` |
| Iterate.AnyOfAppendOne | packages/security/src/index.js:33-39 | appending one element only matters when the earlier elements all gave `false`, and then the answer is that element's outcome |
| Iterate.AllFailTransfers | packages/security/src/index.js:33-39 | if every element of `xs` fails, so does every element of a list drawn from `xs` |
| Iterate.AnyOfReorder | packages/security/src/index.js:33-39 | when no callback throws, reordering the elements does not change the early-`true` loop's answer |
| Iterate.AllOfAppend | packages/query/src/index.js:74-81 | the early-`false` loop over `xs + ys` returns `true` exactly when it does over both halves |
| SchemaRegistry.IsValidName | packages/schema/src/index.js:4 | the name test of all three name-taking functions: a string whose trim is non-empty |
| SchemaRegistry.IsValidSchema | packages/schema/src/index.js:8 | the schema test of `registerSchema`: a truthy value whose `typeof` is `object` |
| SchemaRegistry.Lookup | packages/schema/src/index.js:16-22 | `getSchema` throws "Schema name must be a non-empty string" exactly on a malformed name; otherwise it returns the stored schema, or undefined when the name is not registered |
| SchemaRegistry.Has | packages/schema/src/index.js:28-34 | `hasSchema` is true exactly when `getSchema` returns a stored schema; it is false, and never throws, for a malformed name |
| SchemaRegistry.Register | packages/schema/src/index.js:3-14 | `registerSchema` succeeds exactly for a valid name and an object schema; the name check comes first, with its own message; after success `getSchema(name)` returns the schema |
| SchemaRegistry.ValidNameHasNonWhitespace | packages/schema/src/index.js:4 | a name is valid exactly when it is a string holding a non-whitespace character |
| SchemaRegistry.RegisterPreservesWellFormed | packages/schema/src/index.js:12 | the store only ever holds valid names mapped to objects |
| SchemaRegistry.RegisterKeepsOtherNames | packages/schema/src/index.js:12 | registering a name leaves what `getSchema` and `hasSchema` say of every other name unchanged |
| SchemaRegistry.RegisterAddsOneName | packages/schema/src/index.js:12 | the registered names afterwards are the earlier ones plus the new name |
| SchemaRegistry.RegisterTwice | packages/schema/src/index.js:12 | registering a name twice leaves the store the second registration alone would leave (last write wins) |
| SchemaRegistry.PaddedNameIsItsOwnKey | packages/schema/src/index.js:12 | the stored key is the untrimmed name: registering `" user "` does not register `"user"` |
| SchemaRegistry.SnapshotIsStore | packages/schema/src/index.js:24-26 | a snapshot that answers `hasSchema` and `getSchema` as a well-formed store does is that very store, so `getAllSchemas` loses and invents no entry |
| SchemaRegistry.Registry.constructor | packages/schema/src/index.js:1 | a new registry is empty |
| SchemaRegistry.Registry.RegisterSchema | packages/schema/src/index.js:3-14 | returns `true` and stores the schema under the name, or throws and leaves the store unchanged; the store stays well formed |
| SchemaRegistry.Registry.GetSchema | packages/schema/src/index.js:16-22 | returns what `Lookup` says of the current store |
| SchemaRegistry.Registry.HasSchema | packages/schema/src/index.js:28-34 | returns what `Has` says of the current store |
| SchemaRegistry.Registry.GetAllSchemas | packages/schema/src/index.js:24-26 | the snapshot holds exactly the names `hasSchema` accepts, each with the schema `getSchema` returns |
| SchemaRegistry.Registry.ClearAllSchemas | packages/schema/src/index.js:36-38 | afterwards the store is empty and `hasSchema` is false for every name |
| Query.ParseOperator | packages/query/src/index.js:93-119 | the `case` label an operator name selects, with `None` for the `default` branch |
| Query.Includes | packages/query/src/index.js:113 | `Array.isArray(operand) && operand.includes(v)`, with `includes` comparing by `===` |
| Query.OperatorHolds | packages/query/src/index.js:94-117 | the test of each of the eight `case`s: false exactly where the source returns `false` |
| Query.ApplyOperator | packages/query/src/index.js:93-120 | one operator throws "Unsupported operator: <op>" exactly when its name is none of the eight known ones |
| Query.OperatorNames | packages/query/src/index.js:93-117 | the eight names `$eq` to `$nin` select the eight operators |
| Query.EvaluateCondition | packages/query/src/index.js:89-127 | a condition value that is not a plain object is compared with `===`; a plain object holds exactly when every operator holds; otherwise the result is the outcome (`false` or the exception) of the first operator that does not pass, every earlier one passing, and an exception is "Unsupported operator" for the first unknown name reached |
| Query.KeyHolds | packages/query/src/index.js:76 | one key of a condition: `evaluateCondition(item[key], value)`, where reading `item[key]` may throw |
| Query.MatchesCondition | packages/query/src/index.js:74-81 | an item matches exactly when every key's condition holds of `item[key]`, so an empty condition matches every item; otherwise the result is the outcome (`false` or the exception, such as the read of a key of `null`) of the first key that does not pass, every earlier key passing |
| Query.FilterData | packages/query/src/index.js:49-66 | gives `[]` for a non-array `data` or a `where` that is neither a function nor an object; otherwise returns at most `data`'s items, each one accepted; an exception is some item's match exception |
| Query.Query | packages/query/src/index.js:12-40 | throws when `from` is falsy, or is neither a string nor an array; with a falsy `where` the source is returned unchanged, otherwise an array source, given or resolved, is filtered by `filterData`; a string `from` is resolved by the storage service, and a source that is not an array then filters to `[]` |
| Query.FilterKeepsMatchingInOrder | packages/query/src/index.js:59-62 | with an object condition, the result is exactly the order-preserving subsequence of the matching items |
| Query.FilterThrowsAtFirstFailingItem | packages/query/src/index.js:61 | the filter throws exactly when some item's match throws, and then it throws the first such item's exception |
| Query.EmptyConditionKeepsAll | packages/query/src/index.js:74-81 | an empty condition object keeps every item |
| Query.ConditionIsConjunction | packages/query/src/index.js:74-81 | a condition's keys combine conjunctively: it matches exactly when both halves match |
| Query.OperatorsAreConjunction | packages/query/src/index.js:92-122 | an operator object's operators combine conjunctively |
| Query.OperatorsOnNumbers | packages/query/src/index.js:94-111 | on numbers, `$eq` and `$ne` are equality and inequality, and `$gt`, `$gte`, `$lt`, `$lte` are the integer order |
| Query.RangeOperatorsFailOnOpposite | packages/query/src/index.js:100-111 | each range operator fails exactly when the opposite comparison holds, so values that do not compare pass all four |
| Query.NegatedOperators | packages/query/src/index.js:94-117 | `$ne` negates `$eq`; `$in` and `$nin` are complements on an array operand, and on any other operand `$in` fails and `$nin` passes |
| Query.InFindsListedValue | packages/query/src/index.js:112-114 | `$in` passes for any item value that the operand array lists; an array or object is found by its reference |
| Query.UnknownOperatorIsReachedInOrder | packages/query/src/index.js:92-121 | an unknown operator throws when reached, but an earlier failing `$eq` returns `false` first |
| Query.ArrayLiteralMatchesByIdentity | packages/query/src/index.js:125-126 | an array condition value matches only that very array |
| Query.NullItemThrows | packages/query/src/index.js:75-76 | reading a key of a `null` item throws a `TypeError`, and an empty condition never reads one |
| Security.ActionApplies | packages/security/src/index.js:60 | a falsy policy action applies to every action, a truthy one only to an action `===` to it |
| Security.AttributesMatch | packages/security/src/index.js:65-89 | the meaning of an attribute map: falsy imposes nothing, otherwise every listed key is readable on the target and `===` to its value |
| Security.Grants | packages/security/src/index.js:58-92 | the meaning of a policy: it is readable, its action applies and all three attribute maps match |
| Security.AttributeHolds | packages/security/src/index.js:67 | one attribute comparison `target[key] === value`, where the read throws on a nullish target |
| Security.DefaultEnvironment | packages/security/src/index.js:27 | an omitted environment becomes `{}`, and any other environment is kept |
| Security.AttributesHold | packages/security/src/index.js:65-89 | an attribute loop passes exactly when every listed attribute is readable and strictly equal; it throws exactly when the map is truthy and non-empty and the target is `null` or `undefined`; otherwise a failure is the outcome of the first entry that does not pass |
| Security.AndThen | packages/security/src/index.js:64-91 | two checks in turn pass exactly when both pass; an exception from the first ends the evaluation with it, and after a passing first check an exception from the second is the result |
| Security.EvaluatePolicy | packages/security/src/index.js:58-92 | a `null` or `undefined` policy throws; a policy whose action does not apply returns `false`; past the action check it throws exactly when the principal loop throws, or the principal loop passes and the resource loop throws, or both pass and the environment loop throws; any exception comes from reading a key of a nullish value |
| Security.EvaluatePolicyPastAction | packages/security/src/index.js:64-91 | past the action check, the evaluation is the principal, resource and environment loops in turn |
| Security.EvaluatePolicyStages | packages/security/src/index.js:58-92 | `evaluatePolicy` returns `true` exactly when the action applies and all three attribute loops pass |
| Security.GrantsByStages | packages/security/src/index.js:58-92 | a policy grants a request exactly when its action applies and its three attribute loops pass |
| Security.EvaluatePolicyMeansGrants | packages/security/src/index.js:58-92 | `evaluatePolicy` returns `true` exactly when the policy grants the request |
| Security.Decide | packages/security/src/index.js:27-40 | without a principal `can` is `false`; a `true` comes from some granting policy; an exception is the one thrown by a policy that every earlier policy answered with `false` |
| Security.ReadableNeverThrows | packages/security/src/index.js:58-92 | with a principal, readable policies, a readable resource and a readable environment, no policy evaluation throws |
| Security.DecideIsSomeGrant | packages/security/src/index.js:27-40 | when no policy evaluation throws on the request (`NeverThrows`; `ReadableNeverThrows` gives a sufficient condition), `can` is true exactly when a principal is set and some policy grants the request |
| Security.SomeGrantIsSomeTrue | packages/security/src/index.js:33-39 | some policy grants the request exactly when some policy's evaluation returns `true` |
| Security.PolicyTestIsEvaluation | packages/security/src/index.js:34 | the loop body of `can` is `evaluatePolicy` with the request's values |
| Security.AddPolicyExtendsDecision | packages/security/src/index.js:46-48 | after `addPolicy` an allowed request stays allowed, and a denied one gets the new policy's answer |
| Security.PolicyOrderIsIrrelevant | packages/security/src/index.js:33-39 | when no policy evaluation throws on the request, the order of the policies does not change `can`'s answer |
| Security.ApproveNeedsNoResource | packages/security/src/index.js:27-40 | `can('approve', null)` under the approve policy alone is `true` and throws nothing although the resource is `null`, so `NeverThrows` is wider than `Readable` |
| Security.OrderMattersWhenAReadThrows | packages/security/src/index.js:33-39 | with a `null` resource, `[open, owner]` allows a request, while `[owner, open]` throws |
| Security.OwnerPolicyThrowsOnNull | packages/security/src/index.js:74-80 | the owner policy `{ resourceAttributes: { ownerId: 'user1' } }` throws a `TypeError` naming the attribute on a `null` resource |
| Security.OpenPolicyGrantsEverything | packages/security/src/index.js:91 | a policy whose action and three attribute maps are absent or falsy returns `true` for every request |
| Security.NamedOpenPolicyGrantsEverything | packages/security/src/index.js:91 | `{ name: 'open' }` is such a policy: a property the evaluation does not read changes nothing |
| Security.UnscopedPolicyIgnoresAction | packages/security/src/index.js:60-62 | a policy without a truthy action gives the same answer for every action |
| Security.DefaultEnvironmentFailsEnvironmentAttributes | packages/security/src/index.js:83-89 | with no environment passed, a policy listing an environment attribute with a defined value never grants |
| Security.SecurityContext.constructor | packages/security/src/index.js:6-10 | a new context keeps `ctx` and has no principal and no policies |
| Security.SecurityContext.SetPrincipal | packages/security/src/index.js:16-18 | replaces the principal and leaves the policies unchanged |
| Security.SecurityContext.AddPolicy | packages/security/src/index.js:46-48 | appends the policy and keeps the principal, and every request allowed before stays allowed |
| Security.SecurityContext.Can | packages/security/src/index.js:27-40 | without a principal the answer is `false`, and a `true` answer comes from some policy that grants the request |
| Security.DecideFirst | packages/security/src/index.js:33-39 | the first policy decides unless it returns `false`, in which case the rest of the list does |
| Security.SingleAttribute | packages/security/src/index.js:65-71 | an attribute map with one entry is one strict comparison |
| Security.RolePolicyDecides | packages/security/src/index.test.js:12-34 | a role policy with action `name` allows exactly the action `name` to a principal with that role |
| Security.OwnerPolicyDecides | packages/security/src/index.test.js:36-58 | an owner policy lets a user read exactly the documents owned by `user1` |
| Security.BusinessHoursPolicyDecides | packages/security/src/index.test.js:60-82 | an environment policy allows reads exactly during business hours |
| Security.VisibilityPolicyDecides | packages/security/src/index.test.js:84-112 | a visibility policy allows exactly reads of public resources |

The scenario methods in `schema_registry.dfy` and `security.dfy` restate the cases of `packages/schema/src/index.test.js` and `packages/security/src/index.test.js` as assertions about the classes.

## Left out

- `encrypt` and `decrypt` in `packages/security/src/index.js` are not modelled. They are base64 stubs over `Buffer`, `JSON.stringify` and `JSON.parse`, which are library calls.
- `createSecurityContext` and `createQueryEngine` are not modelled. They only construct a context or close over `ctx`.
- The storage service behind a string `from` (`ctx.get('storage').getData`) is unseen. It becomes the pure parameter `getData` of `Query.Query`.
- `packages/sync` and `packages/query/test-runner.js` are not modelled. They hold networking stubs and process tooling.
- Query.Query: an `options` argument that is `undefined` or `null` makes the destructuring at packages/query/src/index.js:13 throw. The model takes `from` and `where` directly and does not capture that throw.
- Query.FilterData: a function-valued `where` is a pure predicate on the item. It does not see the index or the array, cannot throw, and has no side effects. Its result counts as a boolean rather than as a truthy value.
- Numbers are integers. Doubles, fractions, NaN, `-0` and infinities are not modelled, so `includes` (SameValueZero) and `===` coincide.
- JsValue.StringToNumber reads only optionally signed decimal integers. Hexadecimal, fractional, exponent and `Infinity` spellings are not modelled.
- Strings are sequences of code points, where JavaScript uses UTF-16 code units. The two differ only for characters outside the Basic Multilingual Plane. This affects JsValue.CompareStrings (order), JsValue.Get on a string (`length` and index reads: `"😀".length` is 1 here and 2 in JavaScript) and JsValue.Entries on a string (one entry per code point). A condition such as `{length: 2}` can therefore decide differently on such an item.
- Property reads see own properties only. The prototype chain (`toString`, `constructor`, `__proto__`) is not modelled.
- Object property order is the order listed in the value. JavaScript's rule that integer-like keys come first in `Object.entries` is not modelled.
- Functions, symbols and bigints are not JavaScript values of the model.
- SchemaRegistry.Registry.GetAllSchemas returns a `map`, which has no order. `Object.fromEntries` keeps insertion order, which the model does not capture. Schemas are values, so the sharing of schema objects between the store and its callers is not modelled either.
- Security.DefaultEnvironment: the fresh `{}` that each call of `can` without an environment creates is one fixed empty object. Only its properties are ever read, so its identity does not matter.
- Security.EvaluatePolicy takes the context's principal as a parameter, where the source reads `this.principal`.
- The `ctx` a `SecurityContext` is created with is stored and never read.
- Concurrency and the module-level lifetime of the schema store are not modelled. The registry is an explicit object.

/// The query engine of packages/query: `query({from, where})` picks a data
/// source and keeps the records that a `where` condition accepts. A
/// condition maps keys either to a literal, compared with `===`, or to an
/// object of operators (`$eq $ne $gt $gte $lt $lte $in $nin`); every key and
/// every operator must hold, and an unknown operator throws when it is
/// reached.
module Query {
  import opened JsValue
  import opened Iterate

  /** The `where` option: a callback, here a pure predicate, or any other value. */
  datatype Where = Callback(accepts: Value -> bool) | Condition(value: Value)

  /** What `query` returns: the data source itself, or a new filtered array. */
  datatype Output = Source(data: Value) | Filtered(items: seq<Value>)

  const MissingFrom := Error("Query requires \"from\" parameter")
  const InvalidFrom := Error("\"from\" must be a string (data source name) or an array")

  function UnsupportedOperator(op: string): Thrown {
    Error("Unsupported operator: " + op)
  }

  /** The operators the `switch` knows. */
  datatype Operator = Eq | Ne | Gt | Gte | Lt | Lte | In | Nin

  /** The `case` label an operator name selects, or `None` for the `default` branch. */
  function ParseOperator(name: string): Option<Operator>
  {
    if name == "$eq" then Some(Eq)
    else if name == "$ne" then Some(Ne)
    else if name == "$gt" then Some(Gt)
    else if name == "$gte" then Some(Gte)
    else if name == "$lt" then Some(Lt)
    else if name == "$lte" then Some(Lte)
    else if name == "$in" then Some(In)
    else if name == "$nin" then Some(Nin)
    else None
  }

  /** `Array.isArray(operand) && operand.includes(v)` */
  predicate Includes(operand: Value, v: Value) {
    operand.Arr? && exists e :: e in operand.elems && StrictEquals(e, v)
  }

  /**
   * The test of one `case`: false exactly where the source returns `false`.
   * The range operators are the negations of the opposite comparison.
   */
  predicate OperatorHolds(op: Operator, itemValue: Value, operand: Value) {
    match op
    case Eq => StrictEquals(itemValue, operand)
    case Ne => !StrictEquals(itemValue, operand)
    case Gt => !AtMost(itemValue, operand)
    case Gte => !LessThan(itemValue, operand)
    case Lt => !AtLeast(itemValue, operand)
    case Lte => !GreaterThan(itemValue, operand)
    case In => Includes(operand, itemValue)
    case Nin => !Includes(operand, itemValue)
  }

  /**
   * One pass of the operator loop: `Ok(false)` where the source returns
   * `false`, `Ok(true)` where it breaks out to the next operator, and the
   * exception for an operator name it does not know.
   */
  function ApplyOperator(itemValue: Value, name: string, operand: Value): (r: Result<bool, Thrown>)
    ensures r.Err? <==> ParseOperator(name).None?
    ensures r.Err? ==> r.error == UnsupportedOperator(name)
  {
    match ParseOperator(name)
    case Some(op) => Ok(OperatorHolds(op, itemValue, operand))
    case None => Err(UnsupportedOperator(name))
  }

  /** The eight operator names select the eight operators. */
  lemma OperatorNames()
    ensures ParseOperator("$eq") == Some(Eq) && ParseOperator("$ne") == Some(Ne)
    ensures ParseOperator("$gt") == Some(Gt) && ParseOperator("$gte") == Some(Gte)
    ensures ParseOperator("$lt") == Some(Lt) && ParseOperator("$lte") == Some(Lte)
    ensures ParseOperator("$in") == Some(In) && ParseOperator("$nin") == Some(Nin)
  {
  }

  /** The body of the operator loop for one `[operator, operand]` entry. */
  function OperatorTest(itemValue: Value): ((string, Value)) -> Result<bool, Thrown> {
    (e: (string, Value)) => ApplyOperator(itemValue, e.0, e.1)
  }

  /**
   * `evaluateCondition(itemValue, conditionValue)`. A plain object is a
   * conjunction of operators, checked in order until one fails or is
   * unknown; any other condition value (a primitive, `null` or an array) is
   * compared with `===`.
   */
  function EvaluateCondition(itemValue: Value, conditionValue: Value): (r: Result<bool, Thrown>)
    ensures !conditionValue.Obj? ==> r == Ok(StrictEquals(itemValue, conditionValue))
    ensures conditionValue.Obj? ==>
      (r == Ok(true) <==> forall i :: 0 <= i < |conditionValue.props| ==>
        ApplyOperator(itemValue, conditionValue.props[i].0, conditionValue.props[i].1) == Ok(true))
    ensures r.Err? ==> conditionValue.Obj?
    ensures r.Err? ==> exists i ::
      && 0 <= i < |conditionValue.props|
      && ParseOperator(conditionValue.props[i].0).None?
      && r.error == UnsupportedOperator(conditionValue.props[i].0)
      && forall j :: 0 <= j < i ==> ApplyOperator(itemValue, conditionValue.props[j].0, conditionValue.props[j].1) == Ok(true)
    ensures conditionValue.Obj? && r != Ok(true) ==> exists i ::
      && 0 <= i < |conditionValue.props|
      && ApplyOperator(itemValue, conditionValue.props[i].0, conditionValue.props[i].1) == r
      && forall j :: 0 <= j < i ==> ApplyOperator(itemValue, conditionValue.props[j].0, conditionValue.props[j].1) == Ok(true)
  {
    if conditionValue.Obj? then
      AllOf(conditionValue.props, OperatorTest(itemValue))
    else
      Ok(StrictEquals(itemValue, conditionValue))
  }

  /** One iteration of `matchesCondition`: `evaluateCondition(item[key], value)`, where reading `item[key]` may throw. */
  function KeyHolds(item: Value, key: string, conditionValue: Value): Result<bool, Thrown>
  {
    match Get(item, key)
    case Err(t) => Err(t)
    case Ok(v) => EvaluateCondition(v, conditionValue)
  }

  /** The body of `matchesCondition`'s loop for one `[key, value]` entry. */
  function KeyTest(item: Value): ((string, Value)) -> Result<bool, Thrown> {
    (e: (string, Value)) => KeyHolds(item, e.0, e.1)
  }

  /**
   * `matchesCondition(item, condition)`: every entry of the condition holds
   * of the item, checked in `Object.entries` order until one fails or throws.
   */
  function MatchesCondition(item: Value, condition: Value): (r: Result<bool, Thrown>)
    ensures r == Ok(true) <==> forall i :: 0 <= i < |Entries(condition)| ==>
      KeyHolds(item, Entries(condition)[i].0, Entries(condition)[i].1) == Ok(true)
    ensures Entries(condition) == [] ==> r == Ok(true)
    ensures r != Ok(true) ==> exists i ::
      && 0 <= i < |Entries(condition)|
      && KeyHolds(item, Entries(condition)[i].0, Entries(condition)[i].1) == r
      && forall j :: 0 <= j < i ==> KeyHolds(item, Entries(condition)[j].0, Entries(condition)[j].1) == Ok(true)
  {
    AllOf(Entries(condition), KeyTest(item))
  }

  /** The callback `filterData` hands to `data.filter` for an object condition. */
  function MatchTest(condition: Value): Value -> Result<bool, Thrown> {
    item => MatchesCondition(item, condition)
  }

  /** Whether `matchesCondition(item, condition)` returns `true`. */
  function Accepts(condition: Value): Value -> bool {
    item => MatchesCondition(item, condition) == Ok(true)
  }

  /** The callback `data.filter(where)` runs for a function `where`; it never throws here. */
  function CallbackTest(accepts: Value -> bool): Value -> Result<bool, Thrown> {
    item => Ok(accepts(item))
  }

  /**
   * `filterData(data, where)`: `[]` unless `data` is an array and `where` a
   * function or a non-null object; otherwise the items `where` accepts, never
   * more than `data` holds, each of them accepted.
   */
  function FilterData(data: Value, where: Where): (r: Result<seq<Value>, Thrown>)
    ensures !data.Arr? ==> r == Ok([])
    ensures where.Condition? && !IsObjectLike(where.value) ==> r == Ok([])
    ensures r.Ok? && data.Arr? ==> |r.value| <= |data.elems|
    ensures r.Ok? && where.Condition? ==> forall x :: x in r.value ==> MatchesCondition(x, where.value) == Ok(true)
    ensures r.Ok? && where.Callback? ==> forall x :: x in r.value ==> where.accepts(x)
    ensures r.Err? ==> (data.Arr? && where.Condition? &&
      exists i :: 0 <= i < |data.elems| && MatchesCondition(data.elems[i], where.value) == Err(r.error))
  {
    if !data.Arr? then Ok([])
    else match where
      case Callback(accepts) =>
        var r := Filter(data.elems, CallbackTest(accepts));
        assert r.Ok? ==> forall x :: x in r.value ==> CallbackTest(accepts)(x) == Ok(true);
        r
      case Condition(w) =>
        if IsObjectLike(w) then Filter(data.elems, MatchTest(w)) else Ok([])
  }

  /** `!where` */
  predicate IsFalsy(where: Where) {
    where.Condition? && !Truthy(where.value)
  }

  /**
   * The query function that `createQueryEngine(ctx)` returns, called with
   * `{from, where}`. A string `from` names a source that the storage service
   * resolves; `getData` stands for that service.
   */
  function Query(from: Value, where: Where, getData: string -> Value): (r: Result<Output, Thrown>)
    ensures !Truthy(from) ==> r == Err(MissingFrom)
    ensures Truthy(from) && !from.Str? && !from.Arr? ==> r == Err(InvalidFrom)
    ensures from.Arr? && IsFalsy(where) ==> r == Ok(Source(from))
    ensures Truthy(from) && from.Str? && IsFalsy(where) ==> r == Ok(Source(getData(from.s)))
    ensures Truthy(from) && from.Str? && !IsFalsy(where) && !getData(from.s).Arr? ==> r == Ok(Filtered([]))
    ensures Truthy(from) && from.Str? && !IsFalsy(where) && getData(from.s).Arr? ==>
      match FilterData(getData(from.s), where)
      case Ok(items) => r == Ok(Filtered(items))
      case Err(t) => r == Err(t)
    ensures from.Arr? && !IsFalsy(where) ==>
      match FilterData(from, where)
      case Ok(items) => r == Ok(Filtered(items))
      case Err(t) => r == Err(t)
  {
    if !Truthy(from) then Err(MissingFrom)
    else if from.Str? || from.Arr? then
      var source := if from.Str? then getData(from.s) else from;
      if IsFalsy(where) then Ok(Source(source))
      else match FilterData(source, where)
        case Ok(items) => Ok(Filtered(items))
        case Err(t) => Err(t)
    else Err(InvalidFrom)
  }

  // ---------------------------------------------------------------------------
  // Properties of the filter

  /**
   * With an object condition and no exception, the result is exactly the
   * order-preserving subsequence of `data` whose items match.
   */
  lemma FilterKeepsMatchingInOrder(data: Value, condition: Value)
    requires data.Arr? && IsObjectLike(condition)
    requires FilterData(data, Condition(condition)).Ok?
    ensures IsSelection(data.elems, FilterData(data, Condition(condition)).value, Accepts(condition))
  {
    var test, keep := MatchTest(condition), Accepts(condition);
    assert FilterData(data, Condition(condition)) == Filter(data.elems, test);
    assert forall x :: keep(x) <==> test(x) == Ok(true);
    FilterSelects(data.elems, test, keep);
  }

  /** The filter throws exactly when some item's match throws, and then it is the first such item's exception. */
  lemma FilterThrowsAtFirstFailingItem(data: Value, condition: Value)
    requires data.Arr? && IsObjectLike(condition)
    ensures FilterData(data, Condition(condition)).Err? <==>
      exists i :: 0 <= i < |data.elems| && MatchesCondition(data.elems[i], condition).Err?
    ensures FilterData(data, Condition(condition)).Err? ==>
      exists i :: 0 <= i < |data.elems| && MatchesCondition(data.elems[i], condition) == Err(FilterData(data, Condition(condition)).error)
        && forall j :: 0 <= j < i ==> MatchesCondition(data.elems[j], condition).Ok?
  {
    var test := MatchTest(condition);
    assert forall i :: 0 <= i < |data.elems| ==> test(data.elems[i]) == MatchesCondition(data.elems[i], condition);
  }

  /** An empty condition object matches every item, so the filter returns every item. */
  lemma EmptyConditionKeepsAll(data: Value, ref: nat)
    requires data.Arr?
    ensures FilterData(data, Condition(Obj(ref, []))) == Ok(data.elems)
  {
    FilterAllPass(data.elems, MatchTest(Obj(ref, [])));
  }

  /** Keys combine conjunctively: a condition holds exactly when both of its halves hold. */
  lemma ConditionIsConjunction(item: Value, ref: nat, left: seq<(string, Value)>, right: seq<(string, Value)>)
    ensures MatchesCondition(item, Obj(ref, left + right)) == Ok(true) <==>
      MatchesCondition(item, Obj(ref, left)) == Ok(true) && MatchesCondition(item, Obj(ref, right)) == Ok(true)
  {
    assert Entries(Obj(ref, left + right)) == left + right;
    AllOfAppend(left, right, KeyTest(item));
  }

  /** Operators combine conjunctively too. */
  lemma OperatorsAreConjunction(itemValue: Value, ref: nat, left: seq<(string, Value)>, right: seq<(string, Value)>)
    ensures EvaluateCondition(itemValue, Obj(ref, left + right)) == Ok(true) <==>
      EvaluateCondition(itemValue, Obj(ref, left)) == Ok(true) && EvaluateCondition(itemValue, Obj(ref, right)) == Ok(true)
  {
    AllOfAppend(left, right, OperatorTest(itemValue));
  }

  // ---------------------------------------------------------------------------
  // Properties of the operators

  /** On numbers the range operators are the integer order and `$eq`/`$ne` are equality. */
  lemma OperatorsOnNumbers(x: int, y: int)
    ensures OperatorHolds(Eq, Num(x), Num(y)) == (x == y)
    ensures OperatorHolds(Ne, Num(x), Num(y)) == (x != y)
    ensures OperatorHolds(Gt, Num(x), Num(y)) == (x > y)
    ensures OperatorHolds(Gte, Num(x), Num(y)) == (x >= y)
    ensures OperatorHolds(Lt, Num(x), Num(y)) == (x < y)
    ensures OperatorHolds(Lte, Num(x), Num(y)) == (x <= y)
  {
    CompareNumbers(x, y);
  }

  /**
   * Each range operator fails exactly when the opposite comparison holds:
   * `$gt` passes unless `item <= operand`, and so on. Values that do not
   * compare (an `undefined` item value, say) therefore pass all four.
   */
  lemma RangeOperatorsFailOnOpposite(itemValue: Value, operand: Value)
    ensures OperatorHolds(Gt, itemValue, operand) <==> Compare(itemValue, operand) in {Greater, Unordered}
    ensures OperatorHolds(Gte, itemValue, operand) <==> Compare(itemValue, operand) in {Greater, Equal, Unordered}
    ensures OperatorHolds(Lt, itemValue, operand) <==> Compare(itemValue, operand) in {Less, Unordered}
    ensures OperatorHolds(Lte, itemValue, operand) <==> Compare(itemValue, operand) in {Less, Equal, Unordered}
    ensures Compare(itemValue, operand) == Unordered ==>
      OperatorHolds(Gt, itemValue, operand) && OperatorHolds(Gte, itemValue, operand) &&
      OperatorHolds(Lt, itemValue, operand) && OperatorHolds(Lte, itemValue, operand)
  {
  }

  /**
   * `$ne` is the negation of `$eq`; `$in` and `$nin` are complements on an
   * array operand, while on any other operand `$in` fails and `$nin` passes.
   */
  lemma NegatedOperators(itemValue: Value, operand: Value)
    ensures OperatorHolds(Ne, itemValue, operand) == !OperatorHolds(Eq, itemValue, operand)
    ensures operand.Arr? ==> OperatorHolds(Nin, itemValue, operand) == !OperatorHolds(In, itemValue, operand)
    ensures !operand.Arr? ==> !OperatorHolds(In, itemValue, operand) && OperatorHolds(Nin, itemValue, operand)
  {
  }

  /** `$in` finds an item value that the operand array lists, an array or object being found by its reference. */
  lemma InFindsListedValue(itemValue: Value, ref: nat, elems: seq<Value>, i: nat)
    requires i < |elems| && elems[i] == itemValue
    ensures OperatorHolds(In, itemValue, Arr(ref, elems))
  {
    assert elems[i] in elems;
  }

  /** An unknown operator throws only when evaluation reaches it: an earlier failing operator wins. */
  lemma UnknownOperatorIsReachedInOrder(itemValue: Value, ref: nat, operand: Value, op: string, other: Value)
    requires ParseOperator(op).None?
    ensures EvaluateCondition(itemValue, Obj(ref, [(op, other)])) == Err(UnsupportedOperator(op))
    ensures !StrictEquals(itemValue, operand) ==>
      EvaluateCondition(itemValue, Obj(ref, [("$eq", operand), (op, other)])) == Ok(false)
  {
    var ops := [("$eq", operand), (op, other)];
    OperatorNames();
    if !StrictEquals(itemValue, operand) {
      assert ApplyOperator(itemValue, ops[0].0, ops[0].1) == Ok(false);
    }
  }

  /** An array used as a literal condition matches only that very array (`===` is identity). */
  lemma ArrayLiteralMatchesByIdentity(itemValue: Value, ref: nat, elems: seq<Value>)
    ensures EvaluateCondition(itemValue, Arr(ref, elems)) == Ok(itemValue.Arr? && itemValue.ref == ref)
  {
  }

  /** Reading a key of a `null` item throws, unless the condition is empty. */
  lemma NullItemThrows(ref: nat, key: string, conditionValue: Value)
    ensures MatchesCondition(Null, Obj(ref, [(key, conditionValue)])) ==
      Err(TypeError("Cannot read properties of null (reading '" + key + "')"))
    ensures MatchesCondition(Null, Obj(ref, [])) == Ok(true)
  {
    var entries := [(key, conditionValue)];
    assert KeyHolds(Null, entries[0].0, entries[0].1) == Err(TypeError("Cannot read properties of null (reading '" + key + "')"));
  }
}

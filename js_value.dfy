/// The part of JavaScript's value semantics that the schema registry, the
/// query filter and the ABAC evaluator observe: truthiness, strict equality,
/// property reads `x[k]`, `Object.entries`, `String.prototype.trim` and the
/// relational operators `<`, `<=`, `>`, `>=`.
module JsValue {

  datatype Option<+T> = None | Some(value: T)

  /** The outcome of a JavaScript call: a returned value or a thrown exception. */
  datatype Result<+T, +E> = Ok(value: T) | Err(error: E)

  /** A thrown exception: the constructor that built it and its message. */
  datatype Thrown = TypeError(message: string) | Error(message: string)

  /**
   * A JavaScript value. Numbers are modelled as integers. Arrays and plain
   * objects carry a reference `ref`, so that `===` can compare them by
   * identity; `props` lists an object's own enumerable properties in the
   * order `Object.entries` reports them.
   */
  datatype Value =
    | Undefined
    | Null
    | Bool(b: bool)
    | Num(n: int)
    | Str(s: string)
    | Arr(ref: nat, elems: seq<Value>)
    | Obj(ref: nat, props: seq<(string, Value)>)

  /** `!!v` */
  predicate Truthy(v: Value) {
    match v
    case Undefined => false
    case Null => false
    case Bool(b) => b
    case Num(n) => n != 0
    case Str(s) => s != []
    case _ => true
  }

  /** `typeof v === 'object' && v !== null`: arrays are objects too. */
  predicate IsObjectLike(v: Value) {
    v.Arr? || v.Obj?
  }

  /** `v === null || v === undefined`: the values whose property reads throw. */
  predicate IsNullish(v: Value) {
    v.Undefined? || v.Null?
  }

  /** `a === b`: identity for arrays and objects, value equality for primitives. */
  predicate StrictEquals(a: Value, b: Value) {
    if IsObjectLike(a) || IsObjectLike(b) then
      (a.Arr? && b.Arr? && a.ref == b.ref) || (a.Obj? && b.Obj? && a.ref == b.ref)
    else
      a == b
  }

  // ---------------------------------------------------------------------------
  // Decimal strings: array index keys and number-to-string conversion

  function DigitChar(d: nat): (c: char)
    requires d < 10
    ensures '0' <= c <= '9'
  {
    ('0' as int + d) as char
  }

  predicate IsDigit(c: char) {
    '0' <= c <= '9'
  }

  predicate AllDigits(s: string) {
    forall i :: 0 <= i < |s| ==> IsDigit(s[i])
  }

  /** The value of a string of decimal digits (leading zeros allowed). */
  function DigitsValue(s: string): nat
    requires AllDigits(s)
  {
    if s == [] then 0
    else DigitsValue(s[..|s| - 1]) * 10 + (s[|s| - 1] as int - '0' as int)
  }

  /** The decimal spelling of `i`, as `String(i)` gives it. */
  function DecimalString(i: nat): string
  {
    if i < 10 then [DigitChar(i)]
    else DecimalString(i / 10) + [DigitChar(i % 10)]
  }

  /** A key that names an array index: decimal digits without a leading zero. */
  function ParseIndex(key: string): Option<nat>
  {
    if key == [] || !AllDigits(key) || (|key| > 1 && key[0] == '0') then None
    else Some(DigitsValue(key))
  }

  lemma {:induction false} DecimalStringIsCanonical(i: nat)
    ensures |DecimalString(i)| >= 1 && AllDigits(DecimalString(i))
    ensures i >= 1 ==> DecimalString(i)[0] != '0'
    ensures DigitsValue(DecimalString(i)) == i
  {
    if i >= 10 {
      DecimalStringIsCanonical(i / 10);
      var p := DecimalString(i / 10);
      assert DecimalString(i)[..|DecimalString(i)| - 1] == p;
    }
  }

  /** Spelling an index and reading it back gives the index. */
  lemma ParseDecimalString(i: nat)
    ensures ParseIndex(DecimalString(i)) == Some(i)
  {
    DecimalStringIsCanonical(i);
  }

  lemma {:induction false} LeadingDigitBoundsValue(s: string)
    requires s != [] && AllDigits(s) && s[0] != '0'
    ensures DigitsValue(s) >= 1
  {
    if |s| > 1 {
      LeadingDigitBoundsValue(s[..|s| - 1]);
    }
  }

  /** Only the canonical spelling of an index reads as that index. */
  lemma {:induction false} ParseIndexIsCanonical(key: string)
    requires ParseIndex(key).Some?
    ensures DecimalString(ParseIndex(key).value) == key
  {
    var i := DigitsValue(key);
    var p := key[..|key| - 1];
    var d := key[|key| - 1] as int - '0' as int;
    assert key == p + [key[|key| - 1]];
    assert DigitChar(d) == key[|key| - 1];
    if |key| == 1 {
      assert p == [] && DigitsValue(p) == 0 && i == d;
    } else {
      assert ParseIndex(p) == Some(DigitsValue(p));
      ParseIndexIsCanonical(p);
      LeadingDigitBoundsValue(p);
      assert i / 10 == DigitsValue(p) && i % 10 == d;
    }
  }

  /** `String(n)` for an integer `n`. */
  function NumberToString(n: int): string
  {
    if n < 0 then "-" + DecimalString(-n) else DecimalString(n)
  }

  // ---------------------------------------------------------------------------
  // Property reads and Object.entries

  /** The value of an own property `key` in `props`, or `undefined`. */
  function OwnProperty(props: seq<(string, Value)>, key: string): Value
  {
    if props == [] then Undefined
    else if props[0].0 == key then props[0].1
    else OwnProperty(props[1..], key)
  }

  /** The value at `key` of an indexed sequence of length `n`, as arrays and strings expose it. */
  function IndexedProperty<T>(items: seq<T>, key: string, wrap: T -> Value): Value
  {
    if key == "length" then Num(|items|)
    else match ParseIndex(key)
      case Some(i) => if i < |items| then wrap(items[i]) else Undefined
      case None => Undefined
  }

  /**
   * `v[key]`: a TypeError on `null` and `undefined`; own properties of
   * objects; indices and `length` of arrays and strings; `undefined` for
   * every other read.
   */
  function Get(v: Value, key: string): (r: Result<Value, Thrown>)
    ensures r.Err? <==> IsNullish(v)
    ensures v.Obj? ==> r == Ok(OwnProperty(v.props, key))
  {
    match v
    case Undefined => Err(TypeError("Cannot read properties of undefined (reading '" + key + "')"))
    case Null => Err(TypeError("Cannot read properties of null (reading '" + key + "')"))
    case Obj(_, props) => Ok(OwnProperty(props, key))
    case Arr(_, elems) => Ok(IndexedProperty(elems, key, (e: Value) => e))
    case Str(s) => Ok(IndexedProperty(s, key, (c: char) => Str([c])))
    case _ => Ok(Undefined)
  }

  /** `Object.entries(v)` for a value that is neither `null` nor `undefined`. */
  function Entries(v: Value): seq<(string, Value)>
  {
    match v
    case Obj(_, props) => props
    case Arr(_, elems) => seq(|elems|, i requires 0 <= i < |elems| => (DecimalString(i), elems[i]))
    case Str(s) => seq(|s|, i requires 0 <= i < |s| => (DecimalString(i), Str([s[i]])))
    case _ => []
  }

  predicate DistinctKeys(props: seq<(string, Value)>) {
    forall i, j :: 0 <= i < j < |props| ==> props[i].0 != props[j].0
  }

  lemma {:induction false} OwnPropertyAt(props: seq<(string, Value)>, j: nat)
    requires DistinctKeys(props) && j < |props|
    ensures OwnProperty(props, props[j].0) == props[j].1
  {
    if j > 0 {
      assert props[0].0 != props[j].0;
      assert props[1..][j - 1] == props[j];
      OwnPropertyAt(props[1..], j - 1);
    }
  }

  lemma IndexedPropertyAt<T>(items: seq<T>, i: nat, wrap: T -> Value)
    requires i < |items|
    ensures IndexedProperty(items, DecimalString(i), wrap) == wrap(items[i])
  {
    DecimalStringIsCanonical(i);
    assert DecimalString(i) != "length" by {
      assert IsDigit(DecimalString(i)[0]);
    }
  }

  /**
   * Every pair `Object.entries(v)` lists is what reading its key from `v`
   * gives (for objects, whose keys are distinct).
   */
  lemma EntriesAgreeWithGet(v: Value, j: nat)
    requires j < |Entries(v)|
    requires v.Obj? ==> DistinctKeys(v.props)
    ensures Get(v, Entries(v)[j].0) == Ok(Entries(v)[j].1)
  {
    match v
    case Obj(_, props) => OwnPropertyAt(props, j);
    case Arr(_, elems) => IndexedPropertyAt(elems, j, (e: Value) => e);
    case Str(s) => IndexedPropertyAt(s, j, (c: char) => Str([c]));
  }

  // ---------------------------------------------------------------------------
  // String.prototype.trim

  /** ECMAScript WhiteSpace and LineTerminator code points. */
  predicate IsWhitespace(c: char) {
    || c == '\t' || c == '\n' || c == '\U{000B}' || c == '\U{000C}' || c == '\r'
    || c == ' ' || c == '\U{00A0}' || c == '\U{1680}'
    || ('\U{2000}' <= c <= '\U{200A}')
    || c == '\U{2028}' || c == '\U{2029}' || c == '\U{202F}' || c == '\U{205F}'
    || c == '\U{3000}' || c == '\U{FEFF}'
  }

  function TrimStart(s: string): (r: string)
    ensures |r| <= |s| && r == s[|s| - |r|..]
    ensures r == [] <==> forall i :: 0 <= i < |s| ==> IsWhitespace(s[i])
    ensures r != [] ==> !IsWhitespace(r[0])
  {
    if s != [] && IsWhitespace(s[0]) then TrimStart(s[1..]) else s
  }

  function TrimEnd(s: string): (r: string)
    ensures |r| <= |s| && r == s[..|r|]
    ensures r == [] <==> forall i :: 0 <= i < |s| ==> IsWhitespace(s[i])
    ensures r != [] ==> !IsWhitespace(r[|r| - 1])
  {
    if s != [] && IsWhitespace(s[|s| - 1]) then TrimEnd(s[..|s| - 1]) else s
  }

  /** `s.trim()`: empty exactly when `s` holds nothing but whitespace. */
  function Trim(s: string): (r: string)
    ensures r == [] <==> forall i :: 0 <= i < |s| ==> IsWhitespace(s[i])
    ensures r != [] ==> !IsWhitespace(r[0]) && !IsWhitespace(r[|r| - 1])
  {
    var t := TrimStart(s);
    assert t != [] ==> !IsWhitespace(t[0]);
    TrimEnd(t)
  }

  // ---------------------------------------------------------------------------
  // Relational comparison

  /** The outcome of comparing two values; `Unordered` when either side is NaN. */
  datatype Ordering = Less | Equal | Greater | Unordered

  function CompareInts(x: int, y: int): Ordering {
    if x < y then Less else if x == y then Equal else Greater
  }

  /** Lexicographic order on characters, as JavaScript orders strings. */
  function CompareStrings(a: string, b: string): (r: Ordering)
    ensures r != Unordered
    ensures r == Equal <==> a == b
  {
    if a == [] && b == [] then Equal
    else if a == [] then Less
    else if b == [] then Greater
    else if a[0] < b[0] then Less
    else if a[0] > b[0] then Greater
    else
      var r := CompareStrings(a[1..], b[1..]);
      assert r == Equal ==> a == [a[0]] + a[1..] == [b[0]] + b[1..] == b;
      r
  }

  /** Joins strings with commas, as `Array.prototype.join` does. */
  function JoinWithCommas(parts: seq<string>): string
  {
    if parts == [] then ""
    else if |parts| == 1 then parts[0]
    else parts[0] + "," + JoinWithCommas(parts[1..])
  }

  /** `String(v)`; plain objects have no own `toString`, so they print as `[object Object]`. */
  function ToDisplayString(v: Value): string
    decreases v
  {
    match v
    case Undefined => "undefined"
    case Null => "null"
    case Bool(b) => if b then "true" else "false"
    case Num(n) => NumberToString(n)
    case Str(s) => s
    case Arr(_, elems) =>
      JoinWithCommas(seq(|elems|, i requires 0 <= i < |elems| =>
        if IsNullish(elems[i]) then "" else ToDisplayString(elems[i])))
    case Obj(_, _) => "[object Object]"
  }

  /** ToPrimitive: arrays and objects become their string form. */
  function ToPrimitive(v: Value): (p: Value)
    ensures !IsObjectLike(p)
  {
    if IsObjectLike(v) then Str(ToDisplayString(v)) else v
  }

  /** Reads an optionally signed run of decimal digits. */
  function SignedDigits(t: string): Option<int>
  {
    if t != [] && (t[0] == '-' || t[0] == '+') then
      if |t| > 1 && AllDigits(t[1..]) then
        var magnitude: int := DigitsValue(t[1..]);
        Some(if t[0] == '-' then -magnitude else magnitude)
      else None
    else if t != [] && AllDigits(t) then Some(DigitsValue(t))
    else None
  }

  /** StringToNumber for integer spellings; `None` stands for NaN. */
  function StringToNumber(s: string): Option<int>
  {
    var t := Trim(s);
    if t == [] then Some(0) else SignedDigits(t)
  }

  /** ToNumber of a primitive; `None` stands for NaN. */
  function ToNumber(p: Value): Option<int>
  {
    match p
    case Undefined => None
    case Null => Some(0)
    case Bool(b) => Some(if b then 1 else 0)
    case Num(n) => Some(n)
    case Str(s) => StringToNumber(s)
    case _ => None
  }

  /**
   * The abstract relational comparison of `a` with `b`: two strings compare
   * lexicographically, anything else numerically after ToPrimitive and
   * ToNumber.
   */
  function Compare(a: Value, b: Value): Ordering
  {
    var pa, pb := ToPrimitive(a), ToPrimitive(b);
    if pa.Str? && pb.Str? then CompareStrings(pa.s, pb.s)
    else
      var na, nb := ToNumber(pa), ToNumber(pb);
      if na.Some? && nb.Some? then CompareInts(na.value, nb.value) else Unordered
  }

  /** `a < b` */
  predicate LessThan(a: Value, b: Value) { Compare(a, b) == Less }
  /** `a <= b` */
  predicate AtMost(a: Value, b: Value) { Compare(a, b) == Less || Compare(a, b) == Equal }
  /** `a > b` */
  predicate GreaterThan(a: Value, b: Value) { Compare(a, b) == Greater }
  /** `a >= b` */
  predicate AtLeast(a: Value, b: Value) { Compare(a, b) == Greater || Compare(a, b) == Equal }

  function Flip(o: Ordering): Ordering {
    match o
    case Less => Greater
    case Greater => Less
    case _ => o
  }

  lemma {:induction false} CompareStringsFlip(a: string, b: string)
    ensures CompareStrings(b, a) == Flip(CompareStrings(a, b))
  {
    if a != [] && b != [] && a[0] == b[0] {
      CompareStringsFlip(a[1..], b[1..]);
    }
  }

  /** Swapping the operands swaps `<` and `>`, so `a < b` is `b > a` and `a <= b` is `b >= a`. */
  lemma CompareFlip(a: Value, b: Value)
    ensures Compare(b, a) == Flip(Compare(a, b))
    ensures LessThan(a, b) <==> GreaterThan(b, a)
    ensures AtMost(a, b) <==> AtLeast(b, a)
  {
    var pa, pb := ToPrimitive(a), ToPrimitive(b);
    if pa.Str? && pb.Str? {
      CompareStringsFlip(pa.s, pb.s);
    }
  }

  /** On numbers the comparison is the integer order. */
  lemma CompareNumbers(x: int, y: int)
    ensures LessThan(Num(x), Num(y)) <==> x < y
    ensures AtMost(Num(x), Num(y)) <==> x <= y
    ensures GreaterThan(Num(x), Num(y)) <==> x > y
    ensures AtLeast(Num(x), Num(y)) <==> x >= y
  {
  }

  /** `undefined` is NaN to the comparison: every relational operator is false on it. */
  lemma UndefinedIsUnordered(v: Value)
    ensures Compare(Undefined, v) == Unordered && Compare(v, Undefined) == Unordered
    ensures !LessThan(Undefined, v) && !AtMost(Undefined, v) && !GreaterThan(Undefined, v) && !AtLeast(Undefined, v)
  {
  }
}

/**
 * The run-time meaning of the conditions that `OptionalModifier.requiredWhen` and the
 * `requiredIf*` family attach to a field. In the source each condition is a closure handed to
 * the `requiredWhen` rule; here it is a value (`Condition`) and `Holds` says what the closure
 * returns for a given validation context.
 */
module Conditions {
  import opened Wrappers

  /** The values a looked-up field can have, as far as the comparisons need them. */
  datatype Value = Undefined | Null | Bool(b: bool) | Num(n: int) | Str(s: string)

  /** The operators accepted by `requiredWhen(field, operator, expected)`. */
  datatype ComparisonOperator = Eq | NotEq | In | NotIn | Gt | Lt | Ge | Le

  /** The expected value: a scalar for `=`/`!=`, a list for `in`/`notIn`, a number otherwise. */
  datatype Expected = Scalar(value: Value) | List(values: seq<Value>) | Number(n: int)

  /** A field "exists" when its value is neither `undefined` nor `null`. */
  predicate Exists(v: Value) {
    !v.Undefined? && !v.Null?
  }

  /** A field is "missing" when its value is `undefined` or `null`. */
  predicate IsMissing(v: Value) {
    v.Undefined? || v.Null?
  }

  /** The pairing of operator and expected value that the source's overloads admit. */
  predicate Fits(op: ComparisonOperator, expected: Expected) {
    match op
    case Eq | NotEq => expected.Scalar? && (expected.value.Bool? || expected.value.Num? || expected.value.Str?)
    case In | NotIn => expected.List?
    case _ => expected.Number?
  }

  /**
   * The number a relational operator compares a modelled value as: `null` is 0, booleans are
   * 0 and 1, and `undefined` and strings give no number (every comparison with them is false).
   */
  function ToNumber(v: Value): Option<int> {
    match v
    case Num(n) => Some(n)
    case Null => Some(0)
    case Bool(b) => Some(if b then 1 else 0)
    case Undefined => None
    case Str(_) => None
  }

  /** The checker closure `requiredWhen` builds for `operator` and `expected`, applied to `value`. */
  function Check(op: ComparisonOperator, expected: Expected, value: Value): (r: bool)
    requires Fits(op, expected)
    ensures (op == Eq || op == NotEq) ==> (r <==> (value == expected.value) == (op == Eq))
    ensures (op == In || op == NotIn) ==>
      (r <==> (exists i :: 0 <= i < |expected.values| && expected.values[i] == value) == (op == In))
    ensures (op == Gt || op == Lt || op == Ge || op == Le) && r ==> ToNumber(value).Some?
    ensures value.Num? ==>
      (op == Gt ==> (r <==> value.n > expected.n)) && (op == Lt ==> (r <==> value.n < expected.n)) &&
      (op == Ge ==> (r <==> value.n >= expected.n)) && (op == Le ==> (r <==> value.n <= expected.n))
  {
    match op
    case Eq => value == expected.value
    case NotEq => value != expected.value
    case In => value in expected.values
    case NotIn => value !in expected.values
    case Gt => ToNumber(value).Some? && ToNumber(value).value > expected.n
    case Lt => ToNumber(value).Some? && ToNumber(value).value < expected.n
    case Ge => ToNumber(value).Some? && ToNumber(value).value >= expected.n
    case Le => ToNumber(value).Some? && ToNumber(value).value <= expected.n
  }

  /**
   * On the comparison `requiredWhen(field, operator, expected)` attaches, `!=` and `notIn` hold
   * exactly when `=` and `in` do not.
   */
  lemma NegatedOperators(field: string, scalar: Value, list: seq<Value>, lookup: string -> Value,
                         callback: nat -> bool)
    requires Fits(Eq, Scalar(scalar))
    ensures Holds(Comparison(field, NotEq, Scalar(scalar)), lookup, callback) ==
            !Holds(Comparison(field, Eq, Scalar(scalar)), lookup, callback)
    ensures Holds(Comparison(field, NotIn, List(list)), lookup, callback) ==
            !Holds(Comparison(field, In, List(list)), lookup, callback)
  {
  }

  /**
   * On the comparison `requiredWhen` attaches, `=` holds exactly when the other field's value is
   * the expected one, and `in` exactly when that value occurs in the expected list.
   */
  lemma EqualityAndMembership(field: string, scalar: Value, list: seq<Value>, lookup: string -> Value,
                              callback: nat -> bool)
    requires Fits(Eq, Scalar(scalar))
    ensures Holds(Comparison(field, Eq, Scalar(scalar)), lookup, callback) <==> lookup(field) == scalar
    ensures Holds(Comparison(field, In, List(list)), lookup, callback) <==>
      exists i :: 0 <= i < |list| && list[i] == lookup(field)
  {
  }

  /**
   * What `>`, `<`, `>=` and `<=` compute for each kind of value, against an expected number `n`:
   * a number compares by integer order, `null` compares as 0, `false` and `true` as 0 and 1, and
   * `undefined` and strings satisfy none of the four.
   */
  lemma RelationalOperators(n: int, m: int, b: bool, s: string)
    ensures Check(Gt, Number(n), Num(m)) <==> m > n
    ensures Check(Lt, Number(n), Num(m)) <==> m < n
    ensures Check(Ge, Number(n), Num(m)) <==> m >= n
    ensures Check(Le, Number(n), Num(m)) <==> m <= n
    ensures Check(Gt, Number(n), Null) <==> 0 > n
    ensures Check(Lt, Number(n), Null) <==> 0 < n
    ensures Check(Ge, Number(n), Null) <==> 0 >= n
    ensures Check(Le, Number(n), Null) <==> 0 <= n
    ensures Check(Gt, Number(n), Bool(b)) <==> (if b then 1 else 0) > n
    ensures Check(Lt, Number(n), Bool(b)) <==> (if b then 1 else 0) < n
    ensures Check(Ge, Number(n), Bool(b)) <==> (if b then 1 else 0) >= n
    ensures Check(Le, Number(n), Bool(b)) <==> (if b then 1 else 0) <= n
    ensures !Check(Gt, Number(n), Undefined) && !Check(Lt, Number(n), Undefined) &&
            !Check(Ge, Number(n), Undefined) && !Check(Le, Number(n), Undefined)
    ensures !Check(Gt, Number(n), Str(s)) && !Check(Lt, Number(n), Str(s)) &&
            !Check(Ge, Number(n), Str(s)) && !Check(Le, Number(n), Str(s))
  {
  }

  /**
   * How the four numeric operators relate: `>=` is `>` or equal, `<=` is `<` or equal, on a
   * value that gives a number `<` is not `>=` and `>` is not `<=`, and a value that gives no
   * number satisfies none of them.
   */
  lemma NumericOperators(value: Value, n: int)
    ensures Check(Ge, Number(n), value) <==> Check(Gt, Number(n), value) || ToNumber(value) == Some(n)
    ensures Check(Le, Number(n), value) <==> Check(Lt, Number(n), value) || ToNumber(value) == Some(n)
    ensures ToNumber(value).Some? ==>
      (Check(Lt, Number(n), value) <==> !Check(Ge, Number(n), value)) &&
      (Check(Gt, Number(n), value) <==> !Check(Le, Number(n), value))
    ensures ToNumber(value).None? ==>
      !Check(Gt, Number(n), value) && !Check(Lt, Number(n), value) &&
      !Check(Ge, Number(n), value) && !Check(Le, Number(n), value)
  {
  }

  /** Which per-field test a `requiredIf*` condition applies. */
  datatype PresenceTest = MustExist | MustBeMissing

  /** How the per-field results combine: `every` or `some`. */
  datatype Quantifier = Every | Any

  function Passes(test: PresenceTest, v: Value): bool {
    match test
    case MustExist => Exists(v)
    case MustBeMissing => IsMissing(v)
  }

  /** `fields.every(f => test(lookup(f)))`. */
  function EveryPasses(fields: seq<string>, test: PresenceTest, lookup: string -> Value): (r: bool)
    ensures r <==> forall i :: 0 <= i < |fields| ==> Passes(test, lookup(fields[i]))
  {
    if fields == [] then true
    else
      var rest := EveryPasses(fields[1..], test, lookup);
      assert forall i :: 1 <= i < |fields| ==> fields[i] == fields[1..][i - 1];
      Passes(test, lookup(fields[0])) && rest
  }

  /** `fields.some(f => test(lookup(f)))`. */
  function SomePasses(fields: seq<string>, test: PresenceTest, lookup: string -> Value): (r: bool)
    ensures r <==> exists i :: 0 <= i < |fields| && Passes(test, lookup(fields[i]))
  {
    if fields == [] then false
    else
      var rest := SomePasses(fields[1..], test, lookup);
      assert forall i :: 1 <= i < |fields| ==> fields[i] == fields[1..][i - 1];
      Passes(test, lookup(fields[0])) || rest
  }

  /**
   * The condition a `requiredWhen`-family call attaches: a user callback, a comparison of one
   * other field against an expected value, or a presence test over several other fields.
   */
  datatype Condition =
    | UserCallback(fn: nat)
    | Comparison(otherField: string, op: ComparisonOperator, expected: Expected)
    | Presence(fields: seq<string>, test: PresenceTest, quantifier: Quantifier)

  predicate WellFormed(c: Condition) {
    c.Comparison? ==> Fits(c.op, c.expected)
  }

  /**
   * Whether the field becomes required: `lookup` resolves a (dotted) field path in the
   * validation context, `callback` is what each user callback returns for that context.
   */
  function Holds(c: Condition, lookup: string -> Value, callback: nat -> bool): (r: bool)
    requires WellFormed(c)
    ensures c.UserCallback? ==> r == callback(c.fn)
    ensures c.Comparison? ==> r == Check(c.op, c.expected, lookup(c.otherField))
    ensures c.Presence? && c.quantifier == Every ==>
      (r <==> forall i :: 0 <= i < |c.fields| ==> Passes(c.test, lookup(c.fields[i])))
    ensures c.Presence? && c.quantifier == Any ==>
      (r <==> exists i :: 0 <= i < |c.fields| && Passes(c.test, lookup(c.fields[i])))
  {
    match c
    case UserCallback(fn) => callback(fn)
    case Comparison(field, op, expected) => Check(op, expected, lookup(field))
    case Presence(fields, test, Every) => EveryPasses(fields, test, lookup)
    case Presence(fields, test, Any) => SomePasses(fields, test, lookup)
  }

  /** A `string | string[]` argument. */
  datatype FieldsArg = One(name: string) | Many(names: seq<string>)

  /** `Array.isArray(fields) ? fields : [fields]`. */
  function FieldList(arg: FieldsArg): seq<string> {
    match arg
    case One(name) => [name]
    case Many(names) => names
  }

  /** The four presence conditions are `every`/`some` over exists/missing, as documented. */
  lemma PresenceMeaning(fields: seq<string>, lookup: string -> Value, callback: nat -> bool)
    ensures Holds(Presence(fields, MustExist, Every), lookup, callback) <==>
      forall i :: 0 <= i < |fields| ==> Exists(lookup(fields[i]))
    ensures Holds(Presence(fields, MustExist, Any), lookup, callback) <==>
      exists i :: 0 <= i < |fields| && Exists(lookup(fields[i]))
    ensures Holds(Presence(fields, MustBeMissing, Every), lookup, callback) <==>
      forall i :: 0 <= i < |fields| ==> IsMissing(lookup(fields[i]))
    ensures Holds(Presence(fields, MustBeMissing, Any), lookup, callback) <==>
      exists i :: 0 <= i < |fields| && IsMissing(lookup(fields[i]))
  {
  }

  /**
   * A single field name behaves as the one-element list holding it, and a list is taken as it
   * is.
   */
  lemma SingleFieldMeaning(name: string, names: seq<string>, test: PresenceTest, lookup: string -> Value)
    ensures FieldList(One(name)) == [name] && FieldList(Many(names)) == names
    ensures EveryPasses(FieldList(One(name)), test, lookup) <==> Passes(test, lookup(name))
  {
  }

  /** Over any fields, `every` of "missing" is the negation of `some` of "exists", and vice versa. */
  lemma {:induction false} PresenceDuality(fields: seq<string>, lookup: string -> Value)
    ensures EveryPasses(fields, MustBeMissing, lookup) == !SomePasses(fields, MustExist, lookup)
    ensures SomePasses(fields, MustBeMissing, lookup) == !EveryPasses(fields, MustExist, lookup)
  {
  }
}

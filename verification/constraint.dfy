/**
 * What the two property wrappers share (`Constraint` and its `runTest`):
 * a rule of one value type, the cast `getCastRule`, and the outcome of
 * testing a value with it.
 *
 * The library's rules are generic over the wrapped property's type and
 * `getCastRule<U>()` is a dynamic cast. Here a value carries its type as
 * a tag, and so does a rule; the cast succeeds exactly when the tags agree.
 */
module Constraints {
  import opened Rules
  import opened Verifications

  datatype Option<T> = None | Some(value: T)

  /** The property types the model covers. */
  datatype Ty = IntTy | StringTy | BoolTy

  datatype Value = IntValue(i: int) | StringValue(s: string) | BoolValue(b: bool)

  /** A rule together with the type of value it is written for. */
  datatype AnyRule = IntRule(ri: Rule<int>) | StringRule(rs: Rule<string>) | BoolRule(rb: Rule<bool>)

  function TypeOf(v: Value): Ty
  {
    match v
    case IntValue(_) => IntTy
    case StringValue(_) => StringTy
    case BoolValue(_) => BoolTy
  }

  function RuleType(r: AnyRule): Ty
  {
    match r
    case IntRule(_) => IntTy
    case StringRule(_) => StringTy
    case BoolRule(_) => BoolTy
  }

  /** `getCastRule<U>()`: `rule as? Rule<U>`, the rule itself exactly when `U` is its type. */
  function CastRule(rule: AnyRule, ty: Ty): (r: Option<AnyRule>)
    ensures r.Some? <==> RuleType(rule) == ty
    ensures r.Some? ==> r.value == rule
  {
    if RuleType(rule) == ty then Some(rule) else None
  }

  /**
   * The callback `getCastRule()?.test(value, test)` makes on the binding's
   * test: none when the cast fails (`?? false`), otherwise the one the
   * rule calls on `value`.
   */
  function Check(rule: AnyRule, v: Value): (o: Option<Outcome>)
    ensures o.Some? <==> RuleType(rule) == TypeOf(v)
  {
    match (rule, v)
    case (IntRule(r), IntValue(i)) => Some(Eval(r, i))
    case (StringRule(r), StringValue(s)) => Some(Eval(r, s))
    case (BoolRule(r), BoolValue(b)) => Some(Eval(r, b))
    case _ => None
  }

  /** Testing goes through the cast: a value of the rule's own type is evaluated by that rule. */
  lemma CheckThroughCast(rule: AnyRule, v: Value)
    ensures CastRule(rule, TypeOf(v)).None? ==> Check(rule, v).None?
    ensures v.IntValue? && CastRule(rule, IntTy).Some? ==> Check(rule, v) == Some(Eval(rule.ri, v.i))
    ensures v.StringValue? && CastRule(rule, StringTy).Some? ==> Check(rule, v) == Some(Eval(rule.rs, v.s))
    ensures v.BoolValue? && CastRule(rule, BoolTy).Some? ==> Check(rule, v) == Some(Eval(rule.rb, v.b))
  {
  }

  /** The failure a binding records for `v` at `path`: one exactly when the rule calls `fail`. */
  function Recorded(rule: AnyRule, v: Value, path: Path): (fs: seq<Failure>)
    ensures |fs| <= 1
    ensures fs != [] <==> Check(rule, v).Some? && Check(rule, v).value.Fail?
    ensures fs != [] ==> fs[0] == Failure(Pretty(path), Check(rule, v).value.reason)
  {
    var o := Check(rule, v);
    if o.Some? && o.value.Fail? then [Failure(Pretty(path), o.value.reason)] else []
  }
}

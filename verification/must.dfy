/**
 * `@Must`: a property wrapper that refuses values breaking its rule and
 * keeps the value it had. Its callbacks report to the sink of its context:
 * `fail` always records, and `pass` answers whether the sink is still
 * clean, so after any failure in the run even a valid value is refused.
 */
module Musts {
  import opened Rules
  import opened Verifications
  import opened Constraints

  /** Whether the setter stores `v`, given whether the sink was passing. */
  function Accepts(rule: AnyRule, v: Value, passing: bool): bool
  {
    Check(rule, v) == Some(Pass) && passing
  }

  /**
   * The three ways an assignment ends: stored without a failure, refused
   * with exactly one failure, or refused silently (a clean rule on a
   * failing sink, or a value of the wrong type).
   */
  lemma AssignmentCases(rule: AnyRule, v: Value, passing: bool, path: Path)
    ensures Accepts(rule, v, passing) ==> Recorded(rule, v, path) == []
    ensures !passing ==> !Accepts(rule, v, passing)
    ensures passing && Check(rule, v).Some? ==> (Accepts(rule, v, passing) <==> Recorded(rule, v, path) == [])
  {
  }

  class Must {
    const rule: AnyRule
    var context: Context
    var wrapped: Option<Value>

    /** `init(_ rule:)`: no value yet and the empty context, with a sink of its own. */
    constructor (rule: AnyRule)
      ensures this.rule == rule && wrapped == None
      ensures context.path == [] && !context.strict
      ensures fresh(context.verification) && context.verification.failures == []
    {
      this.rule := rule;
      var ctx := EmptyContext();
      context := ctx;
      wrapped := None;
    }

    /** `pass`: records nothing and answers whether the sink holds no failure. */
    method Pass() returns (ok: bool)
      ensures ok <==> context.verification.Passing()
    {
      context.verification.PassOne();
      ok := context.verification.Passing();
    }

    /** `fail(reason)`: always records one failure at this binding's path. */
    method Fail(reason: string) returns (ok: bool)
      modifies context.verification
      ensures context.verification.failures
        == old(context.verification.failures) + [Failure(Pretty(context.path), reason)]
      ensures !ok
    {
      context.verification.FailOne(context.path, reason);
      ok := false;
    }

    /** `runTest(for:)`: the rule run against this binding's own callbacks. */
    method RunTest(v: Value) returns (ok: bool)
      modifies context.verification
      ensures ok == Accepts(rule, v, old(context.verification.Passing()))
      ensures context.verification.failures == old(context.verification.failures) + Recorded(rule, v, context.path)
    {
      var o := Check(rule, v);
      if o.None? {
        ok := false;
      } else if o.value.Pass? {
        ok := Pass();
      } else {
        ok := Fail(o.value.reason);
      }
    }

    /** The `wrappedValue` setter: stores `v` only when the test answered true. */
    method Set(v: Value)
      modifies this, context.verification
      ensures context == old(context)
      ensures wrapped == if Accepts(rule, v, old(context.verification.Passing())) then Some(v) else old(wrapped)
      ensures context.verification.failures == old(context.verification.failures) + Recorded(rule, v, context.path)
    {
      var ok := RunTest(v);
      if ok {
        wrapped := Some(v);
      }
    }
  }
}

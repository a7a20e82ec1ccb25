/**
 * `@Should`: a property wrapper that clears itself to nil when given a
 * value breaking its rule. Its `fail` records only when the context is
 * strict; its `pass` answers whether the sink is still clean.
 */
module Shoulds {
  import opened Rules
  import opened Verifications
  import opened Constraints

  /** Whether the setter stores `v` (rather than nil), given whether the sink was passing. */
  function Accepts(rule: AnyRule, v: Option<Value>, passing: bool): bool
  {
    v.Some? && Check(rule, v.value) == Some(Pass) && passing
  }

  /** The failures an assignment records: only under a strict context. */
  function Records(rule: AnyRule, v: Option<Value>, path: Path, strict: bool): (fs: seq<Failure>)
    ensures !strict || v.None? ==> fs == []
  {
    if strict && v.Some? then Recorded(rule, v.value, path) else []
  }

  /**
   * Nil never runs the rule; a lenient context never records; a strict one
   * records exactly the failure the rule reports.
   */
  lemma AssignmentCases(rule: AnyRule, v: Option<Value>, passing: bool, path: Path, strict: bool)
    ensures v.None? ==> !Accepts(rule, v, passing) && Records(rule, v, path, strict) == []
    ensures !passing ==> !Accepts(rule, v, passing)
    ensures Accepts(rule, v, passing) ==> Records(rule, v, path, strict) == []
    ensures strict && v.Some? && Check(rule, v.value).Some? && passing ==>
      (Accepts(rule, v, passing) <==> Records(rule, v, path, strict) == [])
  {
  }

  class Should {
    const rule: AnyRule
    var context: Context
    var wrapped: Option<Value>

    /** `init(_ rule:)`: nil and the empty context, with a sink of its own. */
    constructor (rule: AnyRule)
      ensures this.rule == rule && wrapped == None
      ensures context.path == [] && !context.strict
      ensures fresh(context.verification) && context.verification.failures == []
    {
      this.rule := rule;
      var ctx := EmptyContext();
      context := ctx;
      wrapped := None;
    }

    /**
     * `init(wrappedValue:_:)`: the initial value goes through the checking
     * setter, in the empty context, so it is kept exactly when the rule
     * passes and nothing is recorded.
     */
    constructor WithValue(wrappedValue: Option<Value>, rule: AnyRule)
      ensures this.rule == rule
      ensures wrapped == if Accepts(rule, wrappedValue, true) then wrappedValue else None
      ensures context.path == [] && !context.strict
      ensures fresh(context.verification) && context.verification.failures == []
    {
      this.rule := rule;
      var ctx := EmptyContext();
      context := ctx;
      wrapped := None;
      new;
      Set(wrappedValue);
    }

    /** `pass`: records nothing and answers whether the sink holds no failure. */
    method Pass() returns (ok: bool)
      ensures ok <==> context.verification.Passing()
    {
      context.verification.PassOne();
      ok := context.verification.Passing();
    }

    /** `fail(reason)`: records at this binding's path only when the context is strict. */
    method Fail(reason: string) returns (ok: bool)
      modifies context.verification
      ensures context.verification.failures == old(context.verification.failures)
        + (if context.strict then [Failure(Pretty(context.path), reason)] else [])
      ensures !ok
    {
      if context.strict {
        context.verification.FailOne(context.path, reason);
      } else {
        context.verification.PassOne();
      }
      ok := false;
    }

    /** `runTest(for:)`: the rule run against this binding's own callbacks. */
    method RunTest(v: Value) returns (ok: bool)
      modifies context.verification
      ensures ok == Accepts(rule, Some(v), old(context.verification.Passing()))
      ensures context.verification.failures
        == old(context.verification.failures) + Records(rule, Some(v), context.path, context.strict)
    {
      var o := Check(rule, v);
      if o.None? {
        ok := false;
      } else if o.value.Pass? {
        ok := Pass();
      } else {
        ok := Fail(o.value.reason);
      }
    }

    /** The `wrappedValue` setter: nil, or a value the test refused, leaves nil behind. */
    method Set(v: Option<Value>)
      modifies this, context.verification
      ensures context == old(context)
      ensures wrapped == if Accepts(rule, v, old(context.verification.Passing())) then v else None
      ensures context.verification.failures
        == old(context.verification.failures) + Records(rule, v, context.path, context.strict)
    {
      if v.Some? {
        var ok := RunTest(v.value);
        wrapped := if ok then v else None;
      } else {
        wrapped := None;
      }
    }
  }
}

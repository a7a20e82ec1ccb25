/**
 * `@Should` of the older library copy, over its own sink. Its `runTest`
 * hands the rule a plain test made of the binding's two callbacks, like
 * the current one.
 */
module LegacyShoulds {
  import opened Rules
  import opened Constraints
  import opened LegacyVerifications
  import LegacyMiscRules

  /** Whether the setter stores `v` (rather than nil), given whether the sink was passing. */
  function Accepts(rule: AnyRule, v: Option<Value>, passing: bool): bool
  {
    v.Some? && Check(rule, v.value) == Some(Pass) && passing
  }

  /** The failures an assignment records at `path`: the rule's reason, only under a strict context. */
  function Records(rule: AnyRule, v: Option<Value>, path: Path, strict: bool): (fs: seq<Failure>)
    ensures |fs| <= 1
    ensures fs != [] <==> strict && v.Some? && Check(rule, v.value).Some? && Check(rule, v.value).value.Fail?
    ensures fs != [] ==> fs[0] == Failure(path, Check(rule, v.value).value.reason)
  {
    if strict && v.Some? && Check(rule, v.value).Some? && Check(rule, v.value).value.Fail? then
      [Failure(path, Check(rule, v.value).value.reason)]
    else
      []
  }

  class Should {
    const rule: AnyRule
    var context: Context
    var wrapped: Option<Value>

    /** `init(_ rule:)`: nil and the empty context, with a sink of its own. */
    constructor (rule: AnyRule)
      ensures this.rule == rule && wrapped == None
      ensures context.path == [] && !context.strict
      ensures fresh(context.verification) && context.verification.failures == []
    {
      this.rule := rule;
      var ctx := EmptyContext();
      context := ctx;
      wrapped := None;
    }

    /** `pass`: records nothing and answers whether the sink holds no failure. */
    method Pass() returns (ok: bool)
      ensures ok <==> context.verification.Passing()
    {
      context.verification.PassOne();
      ok := context.verification.Passing();
    }

    /** `fail(reason)`: records at this binding's path only when the context is strict. */
    method Fail(reason: string) returns (ok: bool)
      modifies context.verification
      ensures context.verification.failures == old(context.verification.failures)
        + (if context.strict then [Failure(context.path, reason)] else [])
      ensures !ok
    {
      if context.strict {
        context.verification.FailOne(context.path, reason);
      } else {
        context.verification.PassOne();
      }
      ok := false;
    }

    /** `runTest(for:)`: the rule run against this binding's own callbacks. */
    method RunTest(v: Value) returns (ok: bool)
      modifies context.verification
      ensures ok == Accepts(rule, Some(v), old(context.verification.Passing()))
      ensures context.verification.failures
        == old(context.verification.failures) + Records(rule, Some(v), context.path, context.strict)
    {
      var o := Check(rule, v);
      if o.None? {
        ok := false;
      } else if o.value.Pass? {
        ok := Pass();
      } else {
        ok := Fail(o.value.reason);
      }
    }

    /** The `wrappedValue` setter: nil, or a value the test refused, leaves nil behind. */
    method Set(v: Option<Value>)
      modifies this, context.verification
      ensures context == old(context)
      ensures wrapped == if Accepts(rule, v, old(context.verification.Passing())) then v else None
      ensures context.verification.failures
        == old(context.verification.failures) + Records(rule, v, context.path, context.strict)
    {
      if v.Some? {
        var ok := RunTest(v.value);
        wrapped := if ok then v else None;
      } else {
        wrapped := None;
      }
    }
  }

  /**
   * A `Should(.beNotEmptyString)` bound to field `name` of a fresh run,
   * then assigned `""`: the field is cleared either way, and only a strict
   * run records the failure `(["name"], "Unexpected empty string")`.
   */
  method EmptyNameScenario(strict: bool) returns (stored: Option<Value>, failures: seq<Failure>)
    ensures stored == None
    ensures failures == if strict then [Failure(["name"], LegacyMiscRules.EmptyMessage)] else []
  {
    var client := new Should(StringRule(LegacyMiscRules.BeNotEmptyString()));
    var sink := new Verification();
    client.context := Context(["name"], strict, sink);
    client.Set(Some(StringValue("")));
    stored := client.wrapped;
    failures := sink.failures;
  }
}

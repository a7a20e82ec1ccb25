/**
 * The sink and context of the older library copy. They differ from the
 * current ones only in `Failure`, which keeps the field path as its list
 * of segments instead of the dotted string.
 */
module LegacyVerifications {
  import Verifications

  type Path = Verifications.Path

  /** One recorded failure: the field path, segment by segment, and the rule's reason. */
  datatype Failure = Failure(path: Path, reason: string)

  class Verification {
    var failures: seq<Failure>

    constructor ()
      ensures failures == []
    {
      failures := [];
    }

    predicate Failing()
      reads this
    {
      failures != []
    }

    predicate Passing()
      reads this
    {
      failures == []
    }

    /** `passOne()` records nothing. */
    method PassOne()
      ensures unchanged(this)
    {
    }

    /** `failOne(path:reason:)`: appends exactly one failure, path kept as given. */
    method FailOne(path: Path, reason: string)
      modifies this
      ensures failures == old(failures) + [Failure(path, reason)]
    {
      failures := failures + [Failure(path, reason)];
    }
  }

  datatype Context = Context(path: Path, strict: bool, verification: Verification)

  /** `rebase(path:)`: a context for another field of the same run. */
  function Rebase(ctx: Context, path: Path): (r: Context)
    ensures r.path == path
    ensures r.strict == ctx.strict && r.verification == ctx.verification
  {
    ctx.(path := path)
  }

  /** Rebasing twice is rebasing once to the last path, and rebasing to its own path changes nothing. */
  lemma RebaseLaws(ctx: Context, p: Path, q: Path)
    ensures Rebase(Rebase(ctx, p), q) == Rebase(ctx, q)
    ensures Rebase(ctx, ctx.path) == ctx
  {
  }

  /** `VerificationContext.empty`: no path, not strict, a sink of its own. */
  method EmptyContext() returns (ctx: Context)
    ensures ctx.path == [] && !ctx.strict
    ensures fresh(ctx.verification) && ctx.verification.failures == []
  {
    var sink := new Verification();
    ctx := Context([], false, sink);
  }

  datatype VerificationError = ContextError | RulesBroken(rules: seq<Failure>)
}

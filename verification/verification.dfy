/**
 * The failure sink shared by one verification run, and the context each
 * constraint binding carries: its field path, whether the run is strict,
 * and a reference to the sink.
 */
module Verifications {
  import opened Text

  /** A field-name chain from a root, outermost name first. */
  type Path = seq<string>

  /** `path.pretty`: the segments joined by `"."`. */
  function Pretty(path: Path): string
  {
    Join(path, ".")
  }

  /** `path.split()`: the first segment and the rest. The source force-unwraps `first`. */
  function Split(path: Path): (r: (string, Path))
    requires |path| > 0
    ensures [r.0] + r.1 == path
    ensures |r.1| == |path| - 1
  {
    (path[0], path[1..])
  }

  /** A path whose segments hold no `"."` is recovered from its pretty form. */
  lemma PrettyRoundTrip(path: Path)
    requires |path| > 0
    requires forall i :: 0 <= i < |path| ==> '.' !in path[i]
    ensures SplitOn(Pretty(path), '.') == path
  {
    SplitJoin(path, '.');
  }

  /** Extending a path by one name extends its pretty form by `"."` and that name. */
  lemma PrettySnoc(path: Path, name: string)
    requires |path| > 0
    ensures Pretty(path + [name]) == Pretty(path) + "." + name
  {
    JoinSnoc(path, name, ".");
  }

  /** One recorded failure: the pretty path of the field and the rule's reason. */
  datatype Failure = Failure(path: string, reason: string)

  /** The sink: failures in the order they were recorded. */
  class Verification {
    var failures: seq<Failure>

    constructor ()
      ensures failures == []
    {
      failures := [];
    }

    predicate Failing()
      reads this
    {
      failures != []
    }

    predicate Passing()
      reads this
    {
      failures == []
    }

    /** `passOne()` records nothing. */
    method PassOne()
      ensures unchanged(this)
    {
    }

    /** `failOne(path:reason:)`: appends exactly one failure at the end. */
    method FailOne(path: Path, reason: string)
      modifies this
      ensures failures == old(failures) + [Failure(Pretty(path), reason)]
    {
      failures := failures + [Failure(Pretty(path), reason)];
    }
  }

  /** `VerificationContext` without `instance`, which only the decoder reads. */
  datatype Context = Context(path: Path, strict: bool, verification: Verification)

  /** `rebase(path:)`: a context for another field of the same run. */
  function Rebase(ctx: Context, path: Path): (r: Context)
    ensures r.path == path
    ensures r.strict == ctx.strict && r.verification == ctx.verification
  {
    ctx.(path := path)
  }

  /** Rebasing twice is rebasing once to the last path, and rebasing to its own path changes nothing. */
  lemma RebaseLaws(ctx: Context, p: Path, q: Path)
    ensures Rebase(Rebase(ctx, p), q) == Rebase(ctx, q)
    ensures Rebase(ctx, ctx.path) == ctx
  {
  }

  /** `VerificationContext.empty`: no path, not strict, a sink of its own. */
  method EmptyContext() returns (ctx: Context)
    ensures ctx.path == [] && !ctx.strict
    ensures fresh(ctx.verification) && ctx.verification.failures == []
  {
    var sink := new Verification();
    ctx := Context([], false, sink);
  }

  datatype VerificationError = ContextError | RulesBroken(rules: seq<Failure>)
}

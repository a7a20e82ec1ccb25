/**
 * Rules, the compliance-test protocol, the buffering proxy and the
 * combinators `&`, `|` and `not`.
 *
 * A rule is evaluated against a test: a pair of callbacks `pass()` and
 * `fail(reason)`. Every rule the library builds calls exactly one of them,
 * once, and returns what that call returned. So the effect of a rule on its
 * test is captured by an `Outcome`: which callback it calls, and with what.
 * `Eval` is that outcome as a function of the rule and the value, and
 * `Trace` lists, in order, the leaf rules the evaluation actually runs.
 * The imperative side (`TestProxy`, `Test`) runs the combinators the way
 * the library does, with a fresh proxy buffering the reasons of the
 * operands, and is proved to deliver exactly `Eval` and to run exactly
 * `Trace`.
 */
module Rules {
  import opened Text

  /** The one callback a rule calls on its test: `pass()` or `fail(reason)`. */
  datatype Outcome = Pass | Fail(reason: string)

  /**
   * Rules the library can build. `Atom` is a rule written as
   * `cond ? test.pass() : test.fail(message)`; the name only names the
   * leaf in traces.
   */
  datatype Rule<!T> =
    | Atom(name: string, holds: T -> bool, message: T -> string)
    | Passing
    | Failing(reason: string)
    | And(lhs: Rule<T>, rhs: Rule<T>)
    | Or(lhs: Rule<T>, rhs: Rule<T>)
    | Not(operand: Rule<T>, failMessage: string)

  const NotPassMessage := "Expected test not to pass"
  const PredicateMessage := "Test failed"
  const ReasonSeparator := "; "

  /** The callback the rule calls on the test it is given. */
  function Eval<T>(r: Rule<T>, v: T): Outcome
  {
    match r
    case Atom(_, holds, message) => if holds(v) then Pass else Fail(message(v))
    case Passing => Pass
    case Failing(reason) => Fail(reason)
    case And(lhs, rhs) => if Eval(lhs, v).Fail? then Eval(lhs, v) else Eval(rhs, v)
    case Or(lhs, rhs) =>
      if Eval(lhs, v).Pass? || Eval(rhs, v).Pass? then Pass
      else Fail(Eval(lhs, v).reason + ReasonSeparator + Eval(rhs, v).reason)
    case Not(operand, failMessage) => if Eval(operand, v).Pass? then Fail(failMessage) else Pass
  }

  /** The leaves the evaluation runs, in order: right operands are skipped by short-circuiting. */
  function Trace<T>(r: Rule<T>, v: T): seq<string>
  {
    match r
    case Atom(name, _, _) => [name]
    case Passing => ["passing"]
    case Failing(_) => ["failing"]
    case And(lhs, rhs) => Trace(lhs, v) + (if Eval(lhs, v).Pass? then Trace(rhs, v) else [])
    case Or(lhs, rhs) => Trace(lhs, v) + (if Eval(lhs, v).Fail? then Trace(rhs, v) else [])
    case Not(operand, _) => Trace(operand, v)
  }

  /** `Rule(predicate:)`: pass when the predicate holds, else fail with the generic reason. */
  function FromPredicate<T(!new)>(p: T -> bool): (r: Rule<T>)
    ensures forall v :: Eval(r, v) == if p(v) then Pass else Fail(PredicateMessage)
  {
    Atom("predicate", p, (_: T) => PredicateMessage)
  }

  /** `Rule.passing()`: only ever calls `pass`. */
  function AlwaysPassing<T(!new)>(): (r: Rule<T>)
    ensures forall v :: Eval(r, v) == Pass
  {
    Passing
  }

  /** `Rule.failing(reason:)`: only ever calls `fail`, with exactly that reason. */
  function AlwaysFailing<T(!new)>(reason: string): (r: Rule<T>)
    ensures forall v :: Eval(r, v) == Fail(reason)
  {
    Failing(reason)
  }

  /** `Rule.not(_:)`: inverts the operand and never surfaces the operand's reason. */
  function NotRule<T(!new)>(operand: Rule<T>): (r: Rule<T>)
    ensures forall v :: Eval(r, v).Pass? <==> Eval(operand, v).Fail?
    ensures forall v :: Eval(r, v).Fail? ==> Eval(r, v).reason == NotPassMessage
    ensures forall v :: Trace(r, v) == Trace(operand, v)
  {
    Not(operand, NotPassMessage)
  }

  /** Every evaluation runs at least one leaf. */
  lemma {:induction false} TraceNonEmpty<T>(r: Rule<T>, v: T)
    ensures |Trace(r, v)| > 0
  {
    match r
    case And(lhs, _) => TraceNonEmpty(lhs, v);
    case Or(lhs, _) => TraceNonEmpty(lhs, v);
    case Not(operand, _) => TraceNonEmpty(operand, v);
    case _ =>
  }

  /**
   * `lhs & rhs` runs `rhs` exactly when `lhs` passes, and its failure reason
   * is that of the one operand that failed.
   */
  lemma AndSemantics<T>(lhs: Rule<T>, rhs: Rule<T>, v: T)
    ensures Eval(And(lhs, rhs), v).Pass? <==> Eval(lhs, v).Pass? && Eval(rhs, v).Pass?
    ensures Eval(lhs, v).Fail? ==> Eval(And(lhs, rhs), v) == Eval(lhs, v)
    ensures Eval(lhs, v).Pass? && Eval(rhs, v).Fail? ==> Eval(And(lhs, rhs), v) == Eval(rhs, v)
    ensures Eval(lhs, v).Pass? <==> |Trace(And(lhs, rhs), v)| > |Trace(lhs, v)|
  {
    TraceNonEmpty(rhs, v);
  }

  /**
   * `lhs | rhs` runs `rhs` exactly when `lhs` fails; when both fail the
   * reasons are joined in evaluation order, and when only `lhs` fails its
   * buffered reason is dropped.
   */
  lemma OrSemantics<T>(lhs: Rule<T>, rhs: Rule<T>, v: T)
    ensures Eval(Or(lhs, rhs), v).Pass? <==> Eval(lhs, v).Pass? || Eval(rhs, v).Pass?
    ensures Eval(lhs, v).Fail? && Eval(rhs, v).Fail? ==>
      Eval(Or(lhs, rhs), v) == Fail(Join([Eval(lhs, v).reason, Eval(rhs, v).reason], ReasonSeparator))
    ensures Eval(lhs, v).Fail? <==> |Trace(Or(lhs, rhs), v)| > |Trace(lhs, v)|
  {
    TraceNonEmpty(rhs, v);
    var a, b := Eval(lhs, v), Eval(rhs, v);
    if a.Fail? && b.Fail? {
      assert [a.reason, b.reason][1..] == [b.reason];
    }
  }

  // ----- n-ary chains built left to right: ((r0 & r1) & r2) & ... -----

  function AndChain<T>(rules: seq<Rule<T>>): Rule<T>
    requires |rules| > 0
  {
    if |rules| == 1 then rules[0] else And(AndChain(rules[..|rules| - 1]), rules[|rules| - 1])
  }

  function OrChain<T>(rules: seq<Rule<T>>): Rule<T>
    requires |rules| > 0
  {
    if |rules| == 1 then rules[0] else Or(OrChain(rules[..|rules| - 1]), rules[|rules| - 1])
  }

  /** The outcome each rule would deliver on `v`, in order. */
  function Outcomes<T>(rules: seq<Rule<T>>, v: T): (os: seq<Outcome>)
    ensures |os| == |rules|
    ensures forall i :: 0 <= i < |rules| ==> os[i] == Eval(rules[i], v)
  {
    seq(|rules|, i requires 0 <= i < |rules| => Eval(rules[i], v))
  }

  /** Index of the first failing outcome, or `|os|` when all pass. */
  function FirstFailure(os: seq<Outcome>): (k: nat)
    ensures k <= |os|
    ensures forall j :: 0 <= j < k ==> os[j].Pass?
    ensures k < |os| ==> os[k].Fail?
  {
    if |os| == 0 then 0 else if os[0].Fail? then 0 else 1 + FirstFailure(os[1..])
  }

  /** Index of the first passing outcome, or `|os|` when all fail. */
  function FirstSuccess(os: seq<Outcome>): (k: nat)
    ensures k <= |os|
    ensures forall j :: 0 <= j < k ==> os[j].Fail?
    ensures k < |os| ==> os[k].Pass?
  {
    if |os| == 0 then 0 else if os[0].Pass? then 0 else 1 + FirstSuccess(os[1..])
  }

  /** The reasons of the failing outcomes, in order. */
  function Reasons(os: seq<Outcome>): seq<string>
  {
    if |os| == 0 then []
    else Reasons(os[..|os| - 1]) + (if os[|os| - 1].Fail? then [os[|os| - 1].reason] else [])
  }

  /** The leaves run by evaluating each rule in turn. */
  function Traces<T>(rules: seq<Rule<T>>, v: T): seq<string>
  {
    if |rules| == 0 then [] else Traces(rules[..|rules| - 1], v) + Trace(rules[|rules| - 1], v)
  }

  /** How many of `n` operands a scan stopping at index `k` runs. */
  function Ran(k: nat, n: nat): nat
  {
    if k < n then k + 1 else n
  }

  /**
   * In a chain of `&`, only the operands up to and including the first
   * failing one run, and the chain fails with that operand's reason alone.
   */
  lemma {:induction false} AndChainSemantics<T>(rules: seq<Rule<T>>, v: T)
    requires |rules| > 0
    ensures var k := FirstFailure(Outcomes(rules, v));
      && Eval(AndChain(rules), v) == (if k == |rules| then Pass else Eval(rules[k], v))
      && Trace(AndChain(rules), v) == Traces(rules[..Ran(k, |rules|)], v)
  {
    var n := |rules|;
    var k := FirstFailure(Outcomes(rules, v));
    if n == 1 {
      assert rules[..Ran(k, n)] == rules;
    } else {
      var init, last := rules[..n - 1], rules[n - 1];
      AndChainSemantics(init, v);
      OutcomesSnoc(rules, v);
      FirstFailureSnoc(Outcomes(init, v), Eval(last, v));
      var k' := FirstFailure(Outcomes(init, v));
      if k' < n - 1 {
        assert rules[..Ran(k, n)] == init[..Ran(k', n - 1)];
      } else {
        assert init[..Ran(k', n - 1)] == init;
        assert rules[..Ran(k, n)] == rules;
      }
    }
  }

  /**
   * In a chain of `|`, only the operands up to and including the first
   * passing one run; when none passes, the chain fails with every reason
   * joined by `"; "` in evaluation order.
   */
  lemma {:induction false} OrChainSemantics<T>(rules: seq<Rule<T>>, v: T)
    requires |rules| > 0
    ensures var os := Outcomes(rules, v); var k := FirstSuccess(os);
      && Eval(OrChain(rules), v) == (if k < |rules| then Pass else Fail(Join(Reasons(os), ReasonSeparator)))
      && (k == |rules| ==> |Reasons(os)| == |rules|)
      && Trace(OrChain(rules), v) == Traces(rules[..Ran(k, |rules|)], v)
  {
    var n := |rules|;
    var os := Outcomes(rules, v);
    var k := FirstSuccess(os);
    if n == 1 {
      assert rules[..Ran(k, n)] == rules;
      assert os[..0] == [];
    } else {
      var init, last := rules[..n - 1], rules[n - 1];
      var os' := Outcomes(init, v);
      OrChainSemantics(init, v);
      OutcomesSnoc(rules, v);
      FirstSuccessSnoc(os', Eval(last, v));
      var k' := FirstSuccess(os');
      if k' < n - 1 {
        assert rules[..Ran(k, n)] == init[..Ran(k', n - 1)];
      } else {
        assert init[..Ran(k', n - 1)] == init;
        assert rules[..Ran(k, n)] == rules;
        assert os[..n - 1] == os';
        if Eval(last, v).Fail? {
          JoinSnoc(Reasons(os'), Eval(last, v).reason, ReasonSeparator);
        }
      }
    }
  }

  lemma OutcomesSnoc<T>(rules: seq<Rule<T>>, v: T)
    requires |rules| > 0
    ensures Outcomes(rules, v) == Outcomes(rules[..|rules| - 1], v) + [Eval(rules[|rules| - 1], v)]
  {
  }

  lemma {:induction false} FirstFailureSnoc(os: seq<Outcome>, o: Outcome)
    ensures FirstFailure(os + [o]) ==
      if FirstFailure(os) < |os| then FirstFailure(os) else if o.Fail? then |os| else |os| + 1
  {
    if |os| > 0 {
      assert (os + [o])[1..] == os[1..] + [o];
      FirstFailureSnoc(os[1..], o);
    }
  }

  lemma {:induction false} FirstSuccessSnoc(os: seq<Outcome>, o: Outcome)
    ensures FirstSuccess(os + [o]) ==
      if FirstSuccess(os) < |os| then FirstSuccess(os) else if o.Pass? then |os| else |os| + 1
  {
    if |os| > 0 {
      assert (os + [o])[1..] == os[1..] + [o];
      FirstSuccessSnoc(os[1..], o);
    }
  }

  // ----- the imperative evaluation: proxies and their folds -----

  function Size<T>(r: Rule<T>): nat
  {
    match r
    case And(lhs, rhs) => 2 + Size(lhs) + Size(rhs)
    case Or(lhs, rhs) => 2 + Size(lhs) + Size(rhs)
    case Not(operand, _) => 2 + Size(operand)
    case _ => 1
  }

  function SizeAll<T>(rules: seq<Rule<T>>): nat
  {
    if |rules| == 0 then 0 else Size(rules[0]) + SizeAll(rules[1..])
  }

  lemma {:induction false} SizeAllBound<T>(rules: seq<Rule<T>>, i: nat)
    requires i < |rules|
    ensures Size(rules[i]) <= SizeAll(rules)
  {
    if i > 0 {
      SizeAllBound(rules[1..], i - 1);
    }
  }

  lemma SizeAllPair<T>(lhs: Rule<T>, rhs: Rule<T>)
    ensures SizeAll([lhs, rhs]) == Size(lhs) + Size(rhs)
  {
    assert [lhs, rhs][1..] == [rhs];
    assert [rhs][1..] == [];
    assert SizeAll([rhs]) == Size(rhs) + SizeAll([rhs][1..]);
  }

  /**
   * `TestProxy`: a test whose `pass` always returns true and whose `fail`
   * buffers the reason. The combinator that owns it reports once to the
   * wrapped test at the end; here that final report is the returned
   * `Outcome`, which the caller delivers to its own test.
   */
  class TestProxy {
    var failureReasons: seq<string>

    constructor ()
      ensures failureReasons == []
    {
      failureReasons := [];
    }

    /** The buffered reasons joined by `"; "` in the order they were buffered. */
    function Reason(): string
      reads this
    {
      Join(failureReasons, ReasonSeparator)
    }

    method Pass() returns (ok: bool)
      ensures ok
    {
      ok := true;
    }

    method Fail(reason: string) returns (ok: bool)
      modifies this
      ensures failureReasons == old(failureReasons) + [reason]
      ensures !ok
    {
      failureReasons := failureReasons + [reason];
      ok := false;
    }

    /** An operand reporting to this proxy: the one callback its outcome names. */
    method Receive(o: Outcome) returns (ok: bool)
      modifies this
      ensures ok == o.Pass?
      ensures failureReasons == old(failureReasons) + (if o.Fail? then [o.reason] else [])
    {
      if o.Pass? {
        ok := Pass();
      } else {
        ok := Fail(o.reason);
      }
    }

    /**
     * `allPass`: `reduce(true) { $0 && rule.test(value, self) }`, then one
     * report. Operands after the first failure are never run.
     */
    method AllPass<T>(v: T, rules: seq<Rule<T>>) returns (report: Outcome, ghost trace: seq<string>)
      modifies this
      decreases SizeAll(rules) + 1
      ensures var os := Outcomes(rules, v); var k := FirstFailure(os);
        && failureReasons == old(failureReasons) + (if k < |rules| then [os[k].reason] else [])
        && report == (if k == |rules| then Outcome.Pass else Outcome.Fail(Reason()))
        && trace == Traces(rules[..Ran(k, |rules|)], v)
    {
      ghost var os := Outcomes(rules, v);
      ghost var k := FirstFailure(os);
      var result := true;
      trace := [];
      for i := 0 to |rules|
        invariant result <==> k >= i
        invariant failureReasons == old(failureReasons) + (if k < i then [os[k].reason] else [])
        invariant trace == Traces(rules[..if k < i then k + 1 else i], v)
      {
        if result {
          SizeAllBound(rules, i);
          var o, t := Test(rules[i], v);
          assert o == os[i];
          result := Receive(o);
          TracesPrefix(rules, i, v);
          trace := trace + t;
          if !result {
            assert k == i;
          }
        }
      }
      if result {
        report := Outcome.Pass;
      } else {
        report := Outcome.Fail(Reason());
      }
      assert rules[..|rules|] == rules;
    }

    /**
     * `anyPass`: `reduce(false) { $0 || rule.test(value, self) }`, then one
     * report. Operands after the first success are never run.
     */
    method AnyPass<T>(v: T, rules: seq<Rule<T>>) returns (report: Outcome, ghost trace: seq<string>)
      modifies this
      decreases SizeAll(rules) + 1
      ensures var os := Outcomes(rules, v); var k := FirstSuccess(os);
        && failureReasons == old(failureReasons) + Reasons(os[..k])
        && report == (if k < |rules| then Outcome.Pass else Outcome.Fail(Reason()))
        && trace == Traces(rules[..Ran(k, |rules|)], v)
    {
      ghost var os := Outcomes(rules, v);
      ghost var k := FirstSuccess(os);
      var result := false;
      trace := [];
      for i := 0 to |rules|
        invariant result <==> k < i
        invariant !result ==> failureReasons == old(failureReasons) + Reasons(os[..i])
        invariant result ==> failureReasons == old(failureReasons) + Reasons(os[..k])
        invariant !result ==> trace == Traces(rules[..i], v)
        invariant result ==> trace == Traces(rules[..k + 1], v)
      {
        if !result {
          SizeAllBound(rules, i);
          var o, t := Test(rules[i], v);
          assert o == os[i];
          result := Receive(o);
          ReasonsPrefix(os, i);
          TracesPrefix(rules, i, v);
          trace := trace + t;
          if result {
            assert k == i;
          }
        }
      }
      if result {
        report := Outcome.Pass;
      } else {
        report := Outcome.Fail(Reason());
      }
      assert rules[..|rules|] == rules;
      assert os[..|os|] == os;
    }

    /** `notPass`: fails with `failMessage` when the operand passes, passes otherwise. */
    method NotPass<T>(v: T, rule: Rule<T>, failMessage: string) returns (report: Outcome, ghost trace: seq<string>)
      modifies this
      decreases Size(rule) + 1
      ensures failureReasons == old(failureReasons) + (if Eval(rule, v).Fail? then [Eval(rule, v).reason] else [])
      ensures report == if Eval(rule, v).Pass? then Outcome.Fail(failMessage) else Outcome.Pass
      ensures trace == Trace(rule, v)
    {
      var o;
      o, trace := Test(rule, v);
      var result := Receive(o);
      if result {
        report := Outcome.Fail(failMessage);
      } else {
        report := Outcome.Pass;
      }
    }
  }

  /**
   * `rule.test(value, test)`: runs the rule and returns the one callback it
   * calls on `test`. The combinators each allocate a fresh proxy, so no
   * reason carries over from one evaluation to the next.
   */
  method Test<T>(r: Rule<T>, v: T) returns (report: Outcome, ghost trace: seq<string>)
    decreases Size(r)
    ensures report == Eval(r, v)
    ensures trace == Trace(r, v)
  {
    match r
    case Atom(name, holds, message) =>
      report := if holds(v) then Pass else Fail(message(v));
      trace := [name];
    case Passing =>
      report := Pass;
      trace := ["passing"];
    case Failing(reason) =>
      report := Fail(reason);
      trace := ["failing"];
    case And(lhs, rhs) =>
      var proxy := new TestProxy();
      SizeAllPair(lhs, rhs);
      report, trace := proxy.AllPass(v, [lhs, rhs]);
      PairChains(lhs, rhs);
      AndChainSemantics([lhs, rhs], v);
      if report.Fail? {
        assert |proxy.failureReasons| == 1;
      }
    case Or(lhs, rhs) =>
      var proxy := new TestProxy();
      SizeAllPair(lhs, rhs);
      report, trace := proxy.AnyPass(v, [lhs, rhs]);
      PairChains(lhs, rhs);
      OrChainSemantics([lhs, rhs], v);
      assert Outcomes([lhs, rhs], v)[..2] == Outcomes([lhs, rhs], v);
      if report.Fail? {
        assert proxy.failureReasons == Reasons(Outcomes([lhs, rhs], v));
      }
    case Not(operand, failMessage) =>
      var proxy := new TestProxy();
      report, trace := proxy.NotPass(v, operand, failMessage);
  }

  /** A binary combinator is the two-operand chain. */
  lemma PairChains<T>(lhs: Rule<T>, rhs: Rule<T>)
    ensures AndChain([lhs, rhs]) == And(lhs, rhs)
    ensures OrChain([lhs, rhs]) == Or(lhs, rhs)
  {
    assert [lhs, rhs][..1] == [lhs];
  }

  lemma ReasonsPrefix(os: seq<Outcome>, i: nat)
    requires i < |os|
    ensures Reasons(os[..i + 1]) == Reasons(os[..i]) + (if os[i].Fail? then [os[i].reason] else [])
  {
    assert os[..i + 1][..i] == os[..i];
  }

  lemma TracesPrefix<T>(rules: seq<Rule<T>>, i: nat, v: T)
    requires i < |rules|
    ensures Traces(rules[..i + 1], v) == Traces(rules[..i], v) + Trace(rules[i], v)
  {
    assert rules[..i + 1][..i] == rules[..i];
  }
}

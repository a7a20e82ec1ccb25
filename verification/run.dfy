/**
 * `verify` and `verifyStrict`: a fresh sink, every binding reachable from
 * the given objects bound to it, the block of assignments run, and an
 * error carrying the sink's failures when it ends up failing.
 *
 * The block is a closure in the library. Here it is a list of assignments
 * to the wrapped values of `Must` and `Should` properties, in order.
 */
module Runs {
  import opened Rules
  import opened Verifications
  import opened Constraints
  import opened Verifiables
  import Musts
  import Shoulds

  /** One assignment of the block: a value for a `Must` property, an optional one for a `Should` property. */
  datatype Assignment =
    | AssignMust(must: Musts.Must, value: Value)
    | AssignShould(should: Shoulds.Should, optional: Option<Value>)

  function Target(a: Assignment): Binding
  {
    match a
    case AssignMust(m, _) => MustBinding(m)
    case AssignShould(s, _) => ShouldBinding(s)
  }

  /** The slots of every root in turn, each walked from the empty path. */
  function AllSlots(roots: seq<Node>): seq<Slot>
  {
    if |roots| == 0 then [] else AllSlots(roots[..|roots| - 1]) + Slots(roots[|roots| - 1], [])
  }

  lemma {:induction false} AllSlotsPrefix(roots: seq<Node>, i: nat)
    requires i <= |roots|
    ensures AllSlots(roots[..i]) <= AllSlots(roots)
    decreases |roots| - i
  {
    if i < |roots| {
      var r := roots[..|roots| - 1];
      assert r[..i] == roots[..i];
      AllSlotsPrefix(r, i);
    } else {
      assert roots[..i] == roots;
    }
  }

  /** The failures an assignment records at `path`: the `Must` and `Should` setters' own. */
  function StepRecords(a: Assignment, path: Path, strict: bool): (fs: seq<Failure>)
    ensures |fs| <= 1
  {
    match a
    case AssignMust(m, v) => Recorded(m.rule, v, path)
    case AssignShould(s, o) => Shoulds.Records(s.rule, o, path, strict)
  }

  /** The value an assignment leaves behind, given whether the sink was passing and the value held before. */
  function StepValue(a: Assignment, passing: bool, held: Option<Value>): Option<Value>
  {
    match a
    case AssignMust(m, v) => if Musts.Accepts(m.rule, v, passing) then Some(v) else held
    case AssignShould(s, o) => if Shoulds.Accepts(s.rule, o, passing) then o else None
  }

  /**
   * The failures one assignment adds to the run's sink: those its rule
   * reports at the binding's path, and none for a property the run did not
   * reach (it reports to a sink of its own).
   */
  function StepFailures(slots: seq<Slot>, strict: bool, a: Assignment): (fs: seq<Failure>)
    ensures |fs| <= 1
  {
    if Target(a) !in Reached(slots) then [] else StepRecords(a, LastPath(slots, Target(a)).value, strict)
  }

  /** The run's failures after the assignments of `block`: each one adds at most one. */
  function Failures(slots: seq<Slot>, strict: bool, block: seq<Assignment>): (fs: seq<Failure>)
    ensures |fs| <= |block|
  {
    if |block| == 0 then []
    else Failures(slots, strict, block[..|block| - 1]) + StepFailures(slots, strict, block[|block| - 1])
  }

  /**
   * The wrapped value of `b` after the assignments of `block`, starting from
   * `initial`. The test of each assignment sees whether the run was still
   * passing before it.
   */
  function ValueAfter(slots: seq<Slot>, strict: bool, block: seq<Assignment>, b: Binding, initial: Option<Value>): Option<Value>
  {
    if |block| == 0 then initial
    else
      var prefix, a := block[..|block| - 1], block[|block| - 1];
      var held := ValueAfter(slots, strict, prefix, b, initial);
      var passing := Failures(slots, strict, prefix) == [];
      if Target(a) != b then held else StepValue(a, passing, held)
  }

  /** The sink only grows: the failures after a prefix of the block start the failures after all of it. */
  lemma {:induction false} FailuresGrow(slots: seq<Slot>, strict: bool, prefix: seq<Assignment>, rest: seq<Assignment>)
    ensures Failures(slots, strict, prefix) <= Failures(slots, strict, prefix + rest)
    decreases |rest|
  {
    if |rest| == 0 {
      assert prefix + rest == prefix;
    } else {
      assert (prefix + rest)[..|prefix + rest| - 1] == prefix + rest[..|rest| - 1];
      FailuresGrow(slots, strict, prefix, rest[..|rest| - 1]);
    }
  }

  /**
   * Once the run has failed, a `Must` property keeps its value whatever is
   * assigned to it: its test answers false on a failing sink.
   */
  lemma {:induction false} MustFrozenAfterFailure(slots: seq<Slot>, strict: bool, prefix: seq<Assignment>, rest: seq<Assignment>,
                                                 m: Musts.Must, initial: Option<Value>)
    requires Failures(slots, strict, prefix) != []
    ensures ValueAfter(slots, strict, prefix + rest, MustBinding(m), initial)
      == ValueAfter(slots, strict, prefix, MustBinding(m), initial)
    decreases |rest|
  {
    if |rest| == 0 {
      assert prefix + rest == prefix;
    } else {
      var shorter := rest[..|rest| - 1];
      assert (prefix + rest)[..|prefix + rest| - 1] == prefix + shorter;
      MustFrozenAfterFailure(slots, strict, prefix, shorter, m, initial);
      FailuresGrow(slots, strict, prefix, shorter);
    }
  }

  /** Once the run has failed, assigning a `Should` property clears it, even with a valid value. */
  lemma ShouldClearedAfterFailure(slots: seq<Slot>, strict: bool, prefix: seq<Assignment>, a: Assignment,
                                  s: Shoulds.Should, initial: Option<Value>)
    requires Target(a) == ShouldBinding(s)
    requires Failures(slots, strict, prefix) != []
    ensures ValueAfter(slots, strict, prefix + [a], ShouldBinding(s), initial) == None
  {
    assert (prefix + [a])[..|prefix|] == prefix;
  }

  /** Under `verify`, which is not strict, assignments to `Should` properties record nothing. */
  lemma {:induction false} LenientShouldsRecordNothing(slots: seq<Slot>, block: seq<Assignment>)
    requires forall j :: 0 <= j < |block| ==> block[j].AssignShould?
    ensures Failures(slots, false, block) == []
    decreases |block|
  {
    if |block| > 0 {
      LenientShouldsRecordNothing(slots, block[..|block| - 1]);
    }
  }

  /**
   * A `Must` property ends the block with the value it had, or with a value
   * the block assigned to it that passes its rule.
   */
  lemma {:induction false} MustValueOrigin(slots: seq<Slot>, strict: bool, block: seq<Assignment>,
                                          m: Musts.Must, initial: Option<Value>)
    ensures var r := ValueAfter(slots, strict, block, MustBinding(m), initial);
      r == initial || (r.Some? && AssignMust(m, r.value) in block && Check(m.rule, r.value) == Some(Pass))
    decreases |block|
  {
    if |block| > 0 {
      MustValueOrigin(slots, strict, block[..|block| - 1], m, initial);
    }
  }

  /**
   * A `Should` property ends the block with the value it had, cleared, or
   * with a value the block assigned to it that passes its rule.
   */
  lemma {:induction false} ShouldValueOrigin(slots: seq<Slot>, strict: bool, block: seq<Assignment>,
                                            s: Shoulds.Should, initial: Option<Value>)
    ensures var r := ValueAfter(slots, strict, block, ShouldBinding(s), initial);
      r == initial || r == None || (AssignShould(s, r) in block && Check(s.rule, r.value) == Some(Pass))
    decreases |block|
  {
    if |block| > 0 {
      ShouldValueOrigin(slots, strict, block[..|block| - 1], s, initial);
    }
  }

  /** One more root: its slots come next, and its objects are among all the roots' objects. */
  lemma RootStep(roots: seq<Node>, i: nat)
    requires i < |roots|
    ensures var next := Slots(roots[i], []);
      && AllSlots(roots[..i + 1]) == AllSlots(roots[..i]) + next
      && MustsOf(next) <= MustsOf(AllSlots(roots))
      && ShouldsOf(next) <= ShouldsOf(AllSlots(roots))
  {
    var next := Slots(roots[i], []);
    assert roots[..i + 1][..i] == roots[..i];
    SetsOfConcat(AllSlots(roots[..i]), next);
    AllSlotsPrefix(roots, i + 1);
    PrefixSets(AllSlots(roots[..i + 1]), AllSlots(roots));
  }

  /** `forEach { prepareForVerification(context:path:) }` over the roots, all with the same context. */
  method PrepareAll(roots: seq<Node>, ctx: Context) returns (ghost done: seq<Slot>)
    modifies MustsOf(AllSlots(roots))`context, ShouldsOf(AllSlots(roots))`context
    ensures done == AllSlots(roots)
    ensures forall b :: b in Reached(done) ==> ContextOf(b) == Rebase(ctx, LastPath(done, b).value)
  {
    done := [];
    for i := 0 to |roots|
      invariant done == AllSlots(roots[..i])
      invariant forall b :: b in Reached(done) ==> ContextOf(b) == Rebase(ctx, LastPath(done, b).value)
    {
      ghost var next := Slots(roots[i], []);
      RootStep(roots, i);
      SetsOfConcat(done, next);
      label Before:
      Prepare(roots[i], ctx, []);
      forall b | b in Reached(done + next)
        ensures ContextOf(b) == Rebase(ctx, LastPath(done + next, b).value)
      {
        LastPathConcat(done, next, b);
        ObjectsOfReached(next, b);
        if b !in Reached(next) {
          var j := SlotOf(done, b);
          assert ContextOf(b) == old@Before(ContextOf(done[j].binding));
        }
      }
      done := done + next;
    }
    assert roots[..|roots|] == roots;
  }

  /** One more assignment: it adds its step's failures, and changes the value of its own target only. */
  lemma Snoc(slots: seq<Slot>, strict: bool, block: seq<Assignment>, a: Assignment, b: Binding, initial: Option<Value>)
    ensures Failures(slots, strict, block + [a]) == Failures(slots, strict, block) + StepFailures(slots, strict, a)
    ensures ValueAfter(slots, strict, block + [a], b, initial)
      == if Target(a) != b then ValueAfter(slots, strict, block, b, initial)
         else StepValue(a, Failures(slots, strict, block) == [], ValueAfter(slots, strict, block, b, initial))
  {
    assert (block + [a])[..|block|] == block;
  }

  /** `Snoc` at position `i` of the block. */
  lemma BlockSnoc(slots: seq<Slot>, strict: bool, block: seq<Assignment>, i: nat, b: Binding, initial: Option<Value>)
    requires i < |block|
    ensures Failures(slots, strict, block[..i + 1]) == Failures(slots, strict, block[..i]) + StepFailures(slots, strict, block[i])
    ensures ValueAfter(slots, strict, block[..i + 1], b, initial)
      == if Target(block[i]) != b then ValueAfter(slots, strict, block[..i], b, initial)
         else StepValue(block[i], Failures(slots, strict, block[..i]) == [], ValueAfter(slots, strict, block[..i], b, initial))
  {
    assert block[..i + 1] == block[..i] + [block[i]];
    Snoc(slots, strict, block[..i], block[i], b, initial);
  }

  /** One assignment of the block: the setter of its property, reporting to that property's context. */
  method Apply(a: Assignment)
    modifies ObjectOf(Target(a)), ContextOf(Target(a)).verification
    ensures ContextOf(Target(a)) == old(ContextOf(Target(a)))
    ensures WrappedOf(Target(a))
      == StepValue(a, old(ContextOf(Target(a)).verification.Passing()), old(WrappedOf(Target(a))))
    ensures ContextOf(Target(a)).verification.failures == old(ContextOf(Target(a)).verification.failures)
      + StepRecords(a, ContextOf(Target(a)).path, ContextOf(Target(a)).strict)
  {
    match a {
      case AssignMust(m, v) => m.Set(v);
      case AssignShould(sh, o) => sh.Set(o);
    }
  }

  /** The objects of the block's targets: the properties the block assigns. */
  function TargetObjects(block: seq<Assignment>): (r: set<object>)
    ensures forall j :: 0 <= j < |block| ==> ObjectOf(Target(block[j])) in r
  {
    if |block| == 0 then {} else TargetObjects(block[..|block| - 1]) + {ObjectOf(Target(block[|block| - 1]))}
  }

  /** The sinks the block's targets report to before the run. */
  function TargetSinks(block: seq<Assignment>): (r: set<object>)
    reads TargetObjects(block)
    ensures forall j :: 0 <= j < |block| ==> ContextOf(Target(block[j])).verification in r
  {
    if |block| == 0 then {}
    else TargetSinks(block[..|block| - 1]) + {ContextOf(Target(block[|block| - 1])).verification}
  }

  /** The wrapped values of the block's targets, one per assignment. */
  function WrappedValues(block: seq<Assignment>): (r: seq<Option<Value>>)
    reads TargetObjects(block)
    ensures |r| == |block|
    ensures forall j :: 0 <= j < |block| ==> r[j] == WrappedOf(Target(block[j]))
  {
    if |block| == 0 then []
    else WrappedValues(block[..|block| - 1]) + [WrappedOf(Target(block[|block| - 1]))]
  }

  /** The contexts of the block's targets, one per assignment. */
  function Contexts(block: seq<Assignment>): (r: seq<Context>)
    reads TargetObjects(block)
    ensures |r| == |block|
    ensures forall j :: 0 <= j < |block| ==> r[j] == ContextOf(Target(block[j]))
  {
    if |block| == 0 then []
    else Contexts(block[..|block| - 1]) + [ContextOf(Target(block[|block| - 1]))]
  }

  /**
   * Assignment `i` of the run: the sink gains that assignment's failures,
   * the reached bindings keep the run's contexts, the others keep theirs
   * (with sinks of their own), and each reached property holds the value
   * the block leaves it so far, from its value before the run.
   */
  method Step(block: seq<Assignment>, i: nat, ghost slots: seq<Slot>, strict: bool, sink: Verification,
              ghost initial: seq<Option<Value>>, ghost contexts: seq<Context>)
    requires i < |block| == |initial| == |contexts|
    requires sink.failures == Failures(slots, strict, block[..i])
    requires forall b :: b in Reached(slots) ==> ContextOf(b) == Context(LastPath(slots, b).value, strict, sink)
    requires forall j :: 0 <= j < |block| && Target(block[j]) !in Reached(slots) ==>
      ContextOf(Target(block[j])) == contexts[j] && contexts[j].verification != sink
    requires forall j :: 0 <= j < |block| && Target(block[j]) in Reached(slots) ==>
      WrappedOf(Target(block[j])) == ValueAfter(slots, strict, block[..i], Target(block[j]), initial[j])
    modifies ObjectOf(Target(block[i])), ContextOf(Target(block[i])).verification
    ensures sink.failures == Failures(slots, strict, block[..i + 1])
    ensures forall b :: b in Reached(slots) ==> ContextOf(b) == Context(LastPath(slots, b).value, strict, sink)
    ensures forall j :: 0 <= j < |block| && Target(block[j]) !in Reached(slots) ==>
      ContextOf(Target(block[j])) == contexts[j] && contexts[j].verification != sink
    ensures forall j :: 0 <= j < |block| && Target(block[j]) in Reached(slots) ==>
      WrappedOf(Target(block[j])) == ValueAfter(slots, strict, block[..i + 1], Target(block[j]), initial[j])
  {
    ghost var t := Target(block[i]);
    if t in Reached(slots) {
      assert ContextOf(t).verification == sink;
    }
    BlockSnoc(slots, strict, block, i, t, WrappedOf(t));
    label Before:
    Apply(block[i]);
    assert sink.failures == Failures(slots, strict, block[..i + 1]);
    forall j | 0 <= j < |block| && Target(block[j]) in Reached(slots)
      ensures WrappedOf(Target(block[j])) == ValueAfter(slots, strict, block[..i + 1], Target(block[j]), initial[j])
    {
      BlockSnoc(slots, strict, block, i, Target(block[j]), initial[j]);
      if Target(block[j]) != t {
        assert WrappedOf(Target(block[j])) == old@Before(WrappedOf(Target(block[j])));
      }
    }
    forall j | 0 <= j < |block| && Target(block[j]) !in Reached(slots)
      ensures ContextOf(Target(block[j])) == contexts[j]
    {
      assert ContextOf(Target(block[j])) == old@Before(ContextOf(Target(block[j])));
    }
    forall b | b in Reached(slots)
      ensures ContextOf(b) == Context(LastPath(slots, b).value, strict, sink)
    {
      var k := SlotOf(slots, b);
      assert ContextOf(b) == old@Before(ContextOf(slots[k].binding));
    }
  }

  /** `block()`: the assignments in order, each one a `Step`. */
  method RunBlock(block: seq<Assignment>, ghost slots: seq<Slot>, strict: bool, sink: Verification,
                  ghost initial: seq<Option<Value>>, ghost contexts: seq<Context>)
    requires |block| == |initial| == |contexts|
    requires sink.failures == []
    requires forall b :: b in Reached(slots) ==> ContextOf(b) == Context(LastPath(slots, b).value, strict, sink)
    requires forall j :: 0 <= j < |block| && Target(block[j]) !in Reached(slots) ==>
      ContextOf(Target(block[j])) == contexts[j] && contexts[j].verification != sink
    requires forall j :: 0 <= j < |block| ==> WrappedOf(Target(block[j])) == initial[j]
    modifies TargetObjects(block)
    modifies {sink} + set j | 0 <= j < |block| :: contexts[j].verification
    ensures sink.failures == Failures(slots, strict, block)
    ensures forall b :: b in Reached(slots) ==> ContextOf(b) == Context(LastPath(slots, b).value, strict, sink)
    ensures forall j :: 0 <= j < |block| && Target(block[j]) in Reached(slots) ==>
      WrappedOf(Target(block[j])) == ValueAfter(slots, strict, block, Target(block[j]), initial[j])
  {
    for i := 0 to |block|
      invariant sink.failures == Failures(slots, strict, block[..i])
      invariant forall b :: b in Reached(slots) ==> ContextOf(b) == Context(LastPath(slots, b).value, strict, sink)
      invariant forall j :: 0 <= j < |block| && Target(block[j]) !in Reached(slots) ==>
        ContextOf(Target(block[j])) == contexts[j] && contexts[j].verification != sink
      invariant forall j :: 0 <= j < |block| && Target(block[j]) in Reached(slots) ==>
        WrappedOf(Target(block[j])) == ValueAfter(slots, strict, block[..i], Target(block[j]), initial[j])
    {
      Step(block, i, slots, strict, sink, initial, contexts);
    }
    assert block[..|block|] == block;
  }

  /**
   * `verify` (`strict` false) and `verifyStrict` (`strict` true). Every
   * reached binding ends up with the fresh sink, the run's strict flag and
   * the path of its last slot; the sink holds the failures of the reached
   * assignments, in order; the error carries them exactly when there are
   * any; and each reached property holds the value the block leaves it.
   */
  method Verify(roots: seq<Node>, block: seq<Assignment>, strict: bool)
      returns (err: Option<VerificationError>, ghost sink: Verification)
    modifies MustsOf(AllSlots(roots))`context, ShouldsOf(AllSlots(roots))`context
    modifies TargetObjects(block), TargetSinks(block)
    ensures fresh(sink)
    ensures sink.failures == Failures(AllSlots(roots), strict, block)
    ensures err == if sink.failures == [] then None else Some(RulesBroken(sink.failures))
    ensures forall b :: b in Reached(AllSlots(roots)) ==>
      ContextOf(b) == Context(LastPath(AllSlots(roots), b).value, strict, sink)
    ensures forall j :: 0 <= j < |block| && Target(block[j]) in Reached(AllSlots(roots)) ==>
      WrappedOf(Target(block[j]))
      == ValueAfter(AllSlots(roots), strict, block, Target(block[j]), old(WrappedOf(Target(block[j]))))
  {
    ghost var initial := WrappedValues(block);
    ghost var contexts := Contexts(block);
    var verification := new Verification();
    sink := verification;
    ghost var slots := PrepareAll(roots, Context([], strict, verification));
    forall j | 0 <= j < |block|
      ensures Target(block[j]) !in Reached(slots) ==> ContextOf(Target(block[j])) == contexts[j]
      ensures WrappedOf(Target(block[j])) == initial[j]
    {
      ObjectsOfReached(slots, Target(block[j]));
    }
    RunBlock(block, slots, strict, verification, initial, contexts);
    err := if verification.Failing() then Some(RulesBroken(verification.failures)) else None;
  }
}

/**
 * The library's own scenarios for `verify` and `verifyStrict`, built from
 * the model: a basket with a nested client, and a client with an optional
 * name.
 */
module Scenarios {
  import opened Text
  import opened Rules
  import opened MiscRules
  import opened Messages
  import opened Verifications
  import opened Constraints
  import opened Verifiables
  import opened Runs
  import Musts
  import Shoulds

  /** `Basket`: `@Must(.bePositiveInteger) amount`, a nested `client`, and a plain `version`. */
  function BasketNode(amount: Musts.Must, client: Node): Node
  {
    Node([ConstraintField("_amount", MustBinding(amount)), ChildField("client", client), PlainField("version")])
  }

  /** `ClientStrict` and `Client`: one constraint, on `name`. */
  function ClientNode(name: Binding): Node
  {
    Node([ConstraintField("_name", name)])
  }

  lemma OwnName(propLabel: string, name: string, b: Binding)
    requires propLabel == "_" + name && name != []
    ensures ConstraintsOf([ConstraintField(propLabel, b)]) == [(name, b)]
  {
    assert ConstraintName(propLabel) == Some(name);
    assert [ConstraintField(propLabel, b)][..0] == [];
  }

  /** A client is reached at its own path extended by `name`. */
  lemma ClientSlots(b: Binding, path: Path)
    ensures Slots(ClientNode(b), path) == [Slot(b, path + ["name"])]
  {
    OwnName("_name", "name", b);
    assert ChildSlots(ClientNode(b), 1, path) == [];
  }

  /** The basket's one nested object is the client, at `client`. */
  lemma BasketChildren(amount: Musts.Must, name: Binding)
    ensures ChildSlots(BasketNode(amount, ClientNode(name)), 3, []) == [Slot(name, ["client", "name"])]
  {
    var basket := BasketNode(amount, ClientNode(name));
    ClientSlots(name, ["client"]);
    assert basket.fields[1] == ChildField("client", ClientNode(name));
    assert [] + ["client"] == ["client"] && ["client"] + ["name"] == ["client", "name"];
    assert ChildSlots(basket, 1, []) == [];
    assert ChildSlots(basket, 2, []) == [Slot(name, ["client", "name"])];
  }

  /** The basket's one constraint is the amount. */
  lemma BasketConstraints(amount: Musts.Must, client: Node)
    ensures ConstraintsOf(BasketNode(amount, client).fields) == [("amount", MustBinding(amount))]
  {
    var fields := BasketNode(amount, client).fields;
    assert fields[..1] == [ConstraintField("_amount", MustBinding(amount))];
    OwnName("_amount", "amount", MustBinding(amount));
    assert fields[..2][..1] == fields[..1];
    assert ConstraintsOf(fields[..2]) == [("amount", MustBinding(amount))];
  }

  /** The walk reaches the client's name at `client.name` first, then the amount at `amount`. */
  lemma BasketSlots(amount: Musts.Must, name: Binding)
    ensures AllSlots([BasketNode(amount, ClientNode(name))])
      == [Slot(name, ["client", "name"]), Slot(MustBinding(amount), ["amount"])]
  {
    var basket := BasketNode(amount, ClientNode(name));
    BasketChildren(amount, name);
    BasketConstraints(amount, ClientNode(name));
    assert |basket.fields| == 3;
    assert [] + ["amount"] == ["amount"];
    assert OwnSlots([("amount", MustBinding(amount))], []) == [Slot(MustBinding(amount), ["amount"])];
    assert Slots(basket, []) == [Slot(name, ["client", "name"]), Slot(MustBinding(amount), ["amount"])];
    assert [basket][..0] == [];
  }

  /** The basket test's block. */
  function BasketBlock(amount: Musts.Must, name: Musts.Must): seq<Assignment>
  {
    [AssignMust(amount, IntValue(-1)), AssignMust(amount, IntValue(-2)), AssignMust(name, StringValue("new name"))]
  }

  /** The slots of the basket, as `BasketSlots` finds them. */
  function BasketWalk(amount: Musts.Must, name: Musts.Must): seq<Slot>
  {
    [Slot(MustBinding(name), ["client", "name"]), Slot(MustBinding(amount), ["amount"])]
  }

  /** The objects the basket run may change: the two bindings, their contexts, and their own sinks. */
  lemma BasketObjects(amount: Musts.Must, name: Musts.Must)
    ensures MustsOf(BasketWalk(amount, name)) == {name, amount}
    ensures ShouldsOf(BasketWalk(amount, name)) == {}
    ensures Reached(BasketWalk(amount, name)) == {MustBinding(name), MustBinding(amount)}
    ensures TargetObjects(BasketBlock(amount, name)) == {amount, name}
    ensures TargetSinks(BasketBlock(amount, name)) == {amount.context.verification, name.context.verification}
  {
    var walk, block := BasketWalk(amount, name), BasketBlock(amount, name);
    assert walk[..1] == [Slot(MustBinding(name), ["client", "name"])];
    assert walk[..1][..0] == [];
    assert MustsOf(walk[..1]) == {name} && ShouldsOf(walk[..1]) == {};
    assert Reached(walk[..1]) == {MustBinding(name)};
    assert block[..1] == [AssignMust(amount, IntValue(-1))];
    assert block[..2] == [AssignMust(amount, IntValue(-1)), AssignMust(amount, IntValue(-2))];
    assert block[..1][..0] == [];
    assert block[..2][..1] == block[..1];
    assert TargetObjects(block[..1]) == {amount};
    assert TargetObjects(block[..2]) == {amount};
    assert TargetSinks(block[..1]) == {amount.context.verification};
    assert TargetSinks(block[..2]) == {amount.context.verification};
  }

  /** What the basket test needs of its two rules: both amounts fail, the new name passes. */
  predicate BasketRules(amount: Musts.Must, name: Musts.Must)
  {
    && Check(amount.rule, IntValue(-1)) == Some(Fail(NotPositiveMessage(-1)))
    && Check(amount.rule, IntValue(-2)) == Some(Fail(NotPositiveMessage(-2)))
    && Check(name.rule, StringValue("new name")) == Some(Pass)
    && amount != name
  }

  lemma MinusOneFails()
    ensures Check(IntRule(BePositiveInteger()), IntValue(-1)) == Some(Fail(NotPositiveMessage(-1)))
  {
  }

  lemma MinusTwoFails()
    ensures Check(IntRule(BePositiveInteger()), IntValue(-2)) == Some(Fail(NotPositiveMessage(-2)))
  {
  }

  lemma NewNamePasses()
    ensures Check(StringRule(NotBeEmptyString()), StringValue("new name")) == Some(Pass)
  {
    assert Eval(NotBeEmptyString(), "new name").Pass?;
  }

  lemma OldNamePasses()
    ensures Check(StringRule(NotBeEmptyString()), StringValue("old name")) == Some(Pass)
  {
    assert Eval(NotBeEmptyString(), "old name").Pass?;
  }

  /** The library's `bePositiveInteger` and `notBeEmptyString` behave as the basket test needs. */
  lemma LibraryBasketRules(amount: Musts.Must, name: Musts.Must)
    requires amount.rule == IntRule(BePositiveInteger()) && name.rule == StringRule(NotBeEmptyString())
    ensures BasketRules(amount, name)
  {
    MinusOneFails();
    MinusTwoFails();
    NewNamePasses();
  }

  /** A negative amount fails at `amount` with the number in the reason. */
  lemma AmountStep(amount: Musts.Must, name: Musts.Must, strict: bool, v: int)
    requires Check(amount.rule, IntValue(v)) == Some(Fail(NotPositiveMessage(v)))
    ensures StepFailures(BasketWalk(amount, name), strict, AssignMust(amount, IntValue(v)))
      == [Failure("amount", NotPositiveMessage(v))]
  {
    var slots := BasketWalk(amount, name);
    assert slots[..1] == [slots[0]];
    assert MustBinding(amount) in Reached(slots);
    assert LastPath(slots, MustBinding(amount)) == Some(["amount"]);
    assert Pretty(["amount"]) == "amount";
  }

  /** A non-empty name records nothing. */
  lemma NameStep(amount: Musts.Must, name: Musts.Must, strict: bool)
    requires Check(name.rule, StringValue("new name")) == Some(Pass)
    ensures StepFailures(BasketWalk(amount, name), strict, AssignMust(name, StringValue("new name"))) == []
  {
  }

  /** Both amounts fail at `amount`, and nothing else fails. */
  lemma BasketFailures(amount: Musts.Must, name: Musts.Must, strict: bool)
    requires BasketRules(amount, name)
    ensures Failures(BasketWalk(amount, name), strict, [AssignMust(amount, IntValue(-1))])
      == [Failure("amount", NotPositiveMessage(-1))]
    ensures Failures(BasketWalk(amount, name), strict, BasketBlock(amount, name))
      == [Failure("amount", NotPositiveMessage(-1)), Failure("amount", NotPositiveMessage(-2))]
  {
    var walk := BasketWalk(amount, name);
    var a1, a2, a3 := AssignMust(amount, IntValue(-1)), AssignMust(amount, IntValue(-2)), AssignMust(name, StringValue("new name"));
    AmountStep(amount, name, strict, -1);
    AmountStep(amount, name, strict, -2);
    NameStep(amount, name, strict);
    Snoc(walk, strict, [], a1, MustBinding(name), None);
    assert [] + [a1] == [a1];
    Snoc(walk, strict, [a1], a2, MustBinding(name), None);
    assert [a1] + [a2] == [a1, a2];
    Snoc(walk, strict, [a1, a2], a3, MustBinding(name), None);
    assert [a1, a2] + [a3] == BasketBlock(amount, name);
  }

  /** The name, assigned after the amounts failed, keeps whatever it held. */
  lemma BasketNameKept(amount: Musts.Must, name: Musts.Must, strict: bool, initial: Option<Value>)
    requires BasketRules(amount, name)
    ensures ValueAfter(BasketWalk(amount, name), strict, BasketBlock(amount, name), MustBinding(name), initial) == initial
  {
    var walk := BasketWalk(amount, name);
    var a1 := AssignMust(amount, IntValue(-1));
    BasketFailures(amount, name, strict);
    Snoc(walk, strict, [], a1, MustBinding(name), initial);
    assert [] + [a1] == [a1];
    MustFrozenAfterFailure(walk, strict, [a1], BasketBlock(amount, name)[1..], name, initial);
    assert [a1] + BasketBlock(amount, name)[1..] == BasketBlock(amount, name);
  }

  /**
   * `verify(basket)` assigning -1 and then -2 to the amount, then "new name"
   * to the client's name, which holds "old name": the run fails with one
   * failure per amount, both at `amount`, and the name, although valid, is
   * refused because the run had already failed.
   */
  method BasketScenario(amount: Musts.Must, clientName: Musts.Must) returns (err: Option<VerificationError>)
    requires BasketRules(amount, clientName)
    requires clientName.wrapped == Some(StringValue("old name"))
    modifies amount, clientName, amount.context.verification, clientName.context.verification
    ensures err == Some(RulesBroken([
      Failure("amount", "-1 is not a positive integer"),
      Failure("amount", "-2 is not a positive integer")]))
    ensures clientName.wrapped == Some(StringValue("old name"))
  {
    var basket := BasketNode(amount, ClientNode(MustBinding(clientName)));
    var block := BasketBlock(amount, clientName);
    BasketSlots(amount, MustBinding(clientName));
    BasketObjects(amount, clientName);
    ghost var sink;
    err, sink := Verify([basket], block, false);
    BasketFailures(amount, clientName, false);
    BasketNameKept(amount, clientName, false, Some(StringValue("old name")));
    MinusOneMessage();
    MinusTwoMessage();
    assert Target(block[2]) == MustBinding(clientName);
  }

  /**
   * The whole test: a fresh basket, its client's name set to "old name"
   * outside any run (the binding's own sink is clean, so the value is
   * stored), then the run above.
   */
  method BasketTest() returns (err: Option<VerificationError>, name: Option<Value>)
    ensures err == Some(RulesBroken([
      Failure("amount", "-1 is not a positive integer"),
      Failure("amount", "-2 is not a positive integer")]))
    ensures name == Some(StringValue("old name"))
  {
    var amount := new Musts.Must(IntRule(BePositiveInteger()));
    var clientName := new Musts.Must(StringRule(NotBeEmptyString()));
    OldNamePasses();
    clientName.Set(StringValue("old name"));
    LibraryBasketRules(amount, clientName);
    err := BasketScenario(amount, clientName);
    name := clientName.wrapped;
  }

  // ----- a client with an optional name -----

  /** The client test's block: the empty string assigned to the name. */
  function ClientBlock(name: Shoulds.Should): seq<Assignment>
  {
    [AssignShould(name, Some(StringValue("")))]
  }

  /** The walk reaches the name at `name`, and the run may change the name and its own sink. */
  lemma ClientObjects(name: Shoulds.Should)
    ensures AllSlots([ClientNode(ShouldBinding(name))]) == [Slot(ShouldBinding(name), ["name"])]
    ensures MustsOf([Slot(ShouldBinding(name), ["name"])]) == {}
    ensures ShouldsOf([Slot(ShouldBinding(name), ["name"])]) == {name}
    ensures Reached([Slot(ShouldBinding(name), ["name"])]) == {ShouldBinding(name)}
    ensures TargetObjects(ClientBlock(name)) == {name}
    ensures TargetSinks(ClientBlock(name)) == {name.context.verification}
  {
    ClientSlots(ShouldBinding(name), []);
    assert [] + ["name"] == ["name"];
    assert [ClientNode(ShouldBinding(name))][..0] == [];
    assert [Slot(ShouldBinding(name), ["name"])][..0] == [];
    assert ClientBlock(name)[..0] == [];
  }

  /** Assigning the empty string records its failure only when strict, and leaves the name nil either way. */
  lemma ClientRun(name: Shoulds.Should, strict: bool, initial: Option<Value>)
    requires Check(name.rule, StringValue("")) == Some(Fail(EmptyMessage))
    ensures Failures([Slot(ShouldBinding(name), ["name"])], strict, ClientBlock(name))
      == if strict then [Failure("name", EmptyMessage)] else []
    ensures ValueAfter([Slot(ShouldBinding(name), ["name"])], strict, ClientBlock(name), ShouldBinding(name), initial) == None
  {
    var walk := [Slot(ShouldBinding(name), ["name"])];
    var a := AssignShould(name, Some(StringValue("")));
    assert walk[..0] == [];
    assert LastPath(walk, ShouldBinding(name)) == Some(["name"]);
    assert Pretty(["name"]) == "name";
    Snoc(walk, strict, [], a, ShouldBinding(name), initial);
    assert [] + [a] == ClientBlock(name);
  }

  lemma EmptyNameFails()
    ensures Check(StringRule(NotBeEmptyString()), StringValue("")) == Some(Fail(EmptyMessage))
  {
    assert Eval(NotBeEmptyString(), "").Fail?;
  }

  /**
   * `verify(client) { client.name = "" }` and then `verifyStrict` with the
   * same block: the lenient run does not throw and leaves the name nil; the
   * strict one throws with the single failure at `name`.
   */
  method ClientScenario(name: Shoulds.Should) returns (lenient: Option<VerificationError>, afterLenient: Option<Value>,
                                                       strictErr: Option<VerificationError>)
    requires Check(name.rule, StringValue("")) == Some(Fail(EmptyMessage))
    modifies name, name.context.verification
    ensures lenient == None && afterLenient == None
    ensures strictErr == Some(RulesBroken([Failure("name", "Provided string is empty")]))
    ensures name.wrapped == None
  {
    var client := ClientNode(ShouldBinding(name));
    var block := ClientBlock(name);
    ghost var sink;
    ClientObjects(name);
    ClientRun(name, false, name.wrapped);
    lenient, sink := Verify([client], block, false);
    afterLenient := name.wrapped;
    ClientObjects(name);
    ClientRun(name, true, name.wrapped);
    strictErr, sink := Verify([client], block, true);
  }

  /** The whole test, on a fresh client whose name starts nil. */
  method ClientTest() returns (lenient: Option<VerificationError>, afterLenient: Option<Value>,
                               strictErr: Option<VerificationError>)
    ensures lenient == None && afterLenient == None
    ensures strictErr == Some(RulesBroken([Failure("name", "Provided string is empty")]))
  {
    var name := new Shoulds.Should(StringRule(NotBeEmptyString()));
    EmptyNameFails();
    lenient, afterLenient, strictErr := ClientScenario(name);
  }
}

/**
 * Verifiable objects: a tree of properties, some of them constraint
 * bindings and some of them nested verifiable objects. The walk that
 * hands every reachable binding its context, rule lookup by field path,
 * and `verify`/`verifyStrict`.
 *
 * Reflection is replaced by an explicit list of each object's labelled
 * properties, in declaration order. A wrapped property `x` appears under
 * the label of its storage, `_x`, as reflection reports it.
 */
module Verifiables {
  import opened Text
  import opened Rules
  import opened Verifications
  import opened Constraints
  import Musts
  import Shoulds

  /** A property holding a constraint: a `Must` or a `Should` object. */
  datatype Binding = MustBinding(must: Musts.Must) | ShouldBinding(should: Shoulds.Should)

  /** A labelled property: a nested verifiable, a constraint, or anything else. */
  datatype Field =
    | ChildField(name: string, node: Node)
    | ConstraintField(name: string, binding: Binding)
    | PlainField(name: string)

  datatype Node = Node(fields: seq<Field>)

  function RuleOf(b: Binding): AnyRule
  {
    match b
    case MustBinding(m) => m.rule
    case ShouldBinding(s) => s.rule
  }

  function ObjectOf(b: Binding): object
  {
    match b
    case MustBinding(m) => m
    case ShouldBinding(s) => s
  }

  function ContextOf(b: Binding): Context
    reads ObjectOf(b)
  {
    match b
    case MustBinding(m) => m.context
    case ShouldBinding(s) => s.context
  }

  function WrappedOf(b: Binding): Option<Value>
    reads ObjectOf(b)
  {
    match b
    case MustBinding(m) => m.wrapped
    case ShouldBinding(s) => s.wrapped
  }

  // ----- constraint names -----

  /**
   * The last non-empty piece of a split: Swift's `split` omits empty
   * pieces, so its `last` is the last piece that is not empty.
   */
  function LastNonEmpty(parts: seq<string>): (r: Option<string>)
    ensures r.Some? ==> r.value != []
  {
    if |parts| == 0 then None
    else if parts[|parts| - 1] != [] then Some(parts[|parts| - 1])
    else LastNonEmpty(parts[..|parts| - 1])
  }

  /** The name the walk gives a constraint with label `propLabel`, as written: `label.split(separator: "_").last`. */
  function AsWrittenName(propLabel: string): (r: Option<string>)
  {
    LastNonEmpty(SplitOn(propLabel, '_'))
  }

  /**
   * The name the walk gives a constraint with label `propLabel`: the label without
   * the one `_` that marks wrapper storage, which is the name lookup by key
   * searches for. Labels of any other shape are named as written.
   */
  function ConstraintName(propLabel: string): (r: Option<string>)
    ensures |propLabel| > 1 && propLabel[0] == '_' ==> r == Some(propLabel[1..]) && "_" + r.value == propLabel
  {
    if |propLabel| > 1 && propLabel[0] == '_' then Some(propLabel[1..]) else AsWrittenName(propLabel)
  }

  /** The two namings agree on every propLabel `_x` where `x` holds no underscore. */
  lemma NamingsAgree(name: string)
    requires name != [] && '_' !in name
    ensures AsWrittenName("_" + name) == ConstraintName("_" + name) == Some(name)
  {
    var propLabel := "_" + name;
    assert IndexOf(propLabel, '_') == 0;
    assert propLabel[1..] == name;
    assert IndexOf(name, '_') == |name|;
    assert SplitOn(propLabel, '_') == [[]] + SplitOn(name, '_');
    assert SplitOn(propLabel, '_') == [[], name];
    assert [[], name][..1] == [[]];
  }

  /**
   * As written, a constraint stored as `_a_b`, for a snake-case property
   * `a_b`, is named after its last word `b`; the corrected naming keeps `a_b`.
   */
  lemma AsWrittenLastWord(a: string, b: string)
    requires a != [] && b != [] && '_' !in a && '_' !in b
    ensures SplitOn("_" + a + "_" + b, '_') == ["", a, b]
    ensures AsWrittenName("_" + a + "_" + b) == Some(b)
    ensures ConstraintName("_" + a + "_" + b) == Some(a + "_" + b)
  {
    var propLabel := "_" + a + "_" + b;
    SplitNone(b, '_');
    SplitAfter(a, '_', b);
    SplitAfter([], '_', a + "_" + b);
    assert [] + ['_'] + (a + ['_'] + b) == propLabel;
    assert [[], a, b][..2][..1] == [[]];
    assert propLabel[1..] == a + "_" + b;
  }

  /** As written, a snake-case property `first_name` is named `name`, not `first_name`. */
  lemma AsWrittenNameDropsPrefix()
    ensures AsWrittenName("_first_name") == Some("name")
    ensures ConstraintName("_first_name") == Some("first_name")
  {
    AsWrittenLastWord("first", "name");
    assert "_" + "first" + "_" + "name" == "_first_name";
    assert "first" + "_" + "name" == "first_name";
  }

  // ----- the walk: which binding receives which path -----

  /**
   * `constraints`: the constraint properties in declaration order, each with
   * the name the walk gives it; one whose label yields no name is skipped.
   */
  function ConstraintsOf(fields: seq<Field>): (cs: seq<(string, Binding)>)
    ensures |cs| <= |fields|
  {
    if |fields| == 0 then []
    else
      var field := fields[|fields| - 1];
      ConstraintsOf(fields[..|fields| - 1])
      + match field
        case ConstraintField(propLabel, binding) =>
          (match ConstraintName(propLabel)
           case Some(name) => [(name, binding)]
           case None => [])
        case _ => []
  }

  /** A binding reached by the walk, and the path the walk gives it. */
  datatype Slot = Slot(binding: Binding, path: Path)

  /**
   * Every binding the walk from `node` at `path` reaches, in the order it
   * assigns contexts: all nested objects first, each in full, then the
   * node's own constraints.
   */
  function Slots(node: Node, path: Path): seq<Slot>
    decreases node, 1
  {
    ChildSlots(node, |node.fields|, path) + OwnSlots(ConstraintsOf(node.fields), path)
  }

  /** The slots of the nested objects among the first `n` properties. */
  function ChildSlots(node: Node, n: nat, path: Path): seq<Slot>
    requires n <= |node.fields|
    decreases node, 0, n
  {
    if n == 0 then []
    else
      ChildSlots(node, n - 1, path)
      + match node.fields[n - 1]
        case ChildField(name, child) => Slots(child, path + [name])
        case _ => []
  }

  /** Each constraint is reached at `path` extended by its name. */
  function OwnSlots(cs: seq<(string, Binding)>, path: Path): (slots: seq<Slot>)
    ensures |slots| == |cs|
    ensures forall k :: 0 <= k < |cs| ==> slots[k] == Slot(cs[k].1, path + [cs[k].0])
  {
    if |cs| == 0 then []
    else OwnSlots(cs[..|cs| - 1], path) + [Slot(cs[|cs| - 1].1, path + [cs[|cs| - 1].0])]
  }

  /** The bindings among the slots. */
  function Reached(slots: seq<Slot>): set<Binding>
  {
    if |slots| == 0 then {} else Reached(slots[..|slots| - 1]) + {slots[|slots| - 1].binding}
  }

  /** The `Must` objects among the slots: the walk writes their `context` only. */
  function MustsOf(slots: seq<Slot>): set<Musts.Must>
  {
    if |slots| == 0 then {}
    else
      var b := slots[|slots| - 1].binding;
      MustsOf(slots[..|slots| - 1]) + (if b.MustBinding? then {b.must} else {})
  }

  /** The `Should` objects among the slots. */
  function ShouldsOf(slots: seq<Slot>): set<Shoulds.Should>
  {
    if |slots| == 0 then {}
    else
      var b := slots[|slots| - 1].binding;
      ShouldsOf(slots[..|slots| - 1]) + (if b.ShouldBinding? then {b.should} else {})
  }

  lemma {:induction false} SetsOfConcat(a: seq<Slot>, c: seq<Slot>)
    ensures Reached(a + c) == Reached(a) + Reached(c)
    ensures MustsOf(a + c) == MustsOf(a) + MustsOf(c)
    ensures ShouldsOf(a + c) == ShouldsOf(a) + ShouldsOf(c)
    decreases |c|
  {
    if |c| == 0 {
      assert a + c == a;
    } else {
      assert (a + c)[..|a + c| - 1] == a + c[..|c| - 1];
      SetsOfConcat(a, c[..|c| - 1]);
    }
  }

  /** Assigning a prefix of the slots touches some of the same objects. */
  lemma PrefixSets(a: seq<Slot>, c: seq<Slot>)
    requires a <= c
    ensures Reached(a) <= Reached(c) && MustsOf(a) <= MustsOf(c) && ShouldsOf(a) <= ShouldsOf(c)
  {
    assert c == a + c[|a|..];
    SetsOfConcat(a, c[|a|..]);
  }

  /** The binding of every slot is reached, and its object is among the slots' objects. */
  lemma SlotObject(slots: seq<Slot>, k: nat)
    requires k < |slots|
    ensures slots[k].binding in Reached(slots)
    ensures slots[k].binding.MustBinding? ==> slots[k].binding.must in MustsOf(slots)
    ensures slots[k].binding.ShouldBinding? ==> slots[k].binding.should in ShouldsOf(slots)
  {
    PrefixSets(slots[..k + 1], slots);
    assert slots[..k + 1][..k] == slots[..k];
  }

  /** A reached binding is the binding of some slot. */
  lemma {:induction false} SlotOf(slots: seq<Slot>, b: Binding) returns (k: nat)
    requires b in Reached(slots)
    ensures k < |slots| && slots[k].binding == b
    decreases |slots|
  {
    if slots[|slots| - 1].binding == b {
      k := |slots| - 1;
    } else {
      k := SlotOf(slots[..|slots| - 1], b);
    }
  }

  /** The object of a binding is among the slots' objects exactly when the binding is. */
  lemma {:induction false} ObjectsOfReached(slots: seq<Slot>, b: Binding)
    ensures b.MustBinding? ==> (b.must in MustsOf(slots) <==> b in Reached(slots))
    ensures b.ShouldBinding? ==> (b.should in ShouldsOf(slots) <==> b in Reached(slots))
    decreases |slots|
  {
    if |slots| > 0 {
      ObjectsOfReached(slots[..|slots| - 1], b);
    }
  }

  /** The path of the last slot of `b`: the walk assigns in order, so the last one stays. */
  function LastPath(slots: seq<Slot>, b: Binding): (r: Option<Path>)
    ensures r.Some? <==> b in Reached(slots)
  {
    if |slots| == 0 then None
    else if slots[|slots| - 1].binding == b then Some(slots[|slots| - 1].path)
    else LastPath(slots[..|slots| - 1], b)
  }

  /** Assigning more slots after `a`: the later assignment of a binding wins. */
  lemma {:induction false} LastPathConcat(a: seq<Slot>, c: seq<Slot>, b: Binding)
    ensures LastPath(a + c, b) == if LastPath(c, b).Some? then LastPath(c, b) else LastPath(a, b)
    decreases |c|
  {
    if |c| > 0 {
      assert (a + c)[..|a + c| - 1] == a + c[..|c| - 1];
      LastPathConcat(a, c[..|c| - 1], b);
    } else {
      assert a + c == a;
    }
  }

  lemma {:induction false} ChildSlotsPrefix(node: Node, i: nat, n: nat, path: Path)
    requires i <= n <= |node.fields|
    ensures ChildSlots(node, i, path) <= ChildSlots(node, n, path)
    decreases n - i
  {
    if i < n {
      ChildSlotsPrefix(node, i, n - 1, path);
    }
  }

  /** One more slot: its binding is reached, and its path is now the binding's last. */
  lemma LastPathSnoc(a: seq<Slot>, s: Slot, b: Binding)
    ensures Reached(a + [s]) == Reached(a) + {s.binding}
    ensures LastPath(a + [s], b) == if s.binding == b then Some(s.path) else LastPath(a, b)
  {
    assert (a + [s])[..|a|] == a;
  }

  /** A nested object at property `i`: its slots come next, and its objects are among the children's. */
  lemma ChildStep(node: Node, i: nat, path: Path)
    requires i < |node.fields| && node.fields[i].ChildField?
    ensures var next := Slots(node.fields[i].node, path + [node.fields[i].name]);
      && ChildSlots(node, i + 1, path) == ChildSlots(node, i, path) + next
      && MustsOf(next) <= MustsOf(ChildSlots(node, |node.fields|, path))
      && ShouldsOf(next) <= ShouldsOf(ChildSlots(node, |node.fields|, path))
  {
    var next := Slots(node.fields[i].node, path + [node.fields[i].name]);
    SetsOfConcat(ChildSlots(node, i, path), next);
    ChildSlotsPrefix(node, i + 1, |node.fields|, path);
    PrefixSets(ChildSlots(node, i + 1, path), ChildSlots(node, |node.fields|, path));
  }

  /**
   * `prepareForVerification(context:path:)`: every binding reachable from
   * `node` gets `ctx` rebased to the path of its last slot, so it shares the
   * sink and the strict flag of `ctx`. Only the `context` of the reached
   * bindings changes.
   */
  method Prepare(node: Node, ctx: Context, path: Path)
    modifies MustsOf(Slots(node, path))`context, ShouldsOf(Slots(node, path))`context
    decreases node, 1
    ensures forall b :: b in Reached(Slots(node, path)) ==>
      ContextOf(b) == Rebase(ctx, LastPath(Slots(node, path), b).value)
  {
    var cs := ConstraintsOf(node.fields);
    ghost var own := OwnSlots(cs, path);
    SetsOfConcat(ChildSlots(node, |node.fields|, path), own);
    ghost var children := PrepareChildren(node, ctx, path);
    label Middle:
    BindConstraints(cs, ctx, path);
    forall b | b in Reached(children + own)
      ensures ContextOf(b) == Rebase(ctx, LastPath(children + own, b).value)
    {
      LastPathConcat(children, own, b);
      ObjectsOfReached(own, b);
      if b !in Reached(own) {
        var j := SlotOf(children, b);
        assert ContextOf(b) == old@Middle(ContextOf(children[j].binding));
      }
    }
  }

  /** The `children.forEach` half of the walk: each nested object in turn, at its label. */
  method PrepareChildren(node: Node, ctx: Context, path: Path) returns (ghost done: seq<Slot>)
    modifies MustsOf(ChildSlots(node, |node.fields|, path))`context
    modifies ShouldsOf(ChildSlots(node, |node.fields|, path))`context
    decreases node, 0
    ensures done == ChildSlots(node, |node.fields|, path)
    ensures forall b :: b in Reached(ChildSlots(node, |node.fields|, path)) ==>
      ContextOf(b) == Rebase(ctx, LastPath(ChildSlots(node, |node.fields|, path), b).value)
  {
    done := [];
    for i := 0 to |node.fields|
      invariant done == ChildSlots(node, i, path)
      invariant forall b :: b in Reached(done) ==> ContextOf(b) == Rebase(ctx, LastPath(done, b).value)
    {
      if node.fields[i].ChildField? {
        var name, child := node.fields[i].name, node.fields[i].node;
        var sub := path + [name];
        ghost var next := Slots(child, sub);
        ChildStep(node, i, path);
        SetsOfConcat(done, next);
        label Before:
        Prepare(child, Rebase(ctx, sub), sub);
        forall b | b in Reached(done + next)
          ensures ContextOf(b) == Rebase(ctx, LastPath(done + next, b).value)
        {
          LastPathConcat(done, next, b);
          ObjectsOfReached(next, b);
          if b in Reached(next) {
            RebaseLaws(ctx, sub, LastPath(next, b).value);
          } else {
            var j := SlotOf(done, b);
            assert ContextOf(b) == old@Before(ContextOf(done[j].binding));
          }
        }
        done := done + next;
      }
    }
  }

  /** The `constraints.forEach` half of the walk: each constraint, at `path` and its name. */
  method BindConstraints(cs: seq<(string, Binding)>, ctx: Context, path: Path)
    modifies MustsOf(OwnSlots(cs, path))`context, ShouldsOf(OwnSlots(cs, path))`context
    ensures forall b :: b in Reached(OwnSlots(cs, path)) ==>
      ContextOf(b) == Rebase(ctx, LastPath(OwnSlots(cs, path), b).value)
  {
    ghost var all := OwnSlots(cs, path);
    ghost var done: seq<Slot> := [];
    for i := 0 to |cs|
      invariant done == all[..i]
      invariant forall b :: b in Reached(done) ==> ContextOf(b) == Rebase(ctx, LastPath(done, b).value)
    {
      var (name, binding) := cs[i];
      SlotObject(all, i);
      match binding {
        case MustBinding(m) => m.context := Rebase(ctx, path + [name]);
        case ShouldBinding(sh) => sh.context := Rebase(ctx, path + [name]);
      }
      forall b | b in Reached(done + [all[i]])
        ensures ContextOf(b) == Rebase(ctx, LastPath(done + [all[i]], b).value)
      {
        LastPathSnoc(done, all[i], b);
      }
      done := done + [all[i]];
    }
    assert done == all;
  }

  // ----- lookup by path -----

  /** The position of the first property labelled `propLabel`, or `|fields|` when there is none. */
  function FirstLabelled(fields: seq<Field>, propLabel: string): (k: nat)
    ensures k <= |fields|
    ensures forall j :: 0 <= j < k ==> fields[j].name != propLabel
    ensures k < |fields| ==> fields[k].name == propLabel
  {
    if |fields| == 0 then 0
    else if fields[0].name == propLabel then 0
    else 1 + FirstLabelled(fields[1..], propLabel)
  }

  /** `child(for:)`: the first property labelled `name`, when it is a nested object. */
  function ChildFor(node: Node, name: string): Option<Node>
  {
    var k := FirstLabelled(node.fields, name);
    if k < |node.fields| && node.fields[k].ChildField? then Some(node.fields[k].node) else None
  }

  /** `constraint(for:)`: the first property labelled `_` and `name`, when it is a constraint. */
  function ConstraintFor(node: Node, name: string): Option<Binding>
  {
    var k := FirstLabelled(node.fields, "_" + name);
    if k < |node.fields| && node.fields[k].ConstraintField? then Some(node.fields[k].binding) else None
  }

  /** `getRuleFor(key:)`: the rule of the constraint `key`, when it is written for values of type `ty`. */
  function GetRuleForKey(node: Node, key: string, ty: Ty): (r: Option<AnyRule>)
    ensures r.Some? <==> ConstraintFor(node, key).Some? && RuleType(RuleOf(ConstraintFor(node, key).value)) == ty
    ensures r.Some? ==> r.value == RuleOf(ConstraintFor(node, key).value) && RuleType(r.value) == ty
  {
    match ConstraintFor(node, key)
    case None => None
    case Some(b) => CastRule(RuleOf(b), ty)
  }

  /**
   * `getRuleFor(path:)`: nothing for the empty path, the rule of the key for
   * a one-name path, and otherwise the lookup of the rest of the path in the
   * nested object the first name labels.
   */
  function GetRuleFor(node: Node, path: Path, ty: Ty): (r: Option<AnyRule>)
    ensures r.Some? ==> |path| > 0 && RuleType(r.value) == ty
    ensures |path| == 1 ==> r == GetRuleForKey(node, path[0], ty)
    decreases |path|
  {
    if |path| == 0 then None
    else if |path| == 1 then GetRuleForKey(node, path[0], ty)
    else
      var (head, tail) := Split(path);
      match ChildFor(node, head)
      case None => None
      case Some(child) => GetRuleFor(child, tail, ty)
  }

  /** A longer path is looked up in the nested object its first name labels, or finds nothing. */
  lemma LookupThroughChild(node: Node, name: string, rest: Path, ty: Ty)
    requires |rest| > 0
    ensures GetRuleFor(node, [name] + rest, ty)
      == match ChildFor(node, name) case None => None case Some(child) => GetRuleFor(child, rest, ty)
  {
    assert Split([name] + rest) == (name, rest);
  }

  /** No two properties of an object share a label. */
  predicate DistinctLabels(fields: seq<Field>)
  {
    forall i, j :: 0 <= i < j < |fields| ==> fields[i].name != fields[j].name
  }

  /** Every constraint is reflected under its storage label: `_` followed by the property name. */
  predicate StoredConstraints(fields: seq<Field>)
  {
    forall i :: 0 <= i < |fields| && fields[i].ConstraintField? ==> |fields[i].name| > 1 && fields[i].name[0] == '_'
  }

  /** The shape reflection gives a Swift object, down through its nested objects. */
  predicate WellFormed(node: Node)
    decreases node
  {
    && DistinctLabels(node.fields)
    && StoredConstraints(node.fields)
    && forall i :: 0 <= i < |node.fields| && node.fields[i].ChildField? ==> WellFormed(node.fields[i].node)
  }

  /** With distinct labels, the first property with a label is the one that has it. */
  lemma FirstLabelledUnique(fields: seq<Field>, i: nat)
    requires DistinctLabels(fields) && i < |fields|
    ensures FirstLabelled(fields, fields[i].name) == i
  {
  }

  /** Each named constraint comes from a constraint property stored under `_` and its name. */
  lemma {:induction false} ConstraintOrigin(fields: seq<Field>, k: nat) returns (j: nat)
    requires StoredConstraints(fields)
    requires k < |ConstraintsOf(fields)|
    ensures j < |fields| && fields[j].ConstraintField?
    ensures fields[j].binding == ConstraintsOf(fields)[k].1
    ensures fields[j].name == "_" + ConstraintsOf(fields)[k].0
    decreases |fields|
  {
    var n := |fields|;
    var init := fields[..n - 1];
    assert StoredConstraints(init) by {
      forall i | 0 <= i < |init| && init[i].ConstraintField?
        ensures |init[i].name| > 1 && init[i].name[0] == '_'
      {
        assert init[i] == fields[i];
      }
    }
    if k < |ConstraintsOf(init)| {
      j := ConstraintOrigin(init, k);
    } else {
      j := n - 1;
      assert fields[j].ConstraintField?;
    }
  }

  /** The constraints named among the first `m` properties are the first entries of `constraints`. */
  lemma {:induction false} ConstraintsOfPrefix(fields: seq<Field>, m: nat)
    requires m <= |fields|
    ensures |ConstraintsOf(fields[..m])| <= |ConstraintsOf(fields)|
    ensures ConstraintsOf(fields[..m]) == ConstraintsOf(fields)[..|ConstraintsOf(fields[..m])|]
    decreases |fields|
  {
    if m == |fields| {
      assert fields[..m] == fields;
    } else {
      var init := fields[..|fields| - 1];
      assert init[..m] == fields[..m];
      ConstraintsOfPrefix(init, m);
    }
  }

  /**
   * Every constraint property stored under `_` and its name is listed by
   * `constraints`, under that name, after the constraints declared before it.
   */
  lemma ConstraintListed(fields: seq<Field>, j: nat) returns (k: nat)
    requires StoredConstraints(fields)
    requires j < |fields| && fields[j].ConstraintField?
    ensures k == |ConstraintsOf(fields[..j])| && k < |ConstraintsOf(fields)|
    ensures "_" + ConstraintsOf(fields)[k].0 == fields[j].name
    ensures ConstraintsOf(fields)[k] == (fields[j].name[1..], fields[j].binding)
  {
    k := |ConstraintsOf(fields[..j])|;
    assert fields[..j + 1][..j] == fields[..j];
    assert ConstraintsOf(fields[..j + 1]) == ConstraintsOf(fields[..j]) + [(fields[j].name[1..], fields[j].binding)];
    ConstraintsOfPrefix(fields, j + 1);
  }

  /** `constraints` keeps declaration order: an earlier constraint property is listed earlier. */
  lemma ListedInOrder(fields: seq<Field>, i: nat, j: nat)
    requires StoredConstraints(fields)
    requires i < j < |fields| && fields[i].ConstraintField?
    ensures |ConstraintsOf(fields[..i])| < |ConstraintsOf(fields[..j])|
  {
    var upTo := fields[..j];
    assert upTo[..i] == fields[..i];
    assert upTo[..i + 1] == fields[..i + 1];
    assert fields[..i + 1][..i] == fields[..i];
    assert |ConstraintsOf(fields[..i + 1])| == |ConstraintsOf(fields[..i])| + 1;
    ConstraintsOfPrefix(upTo, i + 1);
  }

  /** Where the walk puts a slot, lookup finds the slot's rule. */
  ghost predicate Found(node: Node, prefix: Path, s: Slot)
  {
    && |prefix| < |s.path| && s.path[..|prefix|] == prefix
    && GetRuleFor(node, s.path[|prefix|..], RuleType(RuleOf(s.binding))) == Some(RuleOf(s.binding))
  }

  /**
   * The walk and the lookup agree: every binding the walk reaches from
   * `prefix` sits at `prefix` followed by a path under which `getRuleFor`
   * returns that binding's rule, for the binding's own value type.
   */
  lemma {:induction false} SlotsFound(node: Node, prefix: Path)
    requires WellFormed(node)
    ensures forall k :: 0 <= k < |Slots(node, prefix)| ==> Found(node, prefix, Slots(node, prefix)[k])
    decreases node, 1
  {
    var n := |node.fields|;
    var children, own := ChildSlots(node, n, prefix), OwnSlots(ConstraintsOf(node.fields), prefix);
    ChildSlotsFound(node, n, prefix);
    OwnSlotsFound(node, prefix);
    assert Slots(node, prefix) == children + own;
    forall k | 0 <= k < |children + own|
      ensures Found(node, prefix, (children + own)[k])
    {
      if k < |children| {
        assert (children + own)[k] == children[k];
      } else {
        assert (children + own)[k] == own[k - |children|];
      }
    }
  }

  lemma {:induction false} ChildSlotsFound(node: Node, n: nat, prefix: Path)
    requires WellFormed(node) && n <= |node.fields|
    ensures forall k :: 0 <= k < |ChildSlots(node, n, prefix)| ==> Found(node, prefix, ChildSlots(node, n, prefix)[k])
    decreases node, 0, n
  {
    if n > 0 {
      ChildSlotsFound(node, n - 1, prefix);
      var field := node.fields[n - 1];
      if field.ChildField? {
        var sub := prefix + [field.name];
        var next := Slots(field.node, sub);
        SlotsFound(field.node, sub);
        forall k | 0 <= k < |next|
          ensures Found(node, prefix, next[k])
        {
          FoundThroughChild(node, n - 1, prefix, next[k]);
        }
        assert ChildSlots(node, n, prefix) == ChildSlots(node, n - 1, prefix) + next;
      } else {
        assert ChildSlots(node, n, prefix) == ChildSlots(node, n - 1, prefix);
      }
    }
  }

  /** A slot found in a nested object is found from its parent, one label further up. */
  lemma FoundThroughChild(node: Node, i: nat, prefix: Path, s: Slot)
    requires DistinctLabels(node.fields) && i < |node.fields| && node.fields[i].ChildField?
    requires Found(node.fields[i].node, prefix + [node.fields[i].name], s)
    ensures Found(node, prefix, s)
  {
    var field := node.fields[i];
    var sub := prefix + [field.name];
    FirstLabelledUnique(node.fields, i);
    var rest := s.path[|sub|..];
    assert s.path[|prefix|..] == [field.name] + rest;
    LookupThroughChild(node, field.name, rest, RuleType(RuleOf(s.binding)));
  }

  lemma OwnSlotsFound(node: Node, prefix: Path)
    requires DistinctLabels(node.fields) && StoredConstraints(node.fields)
    ensures forall k :: 0 <= k < |OwnSlots(ConstraintsOf(node.fields), prefix)| ==>
      Found(node, prefix, OwnSlots(ConstraintsOf(node.fields), prefix)[k])
  {
    var cs := ConstraintsOf(node.fields);
    var own := OwnSlots(cs, prefix);
    forall k | 0 <= k < |own|
      ensures Found(node, prefix, own[k])
    {
      var j := ConstraintOrigin(node.fields, k);
      FirstLabelledUnique(node.fields, j);
      assert own[k].path[|prefix|..] == [cs[k].0];
    }
  }

  /** The walk through the nested object at property `i` is part of the walk through its parent. */
  lemma {:induction false} ChildSlotsHas(node: Node, n: nat, i: nat, prefix: Path, s: Slot)
    requires i < n <= |node.fields| && node.fields[i].ChildField?
    requires s in Slots(node.fields[i].node, prefix + [node.fields[i].name])
    ensures s in ChildSlots(node, n, prefix)
    ensures n == |node.fields| ==> s in Slots(node, prefix)
    decreases n
  {
    if i < n - 1 {
      ChildSlotsHas(node, n - 1, i, prefix, s);
    }
  }

  /**
   * The converse of `SlotsFound`: every rule lookup finds by path belongs to
   * a binding the walk reaches at exactly that path, so no constraint that
   * `getRuleFor` can see is left without its context.
   */
  lemma {:induction false} LookupReached(node: Node, prefix: Path, p: Path, ty: Ty) returns (s: Slot)
    requires WellFormed(node)
    requires GetRuleFor(node, p, ty).Some?
    ensures s in Slots(node, prefix) && s.path == prefix + p
    ensures RuleOf(s.binding) == GetRuleFor(node, p, ty).value
    decreases |p|, 1
  {
    if |p| == 1 {
      s := KeyReached(node, prefix, p[0], ty);
      assert [p[0]] == p;
    } else {
      s := ChildReached(node, prefix, p, ty);
    }
  }

  /** The case of `LookupReached` for a longer path: the walk reaches the binding through the nested object. */
  lemma {:induction false} ChildReached(node: Node, prefix: Path, p: Path, ty: Ty) returns (s: Slot)
    requires WellFormed(node) && |p| > 1
    requires GetRuleFor(node, p, ty).Some?
    ensures s in Slots(node, prefix) && s.path == prefix + p
    ensures RuleOf(s.binding) == GetRuleFor(node, p, ty).value
    decreases |p|, 0
  {
    var head, tail := p[0], p[1..];
    HeadTail(prefix, p);
    LookupThroughChild(node, head, tail, ty);
    var i := FirstLabelled(node.fields, head);
    s := LookupReached(node.fields[i].node, prefix + [head], tail, ty);
    ChildSlotsHas(node, |node.fields|, i, prefix, s);
  }

  /** A non-empty path is its first name followed by the rest, also after a prefix. */
  lemma HeadTail(prefix: Path, p: Path)
    requires |p| > 0
    ensures p == [p[0]] + p[1..]
    ensures prefix + [p[0]] + p[1..] == prefix + p
  {
  }

  /** The one-name case of `LookupReached`: the constraint `key` is reached at the path extended by `key`. */
  lemma KeyReached(node: Node, prefix: Path, key: string, ty: Ty) returns (s: Slot)
    requires StoredConstraints(node.fields)
    requires GetRuleForKey(node, key, ty).Some?
    ensures s in Slots(node, prefix) && s.path == prefix + [key]
    ensures RuleOf(s.binding) == GetRuleForKey(node, key, ty).value
  {
    var j := FirstLabelled(node.fields, "_" + key);
    var k := ConstraintListed(node.fields, j);
    var cs := ConstraintsOf(node.fields);
    assert cs[k].0 == key;
    s := OwnSlots(cs, prefix)[k];
    assert Slots(node, prefix) == ChildSlots(node, |node.fields|, prefix) + OwnSlots(cs, prefix);
  }

  /** Lookup in an object whose one property is the constraint stored as `_first_name`. */
  lemma LookupStoredFirstName(b: Binding, ty: Ty)
    ensures GetRuleFor(Node([ConstraintField("_first_name", b)]), ["name"], ty) == None
    ensures GetRuleFor(Node([ConstraintField("_first_name", b)]), ["first_name"], RuleType(RuleOf(b))) == Some(RuleOf(b))
  {
    var fields := [ConstraintField("_first_name", b)];
    assert |"_" + "name"| == 5;
    assert FirstLabelled(fields, "_" + "name") == 1 by {
      assert fields[1..] == [];
    }
    assert "_" + "first_name" == "_first_name";
  }

  /**
   * As written, a constraint stored as `_first_name` is named `name` by the
   * walk, so its failures would be reported at `name`, where lookup finds
   * no rule; its rule is only found under `first_name`.
   */
  lemma AsWrittenPathMissesLookup(b: Binding, ty: Ty)
    ensures AsWrittenName("_first_name") == Some("name")
    ensures GetRuleFor(Node([ConstraintField("_first_name", b)]), [AsWrittenName("_first_name").value], ty) == None
    ensures GetRuleFor(Node([ConstraintField("_first_name", b)]), [ConstraintName("_first_name").value], RuleType(RuleOf(b)))
      == Some(RuleOf(b))
  {
    AsWrittenNameDropsPrefix();
    LookupStoredFirstName(b, ty);
  }
}

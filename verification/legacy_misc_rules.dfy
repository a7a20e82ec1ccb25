/** The ready-made rules of the older library copy, whose reasons are constants. */
module LegacyMiscRules {
  import opened Rules

  const NotPositiveMessage := "Expected positive integer"
  const EmptyMessage := "Unexpected empty string"

  /** `bePositiveInteger`: passes on zero and above; the reason never mentions the number. */
  function BePositiveInteger(): (r: Rule<int>)
    ensures forall n :: Eval(r, n).Pass? <==> n >= 0
    ensures forall n :: n < 0 ==> Eval(r, n) == Fail(NotPositiveMessage)
  {
    Atom("bePositiveInteger", (n: int) => n >= 0, (_: int) => NotPositiveMessage)
  }

  /** `beNotEmptyString`: fails exactly on the empty string. */
  function BeNotEmptyString(): (r: Rule<string>)
    ensures forall s :: Eval(r, s).Fail? <==> s == []
    ensures forall s :: s == [] ==> Eval(r, s) == Fail(EmptyMessage)
  {
    Atom("beNotEmptyString", (s: string) => |s| > 0, (_: string) => EmptyMessage)
  }

  /** Two negative numbers are refused for the same reason: the reason does not depend on the value. */
  lemma PositiveReasonIsConstant(m: int, n: int)
    requires m < 0 && n < 0
    ensures Eval(BePositiveInteger(), m) == Eval(BePositiveInteger(), n)
    ensures Trace(BePositiveInteger(), m) == ["bePositiveInteger"]
  {
  }
}

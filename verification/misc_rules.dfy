/**
 * The ready-made rules of the current library: sign of an integer,
 * emptiness, blankness and length of a string, and the two inverted
 * string rules built with `not`.
 */
module MiscRules {
  import opened Text
  import opened Rules
  import opened Messages

  /**
   * `bePositiveInteger`: zero is accepted (the rule really checks
   * "non-negative"); a negative number is rejected with a reason that
   * starts with the number itself.
   */
  function BePositiveInteger(): (r: Rule<int>)
    ensures forall n :: Eval(r, n).Pass? <==> n >= 0
    ensures forall n :: n < 0 ==> Eval(r, n) == Fail(NotPositiveMessage(n))
  {
    Atom("bePositiveInteger", (n: int) => n >= 0, NotPositiveMessage)
  }

  /** `notBeEmptyString`: passes exactly on non-empty strings. */
  function NotBeEmptyString(): (r: Rule<string>)
    ensures forall s :: Eval(r, s).Pass? <==> |s| > 0
    ensures forall s :: Eval(r, s).Fail? ==> Eval(r, s).reason == EmptyMessage
  {
    Atom("notBeEmptyString", (s: string) => |s| > 0, (_: string) => EmptyMessage)
  }

  /** `notBeBlankString`: passes exactly when the trimmed string is not empty. */
  function NotBeBlankString(): (r: Rule<string>)
    ensures forall s :: Eval(r, s).Pass? <==> Trim(s) != []
    ensures forall s :: Eval(r, s).Fail? ==> Eval(r, s).reason == BlankMessage
  {
    Atom("notBeBlankString", (s: string) => Trim(s) != [], (_: string) => BlankMessage)
  }

  /**
   * `beOfLength(len)`: passes exactly on strings of `len` characters; the
   * reason quotes the string and the expected length.
   */
  function BeOfLength(len: int): (r: Rule<string>)
    ensures forall s :: Eval(r, s).Pass? <==> |s| == len
    ensures forall s :: |s| != len ==> Eval(r, s) == Fail(WrongLengthMessage(s, len))
  {
    Atom("beOfLength", (s: string) => |s| == len, (s: string) => WrongLengthMessage(s, len))
  }

  /** `beEmptyString`: `not(notBeEmptyString)` with its own reason. */
  function BeEmptyString(): (r: Rule<string>)
  {
    Not(NotBeEmptyString(), NotEmptyMessage)
  }

  /** `beBlankString`: `not(notBeBlankString)` with its own reason. */
  function BeBlankString(): (r: Rule<string>)
  {
    Not(NotBeBlankString(), NotBlankMessage)
  }

  /**
   * A string is blank exactly when every character is a whitespace, so
   * `notBeBlankString` passes exactly when some character is not.
   */
  lemma NotBlankMeansVisible(s: string)
    ensures Eval(NotBeBlankString(), s).Pass? <==> exists i :: 0 <= i < |s| && !IsWhitespace(s[i])
  {
    TrimEmptyIffBlank(s);
  }

  /** Every non-blank string is non-empty: the blank rule is the stricter of the two. */
  lemma NotBlankImpliesNotEmpty(s: string)
    ensures Eval(NotBeBlankString(), s).Pass? ==> Eval(NotBeEmptyString(), s).Pass?
  {
    TrimEmptyIffBlank(s);
  }

  /** `beEmptyString` is the exact complement of `notBeEmptyString`, with its own reason. */
  lemma BeEmptyStringSemantics(s: string)
    ensures Eval(BeEmptyString(), s).Pass? <==> s == []
    ensures s != [] ==> Eval(BeEmptyString(), s) == Fail(NotEmptyMessage)
    ensures Trace(BeEmptyString(), s) == ["notBeEmptyString"]
  {
  }

  /** `beBlankString` passes exactly on strings made only of whitespace. */
  lemma BeBlankStringSemantics(s: string)
    ensures Eval(BeBlankString(), s).Pass? <==> forall i :: 0 <= i < |s| ==> IsWhitespace(s[i])
    ensures Eval(BeBlankString(), s).Fail? ==> Eval(BeBlankString(), s).reason == NotBlankMessage
  {
    TrimEmptyIffBlank(s);
  }

  lemma NotBlankWithVisibleFirst(s: string)
    requires |s| > 0 && !IsWhitespace(s[0])
    ensures Eval(NotBeBlankString(), s) == Pass
  {
    NotBlankMeansVisible(s);
  }

  /** `notBeBlankString & beOfLength(3)`: blankness is checked, and reported, first. */
  lemma BlankThenLengthExamples()
    ensures Eval(And(NotBeBlankString(), BeOfLength(3)), "ab") == Fail("'ab' is not 3 characters long")
    ensures Eval(And(NotBeBlankString(), BeOfLength(3)), "") == Fail(BlankMessage)
    ensures Eval(And(NotBeBlankString(), BeOfLength(3)), "abc") == Pass
    ensures Trace(And(NotBeBlankString(), BeOfLength(3)), "") == ["notBeBlankString"]
  {
    WrongLengthAb();
    NotBlankWithVisibleFirst("ab");
    NotBlankWithVisibleFirst("abc");
    assert Trim("") == [];
  }

  /** `beOfLength(3) & notBeBlankString`: the length is checked first, so `""` fails on length. */
  lemma LengthThenBlankExample()
    ensures Eval(And(BeOfLength(3), NotBeBlankString()), "") == Fail("'' is not 3 characters long")
    ensures Trace(And(BeOfLength(3), NotBeBlankString()), "") == ["beOfLength"]
  {
    WrongLengthEmpty();
  }

  /** `beEmptyString | beOfLength(3)`: either alternative is enough, and the right one runs only after a failure. */
  lemma EmptyOrLengthExamples()
    ensures Eval(Or(BeEmptyString(), BeOfLength(3)), "") == Pass
    ensures Eval(Or(BeEmptyString(), BeOfLength(3)), "abc") == Pass
    ensures Trace(Or(BeEmptyString(), BeOfLength(3)), "") == ["notBeEmptyString"]
  {
    BeEmptyStringSemantics("");
    assert Eval(BeOfLength(3), "abc") == Pass;
  }

  /** When both alternatives fail, both reasons are reported, in order. */
  lemma EmptyOrLengthFails()
    ensures Eval(Or(BeEmptyString(), BeOfLength(3)), "ab")
      == Fail("Provided string is not empty; 'ab' is not 3 characters long")
  {
    BeEmptyStringSemantics("ab");
    assert Eval(BeOfLength(3), "ab") == Fail(WrongLengthMessage("ab", 3));
    BothReasonsAb();
  }
}

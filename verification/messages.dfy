/**
 * The reasons the ready-made rules give when they fail, and how they read
 * for the values the library's tests use.
 */
module Messages {
  import opened Text
  import opened Rules

  const EmptyMessage := "Provided string is empty"
  const BlankMessage := "Provided string is blank"
  const NotEmptyMessage := "Provided string is not empty"
  const NotBlankMessage := "Provided string is not blank"
  const NotPositiveSuffix := " is not a positive integer"

  /** The reason `bePositiveInteger` gives for `n`. */
  function NotPositiveMessage(n: int): string
  {
    IntToString(n) + NotPositiveSuffix
  }

  /** The reason `beOfLength(len)` gives for `s`. */
  function WrongLengthMessage(s: string, len: int): string
  {
    "'" + s + "' is not " + IntToString(len) + " characters long"
  }

  /** The reason for a negative number reads back as that number, after its sign. */
  lemma NotPositiveMessageNamesNumber(k: nat)
    requires k > 0
    ensures var m := NotPositiveMessage(-(k as int)); var d := NatToString(k);
      && |m| > |d| && m[0] == '-'
      && m[1..1 + |d|] == d
      && ParseNat(m[1..1 + |d|]) == k
  {
    SignedPrefix(NatToString(k), NotPositiveSuffix);
    ParseNatToString(k);
  }

  lemma SignedPrefix(d: string, tail: string)
    ensures |"-" + d + tail| > |d| && ("-" + d + tail)[0] == '-'
    ensures ("-" + d + tail)[1..1 + |d|] == d
  {
  }

  lemma MinusOneRendering()
    ensures IntToString(-1) == "-1"
  {
    assert NatToString(1) == "1";
  }

  lemma MinusTwoRendering()
    ensures IntToString(-2) == "-2"
  {
    assert NatToString(2) == "2";
  }

  /** The reason `bePositiveInteger` gives for -1. */
  lemma MinusOneMessage()
    ensures NotPositiveMessage(-1) == "-1 is not a positive integer"
  {
    MinusOneRendering();
    assert NotPositiveMessage(-1) == "-1" + NotPositiveSuffix;
  }

  /** The reason `bePositiveInteger` gives for -2. */
  lemma MinusTwoMessage()
    ensures NotPositiveMessage(-2) == "-2 is not a positive integer"
  {
    MinusTwoRendering();
    assert NotPositiveMessage(-2) == "-2" + NotPositiveSuffix;
  }

  lemma ThreeRendering()
    ensures IntToString(3) == "3"
  {
  }

  lemma WrongLengthAb()
    ensures WrongLengthMessage("ab", 3) == "'ab' is not 3 characters long"
  {
    ThreeRendering();
    assert "'" + "ab" == "'ab";
    assert "'ab" + "' is not " == "'ab' is not ";
    assert "'ab' is not " + "3" == "'ab' is not 3";
    assert "'ab' is not 3" + " characters long" == "'ab' is not 3 characters long";
  }

  lemma WrongLengthEmpty()
    ensures WrongLengthMessage("", 3) == "'' is not 3 characters long"
  {
    ThreeRendering();
    assert "'" + "" == "'";
    assert "'" + "' is not " == "'' is not ";
    assert "'' is not " + "3" == "'' is not 3";
    assert "'' is not 3" + " characters long" == "'' is not 3 characters long";
  }

  lemma BothReasonsAb()
    ensures NotEmptyMessage + ReasonSeparator + WrongLengthMessage("ab", 3)
      == "Provided string is not empty; 'ab' is not 3 characters long"
  {
    WrongLengthAb();
    assert NotEmptyMessage + ReasonSeparator == "Provided string is not empty; ";
  }
}

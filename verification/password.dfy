/**
 * The password strength indicator: five character-class and length checks
 * and the weak / medium / strong classification derived from them.
 */
module Password {
  import opened Text

  /**
   * A character of the special class `!@#$%^&*()_+-=[]{};':"\|,.<>/?`. Its
   * thirty characters are exactly the ASCII runs `!`..`/`, `:`..`@`,
   * `[`..`_` and `{`..`}`.
   */
  predicate IsSpecial(c: char)
  {
    || ('!' <= c <= '/')
    || (':' <= c <= '@')
    || ('[' <= c <= '_')
    || ('{' <= c <= '}')
  }

  /** Some character of `s` satisfies `p`: what `/[...]/.test(s)` reports. */
  predicate Has(s: string, p: char -> bool)
  {
    exists i :: 0 <= i < |s| && p(s[i])
  }

  datatype Checks = Checks(length: bool, uppercase: bool, lowercase: bool, number: bool, special: bool)

  datatype Strength = Weak | Medium | Strong

  /** The five checks; the length counts UTF-16 code units, as JavaScript does. */
  function ChecksOf(password: string): Checks
  {
    Checks(
      Utf16Length(password) >= 8,
      Has(password, IsUpper),
      Has(password, IsLower),
      Has(password, IsDigit),
      Has(password, IsSpecial))
  }

  /** `passedChecks`: the number of checks that hold. */
  function PassedChecks(c: Checks): (n: nat)
    ensures n <= 5
    ensures n == 5 <==> c.length && c.uppercase && c.lowercase && c.number && c.special
    ensures n == 0 <==> !c.length && !c.uppercase && !c.lowercase && !c.number && !c.special
  {
    (if c.length then 1 else 0) + (if c.uppercase then 1 else 0) + (if c.lowercase then 1 else 0)
      + (if c.number then 1 else 0) + (if c.special then 1 else 0)
  }

  datatype Result = Result(strength: Strength, checks: Checks, passedChecks: nat)

  /**
   * `checkStrength`: strong when every check holds, medium when all but the
   * special-character check hold, weak otherwise.
   */
  function CheckStrength(password: string): (r: Result)
    ensures r.checks == ChecksOf(password)
    ensures r.passedChecks == PassedChecks(r.checks) && r.passedChecks <= 5
    ensures r.strength == Strong <==>
      Utf16Length(password) >= 8 && Has(password, IsUpper) && Has(password, IsLower)
      && Has(password, IsDigit) && Has(password, IsSpecial)
    ensures r.strength == Medium <==>
      Utf16Length(password) >= 8 && Has(password, IsUpper) && Has(password, IsLower)
      && Has(password, IsDigit) && !Has(password, IsSpecial)
    ensures r.strength == Weak <==>
      !(Utf16Length(password) >= 8 && Has(password, IsUpper) && Has(password, IsLower) && Has(password, IsDigit))
  {
    var c := ChecksOf(password);
    var strength :=
      if c.length && c.uppercase && c.lowercase && c.number then
        (if c.special then Strong else Medium)
      else Weak;
    Result(strength, c, PassedChecks(c))
  }

  /** The indicator: nothing for the empty password. */
  function Indicator(password: string): (r: Option<Result>)
    ensures r.None? <==> password == ""
    ensures r.Some? ==> r.value == CheckStrength(password)
  {
    if password == "" then None else Some(CheckStrength(password))
  }

  function StrengthRank(s: Strength): int
  {
    match s
    case Weak => 0
    case Medium => 1
    case Strong => 2
  }

  /** Appending characters never weakens a password, and never fails a check that held. */
  lemma AppendNeverWeakens(password: string, suffix: string)
    ensures StrengthRank(CheckStrength(password).strength) <= StrengthRank(CheckStrength(password + suffix).strength)
    ensures PassedChecks(ChecksOf(password)) <= PassedChecks(ChecksOf(password + suffix))
  {
    Utf16LengthConcat(password, suffix);
    var s := password + suffix;
    forall p: char -> bool | Has(password, p)
      ensures Has(s, p)
    {
      var i :| 0 <= i < |password| && p(password[i]);
      assert s[i] == password[i];
    }
  }

  /** A password shorter than 8 code units, in particular one of at most 3 characters, is weak. */
  lemma ShortIsWeak(password: string)
    requires Utf16Length(password) < 8 || |password| <= 3
    ensures CheckStrength(password).strength == Weak
  {
  }

  lemma StrongExample()
    ensures CheckStrength("Abcdef1!").strength == Strong
  {
    var p := "Abcdef1!";
    EightCharacters(p);
    assert IsUpper(p[0]) && IsLower(p[1]) && IsDigit(p[6]) && IsSpecial(p[7]);
    assert Has(p, IsUpper) && Has(p, IsLower) && Has(p, IsDigit) && Has(p, IsSpecial);
  }

  lemma MediumExample()
    ensures CheckStrength("Abcdefg1").strength == Medium
  {
    var p := "Abcdefg1";
    EightCharacters(p);
    assert IsUpper(p[0]) && IsLower(p[1]) && IsDigit(p[7]);
    assert Has(p, IsUpper) && Has(p, IsLower) && Has(p, IsDigit);
    LettersAndDigitOnly();
  }

  lemma EightCharacters(p: string)
    requires |p| == 8 && forall i :: 0 <= i < |p| ==> p[i] as int <= 0xFFFF
    ensures Utf16Length(p) == 8
  {
    Utf16LengthBmp(p);
  }

  lemma LettersAndDigitOnly()
    ensures !Has("Abcdefg1", IsSpecial)
  {
    NoSpecialHasNone("Abcdefg1");
  }

  /** No character of `s` is special, checked one character at a time. */
  predicate NoSpecial(s: string)
  {
    |s| == 0 || (!IsSpecial(s[0]) && NoSpecial(s[1..]))
  }

  lemma {:induction false} NoSpecialHasNone(s: string)
    requires NoSpecial(s)
    ensures !Has(s, IsSpecial)
  {
    if |s| > 0 {
      NoSpecialHasNone(s[1..]);
      forall i | 1 <= i < |s|
        ensures !IsSpecial(s[i])
      {
        assert s[i] == s[1..][i - 1];
      }
    }
  }

  /** Seven characters are too short, whatever their classes. */
  lemma SevenCharactersExample()
    ensures CheckStrength("Abcde1!").strength == Weak
  {
    Utf16LengthBmp("Abcde1!");
    ShortIsWeak("Abcde1!");
  }
}

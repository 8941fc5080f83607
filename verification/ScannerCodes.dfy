/** The six-digit codes mailed for destructive scanner actions, and the text a user types back. */
module ScannerCodes {
  import Decimal
  import EntityTags

  /** The keyed digest of a challenge, as a number, and the stored hash of a code. */
  datatype Keys = Keys(digest: nat -> nat, hash: string -> nat)

  const CODE_RANGE := 1_000_000
  const CODE_WIDTH := 6

  function ZeroFill(s: string, width: nat): string
    decreases width - |s|
  {
    if |s| >= width then s else ZeroFill("0" + s, width)
  }

  function Derive(keys: Keys, challenge: nat): string {
    ZeroFill(Decimal.Print(keys.digest(challenge) % CODE_RANGE), CODE_WIDTH)
  }

  function CodeHash(keys: Keys, typed: string): nat {
    keys.hash(EntityTags.Strip(typed))
  }

  function Power(n: nat): nat {
    if n == 0 then 1 else 10 * Power(n - 1)
  }

  lemma {:induction false} PrintFits(n: nat, width: nat)
    requires 1 <= width && n < Power(width)
    ensures |Decimal.Print(n)| <= width
  {
    if n >= 10 {
      PrintFits(n / 10, width - 1);
    }
  }

  lemma {:induction false} LeadingZero(s: string)
    requires Decimal.Digits(s)
    ensures Decimal.Digits("0" + s) && Decimal.Value("0" + s) == Decimal.Value(s)
  {
    var t := "0" + s;
    if s == [] {
      assert t == "0" && t[..0] == [];
    } else {
      assert t[..|t| - 1] == "0" + s[..|s| - 1];
      LeadingZero(s[..|s| - 1]);
    }
  }

  lemma {:induction false} ZeroFilled(s: string, width: nat)
    requires Decimal.Digits(s) && |s| <= width
    ensures
      var t := ZeroFill(s, width);
      |t| == width && Decimal.Digits(t) && Decimal.Value(t) == Decimal.Value(s)
    decreases width - |s|
  {
    if |s| < width {
      LeadingZero(s);
      ZeroFilled("0" + s, width);
    }
  }

  /** A code is always six digits, and they read back as the digest modulo a million. */
  lemma CodeIsSixDigits(keys: Keys, challenge: nat)
    ensures
      var code := Derive(keys, challenge);
      && |code| == 6 && Decimal.Digits(code)
      && Decimal.Value(code) == keys.digest(challenge) % 1_000_000
  {
    var n := keys.digest(challenge) % CODE_RANGE;
    assert Power(6) == CODE_RANGE by {
      assert Power(2) == 100 && Power(4) == 10_000;
    }
    PrintFits(n, CODE_WIDTH);
    Decimal.PrintIsNumeral(n);
    ZeroFilled(Decimal.Print(n), CODE_WIDTH);
  }

  /** The mailed code is recognised inside any whitespace. */
  lemma MailedCodeIsRecognised(keys: Keys, challenge: nat, before: string, after: string)
    requires EntityTags.Spaces(before) && EntityTags.Spaces(after)
    ensures CodeHash(keys, before + Derive(keys, challenge) + after) == keys.hash(Derive(keys, challenge))
  {
    CodeIsSixDigits(keys, challenge);
    EntityTags.StripPadding(before, Derive(keys, challenge), after);
  }
}

/** The header text that carries a version to the client and back. */
module EntityTags {
  import opened Prelude
  import opened Text
  import Decimal

  function StripLeft(s: string): string {
    if s != [] && IsSpace(s[0]) then StripLeft(s[1..]) else s
  }

  function StripRight(s: string): string {
    if s != [] && IsSpace(s[|s| - 1]) then StripRight(s[..|s| - 1]) else s
  }

  function Strip(s: string): string {
    StripRight(StripLeft(s))
  }

  function Unquote(s: string): string {
    if |s| >= 2 && s[0] == '"' && s[|s| - 1] == '"' then s[1..|s| - 1] else s
  }

  // ---- integers as `int(raw)` reads ASCII text ----

  predicate IsSign(c: char) {
    c == '+' || c == '-'
  }

  /** Digits, with single underscores between them. */
  predicate Grouped(s: string) {
    && s != [] && Decimal.IsDigit(s[0]) && Decimal.IsDigit(s[|s| - 1])
    && (forall i :: 0 <= i < |s| ==> Decimal.IsDigit(s[i]) || s[i] == '_')
    && (forall i :: 0 < i < |s| ==> s[i] != '_' || s[i - 1] != '_')
  }

  function Ungrouped(s: string): (r: string)
    requires forall i :: 0 <= i < |s| ==> Decimal.IsDigit(s[i]) || s[i] == '_'
    ensures Decimal.Digits(r)
    ensures Decimal.Digits(s) ==> r == s
  {
    if s == [] then []
    else Ungrouped(s[..|s| - 1]) + if s[|s| - 1] == '_' then [] else [s[|s| - 1]]
  }

  function Magnitude(s: string): Option<nat> {
    if Grouped(s) then Some(Decimal.Value(Ungrouped(s))) else None
  }

  function WithSign(sign: char, magnitude: Option<nat>): Option<int> {
    if magnitude.None? then None
    else
      var n: int := magnitude.value;
      Some(if sign == '-' then -n else n)
  }

  function SignedInt(s: string): Option<int> {
    if s != [] && IsSign(s[0]) then WithSign(s[0], Magnitude(s[1..])) else Magnitude(s)
  }

  function ParseInt(s: string): Option<int> {
    SignedInt(Strip(s))
  }

  datatype HeaderError = Missing | NotAnInteger | NotPositive

  function ParseIfMatch(value: Option<string>): Result<nat, HeaderError> {
    if value.None? || Strip(value.value) == "" then Err(Missing)
    else
      var version := ParseInt(Unquote(Strip(value.value)));
      if version.None? then Err(NotAnInteger)
      else if version.value < 1 then Err(NotPositive)
      else Ok(version.value)
  }

  function FormatEtag(version: nat): string {
    "\"" + Decimal.Print(version) + "\""
  }

  predicate Spaces(s: string) {
    forall i :: 0 <= i < |s| ==> IsSpace(s[i])
  }

  lemma {:induction false} StripLeftPadding(pad: string, core: string)
    requires Spaces(pad) && core != [] && !IsSpace(core[0])
    ensures StripLeft(pad + core) == core
  {
    if pad == [] {
      assert pad + core == core;
    } else {
      assert (pad + core)[1..] == pad[1..] + core;
      StripLeftPadding(pad[1..], core);
    }
  }

  lemma {:induction false} StripRightPadding(core: string, pad: string)
    requires Spaces(pad) && core != [] && !IsSpace(core[|core| - 1])
    ensures StripRight(core + pad) == core
  {
    if pad == [] {
      assert core + pad == core;
    } else {
      assert (core + pad)[..|core + pad| - 1] == core + pad[..|pad| - 1];
      StripRightPadding(core, pad[..|pad| - 1]);
    }
  }

  lemma StripPadding(before: string, core: string, after: string)
    requires Spaces(before) && Spaces(after) && core != []
    requires !IsSpace(core[0]) && !IsSpace(core[|core| - 1])
    ensures Strip(before + core + after) == core
  {
    assert before + core + after == before + (core + after);
    StripLeftPadding(before, core + after);
    StripRightPadding(core, after);
  }

  predicate Solid(s: string) {
    s != [] && !IsSpace(s[0]) && !IsSpace(s[|s| - 1])
  }

  lemma StripSolid(s: string)
    requires Solid(s)
    ensures Strip(s) == s
  {
    StripPadding("", s, "");
    assert "" + s + "" == s;
  }

  lemma MagnitudeOfDigits(digits: string)
    requires digits != [] && Decimal.Digits(digits)
    ensures Magnitude(digits) == Some(Decimal.Value(digits))
    ensures SignedInt(digits) == Some(Decimal.Value(digits))
  {
    assert Grouped(digits) && Ungrouped(digits) == digits;
  }

  lemma SignedDigits(sign: char, digits: string)
    requires IsSign(sign) && digits != [] && Decimal.Digits(digits)
    ensures
      var n: int := Decimal.Value(digits);
      SignedInt([sign] + digits) == Some(if sign == '-' then -n else n)
  {
    var s := [sign] + digits;
    assert s[1..] == digits;
    assert SignedInt(s) == WithSign(sign, Magnitude(digits));
    MagnitudeOfDigits(digits);
  }

  lemma SignedPrinted(n: nat)
    ensures SignedInt(Decimal.Print(n)) == Some(n)
    ensures SignedInt("+" + Decimal.Print(n)) == Some(n)
    ensures SignedInt("-" + Decimal.Print(n)) == Some(-(n as int))
  {
    var digits := Decimal.Print(n);
    Decimal.PrintIsNumeral(n);
    MagnitudeOfDigits(digits);
    SignedDigits('+', digits);
    SignedDigits('-', digits);
  }

  lemma PrintIsSolid(n: nat)
    ensures Solid(Decimal.Print(n)) && Decimal.Print(n)[0] != '"'
  {
    Decimal.PrintIsNumeral(n);
  }

  lemma ParsePadded(before: string, core: string, after: string)
    requires Spaces(before) && Spaces(after) && Solid(core)
    ensures
      var version := ParseInt(Unquote(core));
      ParseIfMatch(Some(before + core + after)) ==
        if version.None? then Err(NotAnInteger) else if version.value < 1 then Err(NotPositive) else Ok(version.value)
  {
    StripPadding(before, core, after);
  }

  /** A version comes back from its ETag, or from its bare numeral, inside any whitespace. */
  lemma ParseFormat(version: nat, before: string, after: string)
    requires version >= 1 && Spaces(before) && Spaces(after)
    ensures ParseIfMatch(Some(before + FormatEtag(version) + after)) == Ok(version)
    ensures ParseIfMatch(Some(before + Decimal.Print(version) + after)) == Ok(version)
  {
    var digits, etag := Decimal.Print(version), FormatEtag(version);
    PrintIsSolid(version);
    ParsePadded(before, etag, after);
    ParsePadded(before, digits, after);
    assert etag[1..|etag| - 1] == digits;
    StripSolid(digits);
    SignedPrinted(version);
  }

  /** A sign is read too: plus means the same version, minus is never one. */
  lemma SignedNumerals(version: nat)
    ensures version >= 1 ==> ParseIfMatch(Some("+" + Decimal.Print(version))) == Ok(version)
    ensures ParseIfMatch(Some("-" + Decimal.Print(version))) == Err(NotPositive)
  {
    var plus, minus := "+" + Decimal.Print(version), "-" + Decimal.Print(version);
    PrintIsSolid(version);
    assert Solid(plus) && Solid(minus);
    StripSolid(plus);
    StripSolid(minus);
    SignedPrinted(version);
    assert plus[0] == '+' && minus[0] == '-';
  }

  lemma {:induction false} StripLeftKeepsRest(s: string, c: char)
    requires c in s && !IsSpace(c)
    ensures c in StripLeft(s)
  {
    if IsSpace(s[0]) {
      assert s == [s[0]] + s[1..];
      StripLeftKeepsRest(s[1..], c);
    }
  }

  lemma {:induction false} StripRightKeepsRest(s: string, c: char)
    requires c in s && !IsSpace(c)
    ensures c in StripRight(s)
  {
    if IsSpace(s[|s| - 1]) {
      assert s == s[..|s| - 1] + [s[|s| - 1]];
      StripRightKeepsRest(s[..|s| - 1], c);
    }
  }

  predicate InNumerals(c: char) {
    Decimal.IsDigit(c) || IsSign(c) || c == '_' || c == '"'
  }

  lemma StripKeeps(s: string, c: char)
    requires c in s && !IsSpace(c)
    ensures c in Strip(s)
  {
    StripLeftKeepsRest(s, c);
    StripRightKeepsRest(StripLeft(s), c);
  }

  lemma UnquoteKeeps(s: string, c: char)
    requires c in s && c != '"'
    ensures c in Unquote(s)
  {
    if |s| >= 2 && s[0] == '"' && s[|s| - 1] == '"' {
      assert s == [s[0]] + s[1..|s| - 1] + [s[|s| - 1]];
    }
  }

  lemma ForeignCharacter(s: string, c: char)
    requires c in s && !InNumerals(c)
    ensures SignedInt(s).None?
  {
    if IsSign(s[0]) {
      assert s == [s[0]] + s[1..];
      assert c in s[1..];
    }
  }

  /** Any other printable ASCII character makes the header unusable, so `W/"3"` never matches. */
  lemma OnlyNumeralsMatch(text: string, c: char)
    requires c in text && '!' <= c <= '~' && !InNumerals(c)
    ensures ParseIfMatch(Some(text)) == Err(NotAnInteger)
  {
    StripKeeps(text, c);
    UnquoteKeeps(Strip(text), c);
    StripKeeps(Unquote(Strip(text)), c);
    ForeignCharacter(Strip(Unquote(Strip(text))), c);
  }

  lemma {:induction false} StripLeftEmpties(s: string)
    ensures StripLeft(s) == "" <==> Spaces(s)
  {
    if s != [] && IsSpace(s[0]) {
      StripLeftEmpties(s[1..]);
      assert forall i :: 0 < i < |s| ==> s[i] == s[1..][i - 1];
    }
  }

  lemma {:induction false} StripLeftStopsAtCore(s: string)
    ensures StripLeft(s) != "" ==> !IsSpace(StripLeft(s)[0])
  {
    if s != [] && IsSpace(s[0]) {
      StripLeftStopsAtCore(s[1..]);
    }
  }

  /** The header counts as missing exactly if it is absent or blank. */
  lemma MissingExactly(value: Option<string>)
    ensures ParseIfMatch(value) == Err(Missing) <==> value.None? || Spaces(value.value)
  {
    if value.Some? {
      var left := StripLeft(value.value);
      StripLeftEmpties(value.value);
      StripLeftStopsAtCore(value.value);
      if left != "" {
        StripRightKeepsRest(left, left[0]);
      }
    }
  }

  lemma {:induction false} UngroupedPair(a: string, b: string)
    requires Decimal.Digits(a) && Decimal.Digits(b)
    ensures Ungrouped(a + "_" + b) == a + b
  {
    var s := a + "_" + b;
    if b == [] {
      assert s[..|s| - 1] == a && s[|s| - 1] == '_';
    } else {
      assert s[..|s| - 1] == a + "_" + b[..|b| - 1];
      UngroupedPair(a, b[..|b| - 1]);
    }
  }

  /** Single underscores may group the digits; doubled ones make the header unusable. */
  lemma GroupedNumerals(a: string, b: string)
    requires a != [] && b != [] && Decimal.Digits(a) && Decimal.Digits(b)
    ensures Decimal.Value(a + b) >= 1 ==> ParseIfMatch(Some(a + "_" + b)) == Ok(Decimal.Value(a + b))
    ensures ParseIfMatch(Some(a + "__" + b)) == Err(NotAnInteger)
  {
    var one, two := a + "_" + b, a + "__" + b;
    assert Solid(one) && Solid(two);
    StripSolid(one);
    StripSolid(two);
    UngroupedPair(a, b);
    assert one[|a|] == '_' && Grouped(one);
    assert two[|a|] == '_' && two[|a| + 1] == '_' && !Grouped(two);
  }
}

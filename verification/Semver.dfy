/** Version bumping of the republish flow (semver_util.py). */
module Semver {
  import opened Common
  import opened Text

  /** What the pattern `^v?(\d+)\.(\d+)\.(\d+)$` captures. */
  datatype Version = Version(prefixed: bool, major: nat, minor: nat, patch: nat)

  function Print(v: Version): string {
    (if v.prefixed then "v" else "")
      + Numeral(v.major) + "." + Numeral(v.minor) + "." + Numeral(v.patch)
  }

  function FromFields(prefixed: bool, fields: seq<string>): Option<Version> {
    if |fields| == 3 && IsNumeral(fields[0]) && IsNumeral(fields[1]) && IsNumeral(fields[2]) then
      Some(Version(prefixed, NumeralValue(fields[0]), NumeralValue(fields[1]), NumeralValue(fields[2])))
    else
      None
  }

  function Parse(text: string): Option<Version> {
    var s := Strip(text);
    if s != "" && s[0] == 'v' then FromFields(true, Split(s[1..], '.'))
    else FromFields(false, Split(s, '.'))
  }

  function BumpPatch(text: string): Option<string> {
    match Parse(text)
    case None => None
    case Some(v) => Some(Print(v.(patch := v.patch + 1)))
  }

  lemma StripIsIdentity(s: string)
    requires s != "" && !IsSpace(s[0]) && !IsSpace(s[|s| - 1])
    ensures Strip(s) == s
  {
  }

  lemma ParseDotted(prefixed: bool, a: string, b: string, c: string)
    requires IsNumeral(a) && IsNumeral(b) && IsNumeral(c)
    ensures Parse((if prefixed then "v" else "") + a + "." + b + "." + c)
         == FromFields(prefixed, [a, b, c])
  {
    var body := a + "." + b + "." + c;
    SplitThree(a, b, c);
    ParseStripped(prefixed, body);
    assert "v" + a + "." + b + "." + c == "v" + body;
    assert "" + a + "." + b + "." + c == body;
  }

  lemma ParseStripped(prefixed: bool, body: string)
    requires body != "" && IsDigit(body[0]) && IsDigit(body[|body| - 1])
    ensures Parse((if prefixed then "v" else "") + body) == FromFields(prefixed, Split(body, '.'))
  {
    hide Strip, FromFields, Split;
    if prefixed {
      var text := "v" + body;
      assert text[|text| - 1] == body[|body| - 1] && text[1..] == body;
      StripIsIdentity(text);
    } else {
      assert "" + body == body;
      StripIsIdentity(body);
    }
  }

  /** Every printed version parses back to the version it was printed from. */
  lemma PrintParses(v: Version)
    ensures Parse(Print(v)) == Some(v)
  {
    ParseDotted(v.prefixed, Numeral(v.major), Numeral(v.minor), Numeral(v.patch));
  }

  /** One bump of a parseable version parses back, keeps the prefix and raises only the patch. */
  lemma BumpRaisesPatch(text: string)
    ensures BumpPatch(text).None? <==> Parse(text).None?
    ensures forall v :: Parse(text) == Some(v) ==>
              Parse(BumpPatch(text).value) == Some(v.(patch := v.patch + 1))
  {
    if v :| Parse(text) == Some(v) {
      PrintParses(v.(patch := v.patch + 1));
    }
  }

  function Dotted(a: string, b: string, c: string): string { a + "." + b + "." + c }

  /** What parses: white space around, perhaps a v, and three numerals between dots; and to what. */
  lemma ParsesExactly(text: string, prefixed: bool, a: string, b: string, c: string)
    requires '.' !in a && '.' !in b && '.' !in c
    requires Strip(text) == (if prefixed then "v" else "") + Dotted(a, b, c) && (!prefixed ==> a == "" || a[0] != 'v')
    ensures Parse(text) ==
            if IsNumeral(a) && IsNumeral(b) && IsNumeral(c)
            then Some(Version(prefixed, NumeralValue(a), NumeralValue(b), NumeralValue(c))) else None
  {
    hide *;
    SplitThree(a, b, c);
    DottedHead(a, b, c);
    ParseFields(text, prefixed, Dotted(a, b, c));
    FieldsAre(prefixed, a, b, c);
  }

  lemma DottedHead(a: string, b: string, c: string)
    ensures Dotted(a, b, c) != "" && Dotted(a, b, c)[0] == if a == "" then '.' else a[0]
  {
  }

  lemma SplitThree(a: string, b: string, c: string)
    requires '.' !in a && '.' !in b && '.' !in c
    ensures Split(Dotted(a, b, c), '.') == [a, b, c]
  {
    assert a + "." + b + "." + c == a + ['.'] + (b + ['.'] + c);
    SplitFirst(a, b + ['.'] + c, '.');
    SplitFirst(b, c, '.');
    SplitPlain(c, '.');
  }

  lemma ParseFields(text: string, prefixed: bool, body: string)
    requires Strip(text) == (if prefixed then "v" else "") + body && body != "" && (!prefixed ==> body[0] != 'v')
    ensures Parse(text) == FromFields(prefixed, Split(body, '.'))
  {
    var s := Strip(text);
    hide Strip, Split;
    if prefixed { assert s[1..] == body; } else { assert s == body; }
  }

  lemma FieldsAre(prefixed: bool, a: string, b: string, c: string)
    ensures FromFields(prefixed, [a, b, c]) ==
            if IsNumeral(a) && IsNumeral(b) && IsNumeral(c)
            then Some(Version(prefixed, NumeralValue(a), NumeralValue(b), NumeralValue(c))) else None
  {
  }

  /** The version reached by n auto-versioned republish steps. */
  function BumpTimes(text: string, n: nat): Option<string> {
    if n == 0 then Some(text)
    else
      match BumpTimes(text, n - 1)
      case None => None
      case Some(t) => BumpPatch(t)
  }

  /** A chain of n bumps from any parseable version never gets stuck and raises the patch by n. */
  lemma {:induction false} BumpChain(text: string, v: Version, n: nat)
    requires Parse(text) == Some(v)
    ensures BumpTimes(text, n).Some?
    ensures Parse(BumpTimes(text, n).value) == Some(v.(patch := v.patch + n))
    ensures n > 0 ==> BumpTimes(text, n).value == Print(v.(patch := v.patch + n))
  {
    hide Parse, Print;
    if n > 0 {
      BumpChain(text, v, n - 1);
      PrintParses(v.(patch := v.patch + n));
    }
  }

}

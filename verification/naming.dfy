/** The naming-convention tokeniser of `utils/name_conventions.rs` and its five
    case conversions. Characters stand for bytes: the Rust code mixes char
    positions with byte offsets, which agree only on ASCII text, and its case
    changes are ASCII-only where it matters. */
module NamingConventions {
  import opened Base

  /** The crate's own names for the styles: its "camel" case is `CamelCase`
      (leading capital) and its "pascal" case is `pascalCase`. */
  datatype Style = CamelCase | PascalCase | KebabCase | SnakeCase | ScreamingSnakeCase

  predicate IsUpper(c: char) { 'A' <= c <= 'Z' }
  predicate IsLower(c: char) { 'a' <= c <= 'z' }

  function UpperChar(c: char): char {
    if IsLower(c) then (c as int - 32) as char else c
  }

  function LowerChar(c: char): char {
    if IsUpper(c) then (c as int + 32) as char else c
  }

  function Lower(s: string): (r: string)
    ensures |r| == |s|
    ensures forall i :: 0 <= i < |s| ==> r[i] == LowerChar(s[i])
  {
    if |s| == 0 then "" else [LowerChar(s[0])] + Lower(s[1..])
  }

  function Upper(s: string): (r: string)
    ensures |r| == |s|
    ensures forall i :: 0 <= i < |s| ==> r[i] == UpperChar(s[i])
  {
    if |s| == 0 then "" else [UpperChar(s[0])] + Upper(s[1..])
  }

  /** The style chosen from three facts about the input; any other
      combination, and the empty input, abort. */
  function Classify(value: string): (r: Result<Style>)
    ensures r.Ok? <==> (|value| > 0 && !('_' in value && '-' in value) && !('-' in value && IsUpper(value[0])))
    ensures r.Ok? ==> (r.value in {KebabCase} <==> '-' in value)
    ensures r.Ok? ==> (r.value in {SnakeCase, ScreamingSnakeCase} <==> '_' in value)
    ensures r.Ok? ==> (r.value in {CamelCase, ScreamingSnakeCase} <==> IsUpper(value[0]))
  {
    if |value| == 0 then Abort("first character of an empty name")
    else
      var underscore, hyphen, upper := '_' in value, '-' in value, IsUpper(value[0]);
      match (underscore, hyphen, upper)
      case (false, false, true) => Ok(CamelCase)
      case (false, false, false) => Ok(PascalCase)
      case (false, true, false) => Ok(KebabCase)
      case (true, false, false) => Ok(SnakeCase)
      case (true, false, true) => Ok(ScreamingSnakeCase)
      case _ => Abort("Cannot determine naming convention type")
  }

  /** The case-change scan: from position `i` on, with the current token
      starting at `start`. A token ends before every uppercase character at
      positions 1 .. |value|-2; the last position always closes the final
      token, whatever its case. */
  function SplitCaseFrom(value: string, start: nat, i: nat): seq<string>
    requires start < i <= |value|
    decreases |value| - i
  {
    if i == |value| then []
    else if i == |value| - 1 then [value[start..]]
    else if IsUpper(value[i]) then [value[start..i]] + SplitCaseFrom(value, i, i + 1)
    else SplitCaseFrom(value, start, i + 1)
  }

  /** Tokens of a separator-free name; the scan skips position 0, so a
      one-character name gives no token at all. */
  function SplitCase(value: string): seq<string> {
    if |value| <= 1 then [] else SplitCaseFrom(value, 0, 1)
  }

  /** `str::split` on one separator character: empty pieces are kept. */
  function Split(value: string, sep: char): (r: seq<string>)
    ensures |r| >= 1
    ensures forall k :: 0 <= k < |r| ==> sep !in r[k]
  {
    if |value| == 0 then [""]
    else
      var rest := Split(value[1..], sep);
      if value[0] == sep then [""] + rest
      else [[value[0]] + rest[0]] + rest[1..]
  }

  function LowerAll(tokens: seq<string>): (r: seq<string>)
    ensures |r| == |tokens|
    ensures forall k :: 0 <= k < |r| ==> r[k] == Lower(tokens[k])
  {
    if |tokens| == 0 then [] else [Lower(tokens[0])] + LowerAll(tokens[1..])
  }

  /** `NamingConventions::parse`: the lower-cased tokens of a name. */
  function Parse(value: string): (r: Result<seq<string>>)
    ensures r.Ok? <==> Classify(value).Ok?
  {
    var style :- Classify(value);
    var tokens := match style
      case CamelCase => SplitCase(value)
      case PascalCase => SplitCase(value)
      case KebabCase => Split(value, '-')
      case _ => Split(value, '_');
    Ok(LowerAll(tokens))
  }

  /** `token.get_mut(0..1).unwrap().make_ascii_uppercase()`: aborts on an
      empty token. */
  function CapitalizeFirst(token: string): (r: Result<string>)
    ensures r.Ok? <==> |token| > 0
    ensures r.Ok? ==> |r.value| == |token| && r.value[0] == UpperChar(token[0]) && r.value[1..] == token[1..]
  {
    if |token| == 0 then Abort("byte range 0..1 of an empty token")
    else Ok([UpperChar(token[0])] + token[1..])
  }

  function CapitalizeAll(tokens: seq<string>): (r: Result<seq<string>>)
    ensures r.Ok? <==> forall k :: 0 <= k < |tokens| ==> |tokens[k]| > 0
    ensures r.Ok? ==> |r.value| == |tokens|
    ensures r.Ok? ==> forall k :: 0 <= k < |tokens| ==> CapitalizeFirst(tokens[k]) == Ok(r.value[k])
  {
    if |tokens| == 0 then Ok([])
    else
      var head :- CapitalizeFirst(tokens[0]);
      var tail :- CapitalizeAll(tokens[1..]);
      Ok([head] + tail)
  }

  function UpperAll(tokens: seq<string>): (r: seq<string>)
    ensures |r| == |tokens|
    ensures forall k :: 0 <= k < |r| ==> r[k] == Upper(tokens[k])
  {
    if |tokens| == 0 then [] else [Upper(tokens[0])] + UpperAll(tokens[1..])
  }

  function ToCamelCase(value: string): Result<string> {
    var tokens :- Parse(value);
    var capitalized :- CapitalizeAll(tokens);
    Ok(Join(capitalized, ""))
  }

  function ToPascalCase(value: string): Result<string> {
    var tokens :- Parse(value);
    if |tokens| == 0 then Abort("range start index 1 out of range for an empty token list")
    else
      var capitalized :- CapitalizeAll(tokens[1..]);
      Ok(Join([tokens[0]] + capitalized, ""))
  }

  function ToKebabCase(value: string): Result<string> {
    var tokens :- Parse(value);
    Ok(Join(tokens, "-"))
  }

  function ToSnakeCase(value: string): Result<string> {
    var tokens :- Parse(value);
    Ok(Join(tokens, "_"))
  }

  function ToScreamingSnakeCase(value: string): Result<string> {
    var tokens :- Parse(value);
    Ok(Join(UpperAll(tokens), "_"))
  }

  // ---------------------------------------------------------------------
  // Properties of the tokeniser and the conversions

  lemma JoinCons(a: string, rest: seq<string>, sep: string)
    requires |rest| >= 1
    ensures Join([a] + rest, sep) == a + sep + Join(rest, sep)
  {
    assert ([a] + rest)[1..] == rest;
  }

  /** The shape of the scan's tokens for the text `whole`: none empty,
      concatenating back to `whole`, each after the first opening with an
      uppercase letter, and no other uppercase letter except the very last
      character. */
  predicate CaseTokens(ts: seq<string>, whole: string) {
    && |ts| >= 1
    && (forall k :: 0 <= k < |ts| ==> |ts[k]| > 0)
    && Join(ts, "") == whole
    && (forall k :: 1 <= k < |ts| ==> IsUpper(ts[k][0]))
    && (forall k, j :: 0 <= k < |ts| && 1 <= j < |ts[k]| && IsUpper(ts[k][j]) ==> k == |ts| - 1 && j == |ts[k]| - 1)
  }

  lemma {:induction false} SplitCaseFromShape(value: string, start: nat, i: nat)
    requires start < i < |value|
    requires forall j :: start < j < i ==> !IsUpper(value[j])
    ensures var ts := SplitCaseFrom(value, start, i);
      CaseTokens(ts, value[start..]) && ts[0][0] == value[start]
    decreases |value| - i, 1
  {
    var ts := SplitCaseFrom(value, start, i);
    if i == |value| - 1 {
      assert ts == [value[start..]];
    } else if IsUpper(value[i]) {
      SplitCaseCut(value, start, i);
    } else {
      SplitCaseFromShape(value, start, i + 1);
    }
  }

  /** An uppercase letter before the last position closes the token. */
  lemma {:induction false} SplitCaseCut(value: string, start: nat, i: nat)
    requires start < i < |value| - 1 && IsUpper(value[i])
    requires forall j :: start < j < i ==> !IsUpper(value[j])
    ensures var ts := SplitCaseFrom(value, start, i);
      CaseTokens(ts, value[start..]) && ts[0][0] == value[start]
    decreases |value| - i, 0
  {
    var ts := SplitCaseFrom(value, start, i);
    var rest := SplitCaseFrom(value, i, i + 1);
    SplitCaseFromShape(value, i, i + 1);
    assert ts == [value[start..i]] + rest;
    assert Join(ts, "") == value[start..] by {
      JoinCons(value[start..i], rest, "");
      assert value[start..i] + value[i..] == value[start..];
    }
    assert forall k, j :: 0 <= k < |ts| && 1 <= j < |ts[k]| && IsUpper(ts[k][j]) ==> k == |ts| - 1 && j == |ts[k]| - 1 by {
      forall k, j | 0 <= k < |ts| && 1 <= j < |ts[k]| && IsUpper(ts[k][j])
        ensures k == |ts| - 1 && j == |ts[k]| - 1
      {
        if k > 0 {
          assert ts[k] == rest[k - 1];
        }
      }
    }
  }

  /** The case-change scan loses nothing: its tokens concatenate back to the
      name, each token after the first starts with an uppercase letter, and an
      uppercase letter inside a token can only be the name's last character. */
  lemma SplitCaseShape(value: string)
    requires |value| >= 2
    ensures var ts := SplitCase(value);
      && |ts| >= 1
      && Join(ts, "") == value
      && (forall k :: 0 <= k < |ts| ==> |ts[k]| > 0)
      && (forall k :: 1 <= k < |ts| ==> IsUpper(ts[k][0]))
      && (forall k, j :: 0 <= k < |ts| && 1 <= j < |ts[k]| && IsUpper(ts[k][j]) ==> k == |ts| - 1 && j == |ts[k]| - 1)
  {
    SplitCaseFromShape(value, 0, 1);
  }

  /** Splitting on a separator and joining with it again gives the input. */
  lemma {:induction false} SplitJoin(value: string, sep: char)
    ensures Join(Split(value, sep), [sep]) == value
  {
    if |value| > 0 {
      var rest := Split(value[1..], sep);
      SplitJoin(value[1..], sep);
      if value[0] == sep {
        JoinCons("", rest, [sep]);
        assert [sep] + value[1..] == value;
      } else {
        var ts := [[value[0]] + rest[0]] + rest[1..];
        if |rest| == 1 {
          assert value == [value[0]] + value[1..];
        } else {
          JoinCons(rest[0], rest[1..], [sep]);
          JoinCons([value[0]] + rest[0], rest[1..], [sep]);
          assert rest == [rest[0]] + rest[1..];
          assert value == [value[0]] + value[1..];
        }
      }
    }
  }

  lemma LowerAppend(a: string, b: string)
    ensures Lower(a + b) == Lower(a) + Lower(b)
  {
  }

  lemma UpperAppend(a: string, b: string)
    ensures Upper(a + b) == Upper(a) + Upper(b)
  {
  }

  lemma {:induction false} LowerJoin(ts: seq<string>, sep: string)
    ensures Lower(Join(ts, sep)) == Join(LowerAll(ts), Lower(sep))
  {
    if |ts| > 1 {
      var rest := Join(ts[1..], sep);
      var us := LowerAll(ts);
      LowerJoin(ts[1..], sep);
      LowerAppend(ts[0] + sep, rest);
      LowerAppend(ts[0], sep);
      assert us[1..] == LowerAll(ts[1..]);
      assert Join(us, Lower(sep)) == us[0] + Lower(sep) + Join(us[1..], Lower(sep));
    }
  }

  lemma {:induction false} UpperJoin(ts: seq<string>, sep: string)
    ensures Upper(Join(ts, sep)) == Join(UpperAll(ts), Upper(sep))
  {
    if |ts| > 1 {
      var rest := Join(ts[1..], sep);
      var us := UpperAll(ts);
      UpperJoin(ts[1..], sep);
      UpperAppend(ts[0] + sep, rest);
      UpperAppend(ts[0], sep);
      assert us[1..] == UpperAll(ts[1..]);
      assert Join(us, Upper(sep)) == us[0] + Upper(sep) + Join(us[1..], Upper(sep));
    }
  }

  lemma UpperOfLower(ts: seq<string>)
    ensures UpperAll(LowerAll(ts)) == UpperAll(ts)
  {
    forall k | 0 <= k < |ts|
      ensures Upper(Lower(ts[k])) == Upper(ts[k])
    {
      var l, u := Upper(Lower(ts[k])), Upper(ts[k]);
      forall i | 0 <= i < |ts[k]|
        ensures l[i] == u[i]
      {
        LowerChars(ts[k][i]);
      }
    }
  }

  lemma ParseSeparated(value: string, sep: char)
    requires sep == '_' || sep == '-'
    requires sep in value
    requires '_' !in value || '-' !in value
    requires sep == '-' ==> !IsUpper(value[0])
    ensures Parse(value) == Ok(LowerAll(Split(value, sep)))
  {
    var style := Classify(value).value;
    if sep == '_' {
      assert style == SnakeCase || style == ScreamingSnakeCase;
    } else {
      assert style == KebabCase;
    }
  }

  /** Snake and screaming-snake names come back from `to_snake_case` as the
      lower-cased input, and from `to_screaming_snake_case` as the upper-cased
      input. */
  lemma SnakeRoundTrip(value: string)
    requires '_' in value && '-' !in value
    ensures ToSnakeCase(value) == Ok(Lower(value))
    ensures ToScreamingSnakeCase(value) == Ok(Upper(value))
  {
    var tokens := Split(value, '_');
    ParseSeparated(value, '_');
    SplitJoin(value, '_');
    LowerJoin(tokens, "_");
    UpperJoin(tokens, "_");
    UpperOfLower(tokens);
    assert Lower("_") == "_" && Upper("_") == "_";
    assert ToSnakeCase(value) == Ok(Join(LowerAll(tokens), "_"));
    assert ToScreamingSnakeCase(value) == Ok(Join(UpperAll(LowerAll(tokens)), "_"));
  }

  /** Kebab names come back from `to_kebab_case` as the lower-cased input. */
  lemma KebabRoundTrip(value: string)
    requires '-' in value && '_' !in value && !IsUpper(value[0])
    ensures ToKebabCase(value) == Ok(Lower(value))
  {
    var tokens := Split(value, '-');
    ParseSeparated(value, '-');
    SplitJoin(value, '-');
    LowerJoin(tokens, "-");
    assert Lower("-") == "-";
    assert ToKebabCase(value) == Ok(Join(LowerAll(tokens), "-"));
  }

  lemma LowerChars(c: char)
    ensures LowerChar(LowerChar(c)) == LowerChar(c)
    ensures LowerChar(UpperChar(LowerChar(c))) == LowerChar(c)
    ensures UpperChar(LowerChar(c)) == UpperChar(c)
  {
  }

  /** Lower-casing undoes the capital that `CapitalizeFirst` puts on a
      lower-cased token. */
  lemma LowerCapitalFirst(token: string)
    requires |token| > 0
    ensures var t := Lower(token); Lower([UpperChar(t[0])] + t[1..]) == t
  {
    var t := Lower(token);
    var c := [UpperChar(t[0])] + t[1..];
    var l := Lower(c);
    forall i | 0 <= i < |t|
      ensures l[i] == t[i]
    {
      LowerChars(token[i]);
      if i > 0 {
        assert c[i] == t[i];
      }
    }
  }

  lemma LowerOfCapitalized(tokens: seq<string>, caps: seq<string>)
    requires |caps| == |tokens|
    requires forall k :: 0 <= k < |tokens| ==> CapitalizeFirst(Lower(tokens[k])) == Ok(caps[k])
    ensures LowerAll(caps) == LowerAll(tokens)
  {
    forall k | 0 <= k < |tokens|
      ensures Lower(caps[k]) == Lower(tokens[k])
    {
      LowerCapitalFirst(tokens[k]);
    }
  }

  lemma ParseUnseparated(value: string)
    requires |value| > 0 && '_' !in value && '-' !in value
    ensures Parse(value) == Ok(LowerAll(SplitCase(value)))
  {
    var style := Classify(value).value;
    assert style == CamelCase || style == PascalCase;
  }

  lemma LowerJoinCapitalized(raw: seq<string>, caps: seq<string>)
    requires |caps| == |raw|
    requires forall k :: 0 <= k < |raw| ==> CapitalizeFirst(Lower(raw[k])) == Ok(caps[k])
    ensures Lower(Join(caps, "")) == Lower(Join(raw, ""))
  {
    LowerOfCapitalized(raw, caps);
    LowerJoin(caps, "");
    LowerJoin(raw, "");
    assert Lower("") == "";
  }

  lemma {:induction false} JoinLength(ts: seq<string>, us: seq<string>)
    requires |ts| == |us|
    requires forall k :: 0 <= k < |ts| ==> |ts[k]| == |us[k]|
    ensures |Join(ts, "")| == |Join(us, "")|
  {
    if |ts| > 1 {
      JoinLength(ts[1..], us[1..]);
    }
  }

  /** A separator-free name of two or more characters converts to the crate's
      camel case without aborting; the result differs from the input only in
      letter case and starts with an uppercase letter. */
  lemma CamelCaseKeepsLetters(value: string)
    requires |value| >= 2 && '_' !in value && '-' !in value
    ensures ToCamelCase(value).Ok?
    ensures |ToCamelCase(value).value| == |value|
    ensures Lower(ToCamelCase(value).value) == Lower(value)
    ensures ToCamelCase(value).value[0] == UpperChar(value[0])
  {
    var raw := SplitCase(value);
    SplitCaseShape(value);
    var tokens := LowerAll(raw);
    ParseUnseparated(value);
    var caps := CapitalizeAll(tokens);
    assert caps.Ok?;
    var r := Join(caps.value, "");
    assert ToCamelCase(value) == Ok(r);
    LowerJoinCapitalized(raw, caps.value);
    JoinLength(caps.value, raw);
    JoinHead(caps.value, "");
    JoinHead(raw, "");
    assert caps.value[0][0] == UpperChar(tokens[0][0]);
  }

  lemma CapitalizedLengths(raw: seq<string>, caps: seq<string>)
    requires |caps| == |raw|
    requires forall k :: 0 <= k < |raw| ==> CapitalizeFirst(Lower(raw[k])) == Ok(caps[k])
    ensures |Join(caps, "")| == |Join(raw, "")|
  {
    forall k | 0 <= k < |raw|
      ensures |caps[k]| == |raw[k]|
    {
      assert CapitalizeFirst(Lower(raw[k])) == Ok(caps[k]);
    }
    JoinLength(caps, raw);
  }

  /** Joining a lower-cased first token with capitalised later tokens keeps
      the letters of joining the original tokens. */
  lemma LowerJoinHeadKept(first: string, rest: seq<string>, caps: seq<string>)
    requires |rest| >= 1 && |caps| == |rest|
    requires forall k :: 0 <= k < |rest| ==> CapitalizeFirst(Lower(rest[k])) == Ok(caps[k])
    ensures Lower(Join([Lower(first)] + caps, "")) == Lower(Join([first] + rest, ""))
    ensures |Join([Lower(first)] + caps, "")| == |Join([first] + rest, "")|
  {
    var x := Join(caps, "");
    var y := Join(rest, "");
    LowerJoinCapitalized(rest, caps);
    CapitalizedLengths(rest, caps);
    ConcatJoin(Lower(first), caps);
    ConcatJoin(first, rest);
    LowerIdempotent(first);
    LowerConcatEq(Lower(first), first, x, y);
  }

  lemma ConcatJoin(a: string, rest: seq<string>)
    requires |rest| >= 1
    ensures Join([a] + rest, "") == a + Join(rest, "")
  {
    JoinCons(a, rest, "");
    assert a + "" == a;
  }

  lemma LowerIdempotent(s: string)
    ensures Lower(Lower(s)) == Lower(s)
  {
  }

  lemma LowerConcatEq(a: string, b: string, x: string, y: string)
    requires Lower(a) == Lower(b) && |x| == |y| && Lower(x) == Lower(y)
    ensures Lower(a + x) == Lower(b + y) && |a + x| == |b + y|
  {
    LowerAppend(a, x);
    LowerAppend(b, y);
  }

  /** The pascal-case partner: same letters up to case, and the first token
      keeps its lower-cased form. */
  lemma PascalCaseKeepsLetters(value: string)
    requires |value| >= 2 && '_' !in value && '-' !in value
    ensures ToPascalCase(value).Ok?
    ensures |ToPascalCase(value).value| == |value|
    ensures Lower(ToPascalCase(value).value) == Lower(value)
    ensures ToPascalCase(value).value[0] == LowerChar(value[0])
  {
    var raw := SplitCase(value);
    SplitCaseShape(value);
    ParseUnseparated(value);
    var tokens := LowerAll(raw);
    assert tokens[1..] == LowerAll(raw[1..]);
    var caps := CapitalizeAll(LowerAll(raw[1..]));
    assert caps.Ok?;
    assert ToPascalCase(value) == Ok(Join([Lower(raw[0])] + caps.value, ""));
    PascalOfTokens(raw, caps.value);
  }

  lemma PascalOfTokens(raw: seq<string>, caps: seq<string>)
    requires |raw| >= 1 && |raw[0]| >= 1 && |caps| == |raw| - 1
    requires forall k :: 0 <= k < |caps| ==> CapitalizeFirst(Lower(raw[1..][k])) == Ok(caps[k])
    ensures |Join([Lower(raw[0])] + caps, "")| == |Join(raw, "")|
    ensures Lower(Join([Lower(raw[0])] + caps, "")) == Lower(Join(raw, ""))
    ensures |Join(raw, "")| >= 1 && Join([Lower(raw[0])] + caps, "")[0] == LowerChar(Join(raw, "")[0])
  {
    if |raw| == 1 {
      assert [Lower(raw[0])] + caps == [Lower(raw[0])];
      LowerIdempotent(raw[0]);
    } else {
      assert raw == [raw[0]] + raw[1..];
      LowerJoinHeadKept(raw[0], raw[1..], caps);
    }
    JoinHead([Lower(raw[0])] + caps, "");
    JoinHead(raw, "");
  }

  lemma JoinHead(ts: seq<string>, sep: string)
    requires |ts| >= 1 && |ts[0]| >= 1
    ensures |Join(ts, sep)| >= 1 && Join(ts, sep)[0] == ts[0][0]
  {
  }

  /** A one-character name has no tokens: camel case gives the empty string
      and pascal case aborts on `tokens[1..]`. */
  lemma OneCharacterName(c: char)
    requires c != '_' && c != '-'
    ensures Parse([c]) == Ok([])
    ensures ToCamelCase([c]) == Ok("")
    ensures ToPascalCase([c]).Abort?
  {
  }

  /** An empty token, as in `a__b`, makes `to_camel_case` abort. */
  lemma EmptyTokenAborts()
    ensures Parse("a__b") == Ok(["a", "", "b"])
    ensures ToCamelCase("a__b").Abort?
  {
    assert "b"[1..] == "" && "b"[0] == 'b';
    assert Split("", '_') == [""];
    assert ['b'] + "" == "b";
    assert Split("b", '_') == ["b"];
    assert Split("_b", '_') == ["", "b"];
    assert Split("__b", '_') == ["", "", "b"];
    assert "a__b"[1..] == "__b";
    assert ['a'] + "" == "a";
    assert Split("a__b", '_') == ["a", "", "b"];
    assert "a__b"[0] == 'a' && "a__b"[1] == '_';
    assert Classify("a__b") == Ok(SnakeCase);
    assert Lower("a") == "a" && Lower("") == "" && Lower("b") == "b";
    assert LowerAll(["a", "", "b"]) == ["a", "", "b"];
  }
}

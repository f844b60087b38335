/** Placeholder substitution: `replace_template_variables` rewrites a
    template text with an ordered map of variables, one key after another,
    each key's `{{KEY}}` token being replaced with Python's `str.replace`. */
module Substitution {

  /** A variable's value before `str(value)` is applied: the project
      variables are strings except `YEAR`, an integer. */
  datatype Value = Text(s: string) | Number(n: int)

  /** A Python dict in insertion order. */
  type Variables = seq<(string, Value)>

  function DigitChar(d: nat): (c: char)
    requires d < 10
  {
    ('0' as int + d) as char
  }

  /** `str(n)` for a natural number: decimal digits, most significant first. */
  function NatToDecimal(n: nat): (r: string)
    ensures |r| > 0
    ensures forall i :: 0 <= i < |r| ==> '0' <= r[i] <= '9'
    ensures n > 0 ==> r[0] != '0'
  {
    if n < 10 then [DigitChar(n)] else NatToDecimal(n / 10) + [DigitChar(n % 10)]
  }

  /** The number a string of decimal digits denotes. */
  function DecimalValue(s: string): nat
    requires forall i :: 0 <= i < |s| ==> '0' <= s[i] <= '9'
  {
    if s == [] then 0 else DecimalValue(s[..|s| - 1]) * 10 + (s[|s| - 1] as int - '0' as int)
  }

  lemma {:induction false} NatToDecimalRoundTrip(n: nat)
    ensures DecimalValue(NatToDecimal(n)) == n
  {
    var r := NatToDecimal(n);
    if n >= 10 {
      NatToDecimalRoundTrip(n / 10);
      assert r[..|r| - 1] == NatToDecimal(n / 10);
    }
  }

  /** Python's `str(value)`. */
  function Show(v: Value): string {
    match v
    case Text(s) => s
    case Number(n) => if n < 0 then "-" + NatToDecimal(-n) else NatToDecimal(n)
  }

  /** The placeholder `f"{{{{{key}}}}}"`, that is `{{KEY}}`. */
  function Token(key: string): string {
    "{{" + key + "}}"
  }

  predicate OccursAt(s: string, pat: string, i: nat) {
    i + |pat| <= |s| && s[i..i + |pat|] == pat
  }

  predicate Contains(s: string, pat: string) {
    exists i: nat :: i <= |s| && OccursAt(s, pat, i)
  }

  /** `s.replace(pat, rep)` for a non-empty `pat`: scanning left to right,
      every occurrence that does not overlap an earlier replaced one is
      replaced; replaced text is not scanned again. */
  function Replace(s: string, pat: string, rep: string): string
    requires pat != []
    decreases |s|
  {
    if |s| < |pat| then s
    else if s[..|pat|] == pat then rep + Replace(s[|pat|..], pat, rep)
    else [s[0]] + Replace(s[1..], pat, rep)
  }

  /** `s.count(pat)`: the occurrences `Replace` rewrites. */
  function Count(s: string, pat: string): nat
    requires pat != []
    decreases |s|
  {
    if |s| < |pat| then 0
    else if s[..|pat|] == pat then 1 + Count(s[|pat|..], pat)
    else Count(s[1..], pat)
  }

  lemma {:induction false} ReplaceLength(s: string, pat: string, rep: string)
    requires pat != []
    ensures |Replace(s, pat, rep)| == |s| + Count(s, pat) * (|rep| - |pat|)
    decreases |s|
  {
    var d := |rep| - |pat|;
    if |s| < |pat| {
      assert Count(s, pat) == 0;
    } else if s[..|pat|] == pat {
      var rest := s[|pat|..];
      ReplaceLength(rest, pat, rep);
      var n := Count(rest, pat);
      assert Count(s, pat) == n + 1;
      assert |Replace(s, pat, rep)| == |rep| + |rest| + n * d;
      MultiplySuccessor(n, d);
    } else {
      ReplaceLength(s[1..], pat, rep);
      assert Count(s, pat) == Count(s[1..], pat);
      assert |Replace(s, pat, rep)| == 1 + |Replace(s[1..], pat, rep)|;
    }
  }

  lemma MultiplySuccessor(n: int, d: int)
    ensures (n + 1) * d == n * d + d
  {
  }

  /** An occurrence in the tail is an occurrence in the whole text. */
  lemma ContainsTail(s: string, pat: string)
    requires s != [] && Contains(s[1..], pat)
    ensures Contains(s, pat)
  {
    var i: nat :| i <= |s[1..]| && OccursAt(s[1..], pat, i);
    assert i + |pat| <= |s| - 1 && s[1..][i..i + |pat|] == pat;
    assert s[i + 1..i + 1 + |pat|] == s[1..][i..i + |pat|];
    assert OccursAt(s, pat, i + 1);
  }

  /** An occurrence that is not at the start is an occurrence in the tail. */
  lemma ContainsLater(s: string, pat: string)
    requires Contains(s, pat) && !OccursAt(s, pat, 0)
    ensures s != [] && Contains(s[1..], pat)
  {
    var i: nat :| i <= |s| && OccursAt(s, pat, i);
    assert i + |pat| <= |s| && s[i..i + |pat|] == pat;
    assert i != 0;
    assert s[1..][i - 1..i - 1 + |pat|] == s[i..i + |pat|];
    assert OccursAt(s[1..], pat, i - 1);
  }

  /** `Count` is zero exactly when the pattern occurs nowhere. */
  lemma {:induction false} CountZeroIffAbsent(s: string, pat: string)
    requires pat != []
    ensures Count(s, pat) == 0 <==> !Contains(s, pat)
    decreases |s|
  {
    if |s| < |pat| {
      assert forall i: nat :: !OccursAt(s, pat, i);
    } else if s[..|pat|] == pat {
      assert OccursAt(s, pat, 0);
    } else {
      CountZeroIffAbsent(s[1..], pat);
      if Contains(s, pat) {
        ContainsLater(s, pat);
      }
      if Contains(s[1..], pat) {
        ContainsTail(s, pat);
      }
    }
  }

  /** A text in which the pattern does not occur comes back unchanged. */
  lemma {:induction false} ReplaceAbsent(s: string, pat: string, rep: string)
    requires pat != []
    requires !Contains(s, pat)
    ensures Replace(s, pat, rep) == s
    decreases |s|
  {
    if |s| >= |pat| {
      assert !OccursAt(s, pat, 0);
      if Contains(s[1..], pat) {
        ContainsTail(s, pat);
      }
      ReplaceAbsent(s[1..], pat, rep);
    }
  }

  /** The fold: keys are applied in order, each to the text the previous
      keys produced. */
  function Substitute(content: string, vars: Variables): string
    decreases |vars|
  {
    if vars == [] then content
    else Substitute(Replace(content, Token(vars[0].0), Show(vars[0].1)), vars[1..])
  }

  /** Appending a key to the map appends one replacement step at the end. */
  lemma {:induction false} SubstituteAppend(content: string, vars: Variables, key: string, value: Value)
    ensures Substitute(content, vars + [(key, value)])
         == Replace(Substitute(content, vars), Token(key), Show(value))
    decreases |vars|
  {
    if vars == [] {
      assert [] + [(key, value)] == [(key, value)];
    } else {
      assert (vars + [(key, value)])[1..] == vars[1..] + [(key, value)];
      SubstituteAppend(Replace(content, Token(vars[0].0), Show(vars[0].1)), vars[1..], key, value);
    }
  }

  /** A text holding no token of any key in the map is returned unchanged;
      in particular the empty map changes nothing. */
  lemma {:induction false} SubstituteWithoutTokens(content: string, vars: Variables)
    requires forall i :: 0 <= i < |vars| ==> !Contains(content, Token(vars[i].0))
    ensures Substitute(content, vars) == content
    decreases |vars|
  {
    if vars != [] {
      ReplaceAbsent(content, Token(vars[0].0), Show(vars[0].1));
      SubstituteWithoutTokens(content, vars[1..]);
    }
  }

  /** One step changes the length by the number of occurrences times the
      difference between the value's and the token's lengths. */
  lemma SubstituteStepLength(content: string, key: string, value: Value)
    ensures |Substitute(content, [(key, value)])|
         == |content| + Count(content, Token(key)) * (|Show(value)| - |Token(key)|)
  {
    assert [(key, value)][1..] == [];
    ReplaceLength(content, Token(key), Show(value));
  }

  /** The fold is sequential, not a single pass: the value of an earlier key
      can introduce a token that a later key then rewrites, so the result
      depends on the order of the keys. */
  lemma LaterKeyRewritesEarlierValue()
    ensures Substitute("{{A}}", [("A", Text("{{B}}")), ("B", Text("x"))]) == "x"
    ensures Substitute("{{A}}", [("B", Text("x")), ("A", Text("{{B}}"))]) == "{{B}}"
  {
    var a, b := Token("A"), Token("B");
    assert a == "{{A}}" && b == "{{B}}";
    assert Replace("{{A}}", a, "{{B}}") == "{{B}}" + Replace("", a, "{{B}}");
    assert Replace("{{B}}", b, "x") == "x" + Replace("", b, "x");
    assert "{{A}}"[..5] != b by { assert "{{A}}"[2] != b[2]; }
    assert Replace("{{A}}", b, "x") == "{{A}}";
    assert [("A", Text("{{B}}")), ("B", Text("x"))][1..] == [("B", Text("x"))];
    assert [("B", Text("x")), ("A", Text("{{B}}"))][1..] == [("A", Text("{{B}}"))];
  }

  /** `replace_template_variables`: reassigns the content once per key, in
      the map's order. */
  method ReplaceTemplateVariables(content: string, variables: Variables) returns (result: string)
    ensures result == Substitute(content, variables)
  {
    result := content;
    for i := 0 to |variables|
      invariant result == Substitute(content, variables[..i])
    {
      var (key, value) := variables[i];
      SubstituteAppend(content, variables[..i], key, value);
      assert variables[..i + 1] == variables[..i] + [(key, value)];
      result := Replace(result, Token(key), Show(value));
    }
    assert variables[..|variables|] == variables;
  }
}

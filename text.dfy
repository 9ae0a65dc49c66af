/**
 * The two string operations the tracker applies to typed input: `strip()`
 * (drop surrounding whitespace) and `capitalize()` (first character upper
 * case, the rest lower case), over ASCII characters.
 */
module Text {

  /** The ASCII characters for which Python's `str.isspace()` holds. */
  predicate IsSpace(c: char)
  {
    c == ' ' || 9 <= c as int <= 13 || 28 <= c as int <= 31
  }

  predicate AllSpace(s: string)
  {
    forall i :: 0 <= i < |s| ==> IsSpace(s[i])
  }

  /** Neither the first nor the last character is whitespace. */
  predicate Trimmed(s: string)
  {
    s == [] || (!IsSpace(s[0]) && !IsSpace(s[|s| - 1]))
  }

  /** `s` with its leading whitespace removed. */
  function StripStart(s: string): (r: string)
    ensures |r| <= |s| && r == s[|s| - |r|..]
    ensures AllSpace(s[..|s| - |r|])
    ensures r == [] || !IsSpace(r[0])
  {
    if s != [] && IsSpace(s[0]) then
      var r := StripStart(s[1..]);
      assert s[..|s| - |r|] == [s[0]] + s[1..][..|s| - 1 - |r|];
      r
    else s
  }

  /** `s` with its trailing whitespace removed. */
  function StripEnd(s: string): (r: string)
    ensures |r| <= |s| && r == s[..|r|]
    ensures AllSpace(s[|r|..])
    ensures r == [] || !IsSpace(r[|r| - 1])
  {
    if s != [] && IsSpace(s[|s| - 1]) then
      var r := StripEnd(s[..|s| - 1]);
      assert s[|r|..] == s[..|s| - 1][|r|..] + [s[|s| - 1]];
      r
    else s
  }

  /** Python's `s.strip()`: `s` less its leading and trailing whitespace. */
  function Strip(s: string): (r: string)
    ensures Trimmed(r)
  {
    var t := StripStart(s);
    var r := StripEnd(t);
    assert r != [] ==> r[0] == t[0];
    r
  }

  /** Stripping keeps exactly the text between the whitespace padding. */
  lemma {:induction false} StripPadded(lead: string, body: string, trail: string)
    requires AllSpace(lead) && AllSpace(trail) && Trimmed(body)
    ensures Strip(lead + body + trail) == body
  {
    assert lead + body + trail == lead + (body + trail);
    if body == [] {
      var s := lead + body + trail;
      assert AllSpace(s);
      assert StripStart(s) == [];
    } else {
      StripStartPadded(lead, body + trail);
      StripEndPadded(body, trail);
    }
  }

  lemma {:induction false} StripStartPadded(lead: string, rest: string)
    requires AllSpace(lead) && (rest == [] || !IsSpace(rest[0]))
    ensures StripStart(lead + rest) == rest
  {
    if lead != [] {
      assert (lead + rest)[1..] == lead[1..] + rest;
      StripStartPadded(lead[1..], rest);
    } else {
      assert lead + rest == rest;
    }
  }

  lemma {:induction false} StripEndPadded(body: string, trail: string)
    requires AllSpace(trail) && (body == [] || !IsSpace(body[|body| - 1]))
    ensures StripEnd(body + trail) == body
  {
    if trail != [] {
      assert (body + trail)[..|body + trail| - 1] == body + trail[..|trail| - 1];
      StripEndPadded(body, trail[..|trail| - 1]);
    } else {
      assert body + trail == body;
    }
  }

  /** The upper-case form of an ASCII lower-case letter; any other character is kept. */
  function Upper(c: char): char
  {
    if 'a' <= c <= 'z' then (c as int - 32) as char else c
  }

  /** The lower-case form of an ASCII upper-case letter; any other character is kept. */
  function Lower(c: char): char
  {
    if 'A' <= c <= 'Z' then (c as int + 32) as char else c
  }

  function LowerAll(s: string): (r: string)
    ensures |r| == |s|
    ensures forall i :: 0 <= i < |s| ==> r[i] == Lower(s[i])
  {
    seq(|s|, i requires 0 <= i < |s| => Lower(s[i]))
  }

  /** Python's `s.capitalize()`: the first character upper case, the others lower case. */
  function Capitalize(s: string): (r: string)
    ensures |r| == |s|
  {
    if s == [] then [] else [Upper(s[0])] + LowerAll(s[1..])
  }

  /** `a` and `b` differ at most in the case of their letters. */
  predicate CaseInsensitiveEq(a: string, b: string)
  {
    |a| == |b| && forall i :: 0 <= i < |a| ==> Lower(a[i]) == Lower(b[i])
  }

  /** Already in `capitalize()` form: an upper-case ASCII letter and then lower-case ASCII letters. */
  predicate IsCapitalizedWord(w: string)
  {
    |w| > 0 && 'A' <= w[0] <= 'Z' && forall i :: 1 <= i < |w| ==> 'a' <= w[i] <= 'z'
  }

  /**
   * Capitalizing yields a given capitalized word exactly when the input is
   * that word in any mixture of upper and lower case.
   */
  lemma CapitalizeMatches(s: string, w: string)
    requires IsCapitalizedWord(w)
    ensures Capitalize(s) == w <==> CaseInsensitiveEq(s, w)
  {
    if CaseInsensitiveEq(s, w) {
      var r := Capitalize(s);
      assert |r| == |w|;
      forall i | 0 <= i < |w|
        ensures r[i] == w[i]
      {
        if i > 0 {
          assert r[i] == Lower(s[i]);
        }
      }
    }
    if Capitalize(s) == w {
      forall i | 0 <= i < |w|
        ensures Lower(s[i]) == Lower(w[i])
      {
        if i > 0 {
          assert Capitalize(s)[i] == Lower(s[i]);
        }
      }
    }
  }
}

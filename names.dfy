/**
 * Name normalisation (getString in include/main.cpp): a string argument
 * that the host passes as a null pointer reads as "", and names are
 * lower-cased before every lookup and insert. `::tolower` is taken in
 * the "C" locale, i.e. as ASCII lower-casing.
 */
module Names {
  import opened PVarTypes

  predicate IsUpper(c: char)
  {
    'A' <= c <= 'Z'
  }

  function LowerChar(c: char): char
  {
    if IsUpper(c) then (c as int + 32) as char else c
  }

  /** ASCII lower-casing of every character of the name. */
  function Lower(s: string): (r: string)
    ensures |r| == |s|
    ensures IsLowered(r)
    ensures EqualIgnoringCase(r, s)
  {
    seq(|s|, i requires 0 <= i < |s| => LowerChar(s[i]))
  }

  /** A string with no ASCII capital letter. */
  predicate IsLowered(s: string)
  {
    forall i :: 0 <= i < |s| ==> !IsUpper(s[i])
  }

  /** Two characters that are equal or the same ASCII letter in different case. */
  predicate SameLetterIgnoringCase(a: char, b: char)
  {
    a == b
    || (IsUpper(a) && b as int == a as int + 32)
    || (IsUpper(b) && a as int == b as int + 32)
  }

  /** Independent reference for "the same name up to letter case". */
  predicate EqualIgnoringCase(s: string, t: string)
  {
    |s| == |t| && forall i :: 0 <= i < |s| ==> SameLetterIgnoringCase(s[i], t[i])
  }

  /**
   * getString(amx, param, toLower): the host string, or "" for a null
   * pointer, lower-cased when asked.
   */
  function StringParam(p: Option<string>, toLower: bool): (r: string)
    ensures p.None? ==> r == ""
    ensures p.Some? ==> |r| == |p.value| && EqualIgnoringCase(r, p.value)
    ensures p.Some? && !toLower ==> r == p.value
    ensures toLower ==> IsLowered(r)
  {
    match p
    case None => ""
    case Some(s) =>
      if toLower then Lower(s) else s
  }

  /** The key a name argument addresses in a DataMap. */
  function Key(p: Option<string>): string
  {
    StringParam(p, true)
  }

  lemma SameLetterIgnoringCaseIffSameLower(a: char, b: char)
    ensures SameLetterIgnoringCase(a, b) <==> LowerChar(a) == LowerChar(b)
  {
  }

  /**
   * Two names address the same variable exactly when they differ only
   * in the case of ASCII letters.
   */
  lemma {:induction false} SameKeyIffEqualIgnoringCase(s: string, t: string)
    ensures Lower(s) == Lower(t) <==> EqualIgnoringCase(s, t)
  {
    if EqualIgnoringCase(s, t) {
      forall i | 0 <= i < |s|
        ensures Lower(s)[i] == Lower(t)[i]
      {
        SameLetterIgnoringCaseIffSameLower(s[i], t[i]);
      }
    }
    if Lower(s) == Lower(t) {
      forall i | 0 <= i < |s|
        ensures SameLetterIgnoringCase(s[i], t[i])
      {
        assert Lower(s)[i] == Lower(t)[i];
        SameLetterIgnoringCaseIffSameLower(s[i], t[i]);
      }
    }
  }

  /**
   * The key of a name argument is insensitive to the case of its letters;
   * a null name and "" address the same key.
   */
  lemma KeyCaseInsensitive(p: Option<string>, q: Option<string>)
    requires EqualIgnoringCase(StringParam(p, false), StringParam(q, false))
    ensures Key(p) == Key(q)
  {
    var a, b := StringParam(p, false), StringParam(q, false);
    SameKeyIffEqualIgnoringCase(a, b);
    assert Key(p) == Lower(a) && Key(q) == Lower(b);
  }
}

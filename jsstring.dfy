/**
  The JavaScript string built-ins the news analyzer relies on: `toLowerCase`
  (restricted to ASCII), `includes`, `trim` and `length`, which counts UTF-16
  code units rather than characters.
 */
module JsString {

  // ---------------------------------------------------------------------------
  // toLowerCase (ASCII only)
  // ---------------------------------------------------------------------------

  predicate IsAsciiUpper(c: char) {
    'A' <= c <= 'Z'
  }

  /** Lower-cases an ASCII capital and leaves every other character alone. */
  function LowerChar(c: char): (d: char)
    ensures !IsAsciiUpper(d)
    ensures IsAsciiUpper(c) ==> 'a' <= d <= 'z' && d as int == c as int + 32
    ensures !IsAsciiUpper(c) ==> d == c
  {
    if IsAsciiUpper(c) then (c as int + 32) as char else c
  }

  function Lower(s: string): (r: string)
    ensures |r| == |s|
    ensures forall i :: 0 <= i < |s| ==> r[i] == LowerChar(s[i])
  {
    seq(|s|, i requires 0 <= i < |s| => LowerChar(s[i]))
  }

  /** Lower-casing twice is lower-casing once. */
  lemma LowerIdempotent(s: string)
    ensures Lower(Lower(s)) == Lower(s)
  {
  }

  /** Lower-casing works character by character, so it distributes over concatenation. */
  lemma LowerConcat(a: string, b: string)
    ensures Lower(a + b) == Lower(a) + Lower(b)
  {
  }

  // ---------------------------------------------------------------------------
  // includes
  // ---------------------------------------------------------------------------

  /** `pat` occurs in `text` starting at index `i`. */
  ghost predicate OccursAt(text: string, pat: string, i: int) {
    0 <= i && i + |pat| <= |text| && text[i..i + |pat|] == pat
  }

  /** The reference meaning of `text.includes(pat)`: some position holds `pat`. */
  ghost predicate Occurs(text: string, pat: string) {
    exists i :: OccursAt(text, pat, i)
  }

  predicate StartsWith(text: string, pat: string) {
    |pat| <= |text| && text[..|pat|] == pat
  }

  /** `text.includes(pat)`: a left-to-right scan for `pat`. */
  function Contains(text: string, pat: string): (found: bool)
    ensures found ==> |pat| <= |text|
    ensures pat == [] ==> found
    decreases |text|
  {
    StartsWith(text, pat) || (text != [] && Contains(text[1..], pat))
  }

  /** The scan finds `pat` exactly when some position of `text` holds it. */
  lemma {:induction false} ContainsIffOccurs(text: string, pat: string)
    ensures Contains(text, pat) <==> Occurs(text, pat)
    decreases |text|
  {
    if StartsWith(text, pat) {
      assert OccursAt(text, pat, 0);
    } else if text == [] {
      forall i ensures !OccursAt(text, pat, i) {}
    } else {
      ContainsIffOccurs(text[1..], pat);
      if Contains(text[1..], pat) {
        var j :| OccursAt(text[1..], pat, j);
        assert text[j + 1..j + 1 + |pat|] == text[1..][j..j + |pat|];
        assert OccursAt(text, pat, j + 1);
      }
      if Occurs(text, pat) {
        var i :| OccursAt(text, pat, i);
        assert i != 0;
        assert text[1..][i - 1..i - 1 + |pat|] == text[i..i + |pat|];
        assert OccursAt(text[1..], pat, i - 1);
      }
    }
  }

  /** An occurrence in `t` is still an occurrence once text is added on either side. */
  lemma OccursInContext(a: string, t: string, b: string, pat: string)
    requires Occurs(t, pat)
    ensures Occurs(a + t + b, pat)
  {
    var i :| OccursAt(t, pat, i);
    assert (a + t + b)[|a| + i..|a| + i + |pat|] == t[i..i + |pat|];
    assert OccursAt(a + t + b, pat, |a| + i);
  }

  /** The first three characters of `pat` never appear in a row in `text`. */
  ghost predicate NoTrigram(text: string, pat: string) {
    |pat| >= 3
    && forall i :: 0 <= i < |text| - 2 ==>
      !(text[i] == pat[0] && text[i + 1] == pat[1] && text[i + 2] == pat[2])
  }

  /** Every character of `text` is one of `alphabet`. */
  ghost predicate DrawnFrom(text: string, alphabet: string) {
    forall c :: c in text ==> c in alphabet
  }

  /** One of the first three characters of `pat` does not appear in `text` at all. */
  predicate MissesLetter(text: string, pat: string) {
    |pat| >= 3 && (pat[0] !in text || pat[1] !in text || pat[2] !in text)
  }

  /** A text written in an alphabet that lacks one of the first three characters of `pat` has no trigram of it. */
  lemma NoTrigramOutside(text: string, alphabet: string, pat: string)
    requires DrawnFrom(text, alphabet) && MissesLetter(alphabet, pat)
    ensures NoTrigram(text, pat)
  {
    forall i | 0 <= i < |text| - 2
      ensures !(text[i] == pat[0] && text[i + 1] == pat[1] && text[i + 2] == pat[2])
    {
      assert text[i] in text && text[i + 1] in text && text[i + 2] in text;
    }
  }

  /** An occurrence of `pat` at `i` puts its first three characters at `i`, `i + 1` and `i + 2`. */
  lemma TrigramAt(text: string, pat: string, i: int)
    requires OccursAt(text, pat, i) && |pat| >= 3
    ensures text[i] == pat[0] && text[i + 1] == pat[1] && text[i + 2] == pat[2]
  {
    assert text[i..i + |pat|][0] == text[i];
  }

  /** A pattern whose first three characters never appear in a row in `text` is not included in it. */
  lemma AbsentByTrigram(text: string, pat: string)
    requires NoTrigram(text, pat)
    ensures !Contains(text, pat)
  {
    ContainsIffOccurs(text, pat);
    forall i | OccursAt(text, pat, i) ensures false {
      TrigramAt(text, pat, i);
    }
  }

  /** Joining two such texts at a space cannot create the trigram, if the pattern starts with no space. */
  lemma NoTrigramConcat(a: string, b: string, pat: string)
    requires NoTrigram(a, pat) && NoTrigram(b, pat)
    requires a != [] && a[|a| - 1] == ' '
    requires pat[0] != ' ' && pat[1] != ' ' && pat[2] != ' '
    ensures NoTrigram(a + b, pat)
  {
    var t := a + b;
    forall i | 0 <= i < |t| - 2
      ensures !(t[i] == pat[0] && t[i + 1] == pat[1] && t[i + 2] == pat[2])
    {
      if i + 2 < |a| {
        assert t[i] == a[i] && t[i + 1] == a[i + 1] && t[i + 2] == a[i + 2];
      } else if i >= |a| {
        assert t[i] == b[i - |a|] && t[i + 1] == b[i + 1 - |a|] && t[i + 2] == b[i + 2 - |a|];
      } else if i + 2 == |a| {
        assert t[i + 1] == ' ';
      } else {
        assert t[i] == ' ';
      }
    }
  }

  /** Lower-casing never turns another character into one that is not an ASCII capital, so a trigram absent after lower-casing was absent before. */
  lemma NoTrigramBeforeLower(text: string, pat: string)
    requires NoTrigram(Lower(text), pat)
    requires !IsAsciiUpper(pat[0]) && !IsAsciiUpper(pat[1]) && !IsAsciiUpper(pat[2])
    ensures NoTrigram(text, pat)
  {
    var l := Lower(text);
    forall i | 0 <= i < |text| - 2
      ensures !(text[i] == pat[0] && text[i + 1] == pat[1] && text[i + 2] == pat[2])
    {
      assert l[i] == LowerChar(text[i]) && l[i + 1] == LowerChar(text[i + 1]) && l[i + 2] == LowerChar(text[i + 2]);
    }
  }

  /** A pattern found in the second part of a concatenation occurs in the whole. */
  lemma PresentInSuffix(a: string, b: string, pat: string, i: nat)
    requires i + |pat| <= |b| && b[i..i + |pat|] == pat
    ensures Occurs(a + b, pat)
  {
    assert (a + b)[|a| + i..|a| + i + |pat|] == b[i..i + |pat|];
    assert OccursAt(a + b, pat, |a| + i);
  }

  // ---------------------------------------------------------------------------
  // trim
  // ---------------------------------------------------------------------------

  /**
    The characters `String.prototype.trim` removes: ECMAScript WhiteSpace
    (TAB, VT, FF, ZWNBSP and the Unicode space separators) and
    LineTerminator (LF, CR, LS, PS).
   */
  predicate IsWhitespace(c: char) {
    c == '\t' || c == '\U{000B}' || c == '\U{000C}' || c == ' ' || c == '\U{00A0}'
    || c == '\U{FEFF}' || c == '\U{1680}' || ('\U{2000}' <= c <= '\U{200A}') || c == '\U{202F}'
    || c == '\U{205F}' || c == '\U{3000}'
    || c == '\n' || c == '\r' || c == '\U{2028}' || c == '\U{2029}'
  }

  ghost predicate AllWhitespace(s: string) {
    forall i :: 0 <= i < |s| ==> IsWhitespace(s[i])
  }

  /** Drops leading whitespace: the result is the suffix that starts at the first other character. */
  function TrimStart(s: string): (r: string)
    ensures |r| <= |s| && r == s[|s| - |r|..]
    ensures AllWhitespace(s[..|s| - |r|])
    ensures r == [] || !IsWhitespace(r[0])
  {
    if s != [] && IsWhitespace(s[0]) then TrimStart(s[1..]) else s
  }

  /** Drops trailing whitespace: the result is the prefix that ends at the last other character. */
  function TrimEnd(s: string): (r: string)
    ensures |r| <= |s| && r == s[..|r|]
    ensures AllWhitespace(s[|r|..])
    ensures r == [] || !IsWhitespace(r[|r| - 1])
  {
    if s != [] && IsWhitespace(s[|s| - 1]) then TrimEnd(s[..|s| - 1]) else s
  }

  /** `s.trim()`: a contiguous slice of `s` with no whitespace at either end. */
  function Trim(s: string): (r: string)
    ensures exists k :: OccursAt(s, r, k) && AllWhitespace(s[..k]) && AllWhitespace(s[k + |r|..])
    ensures r == [] || (!IsWhitespace(r[0]) && !IsWhitespace(r[|r| - 1]))
  {
    var t := TrimStart(s);
    var r := TrimEnd(t);
    TrimmedSlice(s, t, r);
    r
  }

  /** Dropping whitespace from the front of `s` to get `t`, then from the back of `t` to get `r`, leaves `r` flanked by whitespace in `s`. */
  lemma TrimmedSlice(s: string, t: string, r: string)
    requires |t| <= |s| && t == s[|s| - |t|..] && AllWhitespace(s[..|s| - |t|])
    requires |r| <= |t| && r == t[..|r|] && AllWhitespace(t[|r|..])
    ensures exists k :: OccursAt(s, r, k) && AllWhitespace(s[..k]) && AllWhitespace(s[k + |r|..])
  {
    var k := |s| - |t|;
    assert s[k..k + |r|] == r;
    assert s[k + |r|..] == t[|r|..];
    assert OccursAt(s, r, k);
  }

  /** The trimmed string is empty exactly when every character is whitespace. */
  lemma TrimEmptyIffBlank(s: string)
    ensures Trim(s) == [] <==> AllWhitespace(s)
  {
    var t := TrimStart(s);
    if Trim(s) == [] {
      assert t == [];
      assert s == s[..|s| - |t|];
    }
  }

  // ---------------------------------------------------------------------------
  // length
  // ---------------------------------------------------------------------------

  /** `s.length`: characters outside the Basic Multilingual Plane take two UTF-16 code units. */
  function Utf16Length(s: string): (n: nat)
    ensures |s| <= n <= 2 * |s|
    ensures (forall i :: 0 <= i < |s| ==> s[i] <= '\U{FFFF}') ==> n == |s|
  {
    if s == [] then 0
    else (if s[0] <= '\U{FFFF}' then 1 else 2) + Utf16Length(s[1..])
  }

  /** A text written in an alphabet of Basic Multilingual Plane characters has one code unit per character. */
  lemma Utf16LengthInBmp(s: string, alphabet: string)
    requires DrawnFrom(s, alphabet)
    requires forall c :: c in alphabet ==> c <= '\U{FFFF}'
    ensures Utf16Length(s) == |s|
  {
    assert forall i :: 0 <= i < |s| ==> s[i] in s;
  }

  /** One character takes one code unit inside the Basic Multilingual Plane and a surrogate pair outside it. */
  lemma Utf16LengthOfChar(c: char)
    ensures Utf16Length([c]) == if c <= '\U{FFFF}' then 1 else 2
  {
    assert [c][1..] == [];
  }

  /** The code-unit length of a concatenation is the sum of the parts' lengths. */
  lemma {:induction false} Utf16LengthConcat(a: string, b: string)
    ensures Utf16Length(a + b) == Utf16Length(a) + Utf16Length(b)
  {
    if a != [] {
      assert (a + b)[0] == a[0] && (a + b)[1..] == a[1..] + b;
      Utf16LengthConcat(a[1..], b);
    } else {
      assert a + b == b;
    }
  }
}

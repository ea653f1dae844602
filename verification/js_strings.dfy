/** The JavaScript string operations the pages and routes rely on:
    `String.prototype.trim`, `toLowerCase` and the regular-expression classes
    `\s` and `\d`. */
module JsStrings {

  /** ECMAScript WhiteSpace and LineTerminator code points: what `trim`
      removes and what the regular-expression class `\s` matches. */
  predicate IsWhitespace(c: char) {
    || c == '\t' || c == '\n' || c == '\U{000B}' || c == '\U{000C}' || c == '\r' || c == ' '
    || c == '\U{00A0}' || c == '\U{1680}' || ('\U{2000}' <= c <= '\U{200A}')
    || c == '\U{2028}' || c == '\U{2029}' || c == '\U{202F}' || c == '\U{205F}'
    || c == '\U{3000}' || c == '\U{FEFF}'
  }

  /** The regular-expression class `\d` (ASCII digits only, no `u` flag). */
  predicate IsDigit(c: char) {
    '0' <= c <= '9'
  }


  /** How many whitespace characters `s` starts with. */
  function LeadingSpace(s: string): (n: nat)
    ensures n <= |s|
    ensures forall k :: 0 <= k < n ==> IsWhitespace(s[k])
    ensures n == |s| || !IsWhitespace(s[n])
  {
    if |s| > 0 && IsWhitespace(s[0]) then 1 + LeadingSpace(s[1..]) else 0
  }

  /** How many whitespace characters `s` ends with. */
  function TrailingSpace(s: string): (n: nat)
    ensures n <= |s|
    ensures forall k :: |s| - n <= k < |s| ==> IsWhitespace(s[k])
    ensures n == |s| || !IsWhitespace(s[|s| - n - 1])
  {
    if |s| > 0 && IsWhitespace(s[|s| - 1]) then 1 + TrailingSpace(s[..|s| - 1]) else 0
  }

  /** `s.trimStart()`. */
  function TrimStart(s: string): (r: string)
    ensures |r| <= |s| && r == s[|s| - |r|..]
    ensures forall i :: 0 <= i < |s| - |r| ==> IsWhitespace(s[i])
    ensures r == [] || !IsWhitespace(r[0])
  {
    s[LeadingSpace(s)..]
  }

  /** `s.trimEnd()`. */
  function TrimEnd(s: string): (r: string)
    ensures |r| <= |s| && r == s[..|r|]
    ensures forall i :: |r| <= i < |s| ==> IsWhitespace(s[i])
    ensures r == [] || !IsWhitespace(r[|r| - 1])
  {
    s[..|s| - TrailingSpace(s)]
  }

  /** `s.trim()`. */
  function Trim(s: string): string {
    TrimEnd(TrimStart(s))
  }

  /** `trim` cuts out a contiguous middle part of the string, everything it
      drops is whitespace, and the part it keeps neither starts nor ends with
      whitespace. */
  lemma {:induction false} TrimIsCore(s: string)
    ensures exists i, j :: 0 <= i <= j <= |s| && Trim(s) == s[i..j]
                        && (forall k :: 0 <= k < i ==> IsWhitespace(s[k]))
                        && (forall k :: j <= k < |s| ==> IsWhitespace(s[k]))
    ensures Trim(s) == [] || (!IsWhitespace(Trim(s)[0]) && !IsWhitespace(Trim(s)[|Trim(s)| - 1]))
  {
    var i := LeadingSpace(s);
    var t := Trim(s);
    TrimCut(s, i, t);
    var j := i + |t|;
    assert 0 <= i <= j <= |s| && t == s[i..j];
  }

  /** Where `trim` cuts: after the leading whitespace, keeping as much as
      the back trim leaves, with only whitespace after it. */
  lemma {:induction false} TrimCut(s: string, i: nat, t: string)
    requires i == LeadingSpace(s) && t == Trim(s)
    ensures i + |t| <= |s| && t == s[i..i + |t|]
    ensures forall k :: i + |t| <= k < |s| ==> IsWhitespace(s[k])
    ensures t == [] || !IsWhitespace(t[0])
  {
    var a := s[i..];
    assert TrimStart(s) == a;
    SliceOfSuffix(s, i, a, t);
  }

  /** A prefix `t` of the suffix `a` of `s` from `i` is the slice of `s`
      from `i`, and what lies after it in `s` is what lies after it in `a`. */
  lemma {:induction false} SliceOfSuffix(s: string, i: nat, a: string, t: string)
    requires i <= |s| && a == s[i..]
    requires |t| <= |a| && t == a[..|t|]
    requires forall k :: |t| <= k < |a| ==> IsWhitespace(a[k])
    ensures i + |t| <= |s| && t == s[i..i + |t|]
    ensures forall k :: i + |t| <= k < |s| ==> IsWhitespace(s[k])
  {
    forall k | i + |t| <= k < |s| ensures IsWhitespace(s[k]) {
      assert s[k] == a[k - i];
    }
  }

  /** Trimming twice is trimming once. */
  lemma TrimIdempotent(s: string)
    ensures Trim(Trim(s)) == Trim(s)
  {
    var t := Trim(s);
    TrimIsCore(s);
    assert TrimStart(t) == t;
    assert TrimEnd(t) == t;
  }

  /** `toLowerCase` on one character; the model maps the ASCII capitals only. */
  function LowerChar(c: char): char {
    if 'A' <= c <= 'Z' then (c as int + 32) as char else c
  }

  /** `s.toLowerCase()` (ASCII letters). */
  function ToLower(s: string): (r: string)
    ensures |r| == |s|
    ensures forall i :: 0 <= i < |s| ==> r[i] == LowerChar(s[i])
  {
    if s == [] then [] else [LowerChar(s[0])] + ToLower(s[1..])
  }

  /** `x.trim().toLowerCase()`: how specialities are compared on the pages. */
  function Normalize(s: string): string {
    ToLower(Trim(s))
  }

  /** A string that neither starts nor ends with whitespace is its own trim. */
  lemma TrimOfTrimmed(l: string)
    requires l == [] || (!IsWhitespace(l[0]) && !IsWhitespace(l[|l| - 1]))
    ensures Trim(l) == l
  {
    assert TrimStart(l) == l;
  }

  /** Lower-casing neither creates nor removes whitespace, and is idempotent. */
  lemma LowerCharFacts(c: char)
    ensures IsWhitespace(LowerChar(c)) == IsWhitespace(c)
    ensures LowerChar(LowerChar(c)) == LowerChar(c)
  {
  }

  /** Normalizing twice is normalizing once. */
  lemma NormalizeIdempotent(s: string)
    ensures Normalize(Normalize(s)) == Normalize(s)
  {
    var t := Trim(s);
    var l := ToLower(t);
    TrimIsCore(s);
    if l != [] {
      LowerCharFacts(t[0]);
      LowerCharFacts(t[|t| - 1]);
    }
    TrimOfTrimmed(l);
    forall i | 0 <= i < |l| ensures ToLower(l)[i] == l[i] {
      LowerCharFacts(t[i]);
    }
  }

  /** Surrounding whitespace never changes how a speciality compares. */
  lemma NormalizeIgnoresPadding(s: string)
    ensures Normalize(" " + s + "\t") == Normalize(s)
  {
    TrimIgnoresPadding(s);
  }
  /** Trimming a padded string gives the trimmed string. */
  lemma TrimIgnoresPadding(s: string)
    ensures Trim(" " + s + "\t") == Trim(s)
  {
    var p := " " + s + "\t";
    assert p[1..] == s + "\t";
    assert TrimStart(p) == TrimStart(s + "\t");
    TrimStartAppend(s, "\t");
    var a := TrimStart(s);
    if a != [] {
      TrimEndDropsTab(a);
    } else {
      assert LeadingSpace("\t") == 1 + LeadingSpace([]);
    }
  }

  /** A trailing tab is trimmed off the back. */
  lemma TrimEndDropsTab(a: string)
    ensures TrimEnd(a + "\t") == TrimEnd(a)
  {
    assert (a + "\t")[..|a + "\t"| - 1] == a;
    assert TrailingSpace(a + "\t") == 1 + TrailingSpace(a);
  }

  /** Trimming the front of `s + w` trims the front of `s` first, when `s`
      has some non-whitespace character. */
  lemma TrimStartAppend(s: string, w: string)
    ensures TrimStart(s) != [] ==> TrimStart(s + w) == TrimStart(s) + w
    ensures TrimStart(s) == [] ==> TrimStart(s + w) == TrimStart(w)
  {
    LeadingSpaceAppend(s, w);
    var n := LeadingSpace(s);
    assert (s + w)[n..] == s[n..] + w;
    if n == |s| {
      assert (s + w)[n..] == w;
    }
  }

  /** The leading whitespace of `s + w` is that of `s`, and when `s` is all
      whitespace, that of `w` after it. */
  lemma {:induction false} LeadingSpaceAppend(s: string, w: string)
    ensures LeadingSpace(s) < |s| ==> LeadingSpace(s + w) == LeadingSpace(s)
    ensures LeadingSpace(s) == |s| ==> LeadingSpace(s + w) == |s| + LeadingSpace(w)
  {
    if |s| > 0 && IsWhitespace(s[0]) {
      assert (s + w)[1..] == s[1..] + w;
      LeadingSpaceAppend(s[1..], w);
    } else if s == [] {
      assert s + w == w;
    }
  }
}

/**
 * The three Python `str` methods the labels and place names go through:
 * `strip()`, `lower()` and `title()`. Whitespace is Python's own set of
 * whitespace code points (those for which `str.isspace()` holds); letter case
 * is modelled for ASCII letters only, every other character being uncased.
 */
module PyStrings {

  /** `c.isspace()` */
  predicate IsSpace(c: char) {
    var n := c as int;
    (9 <= n <= 13) || (28 <= n <= 32) || n == 0x85 || n == 0xA0 || n == 0x1680
    || (0x2000 <= n <= 0x200A) || n == 0x2028 || n == 0x2029 || n == 0x202F
    || n == 0x205F || n == 0x3000
  }

  /** A character that has an upper and a lower case. */
  predicate IsCased(c: char) {
    ('A' <= c <= 'Z') || ('a' <= c <= 'z')
  }

  function LowerChar(c: char): (d: char)
    ensures IsCased(d) == IsCased(c) && IsSpace(d) == IsSpace(c)
    ensures IsCased(c) ==> 'a' <= d <= 'z'
  {
    if 'A' <= c <= 'Z' then (c as int + 32) as char else c
  }

  function UpperChar(c: char): (d: char)
    ensures IsCased(d) == IsCased(c) && IsSpace(d) == IsSpace(c)
    ensures IsCased(c) ==> 'A' <= d <= 'Z'
  {
    if 'a' <= c <= 'z' then (c as int - 32) as char else c
  }

  /** `s.lstrip()`: drops the leading whitespace and nothing else. */
  function LStrip(s: string): (r: string)
    ensures |r| <= |s| && r == s[|s| - |r|..]
    ensures forall i :: 0 <= i < |s| - |r| ==> IsSpace(s[i])
    ensures r == [] || !IsSpace(r[0])
    decreases |s|
  {
    if |s| > 0 && IsSpace(s[0]) then LStrip(s[1..]) else s
  }

  /** `s.rstrip()`: drops the trailing whitespace and nothing else. */
  function RStrip(s: string): (r: string)
    ensures |r| <= |s| && r == s[..|r|]
    ensures forall i :: |r| <= i < |s| ==> IsSpace(s[i])
    ensures r == [] || !IsSpace(r[|r| - 1])
    decreases |s|
  {
    if |s| > 0 && IsSpace(s[|s| - 1]) then RStrip(s[..|s| - 1]) else s
  }

  /**
   * `r` is `s` with a run of whitespace removed from its front and another
   * from its back, and nothing else.
   */
  ghost predicate TrimmedFrom(r: string, s: string) {
    exists a, b :: 0 <= a <= b <= |s| && r == s[a..b]
                   && (forall i :: 0 <= i < a ==> IsSpace(s[i]))
                   && (forall i :: b <= i < |s| ==> IsSpace(s[i]))
  }

  /** `s.strip()` */
  function Strip(s: string): (r: string)
    ensures |r| <= |s|
    ensures r == [] || (!IsSpace(r[0]) && !IsSpace(r[|r| - 1]))
    ensures TrimmedFrom(r, s)
  {
    var l := LStrip(s);
    var r := RStrip(l);
    assert r != [] ==> r[0] == l[0];
    StripBothEnds(s, l, r);
    r
  }

  lemma StripBothEnds(s: string, l: string, r: string)
    requires l == LStrip(s) && r == RStrip(l)
    ensures TrimmedFrom(r, s)
  {
    var a, b := |s| - |l|, |s| - |l| + |r|;
    assert r == s[a..b];
    forall i | a + |r| <= i < |s|
      ensures IsSpace(s[i])
    {
      assert s[i] == l[i - a];
    }
  }

  /** `s.lower()` */
  function Lower(s: string): (r: string)
    ensures |r| == |s|
    ensures forall i :: 0 <= i < |s| ==> IsSpace(r[i]) == IsSpace(s[i]) && IsCased(r[i]) == IsCased(s[i])
  {
    seq(|s|, i requires 0 <= i < |s| => LowerChar(s[i]))
  }

  /**
   * `s.title()`: a character that follows a cased character is lower-cased,
   * every other character is upper-cased (title-cased).
   */
  function Title(s: string): (r: string)
    ensures |r| == |s|
    ensures forall i :: 0 <= i < |s| ==> IsSpace(r[i]) == IsSpace(s[i]) && IsCased(r[i]) == IsCased(s[i])
  {
    seq(|s|, i requires 0 <= i < |s| =>
      if i > 0 && IsCased(s[i - 1]) then LowerChar(s[i]) else UpperChar(s[i]))
  }

  /** `lower()` leaves no upper-case letter and changes no character except in case. */
  lemma LowerLetters(s: string)
    ensures forall i :: 0 <= i < |s| ==> !('A' <= Lower(s)[i] <= 'Z') && LowerChar(Lower(s)[i]) == LowerChar(s[i])
  {
  }

  /**
   * `title()` changes no character except in case, and a letter comes out
   * upper-case exactly when it starts a word: it is first, or follows an
   * uncased character.
   */
  lemma TitleLetters(s: string)
    ensures forall i :: 0 <= i < |s| ==> LowerChar(Title(s)[i]) == LowerChar(s[i])
    ensures forall i :: 0 <= i < |s| && IsCased(s[i]) ==>
              ('A' <= Title(s)[i] <= 'Z' <==> i == 0 || !IsCased(s[i - 1]))
  {
  }

  /** `s.strip()` is empty exactly when `s` is blank (empty or all whitespace). */
  lemma StripEmptyIffBlank(s: string)
    ensures Strip(s) == [] <==> forall i :: 0 <= i < |s| ==> IsSpace(s[i])
  {
    var l := LStrip(s);
    assert Strip(s) != [] ==> Strip(s)[0] == l[0];
  }

  /** A string without surrounding whitespace is its own `strip()`. */
  lemma StripTrimmed(t: string)
    requires t == [] || (!IsSpace(t[0]) && !IsSpace(t[|t| - 1]))
    ensures Strip(t) == t
  {
  }

  /** Case mapping a character twice: the second mapping alone decides the result. */
  lemma CaseOfCase(c: char)
    ensures LowerChar(LowerChar(c)) == LowerChar(c) && LowerChar(UpperChar(c)) == LowerChar(c)
    ensures UpperChar(UpperChar(c)) == UpperChar(c) && UpperChar(LowerChar(c)) == UpperChar(c)
  {
  }

  /** Lower-casing first does not change what `title()` produces. */
  lemma TitleOfLower(s: string)
    ensures Title(Lower(s)) == Title(s)
  {
    var l := Lower(s);
    var a, b := Title(l), Title(s);
    forall i | 0 <= i < |s| ensures a[i] == b[i] {
      CaseOfCase(s[i]);
      assert l[i] == LowerChar(s[i]);
      assert i > 0 ==> IsCased(l[i - 1]) == IsCased(s[i - 1]);
    }
  }

  /** `title()` is idempotent. */
  lemma TitleIdempotent(s: string)
    ensures Title(Title(s)) == Title(s)
  {
    var t := Title(s);
    var a := Title(t);
    forall i | 0 <= i < |s| ensures a[i] == t[i] {
      CaseOfCase(s[i]);
      assert i > 0 ==> IsCased(t[i - 1]) == IsCased(s[i - 1]);
    }
  }

  /** Lower-casing a title-cased string gives the lower-cased original. */
  lemma LowerOfTitle(s: string)
    ensures Lower(Title(s)) == Lower(s)
  {
    var t := Title(s);
    var a, b := Lower(t), Lower(s);
    forall i | 0 <= i < |s| ensures a[i] == b[i] {
      CaseOfCase(s[i]);
      assert a[i] == LowerChar(t[i]);
    }
  }

  /** `lower()` is idempotent. */
  lemma LowerIdempotent(s: string)
    ensures Lower(Lower(s)) == Lower(s)
  {
    var l := Lower(s);
    var a := Lower(l);
    forall i | 0 <= i < |s| ensures a[i] == l[i] {
      CaseOfCase(s[i]);
    }
  }
}

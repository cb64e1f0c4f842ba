/** The Python `str` operations the core relies on: `lower`, `replace`, `title` and
    `strip`. Case mapping follows Python's tables for ASCII letters; every other
    character is treated as uncased and left unchanged. */
module PyStr {

  predicate IsUpper(c: char) { 'A' <= c <= 'Z' }

  predicate IsLower(c: char) { 'a' <= c <= 'z' }

  /** A cased character, in Python's sense (restricted to ASCII letters). */
  predicate IsCased(c: char) { IsUpper(c) || IsLower(c) }

  /** One character of `str.lower()`. */
  function ToLower(c: char): (r: char)
    ensures IsCased(r) <==> IsCased(c)
    ensures !IsUpper(r)
    ensures !IsCased(c) ==> r == c
  {
    if IsUpper(c) then (c as int + 32) as char else c
  }

  /** One character of `str.upper()` (equal to title case for ASCII). */
  function ToUpper(c: char): (r: char)
    ensures IsCased(r) <==> IsCased(c)
    ensures !IsLower(r)
    ensures !IsCased(c) ==> r == c
    ensures ToLower(r) == ToLower(c)
  {
    if IsLower(c) then (c as int - 32) as char else c
  }

  /** `s.lower()`. */
  function Lower(s: string): (r: string)
    ensures |r| == |s|
    ensures forall i :: 0 <= i < |s| ==> r[i] == ToLower(s[i])
  {
    seq(|s|, i requires 0 <= i < |s| => ToLower(s[i]))
  }

  /** Lower-casing keeps every '.' where it is and adds none. */
  lemma {:induction false} LowerKeepsDots(s: string)
    ensures forall k :: 0 <= k < |s| ==> (s[k] == '.' <==> Lower(s)[k] == '.')
  {
    forall k | 0 <= k < |s| ensures s[k] == '.' <==> Lower(s)[k] == '.' {
      assert Lower(s)[k] == ToLower(s[k]);
    }
  }

  /** Lower-casing commutes with taking a tail. */
  lemma {:induction false} LowerTail(s: string, i: nat)
    requires i <= |s|
    ensures Lower(s[i..]) == Lower(s)[i..]
  {
    var a, b := Lower(s[i..]), Lower(s)[i..];
    assert |a| == |b|;
    forall k | 0 <= k < |a| ensures a[k] == b[k] {
      assert s[i..][k] == s[i + k];
    }
  }

  /** `s.replace(pat, rep)` for a one-character pattern and replacement. */
  function Replace(s: string, pat: char, rep: char): (r: string)
    ensures |r| == |s|
    ensures forall i :: 0 <= i < |s| ==> r[i] == if s[i] == pat then rep else s[i]
  {
    seq(|s|, i requires 0 <= i < |s| => if s[i] == pat then rep else s[i])
  }

  /** The loop of `str.title()`: each character is title-cased when the character
      before it was not cased and lower-cased otherwise; `prevCased` says whether the
      character just before `s` was cased. */
  function TitleFrom(s: string, prevCased: bool): (r: string)
    ensures |r| == |s|
  {
    if s == [] then []
    else [if prevCased then ToLower(s[0]) else ToUpper(s[0])] + TitleFrom(s[1..], IsCased(s[0]))
  }

  /** `s.title()`. */
  function Title(s: string): (r: string)
    ensures |r| == |s|
  {
    TitleFrom(s, false)
  }

  /** Position `i` of `s` begins a word: it is the first position or follows an
      uncased character. */
  predicate StartsWord(s: string, i: nat)
    requires i < |s|
  {
    i == 0 || !IsCased(s[i - 1])
  }

  lemma {:induction false} TitleFromAt(s: string, prevCased: bool, i: nat)
    requires i < |s|
    ensures TitleFrom(s, prevCased)[i] ==
      if (if i == 0 then prevCased else IsCased(s[i - 1])) then ToLower(s[i]) else ToUpper(s[i])
  {
    if i > 0 {
      TitleFromAt(s[1..], IsCased(s[0]), i - 1);
    }
  }

  /** `str.title()` upper-cases exactly the letters that begin a word and lower-cases
      every other letter; uncased characters are unchanged. */
  lemma TitleAt(s: string, i: nat)
    requires i < |s|
    ensures Title(s)[i] == if StartsWord(s, i) then ToUpper(s[i]) else ToLower(s[i])
  {
    TitleFromAt(s, false, i);
  }

  /** Python's whitespace (`str.isspace`): ASCII 9-13 and 28-32, NEL, NO-BREAK SPACE
      and the Unicode space and line/paragraph separators. */
  predicate IsSpace(c: char) {
    var n := c as int;
    (9 <= n <= 13) || (28 <= n <= 32) || n == 0x85 || n == 0xA0 || n == 0x1680
    || (0x2000 <= n <= 0x200A) || n == 0x2028 || n == 0x2029 || n == 0x202F
    || n == 0x205F || n == 0x3000
  }

  /** The number of whitespace characters `s` starts with. */
  function LeadingSpaces(s: string): (k: nat)
    ensures k <= |s|
  {
    if s == [] || !IsSpace(s[0]) then 0 else 1 + LeadingSpaces(s[1..])
  }

  /** `LeadingSpaces` counts exactly the whitespace run at the front of `s`. */
  lemma {:induction false} LeadingSpacesSpec(s: string)
    ensures forall j :: 0 <= j < LeadingSpaces(s) ==> IsSpace(s[j])
    ensures LeadingSpaces(s) < |s| ==> !IsSpace(s[LeadingSpaces(s)])
    decreases |s|
  {
    if s != [] && IsSpace(s[0]) {
      LeadingSpacesSpec(s[1..]);
      forall j | 0 <= j < LeadingSpaces(s) ensures IsSpace(s[j]) {
        if j > 0 {
          assert s[j] == s[1..][j - 1];
        }
      }
    }
  }

  /** The index at which the whitespace that `s` ends with begins. */
  function TrailingStart(s: string): (m: nat)
    ensures m <= |s|
  {
    if s == [] || !IsSpace(s[|s| - 1]) then |s| else TrailingStart(s[..|s| - 1])
  }

  /** `TrailingStart` finds exactly the whitespace run at the end of `s`. */
  lemma {:induction false} TrailingStartSpec(s: string)
    ensures forall j :: TrailingStart(s) <= j < |s| ==> IsSpace(s[j])
    ensures 0 < TrailingStart(s) ==> !IsSpace(s[TrailingStart(s) - 1])
    decreases |s|
  {
    if s != [] && IsSpace(s[|s| - 1]) {
      var t := s[..|s| - 1];
      TrailingStartSpec(t);
      forall j | TrailingStart(s) <= j < |s| ensures IsSpace(s[j]) {
        if j < |s| - 1 {
          assert s[j] == t[j];
        }
      }
      if 0 < TrailingStart(s) {
        assert s[TrailingStart(s) - 1] == t[TrailingStart(t) - 1];
      }
    }
  }

  /** `s.strip()`: `s` without its leading and trailing whitespace. */
  function Strip(s: string): (r: string)
    ensures |r| <= |s|
  {
    var k := LeadingSpaces(s);
    var t := s[k..];
    t[..TrailingStart(t)]
  }

  /** `s.strip()` is empty exactly when `s` is all whitespace, and otherwise starts
      and ends with a non-whitespace character. */
  lemma StripSpec(s: string)
    ensures Strip(s) == [] <==> forall i :: 0 <= i < |s| ==> IsSpace(s[i])
    ensures Strip(s) != [] ==> !IsSpace(Strip(s)[0]) && !IsSpace(Strip(s)[|Strip(s)| - 1])
    ensures var k := LeadingSpaces(s);
            && k + |Strip(s)| <= |s|
            && Strip(s) == s[k..k + |Strip(s)|]
            && (forall j :: 0 <= j < k || k + |Strip(s)| <= j < |s| ==> IsSpace(s[j]))
  {
    var k := LeadingSpaces(s);
    var t := s[k..];
    LeadingSpacesSpec(s);
    TrailingStartSpec(t);
    var r := Strip(s);
    assert r == t[..TrailingStart(t)];
    assert r == s[k..k + |r|];
    forall j | k + |r| <= j < |s| ensures IsSpace(s[j]) {
      assert s[j] == t[j - k];
    }
    if r != [] {
      assert r[0] == s[k];
      assert r[|r| - 1] == t[TrailingStart(t) - 1];
    }
  }
}

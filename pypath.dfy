/** The POSIX path operations the core relies on: `str.rfind`, `PurePosixPath.name`,
    `PurePosixPath.suffix` and `os.path.join`. */
module PyPath {

  /** `s.rfind(c)`: the last index holding `c`, or -1 when there is none. */
  function RFind(s: string, c: char): (k: int)
    ensures -1 <= k < |s|
    ensures k >= 0 ==> s[k] == c
    ensures forall j :: k < j < |s| ==> s[j] != c
  {
    if s == [] then -1
    else if s[|s| - 1] == c then |s| - 1
    else RFind(s[..|s| - 1], c)
  }

  /** `PurePosixPath(path).name`: the last component of `path` once empty and "."
      components are dropped, or "" when nothing is left. */
  function Name(path: string): (r: string)
    ensures '/' !in r
    ensures r != "."
    decreases |path|
  {
    var k := RFind(path, '/');
    var last := path[k + 1..];
    if last != "" && last != "." then last
    else if k < 0 then ""
    else Name(path[..k])
  }

  /** A non-empty component other than "." that holds no separator. */
  predicate IsComponent(n: string) {
    n != "" && n != "." && '/' !in n
  }

  lemma RFindAbsent(s: string, c: char)
    requires c !in s
    ensures RFind(s, c) == -1
  {
  }

  /** `k` is the last index holding `c`. */
  lemma RFindAt(s: string, c: char, k: nat)
    requires k < |s| && s[k] == c
    requires forall j :: k < j < |s| ==> s[j] != c
    ensures RFind(s, c) == k
  {
  }

  /** A dotted extension: a '.' followed by at least one character, none of them a
      '.'. */
  predicate IsExtension(e: string) {
    |e| >= 2 && e[0] == '.' && '.' !in e[1..]
  }

  /** A component is its own name. */
  lemma NameOfComponent(n: string)
    requires IsComponent(n)
    ensures Name(n) == n
  {
    RFindAbsent(n, '/');
  }

  /** A name whose only dot is its first character has no suffix. */
  lemma {:induction false} SuffixOfDotFile(e: string)
    requires |e| >= 1 && e[0] == '.' && '.' !in e[1..]
    ensures Suffix(e) == ""
  {
    forall j | 0 < j < |e| ensures e[j] != '.' {
      assert e[j] == e[1..][j - 1];
    }
    RFindAt(e, '.', 0);
  }

  /** After the last separator, a component is the path's name. */
  lemma NameOfLastComponent(dir: string, n: string)
    requires IsComponent(n)
    ensures Name(n) == n
    ensures Name(dir + "/" + n) == n
  {
    RFindAbsent(n, '/');
    var p := dir + "/" + n;
    var k := RFind(p, '/');
    assert p[|dir|] == '/';
    assert k == |dir|;
    assert p[k + 1..] == n;
  }

  /** A trailing separator does not change the name. */
  lemma NameIgnoresTrailingSeparator(p: string)
    ensures Name(p + "/") == Name(p)
  {
    var q := p + "/";
    assert RFind(q, '/') == |p|;
    assert q[..|p|] == p;
  }

  /** `PurePosixPath(...).suffix` of a final component: from its last "." to the end,
      provided that dot is neither its first nor its last character, else "". */
  function Suffix(name: string): (r: string)
    ensures r == "" || (|r| < |name| && r == name[|name| - |r|..]
                        && IsExtension(r))
  {
    var i := RFind(name, '.');
    if 0 < i < |name| - 1 then name[i..] else ""
  }

  /** The last occurrence of `c` depends only on where `c` occurs. */
  lemma RFindSamePositions(s: string, t: string, c: char)
    requires |s| == |t|
    requires forall k :: 0 <= k < |s| ==> (s[k] == c <==> t[k] == c)
    ensures RFind(s, c) == RFind(t, c)
  {
  }

  /** `name` ends with `e` and has something before it. */
  predicate EndsAfterStem(name: string, e: string) {
    |name| > |e| && name[|name| - |e|..] == e
  }

  /** A dotted extension `e` is the suffix of `name` exactly when `name` ends with `e`
      and has something before it. */
  lemma SuffixIs(name: string, e: string)
    requires IsExtension(e)
    ensures Suffix(name) == e <==> EndsAfterStem(name, e)
  {
    if EndsAfterStem(name, e) {
      var j := |name| - |e|;
      var i := RFind(name, '.');
      assert name[j] == e[0];
      assert i == j;
    }
  }

  /** `os.path.join(a, b)` with POSIX separators: an absolute `b` replaces `a`; otherwise
      the two are joined by exactly one separator unless `a` is empty or already ends
      with one. */
  function Join(a: string, b: string): string {
    if |b| > 0 && b[0] == '/' then b
    else if a == "" || a[|a| - 1] == '/' then a + b
    else a + "/" + b
  }

  /** The joined path ends with `b`, and starts with `a` unless `b` is absolute. */
  lemma JoinEnds(a: string, b: string)
    ensures var r := Join(a, b);
            && |r| >= |b| && r[|r| - |b|..] == b
            && ((b == "" || b[0] != '/') ==> |a| <= |r| && r[..|a|] == a)
  {
    var r := Join(a, b);
    if !(|b| > 0 && b[0] == '/') && !(a == "" || a[|a| - 1] == '/') {
      assert r == a + ("/" + b);
    }
  }

  /** A file saved under a directory keeps its own name as the path's name. */
  lemma NameOfJoin(dir: string, n: string)
    requires IsComponent(n)
    ensures Name(Join(dir, n)) == n
  {
    if dir == "" {
      assert Join(dir, n) == n;
      NameOfLastComponent(dir, n);
    } else if dir[|dir| - 1] == '/' {
      var d := dir[..|dir| - 1];
      assert Join(dir, n) == d + "/" + n;
      NameOfLastComponent(d, n);
    } else {
      assert Join(dir, n) == dir + "/" + n;
      NameOfLastComponent(dir, n);
    }
  }
}

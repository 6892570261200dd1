/** The three functions of Python's os.path (posixpath) that build the
    contour file's path: basename, dirname and join. */
module PosixPath {

  const Sep: char := '/'

  /** `s.rfind(c)`: the last position of `c` in `s`, or -1 when there is none. */
  function RFind(s: string, c: char): (i: int)
    ensures -1 <= i < |s|
    ensures i >= 0 ==> s[i] == c
    ensures forall k :: i < k < |s| ==> s[k] != c
  {
    if s == [] then -1
    else if s[|s| - 1] == c then |s| - 1
    else RFind(s[..|s| - 1], c)
  }

  /** `s.rstrip(c)`: `s` without its trailing run of `c`. */
  function RStrip(s: string, c: char): (r: string)
    ensures r <= s
    ensures r == [] || r[|r| - 1] != c
    ensures forall k :: |r| <= k < |s| ==> s[k] == c
  {
    if s != [] && s[|s| - 1] == c then RStrip(s[..|s| - 1], c) else s
  }

  predicate AllSep(s: string) {
    forall k :: 0 <= k < |s| ==> s[k] == Sep
  }

  /** A path as dirname returns it: empty, separators only, or not ending in a separator. */
  predicate IsDirName(d: string) {
    d == [] || AllSep(d) || d[|d| - 1] != Sep
  }

  /** `os.path.basename(p)`: the text after the last separator. */
  function BaseName(p: string): (b: string)
    ensures Sep !in b
    ensures |b| <= |p| && p[|p| - |b|..] == b
    ensures |b| < |p| ==> p[|p| - |b| - 1] == Sep
  {
    p[RFind(p, Sep) + 1..]
  }

  /** `os.path.dirname(p)`: the text up to and including the last separator,
      with its trailing separators removed unless it is made of separators only. */
  function DirName(p: string): (d: string)
    ensures IsDirName(d)
    ensures d <= p[..|p| - |BaseName(p)|]
    ensures forall k :: |d| <= k < |p| - |BaseName(p)| ==> p[k] == Sep
    ensures AllSep(p[..|p| - |BaseName(p)|]) ==> d == p[..|p| - |BaseName(p)|]
  {
    var head := p[..RFind(p, Sep) + 1];
    if head != [] && !AllSep(head) then RStrip(head, Sep) else head
  }

  /** `os.path.join(a, b)` for two components. */
  function Join(a: string, b: string): string {
    if |b| > 0 && b[0] == Sep then b
    else if a == [] || a[|a| - 1] == Sep then a + b
    else a + [Sep] + b
  }

  lemma {:induction false} RFindAppend(x: string, y: string, c: char)
    requires c !in y
    ensures RFind(x + y, c) == RFind(x, c)
  {
    if y != [] {
      assert (x + y)[..|x + y| - 1] == x + y[..|y| - 1];
      RFindAppend(x, y[..|y| - 1], c);
    } else {
      assert x + y == x;
    }
  }

  /** Joining a dirname result with a separator-free name and splitting the
      result again gives back the two parts. */
  lemma JoinSplits(d: string, name: string)
    requires IsDirName(d)
    requires Sep !in name
    ensures BaseName(Join(d, name)) == name
    ensures DirName(Join(d, name)) == d
  {
    var p := Join(d, name);
    if d == [] {
      assert p == [] + name;
      RFindAppend([], name, Sep);
    } else if d[|d| - 1] == Sep {
      assert p == d + name;
      RFindAppend(d, name, Sep);
      assert p[..|d|] == d;
    } else {
      assert p == (d + [Sep]) + name;
      RFindAppend(d + [Sep], name, Sep);
      var head := p[..|d| + 1];
      assert head == d + [Sep];
      assert head[|d| - 1] != Sep;
      assert head[..|head| - 1] == d;
    }
  }
}

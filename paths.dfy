/**
 * The string operations the exporter borrows from Python: `str.strip()`,
 * the tail of `os.path.split` and `os.path.join`, on POSIX paths with `/`
 * as the only separator.
 */
module Paths {

  /** `str.isspace` for one character: the 29 code points Python treats as white space. */
  predicate IsSpace(c: char) {
    var n := c as int;
    (9 <= n <= 13) || (28 <= n <= 32) || n == 0x85 || n == 0xA0 || n == 0x1680
    || (0x2000 <= n <= 0x200A) || n == 0x2028 || n == 0x2029 || n == 0x202F
    || n == 0x205F || n == 0x3000
  }

  /** Drops the leading white space of `s`. */
  function TrimStart(s: string): (r: string)
    ensures |r| <= |s|
    ensures r == [] || !IsSpace(r[0])
    ensures r != [] ==> r[|r| - 1] == s[|s| - 1]
  {
    if s != [] && IsSpace(s[0]) then TrimStart(s[1..]) else s
  }

  /** Drops the trailing white space of `s`. */
  function TrimEnd(s: string): (r: string)
    ensures |r| <= |s|
    ensures r == [] || !IsSpace(r[|r| - 1])
    ensures r != [] ==> r[0] == s[0]
  {
    if s != [] && IsSpace(s[|s| - 1]) then TrimEnd(s[..|s| - 1]) else s
  }

  /** `s.strip()`: `s` with white space dropped at both ends. */
  function Strip(s: string): (r: string)
    ensures |r| <= |s|
    ensures r == [] || (!IsSpace(r[0]) && !IsSpace(r[|r| - 1]))
    ensures (s == [] || (!IsSpace(s[0]) && !IsSpace(s[|s| - 1]))) ==> r == s
  {
    TrimEnd(TrimStart(s))
  }

  /** What `strip` removes is white space: `s` is blank space, then `Strip(s)`, then blank space. */
  lemma {:induction false} StripIsSlice(s: string)
    ensures exists k :: StripsTo(s, k, Strip(s))
  {
    var t := TrimStart(s);
    TrimStartIsSuffix(s);
    TrimEndIsPrefix(t);
    var k := |s| - |t|;
    assert StripsTo(s, k, Strip(s));
  }

  /** A string that does not end in white space loses only leading white space to `strip`. */
  lemma StripLeadingOnly(s: string)
    requires s != [] && !IsSpace(s[|s| - 1])
    ensures Strip(s) != [] && Strip(s) == s[|s| - |Strip(s)|..]
    ensures forall i :: 0 <= i < |s| - |Strip(s)| ==> IsSpace(s[i])
  {
    StripIsSlice(s);
    var k :| StripsTo(s, k, Strip(s));
    assert k + |Strip(s)| == |s|;
  }

  /** `s[k..k + |r|] == r` and everything of `s` outside that slice is white space. */
  predicate StripsTo(s: string, k: int, r: string) {
    0 <= k && k + |r| <= |s| && s[k..k + |r|] == r
    && (forall i :: 0 <= i < k ==> IsSpace(s[i]))
    && (forall i :: k + |r| <= i < |s| ==> IsSpace(s[i]))
  }

  lemma {:induction false} TrimStartIsSuffix(s: string)
    ensures TrimStart(s) == s[|s| - |TrimStart(s)|..]
    ensures forall i :: 0 <= i < |s| - |TrimStart(s)| ==> IsSpace(s[i])
  {
    if s != [] && IsSpace(s[0]) {
      TrimStartIsSuffix(s[1..]);
    }
  }

  lemma {:induction false} TrimEndIsPrefix(s: string)
    ensures TrimEnd(s) == s[..|TrimEnd(s)|]
    ensures forall i :: |TrimEnd(s)| <= i < |s| ==> IsSpace(s[i])
  {
    if s != [] && IsSpace(s[|s| - 1]) {
      TrimEndIsPrefix(s[..|s| - 1]);
    }
  }

  /**
   * The tail that `os.path.split(p)` returns: everything after the last `/`,
   * the whole of `p` when it has none, and the empty string when `p` ends in `/`.
   */
  function Basename(p: string): (r: string)
    ensures '/' !in r
  {
    if p == [] || p[|p| - 1] == '/' then [] else Basename(p[..|p| - 1]) + [p[|p| - 1]]
  }

  /** The tail is a suffix of the path, preceded by a `/` unless it is the whole path. */
  lemma {:induction false} BasenameIsTail(p: string)
    ensures |Basename(p)| <= |p| && Basename(p) == p[|p| - |Basename(p)|..]
    ensures |Basename(p)| < |p| ==> p[|p| - |Basename(p)| - 1] == '/'
  {
    if p != [] && p[|p| - 1] != '/' {
      var q := p[..|p| - 1];
      BasenameIsTail(q);
      assert p == q + [p[|p| - 1]];
    }
  }

  /** A path without separators is its own tail. */
  lemma {:induction false} BasenameOfPlain(p: string)
    requires '/' !in p
    ensures Basename(p) == p
  {
    if p != [] {
      var q := p[..|p| - 1];
      assert '/' !in q by {
        assert forall i :: 0 <= i < |q| ==> q[i] == p[i];
      }
      BasenameOfPlain(q);
      assert p == q + [p[|p| - 1]];
    }
  }

  /**
   * `os.path.join(a, b)` for two components: an absolute `b` replaces `a`;
   * otherwise a `/` is put between them unless `a` is empty or already ends in one.
   */
  function Join(a: string, b: string): string {
    if |b| > 0 && b[0] == '/' then b
    else if a == [] || a[|a| - 1] == '/' then a + b
    else a + "/" + b
  }

  /** What `Join(a, b)` puts in front of a relative `b`. */
  function DirPrefix(a: string): string {
    if a == [] || a[|a| - 1] == '/' then a else a + "/"
  }

  /** A relative `b` is appended to `a`'s directory prefix; an absolute one replaces `a`. */
  lemma JoinShape(a: string, b: string)
    ensures |b| > 0 && b[0] == '/' ==> Join(a, b) == b
    ensures (|b| == 0 || b[0] != '/') ==> Join(a, b) == DirPrefix(a) + b
    ensures |b| > 0 ==> Join(a, b)[|Join(a, b)| - 1] == b[|b| - 1]
  {
  }

  /** The tail of a concatenation: `y`'s own tail if `y` holds a `/`, else `x`'s tail followed by `y`. */
  lemma {:induction false} BasenameAppend(x: string, y: string)
    ensures '/' in y ==> Basename(x + y) == Basename(y)
    ensures '/' !in y ==> Basename(x + y) == Basename(x) + y
  {
    if y == [] {
      assert x + y == x;
    } else {
      var y', c := y[..|y| - 1], y[|y| - 1];
      assert y == y' + [c];
      assert x + y == (x + y') + [c];
      assert '/' in y <==> '/' in y' || c == '/';
      if c == '/' {
        assert Basename(x + y) == [];
        assert Basename(y) == [];
      } else {
        assert '/' in y <==> '/' in y';
        BasenameAppend(x, y');
        assert Basename(x + y) == Basename(x + y') + [c];
        assert Basename(y) == Basename(y') + [c];
      }
    }
  }

  /** Joining never changes the final component: `split(join(a, b))[1] == split(b)[1]`. */
  lemma BasenameOfJoin(a: string, b: string)
    ensures Basename(Join(a, b)) == Basename(b)
  {
    if !(|b| > 0 && b[0] == '/') {
      var d := DirPrefix(a);
      assert Join(a, b) == d + b;
      BasenameAppend(d, b);
      if '/' !in b {
        assert d == [] || d[|d| - 1] == '/';
        assert Basename(d) == [];
        BasenameOfPlain(b);
      }
    }
  }
}

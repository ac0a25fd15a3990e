// Python's handling of POSIX path strings, as the input classes use it:
// `os.path.join` of two parts, `os.path.split`, and the `stem` and
// `suffix` of a `pathlib.Path`.
module Paths {

  /** `s.rfind(c)`: the last index of c in s, or -1 when there is none. */
  function RFind(s: string, c: char): (i: int)
    ensures -1 <= i < |s|
    ensures i >= 0 ==> s[i] == c
    ensures forall j :: i < j < |s| ==> s[j] != c
  {
    if |s| == 0 then -1
    else if s[|s| - 1] == c then |s| - 1
    else RFind(s[..|s| - 1], c)
  }

  /** `os.path.join(a, b)`: an absolute b replaces a; otherwise one '/' separates them. */
  function Join(a: string, b: string): string
  {
    if |b| > 0 && b[0] == '/' then b
    else if |a| == 0 || a[|a| - 1] == '/' then a + b
    else a + "/" + b
  }

  /** The final component (`os.path.basename`, the tail of `os.path.split`). */
  function Basename(p: string): (t: string)
    ensures '/' !in t
    ensures |t| <= |p| && t == p[|p| - |t|..]
  {
    p[RFind(p, '/') + 1..]
  }

  /** s without its trailing slashes. */
  function StripSlashes(s: string): (r: string)
    ensures |r| <= |s| && r == s[..|r|]
    ensures |r| > 0 ==> r[|r| - 1] != '/'
  {
    if |s| > 0 && s[|s| - 1] == '/' then StripSlashes(s[..|s| - 1]) else s
  }

  /**
   * The head of `os.path.split`: everything up to the last '/', with
   * trailing slashes removed unless the head is nothing but slashes.
   */
  function Dirname(p: string): string
  {
    var h := p[..RFind(p, '/') + 1];
    if forall i :: 0 <= i < |h| ==> h[i] == '/' then h else StripSlashes(h)
  }

  /** The last '/' of a string: a '/' with none after it. */
  lemma LastSlash(s: string, k: int)
    requires 0 <= k < |s| && s[k] == '/'
    requires forall j :: k < j < |s| ==> s[j] != '/'
    ensures RFind(s, '/') == k
  {
  }

  /** Joining a directory and a plain name ends in that name, which is its final component. */
  lemma BasenameOfJoin(a: string, b: string)
    requires '/' !in b
    ensures Basename(Join(a, b)) == b
  {
    var p := Join(a, b);
    if |a| == 0 {
      assert p == b;
    } else if a[|a| - 1] == '/' {
      assert p == a + b;
      LastSlash(p, |a| - 1);
      assert p[|a|..] == b;
    } else {
      assert p == a + "/" + b;
      LastSlash(p, |a|);
      assert p[|a| + 1..] == b;
    }
  }

  /** Stripping the slashes of a head that ends in exactly one slash removes that slash. */
  lemma StripOne(h: string)
    requires |h| >= 2 && h[|h| - 1] == '/' && h[|h| - 2] != '/'
    ensures StripSlashes(h) == h[..|h| - 1]
  {
  }

  /**
   * `os.path.join(*os.path.split(p))` gives p back, provided p has no two
   * slashes in a row.
   */
  lemma SplitJoin(p: string)
    requires forall i :: 0 <= i < |p| - 1 ==> !(p[i] == '/' && p[i + 1] == '/')
    ensures Join(Dirname(p), Basename(p)) == p
  {
    var k := RFind(p, '/');
    var t := p[k + 1..];
    assert Basename(p) == t;
    if k == 0 {
      assert Dirname(p) == "/";
      assert p == "/" + t;
    } else if k > 0 {
      var h := p[..k + 1];
      assert h[k - 1] == p[k - 1] != '/';
      StripOne(h);
      assert Dirname(p) == p[..k];
      assert |t| > 0 ==> t[0] != '/';
      assert p == p[..k] + "/" + t;
    } else {
      assert Dirname(p) == "";
      assert p == t;
    }
  }

  /** The extension of the final component, from its last '.' (`Path.suffix`), or "" when it has none. */
  function Suffix(p: string): string
  {
    var n := Basename(p);
    var i := RFind(n, '.');
    if 0 < i < |n| - 1 then n[i..] else ""
  }

  /** The final component without its extension (`Path.stem`). */
  function Stem(p: string): string
  {
    var n := Basename(p);
    var i := RFind(n, '.');
    if 0 < i < |n| - 1 then n[..i] else n
  }

  /** Stem and suffix split the final component. */
  lemma StemSuffix(p: string)
    ensures Stem(p) + Suffix(p) == Basename(p)
  {
  }

  /**
   * A name made of a base with no '/' and a three-letter extension splits
   * at the extension's dot, whatever dots the base holds.
   */
  lemma StemOfExtension(base: string, ext: string)
    requires |base| > 0 && '/' !in base
    requires |ext| == 3 && '.' !in ext && '/' !in ext
    ensures Basename(base + "." + ext) == base + "." + ext
    ensures Stem(base + "." + ext) == base && Suffix(base + "." + ext) == "." + ext
  {
    var n := base + "." + ext;
    assert '/' !in n;
    assert RFind(n, '/') == -1;
    assert n[|base|] == '.';
    var i := RFind(n, '.');
    assert i == |base|;
    assert n[..i] == base;
  }
}

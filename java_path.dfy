/** The parts of `java.nio.file.Path` on a Unix file system that the worker
    and the runner use: building a path from text (`Path.of`), its last name
    (`getFileName`), its parent (`getParent`) and appending a name
    (`resolve`). A path is represented by the text `toString()` gives. */
module JavaPath {
  import opened JavaLang

  const Slash: char := '/'

  /** `s` with every run of `/` shortened to one `/`. */
  function CollapseSlashes(s: string): (r: string)
    ensures |r| <= |s|
    ensures s != [] ==> r != [] && r[|r| - 1] == s[|s| - 1]
  {
    if |s| <= 1 then s
    else if s[|s| - 1] == Slash && s[|s| - 2] == Slash then CollapseSlashes(s[..|s| - 1])
    else CollapseSlashes(s[..|s| - 1]) + [s[|s| - 1]]
  }

  /** The text of `Path.of(s)`: runs of `/` shortened to one and a trailing
      `/` dropped, unless the path is the root `/` alone. */
  function Normalize(s: string): string
  {
    var c := CollapseSlashes(s);
    if |c| > 1 && c[|c| - 1] == Slash then c[..|c| - 1] else c
  }

  /** The text after the last `/` of `s` (all of `s` when it has none). */
  function LastComponent(s: string): (r: string)
    ensures Slash !in r
    ensures |r| <= |s| && r == s[|s| - |r|..]
    ensures |r| < |s| ==> s[|s| - |r| - 1] == Slash
  {
    if s == [] || s[|s| - 1] == Slash then []
    else
      var r := LastComponent(s[..|s| - 1]) + [s[|s| - 1]];
      assert s[..|s| - 1][|s| - |r|..] + [s[|s| - 1]] == s[|s| - |r|..];
      r
  }

  /** `Path.of(s).getFileName().toString()`: the last name of the path. The
      root has no name (`getFileName()` is `null` and the `toString()` call
      throws), which is `None`; the empty path has the empty name. */
  function FileName(s: string): (r: Option<string>)
    ensures r.Some? ==> Slash !in r.value
  {
    var n := Normalize(s);
    if n == "/" then None else Some(LastComponent(n))
  }

  /** `Path.of(s).getParent()` as text: what precedes the last `/`, or the
      root when that `/` is the first character; `None` (Java's `null`) for
      the root itself and for a single name without a root. */
  function Parent(s: string): Option<string>
  {
    var n := Normalize(s);
    if n == "/" || Slash !in n then None
    else
      var k := |n| - |LastComponent(n)| - 1;
      if k == 0 then Some("/") else Some(n[..k])
  }

  /** `dir.resolve(name)` for a name without `/`: the empty name gives `dir`
      itself, an empty `dir` gives the name, and otherwise the name is
      appended after one `/`. */
  function Resolve(dir: string, name: string): string
  {
    if name == "" then dir
    else if dir == "" then name
    else if dir == "/" then dir + name
    else dir + [Slash] + name
  }

  lemma {:induction false} CollapseWithoutSlash(s: string)
    requires Slash !in s
    ensures CollapseSlashes(s) == s
  {
    if |s| > 1 {
      CollapseWithoutSlash(s[..|s| - 1]);
    }
  }

  /** Appending characters other than `/` to a text ending in `/` keeps them. */
  lemma {:induction false} CollapseAppendName(p: string, name: string)
    requires p != [] && p[|p| - 1] == Slash && Slash !in name
    ensures CollapseSlashes(p + name) == CollapseSlashes(p) + name
    decreases |name|
  {
    if name != [] {
      var init := name[..|name| - 1];
      var last := name[|name| - 1];
      assert last in name;
      assert (p + name)[..|p + name| - 1] == p + init;
      assert CollapseSlashes(p + name) == CollapseSlashes(p + init) + [last];
      CollapseAppendName(p, init);
      assert name == init + [last];
      assert CollapseSlashes(p) + init + [last] == CollapseSlashes(p) + name;
    } else {
      assert p + name == p;
    }
  }

  lemma {:induction false} LastComponentAfterSlash(p: string, name: string)
    requires p != [] && p[|p| - 1] == Slash && Slash !in name
    ensures LastComponent(p + name) == name
    decreases |name|
  {
    if name != [] {
      var init := name[..|name| - 1];
      assert (p + name)[..|p + name| - 1] == p + init;
      LastComponentAfterSlash(p, init);
      assert name == init + [name[|name| - 1]];
    } else {
      assert p + name == p;
    }
  }

  /** A key without `/` is its own file name. */
  lemma {:induction false} FileNameOfName(s: string)
    requires Slash !in s
    ensures FileName(s) == Some(s)
  {
    CollapseWithoutSlash(s);
    if s != [] {
      assert s[|s| - 1] in s;
    }
    assert LastComponent(s) == s;
  }

  /** The file name of `prefix/name` is `name`, whatever the prefix: the last
      component of the key. */
  lemma {:induction false} FileNameOfLastComponent(prefix: string, name: string)
    requires name != "" && Slash !in name
    ensures FileName(prefix + [Slash] + name) == Some(name)
  {
    var p := prefix + [Slash];
    assert prefix + [Slash] + name == p + name;
    CollapseAppendName(p, name);
    var c := CollapseSlashes(p);
    assert c != [] && c[|c| - 1] == Slash;
    var n := c + name;
    assert n[|n| - 1] == name[|name| - 1] != Slash;
    assert Normalize(p + name) == n;
    LastComponentAfterSlash(c, name);
    assert n != "/";
  }

  /** A directory as `Path` prints it, followed by `/` unless it is the
      root, is left alone by `Path.of`. */
  lemma {:induction false} DirectoryPrefix(dir: string)
    requires dir != "" && Normalize(dir) == dir
    ensures var p := if dir == "/" then dir else dir + [Slash];
      CollapseSlashes(p) == p && p[|p| - 1] == Slash
  {
    var c := CollapseSlashes(dir);
    assert c == dir;
    if dir != "/" {
      var p := dir + [Slash];
      assert dir[|dir| - 1] != Slash;
      assert p[..|p| - 1] == dir;
      assert CollapseSlashes(p) == CollapseSlashes(dir) + [Slash];
    }
  }

  lemma {:induction false} ResolvedText(dir: string, name: string)
    requires dir != "" && Normalize(dir) == dir
    requires name != "" && Slash !in name
    ensures Normalize(Resolve(dir, name)) == Resolve(dir, name)
    ensures LastComponent(Resolve(dir, name)) == name
  {
    var p := if dir == "/" then dir else dir + [Slash];
    DirectoryPrefix(dir);
    assert Resolve(dir, name) == p + name;
    CollapseAppendName(p, name);
    var n := p + name;
    assert n[|n| - 1] == name[|name| - 1];
    assert name[|name| - 1] in name;
    LastComponentAfterSlash(p, name);
  }

  /** For a directory as `Path` prints it and a non-empty name without `/`,
      the resolved path has that name and that directory as its parent. */
  lemma {:induction false} ResolveNameAndParent(dir: string, name: string)
    requires dir != "" && Normalize(dir) == dir
    requires name != "" && Slash !in name
    ensures Normalize(Resolve(dir, name)) == Resolve(dir, name)
    ensures FileName(Resolve(dir, name)) == Some(name)
    ensures Parent(Resolve(dir, name)) == Some(dir)
  {
    ResolvedText(dir, name);
    var n := Resolve(dir, name);
    var p := if dir == "/" then dir else dir + [Slash];
    assert n == p + name;
    assert n != "/" by { assert |n| >= 2; }
    assert Slash in n by { assert n[|p| - 1] == Slash; }
    assert |n| - |name| - 1 == |p| - 1;
    if dir != "/" {
      assert n[..|dir|] == dir;
    }
  }
}

/**
 * The POSIX path operations the backend applies to file names and stored
 * paths: `os.path.basename`, `os.path.join` with two arguments,
 * `os.path.splitext`, and the `name`, `suffix` and `stem` properties of
 * `pathlib.Path`. Paths are plain strings; nothing touches a file system.
 */
module PyPath {
  import opened Wrappers
  import opened Text

  /** `os.path.basename`: what follows the last '/' (everything when there is none). */
  function Basename(p: String): (r: String)
    ensures '/' !in r
    ensures EndsWith(p, r)
    ensures |r| < |p| ==> p[|p| - |r| - 1] == '/'
  {
    match LastChar(p, |p|, '/')
    case None => p
    case Some(i) => p[i + 1..]
  }

  /** `os.path.join(a, b)`: an absolute `b` replaces `a`; otherwise a single '/' separates them. */
  function JoinPath(a: String, b: String): (r: String)
    ensures StartsWith(b, "/") ==> r == b
    ensures !StartsWith(b, "/") ==> StartsWith(r, a) && EndsWith(r, b)
  {
    if StartsWith(b, "/") then b
    else if a == [] || EndsWith(a, "/") then a + b
    else a + "/" + b
  }

  /** The basename of `a + "/" + name` is `name` when `name` holds no '/'. */
  lemma BasenameAfterSlash(a: String, name: String)
    requires '/' !in name
    ensures Basename(a + "/" + name) == name
  {
    var r := a + "/" + name;
    assert r[|a|] == '/';
    assert forall k :: |a| < k < |r| ==> r[k] == name[k - |a| - 1];
    var lc := LastChar(r, |r|, '/');
    assert lc.Some?;
    assert lc.value == |a|;
    assert r[|a| + 1..] == name;
  }

  /** Joining a directory and a name without '/' yields a path whose basename is that name. */
  lemma JoinBasename(dir: String, name: String)
    requires '/' !in name
    ensures Basename(JoinPath(dir, name)) == name
  {
    assert !StartsWith(name, "/") by {
      if |name| > 0 { assert name[0] in name; }
    }
    if dir == [] {
      assert JoinPath(dir, name) == name;
    } else if EndsWith(dir, "/") {
      var d := dir[..|dir| - 1];
      assert dir == d + "/";
      assert JoinPath(dir, name) == d + "/" + name;
      BasenameAfterSlash(d, name);
    } else {
      BasenameAfterSlash(dir, name);
    }
  }

  /** A component that `pathlib` keeps: neither empty (from "//" or a trailing '/') nor ".". */
  predicate IsPart(x: String) {
    x != "" && x != "."
  }

  /** The components `pathlib.PurePosixPath` keeps, in order. */
  function Parts(p: String): (r: seq<String>)
    ensures forall k :: 0 <= k < |r| ==> IsPart(r[k])
  {
    Filter(Split(p, '/'), IsPart)
  }

  /** `Path(p).name`: the last kept component, or "" when there is none. */
  function PathName(p: String): (r: String)
  {
    var parts := Parts(p);
    if parts == [] then "" else parts[|parts| - 1]
  }

  /** The name is a single component: it holds no '/' and is not ".". */
  lemma PathNameIsComponent(p: String)
    ensures '/' !in PathName(p) && PathName(p) != "."
  {
    var parts := Parts(p);
    if parts != [] {
      var x := parts[|parts| - 1];
      FilterMembers(Split(p, '/'), IsPart, x);
    }
  }

  /** Taking the name of a name changes nothing. */
  lemma PathNameIdempotent(p: String)
    ensures PathName(PathName(p)) == PathName(p)
  {
    var r := PathName(p);
    PathNameIsComponent(p);
    assert Split(r, '/') == [r];
    if r == "" {
      assert Parts(r) == [];
    } else {
      assert Parts(r) == [r];
    }
  }

  /** A component other than "" and "." is its own name. */
  lemma PathNameOfComponent(x: String)
    requires '/' !in x && IsPart(x)
    ensures PathName(x) == x
  {
    assert Split(x, '/') == [x];
    assert Parts(x) == [x];
  }

  /** Where `suffix` and `stem` cut the name: the last '.', provided it is neither first nor last. */
  function SuffixStart(name: String): (r: Option<nat>)
    ensures r.Some? ==> 0 < r.value < |name| - 1 && name[r.value] == '.' && '.' !in name[r.value + 1..]
  {
    match LastChar(name, |name|, '.')
    case None => None
    case Some(i) =>
      if 0 < i < |name| - 1 then
        Some(i)
      else None
  }

  /** `Path(p).suffix`: from the last '.' of the name, or "". */
  function Suffix(p: String): (r: String)
    ensures r == "" || (|r| >= 2 && r[0] == '.' && '.' !in r[1..])
  {
    var name := PathName(p);
    match SuffixStart(name)
    case None => ""
    case Some(i) => name[i..]
  }

  /** `Path(p).stem`: the name without its suffix. */
  function Stem(p: String): (r: String)
  {
    var name := PathName(p);
    match SuffixStart(name)
    case None => name
    case Some(i) => name[..i]
  }

  /** Stem and suffix split the name. */
  lemma StemSuffix(p: String)
    ensures Stem(p) + Suffix(p) == PathName(p)
  {
  }

  /** `os.path.splitext(p)[1]`: from the last '.' of the basename, unless only dots precede it there. */
  function Ext(p: String): (r: String)
    ensures r == "" || r[0] == '.'
  {
    var base := Basename(p);
    match LastChar(base, |base|, '.')
    case None => ""
    case Some(d) => if SkipWhile(base, 0, IsDot) < d then base[d..] else ""
  }

  /** The extension ends the basename and holds no further '.' (nor any '/'). */
  lemma ExtShape(p: String)
    ensures var r := Ext(p); EndsWith(Basename(p), r) && '/' !in r && (r == "" || '.' !in r[1..])
  {
    var base := Basename(p);
    var lc := LastChar(base, |base|, '.');
    if Ext(p) == "" {
      assert base[|base|..] == [];
    } else {
      var d := lc.value;
      assert Ext(p) == base[d..];
      TailShape(base, d);
    }
  }

  /** The tail of a slash-free name from its last '.' ends it and holds no other '.' or '/'. */
  lemma TailShape(base: String, d: nat)
    requires d < |base| && '/' !in base
    requires forall k :: d < k < |base| ==> base[k] != '.'
    ensures var r := base[d..]; EndsWith(base, r) && '/' !in r && '.' !in r[1..]
  {
    var r := base[d..];
    assert |base| - |r| == d;
    forall k | 0 <= k < |r|
      ensures r[k] == base[d + k] && r[k] != '/' && (k >= 1 ==> r[k] != '.')
    {
      assert base[d + k] in base;
    }
    var t := r[1..];
    forall k | 0 <= k < |t|
      ensures t[k] != '.'
    {
      assert t[k] == r[k + 1];
    }
  }

  /** A name made of dots and one extension-like tail, such as ".env", has no extension. */
  lemma DotFileHasNoExt(s: String)
    requires '.' !in s && '/' !in s
    ensures Ext("." + s) == ""
  {
    var p := "." + s;
    assert forall k :: 0 < k < |p| ==> p[k] == s[k - 1];
    assert forall k :: 0 < k < |p| ==> p[k] != '.' && p[k] != '/';
    assert Basename(p) == p;
    var lc := LastChar(p, |p|, '.');
    assert p[0] == '.';
    assert lc.Some? && lc.value == 0;
  }
}

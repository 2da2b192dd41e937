/** `path.extname` of Node's POSIX path module. */
module Paths {
  import opened Wrappers
  import opened Strings

  /** The path without its trailing slashes. */
  function TrimTrailingSlashes(p: string): (r: string)
    ensures StartsWith(p, r)
    ensures r == [] || r[|r| - 1] != '/'
    ensures forall j :: |r| <= j < |p| ==> p[j] == '/'
  {
    if p != [] && p[|p| - 1] == '/' then TrimTrailingSlashes(p[..|p| - 1]) else p
  }

  /** The last component of a path, trailing slashes ignored. */
  function BaseName(p: string): (r: string)
    ensures '/' !in r
  {
    LastSegment(TrimTrailingSlashes(p))
  }

  /** `extname(p)`: from the last `.` of the last component to its end. It is empty
      when that component has no `.`, when its only `.` is its first character
      (a dot-file such as `.profile`), and for the component `..`. */
  function Extname(p: string): (e: string)
    ensures e == [] || (e[0] == '.' && '.' !in e[1..] && '/' !in e)
  {
    var part := BaseName(p);
    match LastIndexOf(part, '.')
    case None => ""
    case Some(d) => if d == 0 || part == ".." then "" else Suffix(part, d)
  }

  function Suffix(s: string, d: nat): (e: string)
    requires d < |s|
    ensures e == s[d..] && |e| > 0 && e[0] == s[d] && e[1..] == s[d + 1..]
    ensures EndsWith(s, e)
  {
    s[d..]
  }

  /** The last component of `dir/name` is `name` when `name` is a non-empty
      component that does not end in a slash. */
  lemma BaseNameOfPath(dir: string, name: string)
    requires name != [] && '/' !in name
    ensures BaseName(dir + "/" + name) == name
  {
    var p := dir + "/" + name;
    assert p[|p| - 1] == name[|name| - 1];
    assert TrimTrailingSlashes(p) == p;
    assert p == dir + ['/'] + name;
    LastIndexOfSplit(dir, '/', name);
    assert p[|dir| + 1..] == name;
  }

  /** The extension of a component `stem.x`. */
  lemma ExtnameOfComponent(stem: string, x: string)
    requires stem != [] && '/' !in stem
    requires '.' !in x && '/' !in x
    requires stem != "." || x != []
    ensures var name := stem + "." + x;
            var d := LastIndexOf(name, '.');
            d == Some(|stem|) && name != ".." && name[|stem|..] == "." + x
  {
    var name := stem + "." + x;
    assert name == stem + ['.'] + x;
    LastIndexOfSplit(stem, '.', x);
    assert |name| == 2 ==> |stem| == 1 && x == [] && stem == name[..1];
    assert name[|stem|..] == "." + x;
  }

  /** The extension of `dir/stem.x` is `.x`, whatever the directory, when `x` holds no
      `.` or `/` and the stem holds no `/` (and the name is not `..`). */
  lemma ExtnameOfName(dir: string, stem: string, x: string)
    requires stem != [] && '/' !in stem
    requires '.' !in x && '/' !in x
    requires stem != "." || x != []
    ensures Extname(dir + "/" + stem + "." + x) == "." + x
  {
    var name := stem + "." + x;
    assert '/' !in name;
    assert dir + "/" + stem + "." + x == dir + "/" + name;
    BaseNameOfPath(dir, name);
    ExtnameOfComponent(stem, x);
  }
}

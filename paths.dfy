/**
  `pathlib` paths as lists of components. An absolute path starts with the
  component "/"; a relative one does not; "." components are never stored,
  so `Path(".")` and `Path("")` are the empty list. Two paths are equal when
  their component lists are, as for `PurePosixPath.__eq__`.
 */
module Paths {

  type Path = seq<string>

  predicate IsAbsolute(p: Path)
  {
    |p| > 0 && p[0] == "/"
  }

  /** `p.name`: the final component ("" for the root and for "."). */
  function Name(p: Path): string
  {
    if p == [] || p == ["/"] then "" else p[|p| - 1]
  }

  /** `p.parent` (the root is its own parent, "." is its own parent). */
  function Parent(p: Path): Path
  {
    if |p| <= 1 then (if p == ["/"] then ["/"] else []) else p[..|p| - 1]
  }

  /** `p.parent / name` for a path with a final component. */
  function Sibling(p: Path, name: string): Path
    requires |p| >= 1
  {
    p[..|p| - 1] + [name]
  }

  /** `s.rfind(c)` */
  function LastIndexOf(s: string, c: char): (i: int)
    ensures -1 <= i < |s|
    ensures i >= 0 ==> s[i] == c
    ensures forall k :: i < k < |s| ==> s[k] != c
  {
    if s == [] then -1
    else if s[|s| - 1] == c then |s| - 1
    else LastIndexOf(s[..|s| - 1], c)
  }

  /** `PurePath(name).suffix`: from the last '.', unless that dot leads or ends the name. */
  function Suffix(name: string): string
  {
    var i := LastIndexOf(name, '.');
    if 0 < i < |name| - 1 then name[i..] else ""
  }

  /** `PurePath(name).stem`: the name without its suffix. */
  function Stem(name: string): string
  {
    var i := LastIndexOf(name, '.');
    if 0 < i < |name| - 1 then name[..i] else name
  }

  /** What a suffix can look like: empty, or a dot, at least one more character and no other dot. */
  predicate IsSuffixShaped(s: string)
  {
    s == "" || (|s| >= 2 && s[0] == '.' && '.' !in s[1..])
  }

  lemma StemSuffix(name: string)
    ensures Stem(name) + Suffix(name) == name
    ensures IsSuffixShaped(Suffix(name))
  {
    var i := LastIndexOf(name, '.');
    if 0 < i < |name| - 1 {
      assert name[..i] + name[i..] == name;
      assert forall k :: 1 <= k < |name[i..]| ==> name[i..][k] == name[i + k];
    }
  }

  lemma {:induction false} LastIndexOfAppend(a: string, b: string, c: char)
    requires c !in b
    ensures LastIndexOf(a + b, c) == LastIndexOf(a, c)
    decreases |b|
  {
    if b == [] {
      assert a + b == a;
    } else {
      var s := a + b;
      assert s[..|s| - 1] == a + b[..|b| - 1];
      LastIndexOfAppend(a, b[..|b| - 1], c);
    }
  }

  /** The name `a + "." + ext`, with a dot-free extension, splits into stem `a` and suffix `"." + ext`. */
  lemma StemSuffixOfDotted(a: string, ext: string)
    requires |a| >= 1 && |ext| >= 1 && '.' !in ext
    ensures Stem(a + "." + ext) == a && Suffix(a + "." + ext) == "." + ext
  {
    var s := a + "." + ext;
    LastIndexOfAppend(a + ".", ext, '.');
    assert LastIndexOf(a + ".", '.') == |a|;
    assert s[..|a|] == a && s[|a|..] == "." + ext;
  }

  /** `Path(s)` for a string without '/': "" and "." name the current directory. */
  function PathOfName(s: string): Path
  {
    if s == "" || s == "." then [] else [s]
  }
}

/** POSIX path names as `pathlib.PurePosixPath.name`/`.stem` and
    `os.path.splitext` see them, for paths without trailing slashes. */
module Paths {
  import opened Wrappers

  /** `s.rfind(c)`: the last position of `c`, if any. */
  function LastIndex(s: string, c: char): (r: Option<nat>)
    ensures r.None? <==> c !in s
    ensures r.Some? ==> r.value < |s| && s[r.value] == c && c !in s[r.value + 1..]
  {
    if s == [] then None
    else if s[|s| - 1] == c then Some(|s| - 1)
    else
      assert s == s[..|s| - 1] + [s[|s| - 1]];
      LastIndex(s[..|s| - 1], c)
  }

  /** `Path(p).name`: the part after the last `/`. */
  function Name(p: string): string {
    match LastIndex(p, '/')
    case None => p
    case Some(i) => p[i + 1..]
  }

  predicate EndsWithPart(p: string, part: string) {
    |part| <= |p| && p[|p| - |part|..] == part
  }

  /** `Path(p).stem`: the name without its last suffix; a leading dot or a
      final dot is not a suffix. */
  function Stem(p: string): string {
    var n := Name(p);
    match LastIndex(n, '.')
    case Some(i) => if 0 < i < |n| - 1 then n[..i] else n
    case None => n
  }

  /** `os.path.splitext(p)`: a split at the last dot of the last path
      component, provided the component has something other than dots
      before it. */
  function SplitExt(p: string): (r: (string, string))
    ensures r.0 + r.1 == p
    ensures r.1 == "" || (r.1[0] == '.' && '/' !in r.1 && '.' !in r.1[1..])
  {
    var sep := match LastIndex(p, '/') case Some(i) => i as int case None => -1;
    match LastIndex(p, '.')
    case Some(dot) =>
      if dot > sep && HasNonDot(p, sep + 1, dot) then
        assert p == p[..dot] + p[dot..];
        assert p[dot..][1..] == p[dot + 1..];
        (p[..dot], p[dot..])
      else (p, "")
    case None => (p, "")
  }

  /** Some character of `p[lo..hi]` is not a dot. */
  predicate HasNonDot(p: string, lo: int, hi: int)
    requires 0 <= lo <= hi <= |p|
  {
    exists k :: lo <= k < hi && p[k] != '.'
  }

  /** The name is the end of the path after its last `/`. */
  lemma {:induction false} NameSpec(p: string)
    ensures '/' !in Name(p) && EndsWithPart(p, Name(p))
    ensures '/' !in p ==> Name(p) == p
  {
  }

  /** The stem and the suffix together give back the name. */
  lemma {:induction false} StemSuffix(p: string)
    ensures Stem(p) == Name(p) || (exists i :: 0 < i < |Name(p)| - 1 && Name(p)[i] == '.' && Stem(p) == Name(p)[..i] && '.' !in Name(p)[i + 1..])
  {
    var n := Name(p);
    match LastIndex(n, '.')
    case Some(i) =>
      if 0 < i < |n| - 1 {
        assert n[i] == '.' && Stem(p) == n[..i] && '.' !in n[i + 1..];
      }
    case None =>
  }
}

/**
 Names that become directories and files below the packages directory
 (fleet/sgcia-fleet-server/api.go, isSafePackagePathComponent).
 */
module PackagePaths {
  import opened Text

  predicate IsSafePathComponent(s: string) {
    s != "" && '/' !in s && '\\' !in s && s != "." && s != ".."
  }

  /** Both separators count, whatever the platform. */
  function Slashes(s: string): (r: string)
    ensures |r| == |s|
  {
    seq(|s|, i requires 0 <= i < |s| => if s[i] == '\\' then '/' else s[i])
  }

  /** One step into a directory: "." and nothing stay, ".." goes up. */
  function Enter(dir: seq<string>, segment: string): seq<string> {
    if segment == "" || segment == "." then dir
    else if segment == ".." then if dir == [] then [] else dir[..|dir| - 1]
    else dir + [segment]
  }

  function EnterAll(dir: seq<string>, segments: seq<string>): seq<string>
    decreases |segments|
  {
    if segments == [] then dir else EnterAll(Enter(dir, segments[0]), segments[1..])
  }

  /** Where a relative path leads from a directory. */
  function Resolve(dir: seq<string>, path: string): seq<string> {
    EnterAll(dir, Split(Slashes(path), '/'))
  }

  lemma {:induction false} SplitHasSameChars(s: string, sep: char)
    ensures forall part, c :: part in Split(s, sep) && c in part ==> c in s && c != sep
  {
    if s != "" {
      SplitHasSameChars(s[1..], sep);
      var rest := Split(s[1..], sep);
      assert rest[0] in rest;
      assert s == [s[0]] + s[1..];
    }
  }

  lemma {:induction false} EnteredNames(dir: seq<string>, segments: seq<string>)
    ensures forall name :: name in EnterAll(dir, segments) ==>
              name in dir || (name in segments && name != "" && name != "." && name != "..")
    decreases |segments|
  {
    if segments != [] { EnteredNames(Enter(dir, segments[0]), segments[1..]); }
  }

  /** The check accepts exactly the names that lead one level down, to a file or directory of that
      very name, from wherever they are taken. */
  lemma SafeIffOneLevelDown(s: string)
    ensures IsSafePathComponent(s) <==> forall dir :: Resolve(dir, s) == dir + [s]
  {
    if IsSafePathComponent(s) {
      assert Slashes(s) == s;
      SplitPlain(s, '/');
      forall dir ensures Resolve(dir, s) == dir + [s] {
        assert EnterAll(Enter(dir, s), []) == dir + [s];
      }
    } else {
      EnteredNames([], Split(Slashes(s), '/'));
      SplitHasSameChars(Slashes(s), '/');
      assert s in [] + [s];
      assert Resolve([], s) != [] + [s];
    }
  }
}

/** POSIX path helpers standing in for Node's `path` module, Python's `os.path`
    and the path-equivalence helper `arePathsSame`. Paths are plain strings with
    '/' as the separator; no normalisation of '.', '..' or repeated separators. */
module Paths {
  import opened Wrappers
  import opened Text

  /** `path.basename(p)`: the text after the last separator. */
  function Basename(p: string): (b: string)
    ensures '/' !in b
    ensures EndsWith(p, b)
  {
    match LastIndexOf(p, '/')
    case None => p
    case Some(i) => p[i + 1..]
  }

  /** In a path with a separator, the base name is what follows the last one. */
  lemma BasenameAfterSeparator(p: string)
    requires '/' in p
    ensures |Basename(p)| < |p| && p[|p| - |Basename(p)| - 1] == '/'
  {
  }

  /** `path.dirname(p)`: everything before the last separator, "/" for a file
      in the root directory and "." for a bare name. */
  function Dirname(p: string): string {
    match LastIndexOf(p, '/')
    case None => "."
    case Some(i) => if i == 0 then "/" else p[..i]
  }

  /** `path.join(a, b)` / `os.path.join(a, b)` of two segments. */
  function Join(a: string, b: string): string {
    if StartsWith(b, "/") then b
    else if a == "" || EndsWith(a, "/") then a + b
    else a + "/" + b
  }

  predicate IsAbsolute(p: string) {
    StartsWith(p, "/")
  }

  /** `arePathsSame`: on a case-sensitive POSIX file system, string equality. */
  predicate ArePathsSame(a: string, b: string) {
    a == b
  }

  /** Joining a directory and a plain entry name can be undone by `Dirname` and
      `Basename`. */
  lemma {:induction false} JoinSplitsBack(dir: string, name: string)
    requires dir != "" && !EndsWith(dir, "/")
    requires name != "" && '/' !in name
    ensures Dirname(Join(dir, name)) == dir
    ensures Basename(Join(dir, name)) == name
  {
    var p := dir + "/" + name;
    assert !StartsWith(name, "/") by {
      assert name[..1][0] == name[0];
    }
    assert Join(dir, name) == p;
    assert p[|dir|] == '/';
    assert p[|dir| + 1..] == name;
    var r := LastIndexOf(p, '/');
    assert r == Some(|dir|);
    if |dir| == 1 {
      assert dir[0] != '/' by {
        assert dir[|dir| - 1..] == [dir[0]];
      }
    }
    assert p[..|dir|] == dir;
  }
}

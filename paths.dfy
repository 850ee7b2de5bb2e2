/** POSIX path helpers the scripts rely on: `os.path.join` for two
    components. */
module Paths {
  import opened Text

  /** `os.path.join(a, b)` for two POSIX components: an absolute `b` replaces
      `a`; otherwise a slash is inserted unless `a` is empty or already ends
      with one. */
  function PathJoin(a: string, b: string): (r: string)
    ensures |b| > 0 && b[0] == '/' ==> r == b
    ensures !(|b| > 0 && b[0] == '/') ==> |r| >= |a| + |b| && r[..|a|] == a && r[|r| - |b|..] == b
  {
    if |b| > 0 && b[0] == '/' then b
    else if a == [] || a[|a| - 1] == '/' then a + b
    else a + "/" + b
  }

  /** A relative name joined to a directory that does not end in a slash sits
      right after one new slash, so the last path piece of the result is the
      name itself. */
  lemma PathJoinLastPiece(dir: string, name: string)
    requires dir != [] && dir[|dir| - 1] != '/' && '/' !in name
    ensures PathJoin(dir, name) == dir + "/" + name
    ensures var parts := Split(PathJoin(dir, name), '/'); parts[|parts| - 1] == name
  {
    var p := PathJoin(dir, name);
    if name != [] {
      assert name[0] in name;
    }
    assert p[|p| - |name|..] == name;
    SplitLastIs(p, name);
  }
}

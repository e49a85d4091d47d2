/** What the cooldown gate (scripts/supply_chain_cooldown.py) reads of a pull request. */
module Dependencies {
  import opened Wrappers
  import opened Versions

  datatype Ecosystem = Pip | Npm | GitHubActions | GoMod | Docker

  datatype Package = Package(name: string, version: string)

  /** An entry of a lock file. */
  datatype Identity = Identity(package: Package, source: string)

  /** A requirement of a pyproject file: its clauses, and the versions after `>=` and `==`. */
  datatype Spec = Spec(clauses: seq<Clause>, bounds: set<string>)

  datatype Change<+T> = Change(before: T, after: T)

  /** A changed file at both revisions: as a lock file, as the pins of a dependency by key,
      and as the requirements on it. */
  datatype Manifest = Manifest(
    path: string,
    lock: Result<Change<set<Identity>>>,
    pins: string -> Result<Change<map<string, string>>>,
    specs: string -> Result<Change<set<Spec>>>
  )

  /** The part after the last slash. */
  function BaseName(path: string): string {
    if path == "" then ""
    else
      var rest := BaseName(path[1..]);
      if |rest| < |path| - 1 || path[0] == '/' then rest else path
  }

  lemma {:induction false} BaseNameIff(path: string, name: string)
    requires '/' !in name && name != ""
    ensures BaseName(path) == name <==> path == name || exists dir :: path == dir + "/" + name
  {
    BaseNameSplits(path);
    if dir :| path == dir + "/" + name {
      BaseNameOf(dir, name);
    }
    if path == name {
      NoSlash(path);
    }
  }

  /** The base name has no slash, and is all of the path or what follows a slash. */
  lemma {:induction false} BaseNameSplits(path: string)
    ensures '/' !in BaseName(path)
    ensures path == BaseName(path) || exists dir :: path == dir + "/" + BaseName(path)
  {
    if path != "" {
      var tail := path[1..];
      BaseNameSplits(tail);
      if BaseName(path) == BaseName(tail) && (|BaseName(tail)| < |tail| || path[0] == '/') {
        if tail == BaseName(tail) {
          assert path == "" + "/" + BaseName(tail);
        } else {
          var dir :| tail == dir + "/" + BaseName(tail);
          assert path == ([path[0]] + dir) + "/" + BaseName(tail);
        }
      }
    }
  }

  lemma {:induction false} NoSlash(name: string)
    requires '/' !in name
    ensures BaseName(name) == name
  {
    if name != "" {
      NoSlash(name[1..]);
    }
  }

  lemma {:induction false} BaseNameOf(dir: string, name: string)
    requires '/' !in name
    ensures BaseName(dir + "/" + name) == name
  {
    var path := dir + "/" + name;
    if dir == "" {
      assert path[1..] == name;
      NoSlash(name);
    } else {
      assert path[1..] == dir[1..] + "/" + name;
      BaseNameOf(dir[1..], name);
    }
  }

  lemma IsPyprojectIff(m: Manifest)
    ensures IsPyproject(m) <==> exists dir :: m.path == dir + "/pyproject.toml"
  {
    var suffix := "/pyproject.toml";
    if IsPyproject(m) {
      assert m.path == m.path[..|m.path| - |suffix|] + suffix;
    }
  }

  function EndsWith(s: string, suffix: string): bool {
    |suffix| <= |s| && s[|s| - |suffix|..] == suffix
  }

  function IsPyproject(m: Manifest): bool {
    EndsWith(m.path, "/pyproject.toml")
  }
}

/** The project list: directories, projects and their table rows are edited
    together (internal/app/projects.go, internal/config/projects.go). */
module Projects {
  import opened Common
  import opened Formatting

  datatype Project = Project(name: string, path: string)

  /** A configured project root. */
  datatype Directory = Directory(
    path: string,
    name: string,
    extensions: seq<string>,
    includes: seq<string>,
    excludes: seq<string>,
    maxFileSizeMB: int)

  /** The path of the first project of that name. */
  function ProjectPath(projects: seq<Project>, name: string): (r: Result<string>)
    ensures r.Ok? ==> exists i :: 0 <= i < |projects| && projects[i] == Project(name, r.value)
    ensures r.Err? <==> forall i :: 0 <= i < |projects| ==> projects[i].name != name
  {
    if projects == [] then Err("project not found")
    else if projects[0].name == name then
      assert projects[0] == Project(name, projects[0].path);
      Ok(projects[0].path)
    else
      var rest := projects[1..];
      assert forall i :: 0 < i < |projects| ==> projects[i] == rest[i - 1];
      ProjectPath(rest, name)
  }

  /** Project i is the first of that name. */
  ghost predicate FirstNamed(projects: seq<Project>, name: string, i: nat) {
    i < |projects| && projects[i].name == name && forall j :: 0 <= j < i ==> projects[j].name != name
  }

  lemma {:induction false} ProjectPathIsFirst(projects: seq<Project>, name: string, i: nat)
    requires FirstNamed(projects, name, i)
    ensures ProjectPath(projects, name) == Ok(projects[i].path)
  {
    if i > 0 {
      assert projects[0].name != name;
      ProjectPathIsFirst(projects[1..], name, i - 1);
    }
  }

  // ---------------------------------------------------------- unique names

  /** The n-th name tried: the name itself, then name-1, name-2, ... */
  function Candidate(name: string, n: nat): string {
    if n == 0 then name else name + "-" + Itoa(n)
  }

  lemma CandidateInjective(name: string, a: nat, b: nat)
    requires Candidate(name, a) == Candidate(name, b)
    ensures a == b
  {
    if a != 0 && b != 0 {
      LastSeparator(name, Itoa(a), name, Itoa(b), '-');
      ItoaInjective(a, b);
    } else {
      assert |Candidate(name, 0)| == |name|;
      assert forall n: nat :: n != 0 ==> |Candidate(name, n)| > |name|;
    }
  }

  /** n different candidates in use need n used names. */
  lemma {:induction false} CandidatesFill(name: string, n: nat, used: set<string>)
    requires forall k :: 0 <= k < n ==> Candidate(name, k) in used
    ensures n <= |used|
  {
    if n > 0 {
      var last := Candidate(name, n - 1);
      forall k | 0 <= k < n - 1
        ensures Candidate(name, k) in used - {last}
      {
        if Candidate(name, k) == last {
          CandidateInjective(name, k, n - 1);
        }
      }
      CandidatesFill(name, n - 1, used - {last});
      assert |used - {last}| == |used| - 1;
    }
  }

  ghost predicate Taken(projects: seq<Project>, name: string) {
    exists i :: 0 <= i < |projects| && projects[i].name == name
  }

  ghost predicate PathListed(projects: seq<Project>, path: string) {
    exists i :: 0 <= i < |projects| && projects[i].path == path
  }

  /** The number n is the first for which no project bears name-n. */
  ghost predicate FirstNumber(name: string, projects: seq<Project>, n: nat) {
    && 1 <= n <= |projects| && !Taken(projects, name + "-" + Itoa(n))
    && forall k :: 1 <= k < n ==> Taken(projects, name + "-" + Itoa(k))
  }

  /** The name itself if no project bears it, and otherwise the first free one
      among name-1, name-2, ..., found within as many tries as there are projects. */
  ghost predicate FirstFree(name: string, projects: seq<Project>, unique: string) {
    if !Taken(projects, name) then unique == name
    else exists n: nat :: FirstNumber(name, projects, n) && unique == name + "-" + Itoa(n)
  }

  lemma FirstFreeEmpty(name: string, projects: seq<Project>, unique: string)
    requires FirstFree(name, projects, unique)
    ensures !Taken(projects, unique)
    ensures unique == "" <==> name == "" && !Taken(projects, "")
  {
    if Taken(projects, name) {
      var n: nat :| FirstNumber(name, projects, n) && unique == name + "-" + Itoa(n);
    }
  }

  lemma FirstNumberFound(name: string, projects: seq<Project>, used: set<string>, n: nat)
    requires forall u :: u in used <==> Taken(projects, u)
    requires 1 <= n <= |projects| && Candidate(name, n) !in used && forall k :: 0 <= k < n ==> Candidate(name, k) in used
    ensures FirstNumber(name, projects, n)
  {
    forall k | 1 <= k < n
      ensures Taken(projects, name + "-" + Itoa(k))
    {
      assert Candidate(name, k) in used;
    }
  }

  method UniqueProjectName(name: string, projects: seq<Project>) returns (unique: string)
    ensures FirstFree(name, projects, unique)
  {
    hide Itoa, FirstNumber;
    var used: set<string> := {};
    for i := 0 to |projects|
      invariant |used| <= i
      invariant forall u :: u in used <==> exists j :: 0 <= j < i && projects[j].name == u
    {
      used := used + {projects[i].name};
    }
    if name !in used {
      return name;
    }
    var n := 1;
    while true
      invariant 1 <= n <= |projects|
      invariant forall k :: 0 <= k < n ==> Candidate(name, k) in used
      decreases |used| - n
    {
      CandidatesFill(name, n, used);
      var candidate := name + "-" + Itoa(n);
      if candidate !in used {
        FirstNumberFound(name, projects, used, n);
        return candidate;
      }
      CandidatesFill(name, n + 1, used);
      n := n + 1;
    }
  }

  // -------------------------------------------------------------- the list

  /** The rows of the projects table, keyed by name, that `dirs` call for. */
  ghost predicate RowsOf(dirs: seq<Directory>, table: map<string, Directory>) {
    && (forall i :: 0 <= i < |dirs| ==> dirs[i].name in table && table[dirs[i].name] == dirs[i])
    && (forall name :: name in table ==> exists i :: 0 <= i < |dirs| && dirs[i].name == name)
  }

  /** Directories and projects are index-aligned; names and paths are pairwise distinct. */
  ghost predicate Aligned(dirs: seq<Directory>, projects: seq<Project>) {
    && |dirs| == |projects|
    && (forall i :: 0 <= i < |dirs| ==> dirs[i].name == projects[i].name && dirs[i].path == projects[i].path)
    && (forall i, j :: 0 <= i < j < |projects| ==>
          projects[i].name != projects[j].name && projects[i].path != projects[j].path)
  }

  function Without<T>(s: seq<T>, at: nat): (r: seq<T>)
    requires at < |s|
    ensures |r| == |s| - 1
    ensures forall i :: 0 <= i < |r| ==> r[i] == s[if i < at then i else i + 1]
  {
    s[..at] + s[at + 1..]
  }

  lemma AlignedWithout(dirs: seq<Directory>, projects: seq<Project>, at: nat)
    requires Aligned(dirs, projects) && at < |dirs|
    ensures Aligned(Without(dirs, at), Without(projects, at))
  {
  }

  lemma AlignedSnoc(dirs: seq<Directory>, projects: seq<Project>, d: Directory, p: Project)
    requires Aligned(dirs, projects) && d.name == p.name && d.path == p.path
    requires forall i :: 0 <= i < |projects| ==> projects[i].name != p.name && projects[i].path != p.path
    ensures Aligned(dirs + [d], projects + [p])
  {
  }

  lemma AlignedReplaced(dirs: seq<Directory>, projects: seq<Project>, at: nat, d: Directory)
    requires Aligned(dirs, projects) && at < |dirs| && d.name == dirs[at].name && d.path == dirs[at].path
    ensures Aligned(dirs[at := d], projects)
  {
  }

  class ProjectList {
    var dirs: seq<Directory>
    var projects: seq<Project>
    var table: map<string, Directory>

    constructor ()
      ensures Valid() && Synced() && projects == []
    {
      dirs := [];
      projects := [];
      table := map[];
    }

    ghost predicate Valid()
      reads this
    {
      Aligned(dirs, projects)
    }

    /** The table holds exactly the listed directories. */
    ghost predicate Synced()
      reads this
    {
      RowsOf(dirs, table)
    }

    /** config.SaveProjectFile: an upsert by name. */
    method SaveProjectFile(d: Directory, fails: bool) returns (ok: bool)
      modifies this`table
      ensures ok == (d.name != "" && !fails)
      ensures table == if ok then old(table)[d.name := d] else old(table)
    {
      ok := d.name != "" && !fails;
      if ok {
        table := table[d.name := d];
      }
    }

    /** `resolved` is the absolute path when it names a directory, or the error;
        `base` its last element. */
    method AddProject(path: string, resolved: Result<string>, base: string, name: string, extensions: seq<string>,
                      includes: seq<string>, excludes: seq<string>, maxFileSizeMB: int, saveFails: bool)
      returns (r: Result<string>)
      requires Valid()
      modifies this
      ensures Valid()
      ensures r.Ok? <==>
        && path != "" && resolved.Ok? && !PathListed(old(projects), resolved.value)
        && !saveFails && (name != "" || base != "" || Taken(old(projects), ""))
      ensures r.Ok? ==>
        && FirstFree(if name == "" then base else name, old(projects), r.value)
        && !Taken(old(projects), r.value)
        && projects == old(projects) + [Project(r.value, resolved.value)]
        && dirs == old(dirs) + [Directory(resolved.value, r.value, extensions, includes, excludes, maxFileSizeMB)]
        && table == old(table)[r.value := dirs[|dirs| - 1]]
      ensures r.Err? ==> projects == old(projects) && dirs == old(dirs) && table == old(table)
      ensures old(Synced()) ==> Synced()
      ensures r.Ok? && old(Synced()) ==> r.value !in old(table)
    {
      if path == "" {
        return Err("path is required");
      }
      if resolved.Err? {
        return Err(resolved.error);
      }
      var absPath := resolved.value;
      var listed := HasPath(absPath);
      if listed {
        return Err("project with path already exists");
      }
      var wanted := if name == "" then base else name;
      var unique := UniqueProjectName(wanted, projects);
      FirstFreeEmpty(wanted, projects, unique);
      var d := Directory(absPath, unique, extensions, includes, excludes, maxFileSizeMB);
      var ok := SaveProjectFile(d, saveFails);
      if !ok {
        return Err("save project file");
      }
      dirs := dirs + [d];
      projects := projects + [Project(unique, absPath)];
      assert dirs[|dirs| - 1] == d;
      AlignedSnoc(old(dirs), old(projects), d, Project(unique, absPath));
      if old(Synced()) {
        RowAdded(old(dirs), old(table), d);
      }
      return Ok(unique);
    }

    method HasPath(path: string) returns (listed: bool)
      ensures listed <==> PathListed(projects, path)
    {
      for i := 0 to |projects|
        invariant forall j :: 0 <= j < i ==> projects[j].path != path
      {
        if projects[i].path == path {
          return true;
        }
      }
      return false;
    }

    method FindByName(name: string) returns (idx: int)
      ensures idx == -1 ==> !Taken(projects, name)
      ensures idx != -1 ==> 0 <= idx < |projects| && projects[idx].name == name
    {
      for i := 0 to |projects|
        invariant forall j :: 0 <= j < i ==> projects[j].name != name
      {
        if projects[i].name == name {
          return i;
        }
      }
      return -1;
    }

    method EditProject(name: string, extensions: seq<string>, includes: seq<string>, excludes: seq<string>,
                       maxFileSizeMB: int, saveFails: bool)
      returns (ok: bool, ghost idx: int)
      requires Valid()
      modifies this
      ensures Valid() && projects == old(projects)
      ensures ok ==>
        && 0 <= idx < |dirs| == |old(dirs)|
        && projects[idx].name == name
        && dirs == old(dirs)[idx := Directory(projects[idx].path, name, extensions, includes, excludes, maxFileSizeMB)]
        && table == old(table)[name := dirs[idx]]
      ensures !ok ==> dirs == old(dirs) && table == old(table)
      ensures ok <==> Taken(projects, name) && name != "" && !saveFails
      ensures old(Synced()) ==> Synced()
    {
      var at := FindByName(name);
      idx := at;
      if at == -1 {
        return false, idx;
      }
      var d := Directory(projects[at].path, name, extensions, includes, excludes, maxFileSizeMB);
      ok := SaveProjectFile(d, saveFails);
      if !ok {
        return;
      }
      dirs := dirs[at := d];
      AlignedReplaced(old(dirs), projects, at, d);
      if old(Synced()) {
        RowReplaced(old(dirs), old(table), at, d);
      }
    }

    /** `cleanupFails` stands for a failure to delete the chunks or to save the
        symbol index, both of which come before the list is touched. */
    method RemoveProject(name: string, cleanupFails: bool, deleteFails: bool) returns (ok: bool, ghost idx: int)
      requires Valid()
      modifies this
      ensures Valid()
      ensures ok <==> Taken(old(projects), name) && !cleanupFails && !deleteFails
      ensures Taken(old(projects), name) && !cleanupFails ==>
        && 0 <= idx < |old(projects)| && old(projects)[idx].name == name
        && projects == Without(old(projects), idx) && dirs == Without(old(dirs), idx)
        && table == if deleteFails then old(table) else old(table) - {name}
      ensures !Taken(old(projects), name) || cleanupFails ==>
        projects == old(projects) && dirs == old(dirs) && table == old(table)
      ensures old(Synced()) ==> (Synced() <==> ok || !Taken(old(projects), name) || cleanupFails)
    {
      var at := FindByName(name);
      idx := at;
      if at == -1 {
        return false, idx;
      }
      if cleanupFails {
        return false, idx;
      }
      AlignedWithout(dirs, projects, at);
      dirs := Without(dirs, at);
      projects := Without(projects, at);
      ok := !deleteFails;
      if !deleteFails {
        table := table - {name};
      }
      if old(Synced()) {
        RowRemoved(old(dirs), old(table), at);
      }
    }
  }

  lemma RowAdded(dirs: seq<Directory>, table: map<string, Directory>, d: Directory)
    requires RowsOf(dirs, table) && forall i :: 0 <= i < |dirs| ==> dirs[i].name != d.name
    ensures RowsOf(dirs + [d], table[d.name := d])
    ensures d.name !in table
  {
    var dirs' := dirs + [d];
    assert dirs'[|dirs|] == d;
    assert forall i :: 0 <= i < |dirs| ==> dirs'[i] == dirs[i];
    forall name | name in table
      ensures exists i :: 0 <= i < |dirs'| && dirs'[i].name == name
    {
      var i :| 0 <= i < |dirs| && dirs[i].name == name;
      assert dirs'[i].name == name;
    }
  }

  lemma RowReplaced(dirs: seq<Directory>, table: map<string, Directory>, at: nat, d: Directory)
    requires RowsOf(dirs, table) && at < |dirs| && dirs[at].name == d.name
    requires forall i, j :: 0 <= i < j < |dirs| ==> dirs[i].name != dirs[j].name
    ensures RowsOf(dirs[at := d], table[d.name := d])
  {
    var dirs' := dirs[at := d];
    forall name | name in table
      ensures exists i :: 0 <= i < |dirs'| && dirs'[i].name == name
    {
      var i :| 0 <= i < |dirs| && dirs[i].name == name;
      assert dirs'[i].name == name;
    }
  }

  lemma NamedWithout(dirs: seq<Directory>, at: nat, name: string)
    requires at < |dirs|
    requires forall i, j :: 0 <= i < j < |dirs| ==> dirs[i].name != dirs[j].name
    ensures (exists i :: 0 <= i < |dirs| - 1 && Without(dirs, at)[i].name == name)
      <==> name != dirs[at].name && exists i :: 0 <= i < |dirs| && dirs[i].name == name
  {
    var dirs' := Without(dirs, at);
    if i :| 0 <= i < |dirs| && dirs[i].name == name && name != dirs[at].name {
      assert dirs'[if i < at then i else i - 1].name == name;
    }
    if i :| 0 <= i < |dirs'| && dirs'[i].name == name {
      assert dirs[if i < at then i else i + 1].name == name;
    }
  }

  /** Removing a listed directory needs its row removed, too. */
  lemma RowRemoved(dirs: seq<Directory>, table: map<string, Directory>, at: nat)
    requires RowsOf(dirs, table) && at < |dirs|
    requires forall i, j :: 0 <= i < j < |dirs| ==> dirs[i].name != dirs[j].name
    ensures RowsOf(Without(dirs, at), table - {dirs[at].name})
    ensures !RowsOf(Without(dirs, at), table)
  {
    forall name | name in table
      ensures (exists i :: 0 <= i < |dirs| - 1 && Without(dirs, at)[i].name == name) <==> name != dirs[at].name
    {
      NamedWithout(dirs, at, name);
    }
    assert dirs[at].name in table;
  }
}

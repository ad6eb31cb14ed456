/** Absolute paths as the namespace builds them (mkdir) and takes them apart (upload). */
module Paths {

  const ROOT := "/"

  /** `find_last_of('/')`; -1 stands for `npos`. */
  function LastSlash(p: string): (r: int)
    ensures -1 <= r < |p|
    ensures r >= 0 ==> p[r] == '/'
    ensures forall i :: r < i < |p| ==> p[i] != '/'
  {
    if p == "" then -1
    else if p[|p| - 1] == '/' then |p| - 1
    else LastSlash(p[..|p| - 1])
  }

  predicate LegalName(name: string) {
    name != "" && '/' !in name
  }

  /** How mkdir forms the path of a new directory. */
  function Join(parent: string, name: string): (path: string) {
    if parent == ROOT then parent + name else parent + "/" + name
  }

  /** How upload finds the directory of a path; only meaningful when the path has a slash. */
  function Parent(path: string): (parent: string) {
    var pos := LastSlash(path);
    if pos <= 0 then ROOT else path[..pos]
  }

  function Name(path: string): (name: string) {
    path[LastSlash(path) + 1..]
  }

  /** The one form upload accepts that mkdir never builds: `//name`. */
  predicate DoubleSlashed(path: string) {
    LastSlash(path) == 1 && path[0] == '/'
  }

  lemma LastSlashUnique(p: string, r: int)
    requires 0 <= r < |p| && p[r] == '/'
    requires forall i :: r < i < |p| ==> p[i] != '/'
    ensures LastSlash(p) == r
  {
  }

  lemma LastSlashOfJoin(parent: string, name: string)
    requires LegalName(name)
    ensures LastSlash(Join(parent, name)) == if parent == ROOT then 0 else |parent|
  {
    LastSlashUnique(Join(parent, name), if parent == ROOT then 0 else |parent|);
  }

  /** Splitting a joined path gives the name back always, the parent unless it is empty. */
  lemma SplitOfJoin(parent: string, name: string)
    requires LegalName(name)
    ensures Name(Join(parent, name)) == name
    ensures Parent(Join(parent, name)) == parent <==> parent != ""
    ensures '/' in Join(parent, name)
  {
    LastSlashOfJoin(parent, name);
    assert Join(parent, name)[LastSlash(Join(parent, name))] == '/';
  }

  /** Joining a split path gives it back exactly when it is not of the form `//name`. */
  lemma JoinOfSplit(path: string)
    requires '/' in path
    ensures Join(Parent(path), Name(path)) == path <==> !DoubleSlashed(path)
  {
    var pos := LastSlash(path);
    assert pos >= 0;
    assert path == path[..pos] + "/" + path[pos + 1..];
    if pos > 0 && path[..pos] == ROOT {
      assert |Join(Parent(path), Name(path))| < |path|;
    }
  }

  lemma JoinInjective(p: string, a: string, q: string, b: string)
    requires p != "" && q != "" && LegalName(a) && LegalName(b)
    requires Join(p, a) == Join(q, b)
    ensures p == q && a == b
  {
    SplitOfJoin(p, a);
    SplitOfJoin(q, b);
  }

  /** A split with a legal name always shortens the path, so climbing to the parent ends. */
  lemma ParentIsShorter(path: string)
    requires '/' in path && LegalName(Name(path))
    ensures |Parent(path)| < |path|
  {
    assert LastSlash(path) >= 0;
  }
}

/**
  Path arithmetic of java.io.File on a Unix file system, on the path strings: the
  parent, the name, a child of a parent, and the absolute form against the working
  directory. Paths are taken as already normalised (no repeated or trailing '/').
*/
module JavaFiles {
  import opened Wrappers

  const SEPARATOR := '/'

  /** `path.lastIndexOf(c)`: the last position holding `c`, or -1. */
  function LastIndexOf(s: string, c: char): (r: int)
    ensures -1 <= r < |s|
    ensures r >= 0 ==> s[r] == c && forall j :: r < j < |s| ==> s[j] != c
    ensures r == -1 ==> c !in s
  {
    if s == [] then -1
    else if s[|s| - 1] == c then |s| - 1
    else LastIndexOf(s[..|s| - 1], c)
  }

  predicate IsAbsolute(path: string)
  {
    path != [] && path[0] == SEPARATOR
  }

  /** The length of the root prefix: 1 for an absolute path, 0 otherwise. */
  function PrefixLength(path: string): nat
  {
    if IsAbsolute(path) then 1 else 0
  }

  /** `File.getParent`: null when the path has no parent. */
  function Parent(path: string): Option<string>
  {
    var i := LastIndexOf(path, SEPARATOR);
    if i < PrefixLength(path) then
      if PrefixLength(path) > 0 && |path| > PrefixLength(path) then Some(path[..PrefixLength(path)]) else None
    else Some(path[..i])
  }

  /** `File.getName`: the part after the last separator. */
  function Name(path: string): string
  {
    var i := LastIndexOf(path, SEPARATOR);
    if i < PrefixLength(path) then path[PrefixLength(path)..] else path[i + 1..]
  }

  /** The file system's `resolve(parent, child)`. */
  function Resolve(parent: string, child: string): string
  {
    if child == [] then parent
    else if child[0] == SEPARATOR then (if parent == "/" then child else parent + child)
    else if parent == "/" then parent + child
    else parent + [SEPARATOR] + child
  }

  /** `new File(parent, child)`, with `None` for a null parent. */
  function Child(parent: Option<string>, child: string): string
  {
    match parent
    case None => child
    case Some(p) => if p == [] then Resolve("/", child) else Resolve(p, child)
  }

  /** `File.getAbsolutePath` with `cwd` the process's working directory. */
  function Absolute(path: string, cwd: string): string
  {
    if IsAbsolute(path) then path else Resolve(cwd, path)
  }

  /** The directory holding `script`, made absolute: where `getParentFile` points, or the working directory. */
  function ScriptDirectory(script: string, cwd: string): string
  {
    match Parent(script)
    case None => cwd
    case Some(p) => Absolute(p, cwd)
  }

  /** `new File(new File(script).getParentFile(), "jars").getAbsolutePath()`. */
  function ModuleFolder(script: string, cwd: string): string
  {
    Absolute(Child(Parent(script), "jars"), cwd)
  }

  /** The last separator of `a + "/" + b` is the one added, when `b` has none. */
  lemma {:induction false} LastSeparatorOfJoin(a: string, b: string)
    requires SEPARATOR !in b
    ensures LastIndexOf(a + [SEPARATOR] + b, SEPARATOR) == |a|
  {
    var s := a + [SEPARATOR] + b;
    if b != [] {
      assert s[..|s| - 1] == a + [SEPARATOR] + b[..|b| - 1];
      LastSeparatorOfJoin(a, b[..|b| - 1]);
    }
  }

  /** A parent a file is resolved against is the parent of the result, and the child its name. */
  lemma ResolveChildOfDirectory(dir: string, child: string)
    requires IsAbsolute(dir)
    requires child != [] && SEPARATOR !in child
    ensures IsAbsolute(Resolve(dir, child))
    ensures Parent(Resolve(dir, child)) == Some(dir)
    ensures Name(Resolve(dir, child)) == child
  {
    if dir == "/" {
      LastSeparatorOfJoin("", child);
      assert Resolve(dir, child) == "" + [SEPARATOR] + child;
    } else {
      LastSeparatorOfJoin(dir, child);
      assert (dir + [SEPARATOR] + child)[..|dir|] == dir;
      assert (dir + [SEPARATOR] + child)[|dir| + 1..] == child;
    }
  }

  /** A path with a parent has a non-empty parent. */
  lemma ParentNonEmpty(path: string)
    requires Parent(path).Some?
    ensures Parent(path).value != []
    ensures IsAbsolute(Parent(path).value) == IsAbsolute(path)
  {
  }

  /** The module folder is `jars` resolved against the script's directory, which is absolute. */
  lemma ModuleFolderIsResolved(script: string, cwd: string)
    requires IsAbsolute(cwd)
    ensures IsAbsolute(ScriptDirectory(script, cwd))
    ensures ModuleFolder(script, cwd) == Resolve(ScriptDirectory(script, cwd), "jars")
  {
    match Parent(script)
    case None =>
    case Some(p) =>
      ParentNonEmpty(script);
      var jars := "jars";
      if IsAbsolute(p) {
        if p != "/" {
          assert (p + [SEPARATOR] + jars)[0] == p[0];
        }
      } else {
        assert p != "/";
        var child := p + [SEPARATOR] + jars;
        assert Child(Parent(script), jars) == child;
        assert child[0] == p[0];
        if cwd == "/" {
          assert Resolve(cwd, child) == cwd + child;
          assert Resolve(cwd, p) == cwd + p;
          assert (cwd + p) + [SEPARATOR] + jars == cwd + child;
        } else {
          assert Resolve(cwd, child) == cwd + [SEPARATOR] + child;
          assert Resolve(cwd, p) == cwd + [SEPARATOR] + p;
          assert (cwd + [SEPARATOR] + p) + [SEPARATOR] + jars == cwd + [SEPARATOR] + child;
        }
      }
  }

  /**
    The module folder is the `jars` directory inside the script's directory: its parent
    is that directory, made absolute, and its name is `jars`.
  */
  lemma ModuleFolderBesideScript(script: string, cwd: string)
    requires IsAbsolute(cwd)
    ensures IsAbsolute(ModuleFolder(script, cwd))
    ensures Parent(ModuleFolder(script, cwd)) == Some(ScriptDirectory(script, cwd))
    ensures Name(ModuleFolder(script, cwd)) == "jars"
  {
    ModuleFolderIsResolved(script, cwd);
    ResolveChildOfDirectory(ScriptDirectory(script, cwd), "jars");
  }
}

/**
 The resource resolver of `pyir/resource_utils.py`: `get_resource_path`
 turns a package name and a `/`-separated resource path into a path
 string by trying, in a fixed order,

   1. the importlib-resources `files()` API on a dotted sub-package,
   2. the directory of the installed `crowelab_pyir` package,
   3. three locations relative to the working directory and to the
      resolver's own file,

 and raising `FileNotFoundError` when none of them succeeds.
 `get_data_path` prefixes `data/` and fixes the package.

 Everything the resolver asks of the interpreter or the filesystem is an
 oracle in `Env`: whether importlib-resources is available and in which
 form, what `files()` and `resources.path()` answer, where `crowelab_pyir`
 lives, what `Path.exists()` and `Path.resolve()` answer, and the
 directory of the resolver's own source file.
 */
module ResourceUtils {
  import opened Strs
  import opened PurePaths

  /** The system's own package, the one `get_data_path` and step 2 use. */
  const OwnPackage := "crowelab_pyir"

  /** Python exception classes the resolver distinguishes; every other
      class (and every subclass of these four) is folded into `OtherError`
      or into the class it derives from. */
  datatype ErrorKind =
    | ModuleNotFoundError
    | FileNotFoundError
    | AttributeError
    | TypeError
    | OtherError(name: string)

  datatype PyError = PyError(kind: ErrorKind, message: string)

  /** What a call into the interpreter answered: a path, or an exception. */
  datatype Lookup = Located(location: Path) | Raised(error: PyError)

  /** What `Path.exists()` answered. It can raise (a permission error, say). */
  datatype Probe = Present | Absent | ProbeRaised

  /** The world the resolver runs in. */
  datatype Env = Env(
    hasResources: bool,                  // HAS_IMPORTLIB_RESOURCES, fixed at import time
    modernApi: bool,                     // sys.version_info >= (3, 9)
    backportHasFiles: bool,              // hasattr(resources, 'files') on the backport
    files: string -> Lookup,             // resources.files(package)
    pathOf: (string, string) -> Lookup,  // the path `with resources.path(package, name)` yields
    packageDir: Lookup,                  // Path(crowelab_pyir.__file__).parent
    moduleDir: string,                   // os.path.dirname(__file__) of the resolver
    pathExists: Path -> Probe,           // Path.exists()
    resolvePath: Path -> Lookup          // Path.resolve()
  )

  /** The dotted package and leaf file name step 1 asks `files()` about. */
  datatype ResourceRef = ResourceRef(package: string, leaf: string)

  /** The outcome of one strategy: a path, nothing, or an exception that
      leaves the resolver. */
  datatype Step = Hit(path: string) | Miss | Escape(error: PyError)

  /** What `get_resource_path` returns or raises. */
  datatype Result = Ok(path: string) | Err(error: PyError)

  /** The exceptions step 1 catches and falls through on: the four named
      classes, and no other. */
  predicate Swallowed(e: PyError)
    ensures Swallowed(e) <==> !e.kind.OtherError?
  {
    e.kind.ModuleNotFoundError? || e.kind.FileNotFoundError? ||
    e.kind.AttributeError? || e.kind.TypeError?
  }

  /** Sub-package and leaf of a resource path. With no `/` the package is
      `packageName` and the leaf is the whole path; otherwise the leaf is
      what follows the last `/`, and the directory before it becomes extra
      package components, `/` turned into `.`. */
  function SplitResource(packageName: string, resourcePath: string): (r: ResourceRef)
    ensures '/' !in r.leaf
    ensures '/' !in resourcePath ==> r.package == packageName && r.leaf == resourcePath
    ensures '/' in resourcePath ==>
      && |r.leaf| < |resourcePath|
      && resourcePath == resourcePath[..|resourcePath| - |r.leaf| - 1] + "/" + r.leaf
      && r.package == packageName + "." + Replace(resourcePath[..|resourcePath| - |r.leaf| - 1], '/', '.')
  {
    var parts := Split(resourcePath, '/');
    SplitCount(resourcePath, '/');
    CountPositive(resourcePath, '/');
    SplitJoin(resourcePath, '/');
    if |parts| > 1 then
      var init := parts[..|parts| - 1];
      var leaf := parts[|parts| - 1];
      assert parts == init + [leaf];
      JoinSnoc(init, leaf, '/');
      JoinReplace(init, '/', '.');
      var dir := Join(init, '/');
      assert resourcePath == dir + "/" + leaf;
      assert resourcePath[..|resourcePath| - |leaf| - 1] == dir;
      ResourceRef(packageName + "." + Join(init, '.'), leaf)
    else
      ResourceRef(packageName, parts[0])
  }

  /** The directory part of a resource path: what precedes the last `/`,
      or nothing when there is no `/`. */
  function DirOf(resourcePath: string): string
  {
    var leaf := SplitResource("", resourcePath).leaf;
    if '/' in resourcePath then resourcePath[..|resourcePath| - |leaf| - 1] else ""
  }

  /** Step 1 on Python 3.9 and later: `files(package) / leaf`, or the
      package location itself for an empty leaf. No existence check. */
  function ResourcesStep(env: Env, packageName: string, resourcePath: string): (s: Step)
    ensures s.Miss? <==>
      || !env.hasResources
      || (env.files(SplitResource(packageName, resourcePath).package).Raised?
          && Swallowed(env.files(SplitResource(packageName, resourcePath).package).error))
    ensures s.Escape? ==> !Swallowed(s.error) && s.error.kind.OtherError?
  {
    if !env.hasResources then Miss
    else
      var target := SplitResource(packageName, resourcePath);
      match env.files(target.package)
      case Located(loc) =>
        Hit(Str(if target.leaf != "" then JoinPath(loc, target.leaf) else loc))
      case Raised(e) =>
        if Swallowed(e) then Miss else Escape(e)
  }

  /** Step 1 on Python 3.6-3.8 with the importlib_resources backport.
      A nested path asks `files()` when the backport has it and joins the
      leaf even when it is empty; a `TypeError` or `AttributeError` there
      is caught and the lookup is retried through `resources.path()`.
      Without `files()` the lookup goes through `resources.path()`. */
  function LegacyResourcesStep(env: Env, packageName: string, resourcePath: string): (s: Step)
    ensures !env.hasResources ==> s.Miss?
    ensures s.Escape? ==> !Swallowed(s.error) && s.error.kind.OtherError?
    ensures env.hasResources && !env.backportHasFiles ==>
      var target := SplitResource(packageName, resourcePath);
      match env.pathOf(target.package, target.leaf)
      case Located(p) => s == Hit(Str(p))
      case Raised(e) => s == (if Swallowed(e) then Miss else Escape(e))
  {
    if !env.hasResources then Miss
    else
      var parts := Split(resourcePath, '/');
      var target := SplitResource(packageName, resourcePath);
      var answer :=
        if !env.backportHasFiles then env.pathOf(target.package, target.leaf)
        else if |parts| > 1 then
          match env.files(target.package)
          case Located(loc) => Located(JoinPath(loc, target.leaf))
          case Raised(e) =>
            if e.kind.TypeError? || e.kind.AttributeError?
            then env.pathOf(target.package, target.leaf)
            else Raised(e)
        else
          match env.files(target.package)
          case Located(loc) => Located(if target.leaf != "" then JoinPath(loc, target.leaf) else loc)
          case Raised(e) => Raised(e);
      match answer
      case Located(p) => Hit(Str(p))
      case Raised(e) => if Swallowed(e) then Miss else Escape(e)
  }

  /** Step 1 as the running interpreter performs it. */
  function FirstStep(env: Env, packageName: string, resourcePath: string): (s: Step)
    ensures !env.hasResources ==> s.Miss?
    ensures s.Escape? ==> !Swallowed(s.error) && s.error.kind.OtherError?
  {
    if env.modernApi then ResourcesStep(env, packageName, resourcePath)
    else LegacyResourcesStep(env, packageName, resourcePath)
  }

  /** Step 2: the resource path joined onto the package directory, if it
      exists. Every failure here is swallowed by a bare `except`. */
  function PackageDirStep(env: Env, resourcePath: string): (s: Step)
    ensures s.Hit? <==>
      env.packageDir.Located? && env.pathExists(JoinPath(env.packageDir.location, resourcePath)) == Present
    ensures s.Hit? ==> s.path == Str(JoinPath(env.packageDir.location, resourcePath))
    ensures !s.Escape?
  {
    match env.packageDir
    case Raised(_) => Miss
    case Located(dir) =>
      var full := JoinPath(dir, resourcePath);
      if env.pathExists(full) == Present then Hit(Str(full)) else Miss
  }

  /** The three locations step 3 probes, in order: the development
      layout, the installed layout, and next to the resolver's file. */
  function Candidates(env: Env, resourcePath: string): (c: seq<Path>)
    ensures |c| == 3
    ensures c[0] == JoinPath(Path(false, ["pyir"]), resourcePath)
    ensures c[1] == JoinPath(Path(false, ["crowelab_pyir"]), resourcePath)
  {
    assert "./pyir" == "." + "/" + "pyir";
    assert "./crowelab_pyir" == "." + "/" + "crowelab_pyir";
    HereRelative("pyir");
    HereRelative("crowelab_pyir");
    [ JoinPath(Parse("./pyir"), resourcePath),
      JoinPath(Parse("./crowelab_pyir"), resourcePath),
      JoinPath(Parse(env.moduleDir), resourcePath) ]
  }

  /** Candidate `i` is the one step 3 accepts when probing from `k`: every
      candidate before it is absent, it is present, and resolving it
      succeeds. */
  predicate AcceptedAt(env: Env, cands: seq<Path>, k: nat, i: nat)
  {
    && k <= i < |cands|
    && (forall j :: k <= j < i ==> env.pathExists(cands[j]) == Absent)
    && env.pathExists(cands[i]) == Present
    && env.resolvePath(cands[i]).Located?
  }

  /** Step 3 from candidate `k` on. An exception from `exists()` or
      `resolve()` leaves the whole loop, so the later candidates are not
      probed. */
  function FirstPresent(env: Env, cands: seq<Path>, k: nat): (s: Step)
    requires k <= |cands|
    ensures !s.Escape?
    ensures s.Hit? <==> exists i: nat :: AcceptedAt(env, cands, k, i)
    ensures forall i: nat :: AcceptedAt(env, cands, k, i) ==> s == Hit(Str(env.resolvePath(cands[i]).location))
    decreases |cands| - k
  {
    if k == |cands| then Miss
    else match env.pathExists(cands[k])
      case Present =>
        (match env.resolvePath(cands[k])
         case Located(p) => assert AcceptedAt(env, cands, k, k); Hit(Str(p))
         case Raised(_) => Miss)
      case Absent =>
        var rest := FirstPresent(env, cands, k + 1);
        assert forall i: nat :: AcceptedAt(env, cands, k, i) <==> AcceptedAt(env, cands, k + 1, i);
        assert rest.Hit? ==> exists i: nat :: AcceptedAt(env, cands, k, i) by {
          if rest.Hit? {
            var i: nat :| AcceptedAt(env, cands, k + 1, i);
            assert AcceptedAt(env, cands, k, i);
          }
        }
        rest
      case ProbeRaised => Miss
  }

  /** Steps 2 and 3 together; neither looks at the package name. The
      package directory comes first, and nothing here raises. */
  function Fallback(env: Env, resourcePath: string): (s: Step)
    ensures !s.Escape?
    ensures PackageDirStep(env, resourcePath).Hit? ==> s == PackageDirStep(env, resourcePath)
    ensures s.Hit? <==>
      PackageDirStep(env, resourcePath).Hit? || exists i: nat :: AcceptedAt(env, Candidates(env, resourcePath), 0, i)
  {
    var s2 := PackageDirStep(env, resourcePath);
    if s2.Hit? then s2 else FirstPresent(env, Candidates(env, resourcePath), 0)
  }

  const MessageHead := "Resource '"

  /** The message of the final `FileNotFoundError`; it quotes the resource
      path and the package name verbatim. */
  function NotFoundMessage(resourcePath: string, packageName: string): (m: string)
    ensures |m| == |MessageHead| + |resourcePath| + |"' not found in package '"| + |packageName| + 1
    ensures m[|MessageHead|..|MessageHead| + |resourcePath|] == resourcePath
    ensures m[|m| - 1 - |packageName|..|m| - 1] == packageName
  {
    MessageHead + resourcePath + "' not found in package '" + packageName + "'"
  }

  /** The `FileNotFoundError` raised when every step fails. Its class is
      one step 1 catches, so it cannot be mistaken for an exception that
      escaped step 1, and its message quotes both inputs. */
  function NotFound(resourcePath: string, packageName: string): (e: PyError)
    ensures Swallowed(e) && e.kind.FileNotFoundError?
    ensures |e.message| > |MessageHead| + |resourcePath| + |packageName|
    ensures e.message[|MessageHead|..|MessageHead| + |resourcePath|] == resourcePath
    ensures e.message[|e.message| - 1 - |packageName|..|e.message| - 1] == packageName
  {
    PyError(FileNotFoundError, NotFoundMessage(resourcePath, packageName))
  }

  /** `get_resource_path(packageName, resourcePath)`: the first strategy
      that yields a path wins; an exception step 1 does not catch leaves
      the resolver; when all fail, `FileNotFoundError`. */
  function Resolve(env: Env, packageName: string, resourcePath: string): (r: Result)
    ensures r.Err? && Swallowed(r.error) ==> r.error == NotFound(resourcePath, packageName)
  {
    match FirstStep(env, packageName, resourcePath)
    case Hit(p) => Ok(p)
    case Escape(e) => Err(e)
    case Miss =>
      var s := Fallback(env, resourcePath);
      if s.Hit? then Ok(s.path) else Err(NotFound(resourcePath, packageName))
  }

  /** `get_data_path(subpath)`: a path under `crowelab_pyir/data`, or the
      data directory itself for the empty subpath. */
  function DataPath(env: Env, subpath: string): (r: Result)
    ensures r.Err? && Swallowed(r.error) ==>
      r.error == NotFound(if subpath == "" then "data" else "data/" + subpath, OwnPackage)
  {
    if subpath != "" then Resolve(env, OwnPackage, "data/" + subpath)
    else Resolve(env, OwnPackage, "data")
  }

  /** Step 3 as the source writes it: a loop over the candidates that
      returns on the first present one and gives up on any exception. */
  method ProbeCandidates(env: Env, cands: seq<Path>) returns (s: Step)
    ensures s == FirstPresent(env, cands, 0)
    ensures s.Hit? ==> exists i :: 0 <= i < |cands| && env.pathExists(cands[i]) == Present
  {
    var i := 0;
    while i < |cands|
      invariant 0 <= i <= |cands|
      invariant FirstPresent(env, cands, 0) == FirstPresent(env, cands, i)
    {
      var probe := env.pathExists(cands[i]);
      if probe == ProbeRaised {
        return Miss;
      }
      if probe == Present {
        match env.resolvePath(cands[i]) {
          case Located(p) => return Hit(Str(p));
          case Raised(_) => return Miss;
        }
      }
      i := i + 1;
    }
    return Miss;
  }

  /** `get_resource_path` as the source writes it, with early returns. */
  method GetResourcePath(env: Env, packageName: string, resourcePath: string) returns (r: Result)
    ensures r == Resolve(env, packageName, resourcePath)
  {
    if env.hasResources && !env.modernApi {
      match LegacyResourcesStep(env, packageName, resourcePath) {
        case Hit(p) => return Ok(p);
        case Escape(e) => return Err(e);
        case Miss =>
      }
    } else if env.hasResources {
      var target := SplitResource(packageName, resourcePath);
      match env.files(target.package) {
        case Located(loc) =>
          var obj := if target.leaf != "" then JoinPath(loc, target.leaf) else loc;
          return Ok(Str(obj));
        case Raised(e) =>
          if !Swallowed(e) {
            return Err(e);
          }
      }
    }
    if env.packageDir.Located? {
      var full := JoinPath(env.packageDir.location, resourcePath);
      if env.pathExists(full) == Present {
        return Ok(Str(full));
      }
    }
    var s := ProbeCandidates(env, Candidates(env, resourcePath));
    if s.Hit? {
      return Ok(s.path);
    }
    return Err(NotFound(resourcePath, packageName));
  }
}

/**
 Properties of the resolver in `ResourceUtils`: the order in which the
 strategies are consulted, when the not-found error is raised, which
 paths the fallback strategies can return, how `get_data_path` requests
 relate to sub-packages, and how step 1 agrees with step 2 when the
 package-resource API and the package directory describe the same tree.
 */
module ResourceFacts {
  import opened Strs
  import opened PurePaths
  import opened ResourceUtils

  /** When step 1 finds the package, its answer is the result: nothing else
      in the environment (package directory, existence checks, probe
      locations) is consulted, and no existence check is made. An empty
      leaf yields the package location itself. */
  lemma Step1Wins(env: Env, other: Env, packageName: string, resourcePath: string, loc: Path)
    requires env.modernApi && other.modernApi
    requires env.hasResources && other.hasResources
    requires env.files(SplitResource(packageName, resourcePath).package) == Located(loc)
    requires other.files(SplitResource(packageName, resourcePath).package) == Located(loc)
    ensures Resolve(env, packageName, resourcePath) == Resolve(other, packageName, resourcePath)
    ensures Resolve(env, packageName, resourcePath)
         == Ok(Str(JoinPath(loc, SplitResource(packageName, resourcePath).leaf)))
    ensures SplitResource(packageName, resourcePath).leaf == ""
        ==> Resolve(env, packageName, resourcePath) == Ok(Str(loc))
  {
    JoinEmpty(loc);
  }

  /** An exception from step 1 outside the four caught classes leaves the
      resolver unchanged; it is never the resolver's own not-found error. */
  lemma UncaughtPropagates(env: Env, packageName: string, resourcePath: string, e: PyError)
    requires env.modernApi && env.hasResources
    requires env.files(SplitResource(packageName, resourcePath).package) == Raised(e)
    requires !Swallowed(e)
    ensures Resolve(env, packageName, resourcePath) == Err(e)
    ensures e != NotFound(resourcePath, packageName)
  {
  }

  /** When step 1 is switched off or swallows its exception, the package
      directory wins if the joined path exists. */
  lemma PackageDirBeforeProbes(env: Env, packageName: string, resourcePath: string, dir: Path)
    requires FirstStep(env, packageName, resourcePath).Miss?
    requires env.packageDir == Located(dir)
    requires env.pathExists(JoinPath(dir, resourcePath)) == Present
    ensures Resolve(env, packageName, resourcePath) == Ok(Str(JoinPath(dir, resourcePath)))
  {
  }

  /** Otherwise the first probe location that exists is resolved and
      returned, provided no earlier probe raised. */
  lemma ProbesInOrder(env: Env, packageName: string, resourcePath: string, i: nat)
    requires FirstStep(env, packageName, resourcePath).Miss?
    requires !PackageDirStep(env, resourcePath).Hit?
    requires AcceptedAt(env, Candidates(env, resourcePath), 0, i)
    ensures Resolve(env, packageName, resourcePath)
         == Ok(Str(env.resolvePath(Candidates(env, resourcePath)[i]).location))
  {
  }

  /** `FileNotFoundError` is raised exactly when step 1 yields nothing (or is
      off), the package-directory join does not exist, and no probe location
      is accepted. */
  lemma NotFoundExactly(env: Env, packageName: string, resourcePath: string)
    ensures Resolve(env, packageName, resourcePath) == Err(NotFound(resourcePath, packageName))
        <==> && FirstStep(env, packageName, resourcePath).Miss?
             && !(env.packageDir.Located?
                  && env.pathExists(JoinPath(env.packageDir.location, resourcePath)) == Present)
             && !(exists i: nat :: AcceptedAt(env, Candidates(env, resourcePath), 0, i))
  {
  }

  /** Steps 2 and 3 only return a path whose existence check succeeded: the
      package-directory join itself, or the resolved form of a probe
      location that was present. */
  lemma FallbackChecksExistence(env: Env, resourcePath: string)
    ensures var s := Fallback(env, resourcePath);
      s.Hit? ==>
        || (env.packageDir.Located?
            && env.pathExists(JoinPath(env.packageDir.location, resourcePath)) == Present
            && s.path == Str(JoinPath(env.packageDir.location, resourcePath)))
        || (exists i: nat ::
              (&& AcceptedAt(env, Candidates(env, resourcePath), 0, i)
               && s.path == Str(env.resolvePath(Candidates(env, resourcePath)[i]).location)))
  {
  }

  /** Once step 1 has nothing to say, the package name only shows up in the
      error message: two package names resolve to the same path. */
  lemma FallbackIgnoresPackage(env: Env, p1: string, p2: string, resourcePath: string)
    requires FirstStep(env, p1, resourcePath).Miss?
    requires FirstStep(env, p2, resourcePath).Miss?
    ensures Resolve(env, p1, resourcePath).Ok? <==> Resolve(env, p2, resourcePath).Ok?
    ensures Resolve(env, p1, resourcePath).Ok? ==> Resolve(env, p1, resourcePath) == Resolve(env, p2, resourcePath)
  {
  }

  /** A resource that one strategy can see is returned, as long as step 1
      does not raise an uncaught exception and, for the probe locations,
      no earlier probe raised. */
  lemma VisibleResourceIsFound(env: Env, packageName: string, resourcePath: string)
    requires !FirstStep(env, packageName, resourcePath).Escape?
    requires || (env.packageDir.Located?
                 && env.pathExists(JoinPath(env.packageDir.location, resourcePath)) == Present)
             || (exists i: nat :: AcceptedAt(env, Candidates(env, resourcePath), 0, i))
    ensures Resolve(env, packageName, resourcePath).Ok?
  {
  }

  /** `SplitResource` when the resource path has a `/`: the pieces before
      the last one, dot-joined, extend the package. */
  lemma SplitResourceNested(packageName: string, resourcePath: string, parts: seq<string>)
    requires parts == Split(resourcePath, '/') && |parts| > 1
    ensures SplitResource(packageName, resourcePath)
         == ResourceRef(packageName + "." + Join(parts[..|parts| - 1], '.'), parts[|parts| - 1])
  {
  }

  /** Dot-joining all but the last piece of `xs + ys` is dot-joining `xs`,
      then a dot, then all but the last piece of `ys`. */
  lemma DottedPrefix(packageName: string, xs: seq<string>, ys: seq<string>)
    requires |xs| >= 1 && |ys| > 1
    ensures var parts := xs + ys;
      && packageName + "." + Join(parts[..|parts| - 1], '.')
         == (packageName + "." + Join(xs, '.')) + "." + Join(ys[..|ys| - 1], '.')
      && parts[|parts| - 1] == ys[|ys| - 1]
  {
    var parts := xs + ys;
    var init := ys[..|ys| - 1];
    assert parts[..|parts| - 1] == xs + init;
    JoinAppend(xs, init, '.');
  }

  /** Asking for `dir/rest` under a package is asking for `rest` under the
      package extended by the components of `dir`. */
  lemma RequestUnderDir(packageName: string, dir: string, rest: string)
    ensures SplitResource(packageName, dir + "/" + rest)
         == SplitResource(packageName + "." + Replace(dir, '/', '.'), rest)
  {
    SplitAround(dir, rest, '/');
    SplitJoin(dir, '/');
    JoinReplace(Split(dir, '/'), '/', '.');
    SplitCount(rest, '/');
    CountPositive(rest, '/');
    if '/' in rest {
      RequestUnderDirNested(packageName, dir, rest);
    } else {
      RequestUnderDirLeaf(packageName, dir, rest);
    }
  }

  lemma RequestUnderDirLeaf(packageName: string, dir: string, rest: string)
    requires '/' !in rest
    requires Split(dir + "/" + rest, '/') == Split(dir, '/') + Split(rest, '/')
    requires Join(Split(dir, '/'), '.') == Replace(dir, '/', '.')
    ensures SplitResource(packageName, dir + "/" + rest)
         == ResourceRef(packageName + "." + Replace(dir, '/', '.'), rest)
  {
    var xs := Split(dir, '/');
    var parts := Split(dir + "/" + rest, '/');
    SplitNoSep(rest, '/');
    assert parts == xs + [rest];
    assert parts[..|parts| - 1] == xs;
    SplitResourceNested(packageName, dir + "/" + rest, parts);
  }

  lemma RequestUnderDirNested(packageName: string, dir: string, rest: string)
    requires |Split(rest, '/')| > 1
    requires Split(dir + "/" + rest, '/') == Split(dir, '/') + Split(rest, '/')
    requires Join(Split(dir, '/'), '.') == Replace(dir, '/', '.')
    ensures SplitResource(packageName, dir + "/" + rest)
         == SplitResource(packageName + "." + Replace(dir, '/', '.'), rest)
  {
    var xs := Split(dir, '/');
    var ys := Split(rest, '/');
    DottedPrefix(packageName, xs, ys);
    SplitResourceNested(packageName, dir + "/" + rest, xs + ys);
    SplitResourceNested(packageName + "." + Join(xs, '.'), rest, ys);
  }

  /** `get_data_path(s)` for a non-empty `s` asks step 1 for `s` inside the
      `crowelab_pyir.data` package; for the empty subpath it asks for the
      leaf `data` inside `crowelab_pyir`. */
  lemma DataPathTarget(subpath: string)
    ensures subpath != "" ==>
      SplitResource(OwnPackage, "data/" + subpath) == SplitResource(OwnPackage + ".data", subpath)
    ensures SplitResource(OwnPackage, "data") == ResourceRef(OwnPackage, "data")
  {
    var data := "data";
    assert '/' !in data by {
      assert forall i :: 0 <= i < |data| ==> data[i] != '/';
    }
    if subpath != "" {
      ReplaceAbsent(data, '/', '.');
      assert "data/" + subpath == data + "/" + subpath;
      RequestUnderDir(OwnPackage, data, subpath);
    }
  }

  /** `get_data_path(s)` for a name `s` without `/`: step 1 looks `s` up in
      the `crowelab_pyir.data` package; for the empty subpath it looks up
      `data` in `crowelab_pyir`. Either way a located package decides. */
  lemma DataPathThroughDataPackage(env: Env, subpath: string, loc: Path)
    requires env.modernApi && env.hasResources
    requires '/' !in subpath
    requires env.files(if subpath == "" then OwnPackage else OwnPackage + ".data") == Located(loc)
    ensures DataPath(env, subpath) == Ok(Str(JoinPath(loc, if subpath == "" then "data" else subpath)))
  {
    DataPathTarget(subpath);
  }

  /** When `files()` maps the dotted sub-package of a relative resource path
      to the matching directory under `root`, step 1 answers exactly the
      path step 2 would build from `root`. */
  lemma Step1AgreesWithPackageDir(env: Env, root: Path, packageName: string, resourcePath: string)
    requires env.modernApi && env.hasResources
    requires !IsAbsolute(resourcePath)
    requires env.files(SplitResource(packageName, resourcePath).package) == Located(JoinPath(root, DirOf(resourcePath)))
    ensures Resolve(env, packageName, resourcePath) == Ok(Str(JoinPath(root, resourcePath)))
  {
    var t := SplitResource(packageName, resourcePath);
    var d := DirOf(resourcePath);
    JoinEmpty(root);
    if '/' in resourcePath {
      assert resourcePath == d + "/" + t.leaf;
      assert resourcePath[|d|] == '/';
      assert d != "" && d[0] == resourcePath[0];
      JoinThenJoin(root, d, t.leaf);
      JoinEmpty(JoinPath(root, d));
      assert d + "/" + "" == d + "/";
    }
  }

  /** On Python 3.6-3.8 with a backport that offers `files()`, step 1 answers
      what it answers on 3.9 and later, although the nested case there joins
      the leaf without checking that it is empty. The one exception is a
      nested path whose `files()` lookup raises `TypeError` or
      `AttributeError`: see `LegacyRetriesThroughPath`. */
  lemma LegacyAgreesWithModern(env: Env, packageName: string, resourcePath: string)
    requires env.backportHasFiles
    requires '/' in resourcePath ==>
      var answer := env.files(SplitResource(packageName, resourcePath).package);
      !(answer.Raised? && (answer.error.kind.TypeError? || answer.error.kind.AttributeError?))
    ensures LegacyResourcesStep(env, packageName, resourcePath) == ResourcesStep(env, packageName, resourcePath)
  {
    if env.hasResources {
      var target := SplitResource(packageName, resourcePath);
      SplitCount(resourcePath, '/');
      CountPositive(resourcePath, '/');
      match env.files(target.package)
      case Located(loc) => JoinEmpty(loc);
      case Raised(_) =>
    }
  }

  /** On the backport, a nested lookup whose `files()` raises `TypeError` or
      `AttributeError` is answered by `resources.path()` instead, where the
      3.9+ branch falls through to step 2. */
  lemma LegacyRetriesThroughPath(env: Env, packageName: string, resourcePath: string, e: PyError)
    requires env.hasResources && env.backportHasFiles
    requires '/' in resourcePath
    requires env.files(SplitResource(packageName, resourcePath).package) == Raised(e)
    requires e.kind.TypeError? || e.kind.AttributeError?
    ensures ResourcesStep(env, packageName, resourcePath).Miss?
    ensures var target := SplitResource(packageName, resourcePath);
      match env.pathOf(target.package, target.leaf)
      case Located(p) => LegacyResourcesStep(env, packageName, resourcePath) == Hit(Str(p))
      case Raised(e2) =>
        LegacyResourcesStep(env, packageName, resourcePath) == (if Swallowed(e2) then Miss else Escape(e2))
  {
    SplitCount(resourcePath, '/');
    CountPositive(resourcePath, '/');
  }

  /** The source documents `ModuleNotFoundError` "if the package doesn't
      exist", yet no `ModuleNotFoundError` ever leaves the resolver, and the
      only `FileNotFoundError` that does is its own not-found error. */
  lemma ModuleNotFoundNeverEscapes(env: Env, packageName: string, resourcePath: string)
    ensures var r := Resolve(env, packageName, resourcePath);
      r.Err? ==> !r.error.kind.ModuleNotFoundError?
    ensures var r := Resolve(env, packageName, resourcePath);
      r.Err? && r.error.kind.FileNotFoundError? ==> r.error == NotFound(resourcePath, packageName)
  {
  }

  /** The source documents `FileNotFoundError` "if the resource doesn't
      exist", yet once `files()` locates the package the leaf is returned
      even when no path at all exists. */
  lemma MissingLeafStillReturned(env: Env, packageName: string, resourcePath: string, loc: Path)
    requires env.modernApi && env.hasResources
    requires env.files(SplitResource(packageName, resourcePath).package) == Located(loc)
    requires forall q :: env.pathExists(q) == Absent
    ensures Resolve(env, packageName, resourcePath).Ok?
    ensures Resolve(env, packageName, resourcePath).path
         == Str(JoinPath(loc, SplitResource(packageName, resourcePath).leaf))
  {
    JoinEmpty(loc);
  }
}

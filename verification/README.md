# PyIR resource resolver, modelled in Dafny

PyIR wraps the IgBLAST annotation tool and ships reference databases and
helper binaries inside its `crowelab_pyir` package. `pyir/resource_utils.py`
locates those bundled files at run time. This project models that resolver.

`get_resource_path(package_name, resource_path)` splits `resource_path` on
`/`. Every segment except the last is appended to `package_name` as a dotted
sub-package, and the last segment is the leaf file name. The function then
tries four steps in a fixed order:

1. the importlib-resources `files()` API on that sub-package, joined with
   the leaf. An empty leaf means the package directory itself. This step
   makes no existence check. It runs only when importlib-resources is
   available, and it catches only `ModuleNotFoundError`,
   `FileNotFoundError`, `AttributeError` and `TypeError`. Before Python 3.9
   the backport's `resources.path()` stands in when `files()` is missing,
   and also when a nested `files()` lookup raises `TypeError` or
   `AttributeError`;
2. the directory of the installed `crowelab_pyir` package joined with
   `resource_path`, if that path exists;
3. `./pyir/…`, `./crowelab_pyir/…` and the resolver's own directory, in
   that order. The first one that exists is resolved and returned;
4. otherwise `FileNotFoundError("Resource '<path>' not found in package '<name>'")`.

`get_data_path(subpath)` asks for `data/<subpath>` in `crowelab_pyir`, or
for `data` when `subpath` is empty.

Files:

- `strs.dfy` (module `Strs`) models `str.split` and `str.join` on a
  one-character separator, plus character replacement. It proves split/join
  round trips in both directions and counts the pieces.
- `paths.dfy` (module `PurePaths`) models the part of `pathlib.PurePosixPath`
  the resolver uses: parsing, the `/` join and `str()`.
- `resource_utils.dfy` (module `ResourceUtils`) holds the resolver:
  - the four steps as functions returning `Hit`, `Miss` or `Escape`;
  - `Resolve` for `get_resource_path` and `DataPath` for `get_data_path`;
  - the methods `ProbeCandidates` and `GetResourcePath`, which follow the
    source's loop and early returns and are proved equal to the functions.
- `resource_facts.dfy` (module `ResourceFacts`) holds the lemmas about the
  resolver: fallback order, the exact not-found condition, existence
  checks, `get_data_path` targets, and how step 1 agrees with step 2.

The interpreter and the filesystem are parameters. They are collected in the
datatype `Env`:

- `HAS_IMPORTLIB_RESOURCES`, as a boolean;
- the test `sys.version_info >= (3, 9)`, as a boolean;
- whether the importlib_resources backport has a `files` attribute, as a
  boolean;
- `resources.files`, as a function from a package name to a path or an
  exception;
- the path that `with resources.path(package, name)` yields, as a function
  from a package name and a file name to a path or an exception;
- `Path(crowelab_pyir.__file__).parent`, as a path or an exception;
- `os.path.dirname(__file__)`, as a string;
- `Path.exists()`, which answers present, absent or raises;
- `Path.resolve()`, which answers a path or raises.

Where the code and its docstring (`pyir/resource_utils.py:17-30`) or its
comments differ, the model follows the code:

- Step 1 catches only the four classes named at `pyir/resource_utils.py:91`.
  Any other exception propagates to the caller, although the comment at
  line 92 speaks only of falling back. `UncaughtPropagates` states this.
- A bare `except` wraps the whole step-3 loop (`pyir/resource_utils.py:106-118`).
  So an exception from one probe's `exists()` or `resolve()` abandons the
  remaining candidates. `VisibleResourceIsFound` states the guarantee the
  code does give.
- The docstring lists `ModuleNotFoundError` when the package does not exist.
  Step 1 swallows that error, so it never reaches the caller.
  `ModuleNotFoundNeverEscapes` states this.
- The docstring promises `FileNotFoundError` when the resource does not
  exist. Step 1 makes no existence check, so once `files()` locates the
  package, the joined path is returned whether or not the file exists.
  `MissingLeafStillReturned` states this.

## Model

| member | source | states |
|---|---|---|
| Strs.Split | pyir/resource_utils.py:34 | `resource_path.split('/')` always has at least one piece, and no piece contains the separator |
| Strs.SplitJoin | pyir/resource_utils.py:34 | joining the pieces of a split with `/` gives back `resource_path` |
| Strs.SplitCount | pyir/resource_utils.py:34 | the number of pieces is the number of `/` characters plus one |
| Strs.JoinSplit | pyir/resource_utils.py:34 | splitting a join of separator-free pieces gives the pieces back, so the split is the only separator-free decomposition |
| Strs.JoinReplace | pyir/resource_utils.py:41 | `'.'.join` of the directory pieces equals the directory text with every `/` turned into `.` |
| PurePaths.Parse | pyir/resource_utils.py:109-111 | `Path(s)` keeps only non-empty, non-`.` components, and is absolute exactly when `s` starts with `/` |
| PurePaths.StrParse | pyir/resource_utils.py:101 | `str()` of a path parses back to the same path, so returned strings name the joined path |
| PurePaths.JoinEmpty | pyir/resource_utils.py:47-50 | joining an empty leaf changes nothing, so "the directory itself" is the unjoined location |
| PurePaths.JoinThenJoin | pyir/resource_utils.py:48 | joining a relative directory and then a leaf is the same as joining `dir/leaf` |
| ResourceUtils.SplitResource | pyir/resource_utils.py:34-44 | without `/` the package is `package_name` and the leaf is the whole path; with `/` the leaf follows the last `/` and the package is `package_name.` plus the preceding directory with `/` turned into `.` |
| ResourceUtils.Swallowed | pyir/resource_utils.py:91 | an error is swallowed exactly when it is one of `ModuleNotFoundError`, `FileNotFoundError`, `AttributeError` and `TypeError` |
| ResourceUtils.ResourcesStep | pyir/resource_utils.py:31-52 | step 1 yields nothing exactly when the capability is off or `files()` raises one of the four caught classes; whatever escapes is of another class |
| ResourceUtils.LegacyResourcesStep | pyir/resource_utils.py:54-89 | the Python 3.6-3.8 step 1 yields nothing when the capability is off; without a backport `files()` it returns the path `resources.path()` yields, or yields nothing on a caught error; only errors outside the four caught classes escape |
| ResourceUtils.FirstStep | pyir/resource_utils.py:31-37 | step 1 on either interpreter branch yields nothing when the capability is off, and lets only errors outside the four caught classes escape |
| ResourceUtils.PackageDirStep | pyir/resource_utils.py:96-103 | step 2 hits exactly when the package directory is known and its join with `resource_path` exists, and then returns that join; it never raises |
| ResourceUtils.Candidates | pyir/resource_utils.py:108-112 | step 3 probes exactly three locations, the first two being `pyir/<resource_path>` and `crowelab_pyir/<resource_path>` relative to the working directory |
| PurePaths.HereRelative | pyir/resource_utils.py:109-110 | `Path('./name')` is the one-component relative path `name`; the `./` leaves no component behind |
| ResourceUtils.FirstPresent | pyir/resource_utils.py:114-118 | step 3 hits exactly when some candidate is present, resolvable, and preceded only by absent ones; it returns that candidate resolved and never raises |
| ResourceUtils.Fallback | pyir/resource_utils.py:95-118 | steps 2 and 3 never raise; a step-2 hit wins; they hit exactly when step 2 hits or some probe location is accepted |
| ResourceUtils.NotFoundMessage | pyir/resource_utils.py:120 | the not-found message quotes `resource_path` and `package_name` verbatim at fixed positions |
| ResourceUtils.NotFound | pyir/resource_utils.py:120 | the final error is a `FileNotFoundError` whose message holds `resource_path` and `package_name` verbatim after fixed prefixes |
| ResourceUtils.Resolve | pyir/resource_utils.py:16-120 | any caught-class error that leaves `get_resource_path` is its own not-found error for these two inputs |
| ResourceUtils.DataPath | pyir/resource_utils.py:123-136 | a caught-class error from `get_data_path` is the not-found error for `data/<subpath>` (or `data` when `subpath` is empty) in `crowelab_pyir` |
| ResourceUtils.ProbeCandidates | pyir/resource_utils.py:114-118 | the probing loop returns what the recursive step-3 definition does, and a hit was present |
| ResourceUtils.GetResourcePath | pyir/resource_utils.py:31-120 | the early-return form of the source equals the ordered-choice definition `Resolve` |
| ResourceFacts.Step1Wins | pyir/resource_utils.py:46-52 | once `files()` locates the package, the result is the location joined with the leaf, or the location itself for an empty leaf; no other oracle affects it |
| ResourceFacts.UncaughtPropagates | pyir/resource_utils.py:91-93 | a step-1 exception outside the four caught classes is the result and is distinct from the not-found error |
| ResourceFacts.PackageDirBeforeProbes | pyir/resource_utils.py:96-101 | when step 1 yields nothing and the package-directory join exists, that join is returned |
| ResourceFacts.ProbesInOrder | pyir/resource_utils.py:105-116 | when steps 1 and 2 yield nothing, the first accepted probe location is returned, resolved |
| ResourceFacts.NotFoundExactly | pyir/resource_utils.py:91-120 | `FileNotFoundError` is raised exactly when step 1 yields nothing, step 2 misses, and no probe location is accepted |
| ResourceFacts.FallbackChecksExistence | pyir/resource_utils.py:97-116 | steps 2 and 3 return only paths whose existence check answered present |
| ResourceFacts.FallbackIgnoresPackage | pyir/resource_utils.py:95-118 | once step 1 yields nothing, two package names succeed or fail together and succeed with the same path |
| ResourceFacts.VisibleResourceIsFound | pyir/resource_utils.py:95-118 | a resource that step 2 or an accepted probe sees is returned, unless step 1 raises an uncaught exception |
| ResourceFacts.RequestUnderDir | pyir/resource_utils.py:34-44 | asking for `dir/rest` under a package targets the same sub-package and leaf as asking for `rest` under the package extended by `dir`'s components |
| ResourceFacts.DataPathTarget | pyir/resource_utils.py:133-136 | a non-empty data subpath targets the `crowelab_pyir.data` package; the empty one targets leaf `data` in `crowelab_pyir` |
| ResourceFacts.DataPathThroughDataPackage | pyir/resource_utils.py:133-136 | for a subpath without `/`, once `files()` locates the package, `get_data_path` returns that location joined with the subpath (package `crowelab_pyir.data`), or with `data` for the empty subpath (package `crowelab_pyir`) |
| ResourceFacts.Step1AgreesWithPackageDir | pyir/resource_utils.py:39-52 | if `files()` maps each dotted sub-package to the matching sub-directory of a root, step 1 returns the same path step 2 builds from that root |
| ResourceFacts.LegacyAgreesWithModern | pyir/resource_utils.py:57-86 | with a backport `files()`, the Python 3.6-3.8 step 1 returns what the 3.9+ step returns, although it joins an empty leaf in the nested case, provided a nested lookup does not raise `TypeError` or `AttributeError` |
| ResourceFacts.LegacyRetriesThroughPath | pyir/resource_utils.py:63-76 | when a nested backport `files()` lookup raises `TypeError` or `AttributeError`, the legacy step answers with `resources.path()` where the 3.9+ step yields nothing |
| ResourceFacts.ModuleNotFoundNeverEscapes | pyir/resource_utils.py:27-29 | no `ModuleNotFoundError` leaves `get_resource_path`, and the only `FileNotFoundError` that does is its own not-found error |
| ResourceFacts.MissingLeafStillReturned | pyir/resource_utils.py:27-28 | on 3.9+, once `files()` locates the package, the joined leaf is returned even when no path exists |
| PurePaths.ParseName | pyir/resource_utils.py:48 | a single valid component parses to the one-component relative path |

## Left out

- The import-time capability probe (`pyir/resource_utils.py:5-13`) is the boolean `hasResources`, and the version test is the independent boolean `modernApi`. The model does not tie `modernApi` to whether the backport was imported.
- `resources.path()` (`pyir/resource_utils.py:71`, `75`, `88`) is an oracle giving the path its context manager yields. Cleanup of a temporary file on leaving the `with` block is not modelled. In the source the returned string can name a file that is already gone.
- LegacyAgreesWithModern: does not cover a nested path whose backport `files()` lookup raises `TypeError` or `AttributeError`. There the two branches really differ: the legacy one retries with `resources.path()`, as `LegacyRetriesThroughPath` states.
- `resources.files`, `resources.path`, `Path.exists`, `Path.resolve`, `import crowelab_pyir` and `__file__` are oracles. They are library and operating-system calls with no visible code.
- `files()` returns a Traversable. The model treats it as a plain POSIX path, so namespace-package and zip-archive Traversables are not modelled. Its `/` join is modelled as one that cannot raise.
- pathlib keeps exactly two leading slashes (`//x`) as a separate anchor. The model reads any leading slash as `/`. Windows paths are out of scope.
- Subclasses of the four caught exception classes are folded into their parent class. Every other class is `OtherError`.
- The resolver does not check that a returned path is absolute. Steps 1 and 2 return whatever the interpreter gives. So no lemma claims absoluteness.
- Calling the resolver twice returns the same value under the same oracles, because `Resolve` is a function. Whether two different strings name the same file is a filesystem question and is not modelled.
- `tests/test_basic.py` downloads sequences over the network and runs the external IgBLAST wrapper. `setup.py` is packaging metadata. Neither contains resolver logic.

/**
 The part of `pathlib.PurePosixPath` the resolver relies on: building a
 path from a string, joining a string onto a path with `/`, and turning
 a path back into a string with `str()`.

 A path is its anchor (absolute or not) and its list of components.
 Parsing drops empty components and `.` components, so `a//b`, `a/./b`
 and `a/b/` all name the path `a/b`.
 */
module PurePaths {
  import opened Strs

  datatype Path = Path(absolute: bool, parts: seq<string>)

  /** A component as pathlib keeps it: non-empty, not `.`, no separator. */
  predicate ValidPart(part: string)
  {
    |part| > 0 && part != "." && '/' !in part
  }

  predicate Valid(p: Path)
  {
    forall i :: 0 <= i < |p.parts| ==> ValidPart(p.parts[i])
  }

  /** True of a string that pathlib reads as an absolute path. */
  predicate IsAbsolute(s: string)
  {
    |s| > 0 && s[0] == '/'
  }

  /** Drops the empty and `.` pieces of a split path string. */
  function Keep(segs: seq<string>): (r: seq<string>)
    ensures |r| <= |segs|
    ensures forall i :: 0 <= i < |r| ==> r[i] != "" && r[i] != "." && r[i] in segs
    ensures forall i :: 0 <= i < |segs| && segs[i] != "" && segs[i] != "." ==> segs[i] in r
  {
    if |segs| == 0 then []
    else if segs[0] == "" || segs[0] == "." then Keep(segs[1..])
    else [segs[0]] + Keep(segs[1..])
  }

  /** `PurePosixPath(s)`. */
  function Parse(s: string): (p: Path)
    ensures Valid(p)
    ensures p.absolute <==> IsAbsolute(s)
    ensures forall i :: 0 <= i < |p.parts| ==> p.parts[i] in Split(s, '/')
    ensures forall piece :: piece in Split(s, '/') && ValidPart(piece) ==> piece in p.parts
  {
    Path(IsAbsolute(s), Keep(Split(s, '/')))
  }

  /** `str(p)`: an empty relative path prints as `.`. */
  function Str(p: Path): string
  {
    if p.absolute then "/" + Join(p.parts, '/')
    else if |p.parts| == 0 then "."
    else Join(p.parts, '/')
  }

  /** `base / s`: an absolute `s` replaces `base`, otherwise its components
      are appended. */
  function JoinPath(base: Path, s: string): Path
  {
    var q := Parse(s);
    if q.absolute then q else Path(base.absolute, base.parts + q.parts)
  }

  lemma {:induction false} KeepConcat(a: seq<string>, b: seq<string>)
    ensures Keep(a + b) == Keep(a) + Keep(b)
    decreases |a|
  {
    if |a| > 0 {
      assert (a + b)[0] == a[0];
      assert (a + b)[1..] == a[1..] + b;
      KeepConcat(a[1..], b);
    } else {
      assert a + b == b;
    }
  }

  /** Keep leaves a list of valid components unchanged. */
  lemma {:induction false} KeepValid(parts: seq<string>)
    requires forall i :: 0 <= i < |parts| ==> ValidPart(parts[i])
    ensures Keep(parts) == parts
    decreases |parts|
  {
    if |parts| > 0 {
      KeepValid(parts[1..]);
    }
  }

  /** The components of `a/b` are those of `a` followed by those of `b`. */
  lemma PartsAround(a: string, b: string)
    ensures Parse(a + "/" + b).parts == Parse(a).parts + Parse(b).parts
  {
    SplitAround(a, b, '/');
    KeepConcat(Split(a, '/'), Split(b, '/'));
  }

  /** Joining the empty string is the identity: `p / ''` is `p`. */
  lemma JoinEmpty(base: Path)
    ensures JoinPath(base, "") == base
  {
    assert Split("", '/') == [""];
    assert Parse("").parts == [];
    assert base.parts + [] == base.parts;
  }

  /** Joining a relative directory and then a name is joining `dir/name`. */
  lemma JoinThenJoin(base: Path, dir: string, name: string)
    requires dir != "" && !IsAbsolute(dir)
    requires !IsAbsolute(name)
    ensures JoinPath(JoinPath(base, dir), name) == JoinPath(base, dir + "/" + name)
  {
    PartsAround(dir, name);
    assert (dir + "/" + name)[0] == dir[0];
    assert base.parts + Parse(dir).parts + Parse(name).parts
        == base.parts + (Parse(dir).parts + Parse(name).parts);
  }

  /** `Path(name)` for a single valid component is the one-component
      relative path `name`. */
  lemma ParseName(name: string)
    requires ValidPart(name)
    ensures Parse(name) == Path(false, [name])
  {
    SplitNoSep(name, '/');
  }

  /** `Path('./name')` is the one-component relative path `name`. */
  lemma HereRelative(name: string)
    requires ValidPart(name)
    ensures Parse("." + "/" + name) == Path(false, [name])
  {
    PartsAround(".", name);
    SplitNoSep(".", '/');
    SplitNoSep(name, '/');
  }

  /** Components never begin with the separator, so a relative path's
      string does not read as absolute. */
  lemma {:induction false} JoinHead(parts: seq<string>)
    requires |parts| >= 1
    requires forall i :: 0 <= i < |parts| ==> ValidPart(parts[i])
    ensures |Join(parts, '/')| > 0 && !IsAbsolute(Join(parts, '/'))
  {
    assert ValidPart(parts[0]);
    assert parts[0][0] in parts[0];
    if |parts| > 1 {
      assert Join(parts, '/') == parts[0] + (['/'] + Join(parts[1..], '/'));
    }
  }

  /** `str` and parsing are inverse on valid paths. */
  lemma StrParse(p: Path)
    requires Valid(p)
    ensures Parse(Str(p)) == p
  {
    if p.absolute {
      var s := "/" + Join(p.parts, '/');
      assert s == "" + "/" + Join(p.parts, '/');
      PartsAround("", Join(p.parts, '/'));
      if |p.parts| == 0 {
        assert Split("", '/') == [""];
      } else {
        JoinSplit(p.parts, '/');
        KeepValid(p.parts);
      }
      assert Split("", '/') == [""];
    } else if |p.parts| == 0 {
      assert Split(".", '/') == ["."] by {
        SplitNoSep(".", '/');
      }
    } else {
      JoinSplit(p.parts, '/');
      KeepValid(p.parts);
      JoinHead(p.parts);
    }
  }
}

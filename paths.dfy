/** Parameter and path helpers (src/utils/io.py): reading a SoFiA parameter
    as a path relative to the parameter file's directory, deriving the output
    file name, and reading a required configuration value. Paths follow the
    POSIX rules of Python's os.path. */
module Paths {
  import opened Wrappers

  /** The KeyError of a missing parameter and the ValueError of an
      undefined configuration value. */
  datatype PathError = MissingKey(key: string) | Undefined(name: string)

  /** os.path.isabs. */
  predicate IsAbs(p: string)
  {
    |p| > 0 && p[0] == '/'
  }

  /** os.path.basename: everything after the last '/'. */
  function Basename(p: string): (b: string)
    ensures '/' !in b
    ensures |b| <= |p| && p[|p| - |b|..] == b
    ensures |b| < |p| ==> p[|p| - |b| - 1] == '/'
  {
    if |p| == 0 then ""
    else if p[|p| - 1] == '/' then ""
    else
      var front := p[..|p| - 1];
      var b := Basename(front);
      assert p[|p| - |b| - 1..] == front[|front| - |b|..] + [p[|p| - 1]];
      b + [p[|p| - 1]]
  }

  /** A file name after a directory is its own basename. */
  lemma {:induction false} BasenameOfJoin(dir: string, name: string)
    requires '/' !in name
    ensures Basename(dir + "/" + name) == name
    decreases |name|
  {
    var p := dir + "/" + name;
    if |name| == 0 {
      assert p[|p| - 1] == '/';
    } else {
      assert p[..|p| - 1] == dir + "/" + name[..|name| - 1];
      BasenameOfJoin(dir, name[..|name| - 1]);
      assert name == name[..|name| - 1] + [name[|name| - 1]];
    }
  }

  /** The position of the last '.'. */
  function LastDot(s: string): (r: Option<nat>)
    ensures r.Some? ==> r.value < |s| && s[r.value] == '.' && '.' !in s[r.value + 1..]
    ensures r.None? ==> '.' !in s
  {
    if |s| == 0 then None
    else if s[|s| - 1] == '.' then Some(|s| - 1)
    else
      var r := LastDot(s[..|s| - 1]);
      assert r.Some? ==> s[r.value + 1..] == s[..|s| - 1][r.value + 1..] + [s[|s| - 1]];
      assert r.None? ==> s == s[..|s| - 1] + [s[|s| - 1]];
      r
  }

  predicate AllDots(s: string)
  {
    forall i :: 0 <= i < |s| ==> s[i] == '.'
  }

  /** os.path.splitext(name)[0] for a name without '/': the name less its
      last extension, where a dot only starts an extension if something other
      than a dot comes before it (".bashrc" and "..x" have none). */
  function StripExt(name: string): (r: string)
    ensures |r| <= |name| && name[..|r|] == r
    ensures r != name ==> name[|r|] == '.' && '.' !in name[|r| + 1..] && !AllDots(r)
    ensures (exists i :: 0 <= i < |name| && name[i] == '.' && !AllDots(name[..i])) ==> r != name
  {
    match LastDot(name)
    case None => name
    case Some(i) =>
      if AllDots(name[..i]) then
        assert forall k :: i < k < |name| ==> name[k] == name[i + 1..][k - i - 1];
        name
      else name[..i]
  }

  /** _get_parameter: the parameter (a KeyError when it is missing); a
      relative path is replaced by the working directory joined with its
      basename, so its directories are dropped. */
  function GetParameter(name: string, params: map<string, string>, cwd: string): (r: Result<string, PathError>)
    ensures r.Failure? <==> name !in params
    ensures r.Failure? ==> r.error == MissingKey(name)
    ensures r.Success? && IsAbs(params[name]) ==> r.value == params[name]
    ensures r.Success? && !IsAbs(params[name]) ==> r.value == cwd + "/" + Basename(params[name])
  {
    if name !in params then Failure(MissingKey(name))
    else if IsAbs(params[name]) then Success(params[name])
    else Success(cwd + "/" + Basename(params[name]))
  }

  /** The resolved path names the same file, is absolute when the working
      directory is, and resolving it again changes nothing. */
  lemma ResolvedPathKeepsFileName(name: string, params: map<string, string>, cwd: string)
    requires name in params
    ensures var r := GetParameter(name, params, cwd).value;
      && Basename(r) == Basename(params[name])
      && (IsAbs(cwd) ==> IsAbs(r))
      && (IsAbs(cwd) ==> GetParameter(name, params[name := r], cwd) == Success(r))
  {
    if !IsAbs(params[name]) {
      BasenameOfJoin(cwd, Basename(params[name]));
    }
  }

  /** A relative path loses its directories: "data/cube.fits" read from
      "/work" is "/work/cube.fits". */
  lemma RelativeDirectoriesAreDropped()
    ensures GetParameter("input.data", map["input.data" := "data/cube.fits"], "/work") == Success("/work/cube.fits")
  {
    var name := "cube.fits";
    assert "data/cube.fits" == "data" + "/" + name;
    assert forall i :: 0 <= i < |name| ==> name[i] != '/';
    BasenameOfJoin("data", name);
    var params := map["input.data" := "data/cube.fits"];
    assert params["input.data"] == "data/cube.fits";
    assert !IsAbs("data/cube.fits");
    assert Basename(params["input.data"]) == name;
    assert "/work" + "/" + name == "/work/cube.fits";
  }

  /** _get_output_filename: input.data is resolved first (so it must be
      present), then output.filename is read; an empty one becomes the
      resolved input's basename less its extension. */
  function OutputFilename(params: map<string, string>, cwd: string): (r: Result<string, PathError>)
    ensures "input.data" !in params ==> r == Failure(MissingKey("input.data"))
    ensures "input.data" in params && "output.filename" !in params ==> r == Failure(MissingKey("output.filename"))
    ensures r.Success? <==> "input.data" in params && "output.filename" in params
    ensures r.Success? && params["output.filename"] != "" ==> r.value == params["output.filename"]
    ensures r.Success? && params["output.filename"] == "" ==> r.value == StripExt(Basename(params["input.data"]))
  {
    match GetParameter("input.data", params, cwd)
    case Failure(e) => Failure(e)
    case Success(input) =>
      if "output.filename" !in params then Failure(MissingKey("output.filename"))
      else if params["output.filename"] != "" then Success(params["output.filename"])
      else
        ResolvedPathKeepsFileName("input.data", params, cwd);
        Success(StripExt(Basename(input)))
  }

  /** A derived output file name is a prefix of the input's file name and
      contains no directory. */
  lemma DerivedOutputFilenameIsStem(params: map<string, string>, cwd: string)
    requires "input.data" in params && "output.filename" in params && params["output.filename"] == ""
    ensures var r := OutputFilename(params, cwd).value;
      && '/' !in r
      && |r| <= |Basename(params["input.data"])|
      && Basename(params["input.data"])[..|r|] == r
  {
    var b := Basename(params["input.data"]);
    var r := StripExt(b);
    assert forall k :: 0 <= k < |r| ==> r[k] == b[k];
  }

  /** The output file name does not depend on the working directory. */
  lemma OutputFilenameIgnoresCwd(params: map<string, string>, cwd1: string, cwd2: string)
    ensures OutputFilename(params, cwd1) == OutputFilename(params, cwd2)
  {
    var r1, r2 := OutputFilename(params, cwd1), OutputFilename(params, cwd2);
    if r1.Success? {
      assert r2.Success? && r1.value == r2.value;
    } else {
      assert r2.Failure? && r1.error == r2.error;
    }
  }

  /** _get_from_conf: the value found under `name` (or the fallback when
      there is none); an undefined value raises. */
  function FromConf(conf: map<string, Option<string>>, name: string, fallback: Option<string>)
    : (r: Result<string, PathError>)
    ensures r.Failure? <==> (if name in conf then conf[name] else fallback).None?
    ensures r.Failure? ==> r.error == Undefined(name)
    ensures r.Success? ==> (name in conf && conf[name] == Some(r.value)) || (name !in conf && fallback == Some(r.value))
  {
    var value := if name in conf then conf[name] else fallback;
    if value.None? then Failure(Undefined(name)) else Success(value.value)
  }
}

/**
  Where `load_model` finds the serialized model at startup: the `.joblib`
  artifact first, then the `.pkl` one, and otherwise a FileNotFoundError
  naming both. Whether a path exists is a function given by the caller.
 */
module ModelLoader {

  const ModelDirName := "Model"
  const JoblibFileName := "spam_classifier.joblib"
  const PklFileName := "spam_classifier.pkl"
  const NotFoundPrefix := "Model file not found. Expected one of: "

  /** pathlib's `dir / name` on POSIX, for a relative `name` without separators. */
  function Join(dir: string, name: string): (p: string)
    ensures |p| >= |name| && p[|p| - |name|..] == name
  {
    if dir == "" then name
    else if dir[|dir| - 1] == '/' then dir + name
    else dir + "/" + name
  }

  /** Below a directory that does not end in a separator, one `/` is inserted. */
  lemma JoinUnderDir(dir: string, name: string)
    requires dir != "" && dir[|dir| - 1] != '/'
    ensures Join(dir, name) == dir + "/" + name
  {
  }

  /** `DEFAULT_JOBLIB_PATH`: `BASE_DIR / "Model" / "spam_classifier.joblib"`. */
  function JoblibPath(baseDir: string): (p: string)
    ensures |p| >= |JoblibFileName| && p[|p| - |JoblibFileName|..] == JoblibFileName
    ensures baseDir != "" && baseDir[|baseDir| - 1] != '/' ==> p == baseDir + "/" + ModelDirName + "/" + JoblibFileName
  {
    var d := Join(baseDir, ModelDirName);
    assert d[|d| - 1] == d[|d| - |ModelDirName|..][|ModelDirName| - 1] == 'l';
    JoinUnderDir(d, JoblibFileName);
    assert baseDir != "" && baseDir[|baseDir| - 1] != '/' ==> d == baseDir + "/" + ModelDirName by {
      if baseDir != "" && baseDir[|baseDir| - 1] != '/' { JoinUnderDir(baseDir, ModelDirName); }
    }
    Join(d, JoblibFileName)
  }

  /** `DEFAULT_PKL_PATH`: `BASE_DIR / "Model" / "spam_classifier.pkl"`. */
  function PklPath(baseDir: string): (p: string)
    ensures |p| >= |PklFileName| && p[|p| - |PklFileName|..] == PklFileName
    ensures baseDir != "" && baseDir[|baseDir| - 1] != '/' ==> p == baseDir + "/" + ModelDirName + "/" + PklFileName
  {
    var d := Join(baseDir, ModelDirName);
    assert d[|d| - 1] == d[|d| - |ModelDirName|..][|ModelDirName| - 1] == 'l';
    JoinUnderDir(d, PklFileName);
    assert baseDir != "" && baseDir[|baseDir| - 1] != '/' ==> d == baseDir + "/" + ModelDirName by {
      if baseDir != "" && baseDir[|baseDir| - 1] != '/' { JoinUnderDir(baseDir, ModelDirName); }
    }
    Join(d, PklFileName)
  }

  /** The two candidate paths are never the same file name. */
  lemma CandidatePathsDiffer(baseDir: string)
    ensures JoblibPath(baseDir) != PklPath(baseDir)
  {
    var d := Join(baseDir, ModelDirName);
    assert |JoblibPath(baseDir)| == |Join(d, "")| + |JoblibFileName|;
    assert |PklPath(baseDir)| == |Join(d, "")| + |PklFileName|;
  }

  /** `sub` occurs in `msg` starting at index `i`. */
  predicate OccursAt(msg: string, sub: string, i: int) {
    0 <= i <= |msg| - |sub| && msg[i..i + |sub|] == sub
  }

  /** `sub` occurs somewhere in `msg`. */
  ghost predicate Mentions(msg: string, sub: string) {
    exists i :: OccursAt(msg, sub, i)
  }

  lemma MentionsMiddle(a: string, b: string, c: string)
    ensures Mentions(a + b + c, b)
  {
    assert (a + b + c)[|a|..|a| + |b|] == b;
    assert OccursAt(a + b + c, b, |a|);
  }

  /** What `load_model` does before calling the loader: the path it loads, or the error it raises. */
  datatype Artifact = Found(path: string) | NotFound(message: string)

  function NotFoundMessage(joblib: string, pkl: string): (msg: string)
    ensures Mentions(msg, joblib) && Mentions(msg, pkl)
  {
    var msg := NotFoundPrefix + joblib + " or " + pkl;
    assert msg == NotFoundPrefix + joblib + (" or " + pkl);
    MentionsMiddle(NotFoundPrefix, joblib, " or " + pkl);
    assert msg == (NotFoundPrefix + joblib + " or ") + pkl + "";
    MentionsMiddle(NotFoundPrefix + joblib + " or ", pkl, "");
    msg
  }

  function LocateArtifact(baseDir: string, isPresent: string -> bool): (r: Artifact)
    ensures var j, p := JoblibPath(baseDir), PklPath(baseDir);
      && (r.Found? ==> isPresent(r.path) && (r.path == j || r.path == p))
      && (isPresent(j) ==> r == Found(j))
      && (!isPresent(j) && isPresent(p) ==> r == Found(p))
      && (r.NotFound? <==> !isPresent(j) && !isPresent(p))
      && (r.NotFound? ==> Mentions(r.message, j) && Mentions(r.message, p))
  {
    var j, p := JoblibPath(baseDir), PklPath(baseDir);
    if isPresent(j) then Found(j)
    else if isPresent(p) then Found(p)
    else NotFound(NotFoundMessage(j, p))
  }

  /** The `.pkl` artifact is used only when the `.joblib` one is missing. */
  lemma PklOnlyAsFallback(baseDir: string, isPresent: string -> bool)
    ensures LocateArtifact(baseDir, isPresent) == Found(PklPath(baseDir))
        <==> !isPresent(JoblibPath(baseDir)) && isPresent(PklPath(baseDir))
  {
    CandidatePathsDiffer(baseDir);
  }
}

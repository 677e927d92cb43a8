/** The lexical shape of remote paths (hub/internal/host/remote_paths.go:29-61). */
module RemotePaths {
  import opened Option
  import opened PathConflict
  import opened PathShape

  datatype PathError = InvalidPath | NotAllowed

  /** What is refused about a path, by its spelling alone. */
  function ShapeError(p: string): Option<PathError> {
    if !ShapeOk(p) then Some(InvalidPath)
    else if IsBlocked(Spelled(CleanSegs(p))) then Some(NotAllowed)
    else None
  }

  /** Kernel interfaces are found under any spelling of their first name, but not
      under dot-dot, which is refused before. */
  lemma ShapeMeaning(p: string)
    ensures ShapeError(p) == Some(InvalidPath)
            <==> p == "" || p[0] != '/' || |p| > MAX_PATH || ".." in Split(p)
    ensures ShapeError(p) == Some(NotAllowed)
            <==> ShapeOk(p) && CleanSegs(p) != [] && Lower(CleanSegs(p)[0]) in KERNEL_INTERFACES
  {
    if ShapeOk(p) {
      CleanSegsAreNames(p);
      BlockedIsFirstName(CleanSegs(p));
    }
  }

  method ValidateRemotePathShape(p: string) returns (e: Option<PathError>)
    ensures e == ShapeError(p)
  {
    if p == "" || p[0] != '/' || |p| > MAX_PATH {
      return Some(InvalidPath);
    }
    var segments := Split(p);
    for i := 0 to |segments|
      invariant ".." !in segments[..i]
    {
      if segments[i] == ".." {
        return Some(InvalidPath);
      }
    }
    assert segments[..|segments|] == segments;
    if IsBlocked(Spelled(CleanSegs(p))) {
      return Some(NotAllowed);
    }
    return None;
  }
}

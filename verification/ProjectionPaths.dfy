/** Isolation of the query projection: an accepted configuration keeps its five paths apart
    and inside the root. Paths are resolved absolute paths, given by their components. */
module ProjectionPaths {
  import opened Wrappers

  type Path = seq<string>

  datatype Rejection = IsolationOverlap | OutsideRoot | TraceNotAbsolute | TraceSymlink | TraceParentUnavailable | TraceExists
    | TraceOutside

  /** `path.parents`: the proper ancestors. */
  predicate InParents(ancestor: Path, path: Path) {
    ancestor < path
  }

  predicate PathsOverlap(left: Path, right: Path) {
    left == right || InParents(left, right) || InParents(right, left)
  }

  predicate IsStrictDescendant(candidate: Path, root: Path) {
    candidate != root && InParents(root, candidate)
  }

  /** What the file system says about a requested trace file. */
  datatype Trace = Trace(resolved: Path, absolute: bool, symlink: bool, parentAvailable: bool, present: bool)

  datatype Projection = Projection(root: Path, python: Path, dataDir: Path, configDir: Path, cacheDir: Path, tmpDir: Path,
                                   traceFile: Option<Path>)

  function Values(p: Projection): seq<Path> {
    [p.python, p.dataDir, p.configDir, p.cacheDir, p.tmpDir]
  }

  ghost predicate Apart(values: seq<Path>) {
    forall i, j | 0 <= i < j < |values| :: !PathsOverlap(values[i], values[j])
  }

  function EvidenceRoot(p: Projection): Path {
    p.root + ["evidence"]
  }

  /** The trace file's own checks, for a projection whose directories are already accepted. */
  function TraceFile(p: Projection, evidenceExists: bool, trace: Option<Trace>): Result<Option<Path>, Rejection>
  {
    if trace.None? then Ok(None)
    else if !trace.value.absolute then Err(TraceNotAbsolute)
    else if trace.value.symlink then Err(TraceSymlink)
    else if !trace.value.parentAvailable then Err(TraceParentUnavailable)
    else if trace.value.present then Err(TraceExists)
    else if IsStrictDescendant(trace.value.resolved, p.tmpDir)
            || (evidenceExists && IsStrictDescendant(trace.value.resolved, EvidenceRoot(p))) then
      Ok(Some(trace.value.resolved))
    else Err(TraceOutside)
  }

  method ConfiguredQueryProjection(p: Projection, evidenceExists: bool, trace: Option<Trace>)
    returns (r: Result<Projection, Rejection>)
    ensures r.Ok? <==> Apart(Values(p)) && (forall path <- Values(p) :: IsStrictDescendant(path, p.root))
                       && TraceFile(p, evidenceExists, trace).Ok?
    ensures r.Ok? ==> r.value == p.(traceFile := TraceFile(p, evidenceExists, trace).value)
    ensures r.Err? && r.error == IsolationOverlap <==> !Apart(Values(p))
    ensures Apart(Values(p)) ==>
              (r.Err? && r.error == OutsideRoot <==> exists path <- Values(p) :: !IsStrictDescendant(path, p.root))
    ensures r.Err? && r.error != IsolationOverlap && r.error != OutsideRoot ==> TraceFile(p, evidenceExists, trace) == Err(r.error)
  {
    var values := Values(p);
    for i := 0 to |values|
      invariant forall a, b | 0 <= a < b < |values| && a < i :: !PathsOverlap(values[a], values[b])
    {
      if exists j | i + 1 <= j < |values| :: PathsOverlap(values[i], values[j]) {
        return Err(IsolationOverlap);
      }
    }
    if exists path <- values :: !IsStrictDescendant(path, p.root) {
      return Err(OutsideRoot);
    }
    var file := TraceFile(p, evidenceExists, trace);
    if file.Err? {
      return Err(file.error);
    }
    return Ok(p.(traceFile := file.value));
  }

  /** A requested trace file is accepted, as it resolves, if and only if it is absolute, no
      symbolic link, does not exist yet, has a directory to go to, and lies below the temp
      directory or below an existing evidence directory. */
  lemma TraceAcceptedIff(p: Projection, evidenceExists: bool, trace: Trace)
    ensures var file := TraceFile(p, evidenceExists, Some(trace));
            && (file.Ok? <==>
                  && trace.absolute && !trace.symlink && trace.parentAvailable && !trace.present
                  && (p.tmpDir < trace.resolved || (evidenceExists && p.root + ["evidence"] < trace.resolved)))
            && (file.Ok? ==> file.value == Some(trace.resolved))
            && (!trace.absolute ==> file == Err(TraceNotAbsolute))
            && (trace.absolute && trace.symlink ==> file == Err(TraceSymlink))
            && (trace.absolute && !trace.symlink && !trace.parentAvailable ==> file == Err(TraceParentUnavailable))
            && (trace.absolute && !trace.symlink && trace.parentAvailable && trace.present ==> file == Err(TraceExists))
            && (file == Err(TraceOutside) ==> !(p.tmpDir < trace.resolved))
    ensures TraceFile(p, evidenceExists, None) == Ok(None)
  {
  }

  // ----- Isolation -----

  /** Two ancestors of one path are comparable. */
  lemma AncestorsOverlap(a: Path, b: Path, path: Path)
    requires a <= path && b <= path
    ensures PathsOverlap(a, b)
  {
    if |a| <= |b| {
      assert a == b[..|a|];
    } else {
      assert b == a[..|b|];
    }
  }

  /** Nothing written below one accepted directory is below, or is, another accepted path. */
  lemma NothingIsShared(p: Projection, i: nat, j: nat, file: Path)
    requires Apart(Values(p)) && i < 5 && j < 5 && i != j && Values(p)[i] <= file
    ensures !(Values(p)[j] <= file)
    ensures !InParents(file, Values(p)[j])
  {
    var left, right := Values(p)[i], Values(p)[j];
    assert !PathsOverlap(left, right);
    if right <= file {
      AncestorsOverlap(left, right, file);
    }
    assert InParents(file, right) ==> left <= right;
  }

  /** An accepted trace file is strictly under the root. Under the temp directory it is apart
      from every other accepted path. */
  lemma TraceIsIsolated(p: Projection, evidenceExists: bool, trace: Trace, j: nat)
    requires Apart(Values(p)) && forall path <- Values(p) :: IsStrictDescendant(path, p.root)
    requires TraceFile(p, evidenceExists, Some(trace)).Ok? && j < 4
    ensures IsStrictDescendant(trace.resolved, p.root)
    ensures IsStrictDescendant(trace.resolved, p.tmpDir) ==> !PathsOverlap(trace.resolved, Values(p)[j])
  {
    assert IsStrictDescendant(Values(p)[4], p.root);
    if IsStrictDescendant(trace.resolved, p.tmpDir) {
      NothingIsShared(p, 4, j, trace.resolved);
      assert p.root < p.tmpDir < trace.resolved;
      assert p.root == trace.resolved[..|p.root|];
    } else {
      assert EvidenceRoot(p) < trace.resolved;
      assert p.root == trace.resolved[..|p.root|];
    }
  }

  /** An accepted trace file below the `j`th configured path. */
  predicate TraceInside(p: Projection, evidenceExists: bool, trace: Trace, j: nat)
    requires j < 5
  {
    TraceFile(p, evidenceExists, Some(trace)).Ok? && InParents(Values(p)[j], trace.resolved)
  }

  /** The evidence directory is not one of the five paths, so a trace file accepted below it can
      lie inside a configured directory other than the temp one: exactly when there is an
      evidence directory and it overlaps that one. (Below the Python executable lies no file.) */
  lemma EvidenceTraceSharedIff(p: Projection, evidenceExists: bool, j: nat)
    requires Apart(Values(p)) && 1 <= j < 5
    ensures (exists trace: Trace :: TraceInside(p, evidenceExists, trace, j))
            <==> j == 4 || (evidenceExists && PathsOverlap(EvidenceRoot(p), Values(p)[j]))
  {
    var evidence, value := EvidenceRoot(p), Values(p)[j];
    if j == 4 {
      var trace := Trace(value + ["trace"], true, false, true, false);
      assert TraceInside(p, evidenceExists, trace, j);
    } else if evidenceExists && PathsOverlap(evidence, value) {
      var trace := Trace((if |evidence| <= |value| then value else evidence) + ["trace"], true, false, true, false);
      assert TraceInside(p, evidenceExists, trace, j);
    } else if trace: Trace :| TraceInside(p, evidenceExists, trace, j) {
      if IsStrictDescendant(trace.resolved, p.tmpDir) {
        NothingIsShared(p, 4, j, trace.resolved);
      } else {
        AncestorsOverlap(evidence, value, trace.resolved);
      }
    }
  }

  /** For instance with the data directory inside the evidence directory. */
  lemma EvidenceTraceInDataDir() returns (p: Projection, trace: Trace)
    ensures Apart(Values(p)) && forall path <- Values(p) :: IsStrictDescendant(path, p.root)
    ensures TraceFile(p, true, Some(trace)).Ok? && IsStrictDescendant(trace.resolved, p.dataDir)
  {
    p := Projection(["r"], ["r", "p"], ["r", "evidence"], ["r", "f"], ["r", "c"], ["r", "t"], None);
    trace := Trace(["r", "evidence", "x"], true, false, true, false);
    assert "p"[0] == 'p' && "evidence"[0] == 'e' && "f"[0] == 'f' && "c"[0] == 'c' && "t"[0] == 't';
    forall i, j | 0 <= i < j < 5
      ensures !PathsOverlap(Values(p)[i], Values(p)[j])
    {
      assert Values(p)[i][1] != Values(p)[j][1];
    }
  }
}

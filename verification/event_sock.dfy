/**
 * The endpoint resolver (`resolveEventSock`): which unix-socket paths receive machine events.
 * The environment, the runtime directory and the directory walk are inputs: `env` is the process
 * environment, `runtimeDir` the outcome of `util.GetRuntimeDir()`, and `walkDir(root)` the
 * sequence of callback invocations that `filepath.WalkDir(root, fn)` would make.
 */
module EventSock {
  import opened Wrappers
  import opened Fs
  import opened Seqs
  import SockPattern

  /** The override variable, read with `os.LookupEnv`. */
  const EventsSockEnv: string := "PODMAN_MACHINE_EVENTS_SOCK"

  /** The sub-directory of the runtime directory that is walked. */
  const PodmanDir: string := "podman"

  /** The walk callback's filter: not a directory, exactly a socket, and a matching name. */
  predicate IsEventSocket(info: DirEntry) {
    !info.IsDir() && info.typ == TypeSocket && SockPattern.MatchString(info.name)
  }

  /** A callback invocation that appends its path to the result. */
  predicate IsEventSocketVisit(item: WalkItem) {
    item.Visit? && IsEventSocket(item.info)
  }

  function Paths(items: seq<WalkItem>): (r: seq<string>)
    ensures |r| == |items|
    ensures forall i :: 0 <= i < |items| ==> r[i] == items[i].path
  {
    seq(|items|, i requires 0 <= i < |items| => items[i].path)
  }

  /** The paths the callback collects from an error-free walk, in walk order. */
  function Selected(walk: seq<WalkItem>): seq<string> {
    Paths(Filter(walk, IsEventSocketVisit))
  }

  /** The position of the first error the walk reports, or `|walk|` if there is none. */
  function FirstErrorIndex(walk: seq<WalkItem>): (k: nat)
    ensures k <= |walk|
    ensures forall i :: 0 <= i < k ==> walk[i].Visit?
    ensures k < |walk| ==> walk[k].VisitErr?
    decreases |walk|
  {
    if walk == [] || walk[0].VisitErr? then 0 else 1 + FirstErrorIndex(walk[1..])
  }

  /**
   * What `filepath.WalkDir` with the callback returns: the callback hands back the first error it
   * is given, which stops the walk and becomes the walk's result; otherwise every entry was seen.
   */
  function WalkOutcome(walk: seq<WalkItem>): Result<seq<string>, Error> {
    var k := FirstErrorIndex(walk);
    if k < |walk| then Failure(walk[k].err) else Success(Selected(walk))
  }

  /** The result of `resolveEventSock` for the given environment, runtime directory and walk. */
  function Resolution(env: map<string, string>, runtimeDir: Result<string, Error>,
                      walkDir: string -> seq<WalkItem>): Result<seq<string>, Error>
  {
    if EventsSockEnv in env then Success([env[EventsSockEnv]])
    else if runtimeDir.Failure? then Success([])
    else
      match WalkOutcome(walkDir(Join(runtimeDir.value, PodmanDir)))
      case Failure(e) => if e.IsNotExist() then Success([]) else Failure(e)
      case Success(paths) => Success(paths)
  }

  lemma PathsAppend(items: seq<WalkItem>, item: WalkItem)
    ensures Paths(items + [item]) == Paths(items) + [item.path]
  {
  }

  /** One more callback invocation extends the selection by at most its own path. */
  lemma SelectedStep(walk: seq<WalkItem>, i: nat)
    requires i < |walk|
    ensures Selected(walk[..i + 1]) ==
            Selected(walk[..i]) + (if IsEventSocketVisit(walk[i]) then [walk[i].path] else [])
  {
    assert walk[..i + 1] == walk[..i] + [walk[i]];
    FilterAppend(walk[..i], [walk[i]], IsEventSocketVisit);
    assert Filter([walk[i]], IsEventSocketVisit) == (if IsEventSocketVisit(walk[i]) then [walk[i]] else []);
    PathsAppend(Filter(walk[..i], IsEventSocketVisit), walk[i]);
  }

  /**
   * `filepath.WalkDir` driving the resolver's callback: each invocation either hands back its
   * error, which ends the walk, or appends the path of a matching socket to the captured slice.
   */
  method WalkEventSockets(walk: seq<WalkItem>) returns (r: Result<seq<string>, Error>)
    ensures r == WalkOutcome(walk)
  {
    var sockPaths: seq<string> := [];
    var i := 0;
    while i < |walk|
      invariant 0 <= i <= |walk|
      invariant i <= FirstErrorIndex(walk)
      invariant sockPaths == Selected(walk[..i])
    {
      SelectedStep(walk, i);
      match walk[i] {
        case VisitErr(_, err) =>
          return Failure(err);
        case Visit(path, info) =>
          if info.IsDir() {
          } else if info.typ != TypeSocket {
          } else if !SockPattern.MatchString(info.name) {
          } else {
            sockPaths := sockPaths + [path];
          }
      }
      i := i + 1;
    }
    assert walk[..i] == walk;
    return Success(sockPaths);
  }

  /** `resolveEventSock`: the override, then the runtime directory, then the walk. */
  method ResolveEventSock(env: map<string, string>, runtimeDir: Result<string, Error>,
                          walkDir: string -> seq<WalkItem>)
    returns (r: Result<seq<string>, Error>)
    ensures r == Resolution(env, runtimeDir, walkDir)
  {
    if EventsSockEnv in env {
      return Success([env[EventsSockEnv]]);
    }
    if runtimeDir.Failure? {
      return Success([]);
    }
    var xdg := runtimeDir.value;
    var walked := WalkEventSockets(walkDir(Join(xdg, PodmanDir)));
    if walked.Failure? {
      if walked.error.IsNotExist() {
        return Success([]);
      }
      return Failure(walked.error);
    }
    return Success(walked.value);
  }

  /** The override wins, even when it is the empty string, and nothing else is consulted. */
  lemma OverrideWins(env: map<string, string>, runtimeDir: Result<string, Error>,
                     walkDir: string -> seq<WalkItem>)
    requires EventsSockEnv in env
    ensures Resolution(env, runtimeDir, walkDir) == Success([env[EventsSockEnv]])
  {
  }

  /** Without an override, a runtime directory that cannot be found gives no paths and no error. */
  lemma NoRuntimeDirMeansNoPaths(env: map<string, string>, err: Error,
                                 walkDir: string -> seq<WalkItem>)
    requires EventsSockEnv !in env
    ensures Resolution(env, Failure(err), walkDir) == Success([])
  {
  }

  /** A path is selected iff the walk visits it as a non-directory socket with a matching name. */
  lemma {:induction false} SelectedMember(walk: seq<WalkItem>, p: string)
    ensures p in Selected(walk) <==>
            exists i :: 0 <= i < |walk| && walk[i].Visit? && walk[i].path == p && IsEventSocket(walk[i].info)
  {
    var kept := Filter(walk, IsEventSocketVisit);
    if p in Selected(walk) {
      var k :| 0 <= k < |kept| && kept[k].path == p;
      FilterMember(walk, IsEventSocketVisit, kept[k]);
      var i :| 0 <= i < |walk| && walk[i] == kept[k];
      assert walk[i].Visit? && walk[i].path == p && IsEventSocket(walk[i].info);
    }
    if i :| 0 <= i < |walk| && walk[i].Visit? && walk[i].path == p && IsEventSocket(walk[i].info) {
      FilterMember(walk, IsEventSocketVisit, walk[i]);
      var k :| 0 <= k < |kept| && kept[k] == walk[i];
      assert Selected(walk)[k] == p;
    }
  }

  /** Selection keeps walk order: the paths of a longer walk extend those of its prefix. */
  lemma SelectedAppend(a: seq<WalkItem>, b: seq<WalkItem>)
    ensures Selected(a + b) == Selected(a) + Selected(b)
  {
    FilterAppend(a, b, IsEventSocketVisit);
    var fa, fb := Filter(a, IsEventSocketVisit), Filter(b, IsEventSocketVisit);
    assert Paths(fa + fb) == Paths(fa) + Paths(fb);
  }

  /** An error-free walk yields exactly the selected paths. */
  lemma ErrorFreeWalk(walk: seq<WalkItem>)
    requires forall i :: 0 <= i < |walk| ==> walk[i].Visit?
    ensures WalkOutcome(walk) == Success(Selected(walk))
  {
  }

  /** The first error stops the walk: whatever follows it is never looked at. */
  lemma {:induction false} FirstErrorStops(before: seq<WalkItem>, path: string, err: Error, after: seq<WalkItem>)
    requires forall i :: 0 <= i < |before| ==> before[i].Visit?
    ensures WalkOutcome(before + [VisitErr(path, err)] + after) == Failure(err)
    decreases |before|
  {
    var walk := before + [VisitErr(path, err)] + after;
    if before == [] {
      assert walk[0] == VisitErr(path, err);
    } else {
      assert walk[1..] == before[1..] + [VisitErr(path, err)] + after;
      FirstErrorStops(before[1..], path, err, after);
    }
  }

  /** A walk that hits "does not exist" resolves to no paths, discarding those found before it. */
  lemma NotExistDiscardsPaths(env: map<string, string>, xdg: string, walkDir: string -> seq<WalkItem>,
                              before: seq<WalkItem>, path: string, err: Error, after: seq<WalkItem>)
    requires EventsSockEnv !in env
    requires forall i :: 0 <= i < |before| ==> before[i].Visit?
    requires err.IsNotExist()
    requires walkDir(Join(xdg, PodmanDir)) == before + [VisitErr(path, err)] + after
    ensures Resolution(env, Success(xdg), walkDir) == Success([])
  {
    FirstErrorStops(before, path, err, after);
  }

  /** Any other walk error is returned, with no paths. */
  lemma OtherErrorPropagates(env: map<string, string>, xdg: string, walkDir: string -> seq<WalkItem>,
                             before: seq<WalkItem>, path: string, err: Error, after: seq<WalkItem>)
    requires EventsSockEnv !in env
    requires forall i :: 0 <= i < |before| ==> before[i].Visit?
    requires !err.IsNotExist()
    requires walkDir(Join(xdg, PodmanDir)) == before + [VisitErr(path, err)] + after
    ensures Resolution(env, Success(xdg), walkDir) == Failure(err)
  {
    FirstErrorStops(before, path, err, after);
  }

  /** Without an override and without walk errors, the result is the selected paths of the walk. */
  lemma ErrorFreeResolution(env: map<string, string>, xdg: string, walkDir: string -> seq<WalkItem>)
    requires EventsSockEnv !in env
    requires forall i :: 0 <= i < |walkDir(Join(xdg, PodmanDir))| ==> walkDir(Join(xdg, PodmanDir))[i].Visit?
    ensures Resolution(env, Success(xdg), walkDir) == Success(Selected(walkDir(Join(xdg, PodmanDir))))
  {
    ErrorFreeWalk(walkDir(Join(xdg, PodmanDir)));
  }
}

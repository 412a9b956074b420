/** The slice of Go's `os` and `path/filepath` packages that the event-socket resolver sees. */
module Fs {

  /** The type bits of an `os.FileMode`, as `os.DirEntry.Type()` reports them. */
  datatype FileType =
    | TypeRegular
    | TypeDir
    | TypeSymlink
    | TypeNamedPipe
    | TypeSocket
    | TypeDevice
    | TypeCharDevice
    | TypeIrregular

  /** An `os.DirEntry`: the base name of the entry and its type bits. */
  datatype DirEntry = DirEntry(name: string, typ: FileType) {
    predicate IsDir() { typ == TypeDir }
  }

  /** Errors, distinguished only as far as `errors.Is(err, os.ErrNotExist)` does. */
  datatype Error = ErrNotExist(path: string) | ErrOther(msg: string) {
    predicate IsNotExist() { ErrNotExist? }
  }

  /**
   * One invocation of a `filepath.WalkDir` callback: either an entry that was visited at `path`,
   * or an error that the walk reports for `path` (the root cannot be read, a directory cannot be
   * listed).
   */
  datatype WalkItem = Visit(path: string, info: DirEntry) | VisitErr(path: string, err: Error)

  /**
   * `filepath.Join(dir, elem)` for a relative single-component `elem`: an empty `dir` is dropped,
   * otherwise the two are joined by one separator.
   */
  function Join(dir: string, elem: string): (r: string)
    ensures dir == "" ==> r == elem
    ensures dir != "" ==> |r| == |dir| + 1 + |elem| && r[..|dir|] == dir && r[|dir|] == '/' && r[|dir| + 1..] == elem
  {
    if dir == "" then elem else dir + "/" + elem
  }
}

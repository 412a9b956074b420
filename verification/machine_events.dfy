/**
 * The machine-event notifier: the package state of `cmd/podman/machine` (`sockPaths`, the
 * `openEventSock` once-flag and `sockets`), the pre-hook that connects to the resolved sockets,
 * the publisher, and the post-hook that closes them.
 *
 * Dialling, writing, closing and marshalling are not carried out. Their outcomes are inputs: the
 * set `listening` of paths at which a dial succeeds, the set `failing` of paths whose connections
 * refuse writes, and the function `marshal`. The calls made are recorded, in order, in the ghost trace `io`.
 */
module MachineEvents {
  import opened Wrappers
  import opened Fs
  import opened Events
  import EventSock

  /** An open unix-socket connection (`net.Conn`), identified by the object itself. */
  class Conn {
    const path: string

    constructor (path: string)
      ensures this.path == path
    {
      this.path := path;
    }
  }

  /** One call the notifier makes on the outside world, with its outcome. */
  datatype Action =
    | Dial(path: string, ok: bool)
    | Write(conn: Conn, payload: Payload, ok: bool)
    | Close(conn: Conn)

  /** The socket path of each connection, in order. */
  function ConnPaths(socks: seq<Conn>): (r: seq<string>)
    ensures |r| == |socks|
    ensures forall i :: 0 <= i < |socks| ==> r[i] == socks[i].path
  {
    seq(|socks|, i requires 0 <= i < |socks| => socks[i].path)
  }

  /** The paths, in order, at which a dial succeeds. */
  function Answering(paths: seq<string>, listening: set<string>): (r: seq<string>)
    ensures |r| <= |paths|
    decreases |paths|
  {
    if paths == [] then []
    else
      var last := paths[|paths| - 1];
      Answering(paths[..|paths| - 1], listening) + (if last in listening then [last] else [])
  }

  /** One dial attempt per path, in path order. */
  function DialActions(paths: seq<string>, listening: set<string>): (r: seq<Action>)
    ensures |r| == |paths|
    decreases |paths|
  {
    if paths == [] then []
    else
      var last := paths[|paths| - 1];
      DialActions(paths[..|paths| - 1], listening) + [Dial(last, last in listening)]
  }

  /** One write of `payload` per connection, in connection order, whatever each write's outcome. */
  function WriteActions(socks: seq<Conn>, payload: Payload, failing: set<string>): (r: seq<Action>)
    ensures |r| == |socks|
    decreases |socks|
  {
    if socks == [] then []
    else
      var last := socks[|socks| - 1];
      WriteActions(socks[..|socks| - 1], payload, failing) + [Write(last, payload, last.path !in failing)]
  }

  /** One close per connection, in connection order. */
  function CloseActions(socks: seq<Conn>): (r: seq<Action>)
    ensures |r| == |socks|
    decreases |socks|
  {
    if socks == [] then [] else CloseActions(socks[..|socks| - 1]) + [Close(socks[|socks| - 1])]
  }

  /** The connections that the writes among `actions` go to, in order. */
  function WrittenConns(actions: seq<Action>): (r: seq<Conn>)
    ensures |r| <= |actions|
    decreases |actions|
  {
    if actions == [] then []
    else
      var last := actions[|actions| - 1];
      WrittenConns(actions[..|actions| - 1]) + (if last.Write? then [last.conn] else [])
  }

  /** The dials keep exactly the listening paths: a path gets a connection iff its dial succeeds. */
  lemma {:induction false} AnsweringMember(paths: seq<string>, listening: set<string>, p: string)
    ensures p in Answering(paths, listening) <==> p in paths && p in listening
    decreases |paths|
  {
    if paths != [] {
      var init := paths[..|paths| - 1];
      AnsweringMember(init, listening, p);
      assert paths == init + [paths[|paths| - 1]];
    }
  }

  /** No connection is lost exactly when every resolved path is listening. */
  lemma {:induction false} AnsweringAll(paths: seq<string>, listening: set<string>)
    ensures Answering(paths, listening) == paths <==> forall i :: 0 <= i < |paths| ==> paths[i] in listening
    decreases |paths|
  {
    if paths != [] {
      var init := paths[..|paths| - 1];
      AnsweringAll(init, listening);
      if paths[|paths| - 1] !in listening {
        assert |Answering(paths, listening)| < |paths|;
      }
    }
  }

  /**
   * Delivery is best effort and complete: whatever the write outcomes, every live connection is
   * written the one payload, once, in the order of `sockets`.
   */
  lemma {:induction false} WritesReachEverySocket(socks: seq<Conn>, payload: Payload, failing: set<string>)
    ensures WrittenConns(WriteActions(socks, payload, failing)) == socks
    ensures forall i :: 0 <= i < |socks| ==>
      WriteActions(socks, payload, failing)[i] == Write(socks[i], payload, socks[i].path !in failing)
    decreases |socks|
  {
    if socks != [] {
      var init := socks[..|socks| - 1];
      WritesReachEverySocket(init, payload, failing);
      var w := WriteActions(socks, payload, failing);
      assert w[..|w| - 1] == WriteActions(init, payload, failing);
      assert socks == init + [socks[|socks| - 1]];
    }
  }

  /** The post-hook closes every connection, once, in the order of `sockets`. */
  lemma {:induction false} ClosesReachEverySocket(socks: seq<Conn>)
    ensures forall i :: 0 <= i < |socks| ==> CloseActions(socks)[i] == Close(socks[i])
    decreases |socks|
  {
    if socks != [] {
      var init := socks[..|socks| - 1];
      ClosesReachEverySocket(init);
      assert CloseActions(socks)[..|socks| - 1] == CloseActions(init);
    }
  }

  /** One more path dialled extends the dial calls by one, and the connections by at most one. */
  lemma DialStep(paths: seq<string>, i: nat, listening: set<string>)
    requires i < |paths|
    ensures DialActions(paths[..i + 1], listening) == DialActions(paths[..i], listening) + [Dial(paths[i], paths[i] in listening)]
    ensures Answering(paths[..i + 1], listening) ==
            Answering(paths[..i], listening) + (if paths[i] in listening then [paths[i]] else [])
  {
    assert paths[..i + 1][..i] == paths[..i];
  }

  /**
   * One turn of the dial loop, on the values it changes: if the first `i` paths have been dialled
   * and their connections appended, dialling path `i` extends both by that path's outcome.
   */
  lemma DialProgress(paths: seq<string>, i: nat, listening: set<string>,
                     sockets0: seq<Conn>, io0: seq<Action>, added: seq<Conn>,
                     sockets: seq<Conn>, io: seq<Action>, conn: seq<Conn>,
                     sockets': seq<Conn>, io': seq<Action>)
    requires i < |paths|
    requires sockets == sockets0 + added && io == io0 + DialActions(paths[..i], listening)
    requires ConnPaths(added) == Answering(paths[..i], listening)
    requires |conn| <= 1 && ConnPaths(conn) == (if paths[i] in listening then [paths[i]] else [])
    requires sockets' == sockets + conn && io' == io + [Dial(paths[i], paths[i] in listening)]
    ensures sockets' == sockets0 + (added + conn)
    ensures io' == io0 + DialActions(paths[..i + 1], listening)
    ensures ConnPaths(added + conn) == Answering(paths[..i + 1], listening)
  {
    DialStep(paths, i, listening);
    ConnPathsAppend(added, conn);
  }

  /** Appending connections appends their paths, in order. */
  lemma ConnPathsAppend(socks: seq<Conn>, more: seq<Conn>)
    ensures ConnPaths(socks + more) == ConnPaths(socks) + ConnPaths(more)
  {
  }

  /**
   * The writes one publication makes: none when the stamped event cannot be marshalled, otherwise
   * one write of its payload per connection.
   */
  function PublishWrites(status: string, event: Event, now: Instant, socks: seq<Conn>,
                         marshal: Event -> Result<Payload, Error>, failing: set<string>): seq<Action>
  {
    match marshal(Stamp(status, event, now))
    case Failure(_) => []
    case Success(payload) => WriteActions(socks, payload, failing)
  }

  /** The package state of `cmd/podman/machine` that the notifier uses. */
  class Notifier {
    /** The package-level `sockPaths`; no statement of the package assigns it. */
    var sockPaths: seq<string>
    /** Whether `openEventSock.Do` has already run its function. */
    var openEventSockDone: bool
    /** The package-level `sockets`: the connections opened so far. */
    var sockets: seq<Conn>

    /** The calls made on the outside world so far, in order. */
    ghost var io: seq<Action>

    /** The zero values of the package variables at process start. */
    constructor ()
      ensures sockPaths == [] && sockets == [] && !openEventSockDone && io == []
    {
      sockPaths := [];
      openEventSockDone := false;
      sockets := [];
      io := [];
    }

    /**
     * The dial loop (written out twice in the source, in the pre-hook and in the once-guarded
     * block): a failed dial is skipped, a successful one appends a new connection to `sockets`.
     */
    method DialEventSockets(paths: seq<string>, listening: set<string>) returns (ghost added: seq<Conn>)
      modifies this`sockets, this`io
      ensures sockets == old(sockets) + added
      ensures ConnPaths(added) == Answering(paths, listening)
      ensures forall c :: c in added ==> fresh(c)
      ensures io == old(io) + DialActions(paths, listening)
    {
      added := [];
      var i := 0;
      while i < |paths|
        invariant 0 <= i <= |paths|
        invariant sockets == old(sockets) + added
        invariant ConnPaths(added) == Answering(paths[..i], listening)
        invariant forall c :: c in added ==> fresh(c)
        invariant io == old(io) + DialActions(paths[..i], listening)
      {
        ghost var socketsBefore, ioBefore := sockets, io;
        ghost var conn := DialEventSocket(paths[i], listening);
        DialProgress(paths, i, listening, old(sockets), old(io), added, socketsBefore, ioBefore, conn, sockets, io);
        added := added + conn;
        i := i + 1;
      }
      assert paths[..i] == paths;
    }

    /** One turn of the dial loop: a connection is appended iff the dial succeeds. */
    method DialEventSocket(path: string, listening: set<string>) returns (ghost added: seq<Conn>)
      modifies this`sockets, this`io
      ensures sockets == old(sockets) + added
      ensures ConnPaths(added) == (if path in listening then [path] else [])
      ensures forall c :: c in added ==> fresh(c)
      ensures io == old(io) + [Dial(path, path in listening)]
    {
      added := [];
      io := io + [Dial(path, path in listening)];
      if path in listening {
        var conn := new Conn(path);
        sockets := sockets + [conn];
        added := [conn];
        assert ConnPaths(added) == ConnPaths([]) + [conn.path];
      }
    }

    /**
     * `initMachineEvents`, the pre-hook: resolves the socket paths into a local variable (the
     * package-level `sockPaths` is not assigned) and dials each of them.
     */
    method InitMachineEvents(env: map<string, string>, runtimeDir: Result<string, Error>,
                             walkDir: string -> seq<WalkItem>, listening: set<string>)
      returns (err: Option<Error>, ghost added: seq<Conn>)
      modifies this`sockets, this`io
      ensures sockets == old(sockets) + added
      ensures forall c :: c in added ==> fresh(c)
      ensures match EventSock.Resolution(env, runtimeDir, walkDir)
        case Failure(e) => err == Some(e) && added == [] && io == old(io)
        case Success(paths) =>
          && err == None
          && ConnPaths(added) == Answering(paths, listening)
          && io == old(io) + DialActions(paths, listening)
    {
      added := [];
      var resolved := EventSock.ResolveEventSock(env, runtimeDir, walkDir);
      if resolved.Failure? {
        return Some(resolved.error), added;
      }
      var paths := resolved.value;
      if |paths| == 0 {
        return None, added;
      }
      added := DialEventSockets(paths, listening);
      return None, added;
    }

    /**
     * `openEventSock.Do(...)` in `newMachineEvent`: the first call dials the package-level
     * `sockPaths` unless it is empty; every later call does nothing.
     */
    method OpenEventSockOnce(listening: set<string>) returns (ghost added: seq<Conn>)
      modifies this`openEventSockDone, this`sockets, this`io
      ensures openEventSockDone
      ensures sockets == old(sockets) + added
      ensures old(openEventSockDone) ==> added == [] && io == old(io)
      ensures !old(openEventSockDone) ==>
        ConnPaths(added) == Answering(sockPaths, listening) && io == old(io) + DialActions(sockPaths, listening)
      ensures sockPaths == [] ==> added == [] && io == old(io)
    {
      added := [];
      if openEventSockDone {
        return;
      }
      openEventSockDone := true;
      if |sockPaths| == 0 {
        return;
      }
      added := DialEventSockets(sockPaths, listening);
    }

    /**
     * `newMachineEvent`, the publisher: runs the once-guarded block, stamps the event, and writes
     * its serialisation to every connection in `sockets`, carrying on past failed writes.
     */
    method NewMachineEvent(status: string, event: Event, now: Instant,
                           marshal: Event -> Result<Payload, Error>,
                           listening: set<string>, failing: set<string>)
      modifies this`openEventSockDone, this`sockets, this`io
      ensures openEventSockDone
      ensures old(openEventSockDone) || sockPaths == [] ==> sockets == old(sockets)
      ensures |old(sockets)| <= |sockets| && sockets[..|old(sockets)|] == old(sockets)
      ensures !old(openEventSockDone) ==> ConnPaths(sockets[|old(sockets)|..]) == Answering(sockPaths, listening)
      ensures
        var dialed := if old(openEventSockDone) then [] else DialActions(sockPaths, listening);
        io == old(io) + dialed + PublishWrites(status, event, now, sockets, marshal, failing)
    {
      ghost var added := OpenEventSockOnce(listening);
      assert sockets[..|old(sockets)|] == old(sockets) && sockets[|old(sockets)|..] == added;

      var stamped := Stamp(status, event, now);

      var marshalled := marshal(stamped);
      if marshalled.Failure? {
        return;
      }
      WriteEventSockets(marshalled.value, failing);
    }

    /** The write loop of `newMachineEvent`: a failed write is skipped, the loop carries on. */
    method WriteEventSockets(payload: Payload, failing: set<string>)
      modifies this`io
      ensures io == old(io) + WriteActions(sockets, payload, failing)
    {
      for k := 0 to |sockets|
        modifies this`io
        invariant io == old(io) + WriteActions(sockets[..k], payload, failing)
      {
        assert sockets[..k + 1][..k] == sockets[..k];
        io := io + [Write(sockets[k], payload, sockets[k].path !in failing)];
      }
      assert sockets[..|sockets|] == sockets;
    }

    /**
     * `closeMachineEvents`, the post-hook: closes every connection, ignores close errors, always
     * succeeds, and leaves `sockets` as it was.
     */
    method CloseMachineEvents() returns (err: Option<Error>)
      modifies this`io
      ensures err == None
      ensures io == old(io) + CloseActions(sockets)
    {
      for k := 0 to |sockets|
        modifies this`io
        invariant io == old(io) + CloseActions(sockets[..k])
      {
        assert sockets[..k + 1][..k] == sockets[..k];
        io := io + [Close(sockets[k])];
      }
      assert sockets[..|sockets|] == sockets;
      return None;
    }
  }

  /** One `newMachineEvent` call made by a command body. */
  datatype Publication = Publication(status: string, event: Event, now: Instant)

  /** The writes that a sequence of publications makes on a fixed set of connections. */
  function PublishActions(pubs: seq<Publication>, socks: seq<Conn>,
                          marshal: Event -> Result<Payload, Error>, failing: set<string>): seq<Action>
    decreases |pubs|
  {
    if pubs == [] then []
    else
      var last := pubs[|pubs| - 1];
      PublishActions(pubs[..|pubs| - 1], socks, marshal, failing)
        + PublishWrites(last.status, last.event, last.now, socks, marshal, failing)
  }

  /** A command body that publishes `pubs` in order, after the pre-hook left `sockPaths` empty. */
  method PublishAll(n: Notifier, pubs: seq<Publication>, marshal: Event -> Result<Payload, Error>,
                    listening: set<string>, failing: set<string>)
    requires n.sockPaths == []
    modifies n`openEventSockDone, n`sockets, n`io
    ensures n.sockets == old(n.sockets)
    ensures n.io == old(n.io) + PublishActions(pubs, n.sockets, marshal, failing)
  {
    for k := 0 to |pubs|
      invariant n.sockets == old(n.sockets)
      invariant n.io == old(n.io) + PublishActions(pubs[..k], n.sockets, marshal, failing)
    {
      var pub := pubs[k];
      assert pubs[..k + 1][..k] == pubs[..k];
      n.NewMachineEvent(pub.status, pub.event, pub.now, marshal, listening, failing);
    }
    assert pubs[..|pubs|] == pubs;
  }

  /**
   * The command body's publications followed by the post-hook, after a pre-hook that left
   * `sockPaths` empty: each publication writes to the pre-hook's connections, then each of them
   * is closed.
   */
  method PublishAndClose(n: Notifier, pubs: seq<Publication>, marshal: Event -> Result<Payload, Error>,
                         listening: set<string>, failing: set<string>)
    returns (err: Option<Error>)
    requires n.sockPaths == []
    modifies n`openEventSockDone, n`sockets, n`io
    ensures err == None && n.sockets == old(n.sockets)
    ensures n.io == old(n.io) + PublishActions(pubs, n.sockets, marshal, failing) + CloseActions(n.sockets)
  {
    PublishAll(n, pubs, marshal, listening, failing);
    err := n.CloseMachineEvents();
  }

  /**
   * A `podman machine` command from process start to end, in the order `machineCmd` binds its
   * hooks: the pre-hook, the command body's publications, the post-hook. A pre-hook error aborts
   * the command. Every resolved path is dialled exactly once, by the pre-hook; publishing never
   * dials; each publication writes to the connections the pre-hook opened; the post-hook closes
   * exactly those.
   */
  method RunMachineCommand(env: map<string, string>, runtimeDir: Result<string, Error>,
                           walkDir: string -> seq<WalkItem>, listening: set<string>,
                           pubs: seq<Publication>, marshal: Event -> Result<Payload, Error>,
                           failing: set<string>)
    returns (err: Option<Error>, ghost live: seq<Conn>, ghost trace: seq<Action>)
    ensures EventSock.Resolution(env, runtimeDir, walkDir).Failure? ==>
      err == Some(EventSock.Resolution(env, runtimeDir, walkDir).error) && live == [] && trace == []
    ensures EventSock.Resolution(env, runtimeDir, walkDir).Success? ==>
      var paths := EventSock.Resolution(env, runtimeDir, walkDir).value;
      && err == None
      && ConnPaths(live) == Answering(paths, listening)
      && trace == DialActions(paths, listening) + PublishActions(pubs, live, marshal, failing) + CloseActions(live)
  {
    ghost var resolved := EventSock.Resolution(env, runtimeDir, walkDir);
    var n := new Notifier();
    ghost var added;
    err, added := n.InitMachineEvents(env, runtimeDir, walkDir, listening);
    if err.Some? {
      assert resolved.Failure?;
      return err, n.sockets, n.io;
    }
    assert resolved.Success?;
    assert n.sockets == added && n.io == DialActions(resolved.value, listening);
    live := n.sockets;
    err := PublishAndClose(n, pubs, marshal, listening, failing);
    trace := n.io;
  }
}

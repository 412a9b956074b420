# Machine-event notifier of `podman machine`

This project models the event notifier in `cmd/podman/machine/machine.go`. It is written in Dafny and its properties are proved. The notifier does four things:

- **Endpoint resolution** (`resolveEventSock`). The environment variable `PODMAN_MACHINE_EVENTS_SOCK` overrides everything. Otherwise the notifier walks `<runtime dir>/podman`. A path is kept when its entry is not a directory, is exactly a socket, and has a name that matches `machine_events.*\.sock`.
- **The pre-hook** (`initMachineEvents`). It resolves the endpoints and dials each one. A failed dial is skipped.
- **The publisher** (`newMachineEvent`). It runs a `sync.Once` block, stamps the event with a status, the time and the type `machine`, and marshals it. It then writes the payload to every open connection and carries on past failed writes.
- **The post-hook** (`closeMachineEvents`). It closes every connection and ignores close errors.

The project also models shell completion of machine names (`getMachines`, `autocompleteMachine`, `autocompleteMachineSSH`).

Modules:

- `Wrappers` holds `Option` and `Result`.
- `Fs` holds the slice of `os` and `path/filepath` that the resolver sees: directory entries, file types, errors, the callbacks of one walk, and `Join`.
- `Seqs` holds an order-preserving filter.
- `SockPattern` holds the socket-name regular expression, written as a scanner. The scanner is proved equal to the pattern's meaning.
- `EventSock` holds the resolver.
- `Events` holds the event record and its stamping.
- `MachineEvents` holds a `Notifier` class with the package state (`sockPaths`, the once flag, `sockets`), plus the hooks and the publisher.
- `Completion` holds the completers.

The outside world enters the model as inputs:

- the environment is a map;
- `util.GetRuntimeDir()` is a `Result`;
- `filepath.WalkDir` is the sequence of callback invocations it would make for a root;
- the dial outcome is the set of paths that are listening;
- the write outcome is the set of socket paths whose connections refuse writes;
- `json.Marshal` is a function `marshal`;
- `time.Now()` is a value `now`.

Dialling, writing and closing are recorded in order in a ghost trace `io` of `Action`s.

In a few places the code does less than it appears to, and the model follows the code:

- The name pattern is unanchored. It matches any name that contains `machine_events`, followed later by `.sock` with no newline between the two. It is not a prefix-and-suffix test on the name. `SockPattern.UnanchoredMatch` states it.
- The pre-hook does the dialling. The comment on `openEventSock` at line 30 says sockets are opened as needed, by the `Do` block in `newMachineEvent`. But line 85 declares a new local `sockPaths` with `:=`, so the package-level `sockPaths` is never assigned. The `Do` block therefore always sees an empty list and never dials.
- An error from the walk, other than "does not exist", is returned by the pre-hook and aborts the command.
- The post-hook does not clear `sockets`, so it is not idempotent. Calling it twice closes every connection twice, and the second set of closes returns errors that are ignored. `MachineEvents.Notifier.CloseMachineEvents` states that the closes are appended each time.

## Model

| member | source | states |
|---|---|---|
| Fs.Join | cmd/podman/machine/machine.go:138 | the walked root is the runtime directory, a separator, then `podman`; an empty runtime directory is dropped, leaving the relative `podman` |
| SockPattern.MatchFound | cmd/podman/machine/machine.go:119 | when the scanner accepts a name, the pattern matches it at some prefix position `i` and suffix position `j`, with no newline between them |
| SockPattern.MatchFoundAll | cmd/podman/machine/machine.go:119 | every match of the pattern, at any position, is accepted by the scanner |
| SockPattern.MatchStringCorrect | cmd/podman/machine/machine.go:119 | the scanner accepts a name iff `machine_events.*\.sock` matches somewhere in it (unanchored, `.` not matching a newline) |
| SockPattern.UnanchoredMatch | cmd/podman/machine/machine.go:119 | any text before `machine_events`, any newline-free text between it and `.sock`, and any text after still match |
| SockPattern.SuffixFound | cmd/podman/machine/machine.go:119 | when the tail scanner accepts, `.sock` occurs with no newline before it |
| SockPattern.SuffixFoundAll | cmd/podman/machine/machine.go:119 | every `.sock` with no newline before it is found by the tail scanner |
| Seqs.FilterMember | cmd/podman/machine/machine.go:121-136 | an element is kept iff it is in the input and accepted |
| Seqs.FilterAppend | cmd/podman/machine/machine.go:121-136 | filtering a concatenation is the concatenation of the filtered parts, so order is kept |
| Seqs.FilterKeepsAll | cmd/podman/machine/machine.go:74-78 | nothing is dropped iff every element is accepted |
| EventSock.FirstErrorIndex | cmd/podman/machine/machine.go:122-124 | the first error position: every earlier callback is a visit, and the one at the position is an error |
| EventSock.WalkEventSockets | cmd/podman/machine/machine.go:121-138 | the walk loop returns the first callback error, or else the selected socket paths in walk order |
| EventSock.ResolveEventSock | cmd/podman/machine/machine.go:107-145 | `resolveEventSock` returns the override, or an empty success without a runtime directory, or the walk's paths; "does not exist" gives an empty success and other walk errors are returned |
| EventSock.OverrideWins | cmd/podman/machine/machine.go:109-111 | a set override, even the empty string, is the only path and nothing else is consulted |
| EventSock.NoRuntimeDirMeansNoPaths | cmd/podman/machine/machine.go:113-117 | without an override, a runtime-directory error gives no paths and no error |
| EventSock.SelectedMember | cmd/podman/machine/machine.go:121-136 | a path is collected iff the walk visits it as a non-directory entry of socket type whose name matches |
| EventSock.SelectedAppend | cmd/podman/machine/machine.go:134 | collection keeps walk order: the paths of a longer walk extend those of its prefix |
| EventSock.SelectedStep | cmd/podman/machine/machine.go:122-134 | one callback adds its path iff it is a matching socket visit |
| EventSock.ErrorFreeWalk | cmd/podman/machine/machine.go:138-144 | a walk without errors returns exactly the collected paths |
| EventSock.FirstErrorStops | cmd/podman/machine/machine.go:123-124 | the first error ends the walk and is its result, whatever comes after |
| EventSock.NotExistDiscardsPaths | cmd/podman/machine/machine.go:138-141 | a "does not exist" walk error gives no paths and no error, even when sockets were found before it |
| EventSock.OtherErrorPropagates | cmd/podman/machine/machine.go:138-143 | any other walk error is returned |
| EventSock.ErrorFreeResolution | cmd/podman/machine/machine.go:113-144 | without an override and with an error-free walk, the result is the walk's collected paths |
| Events.Stamp | cmd/podman/machine/machine.go:165-167 | status, time and type are overwritten (type `machine`), and every caller-supplied field is kept |
| Events.StampForgetsCallerStamp | cmd/podman/machine/machine.go:165-167 | a status and time the caller left in the record have no effect on what is published |
| Completion.PrefixMatchesMember | cmd/podman/machine/machine.go:74-78 | a name is suggested iff the provider lists it and it starts with the partial input |
| Completion.PrefixMatchesAppend | cmd/podman/machine/machine.go:74-78 | suggestions keep the provider's order |
| Completion.EmptyInputSuggestsAll | cmd/podman/machine/machine.go:75 | an empty partial input suggests every listed name |
| Completion.GetMachines | cmd/podman/machine/machine.go:66-80 | a listing error gives nil suggestions; otherwise the prefix matches in list order; the directive is always no-file-completion |
| Completion.AutocompleteMachineSSH | cmd/podman/machine/machine.go:51-56 | completes only the first argument; later arguments give nil with the default directive |
| Completion.AutocompleteMachine | cmd/podman/machine/machine.go:59-64 | completes only the first argument; never offers file names |
| MachineEvents.AnsweringMember | cmd/podman/machine/machine.go:95-103 | a path gets a connection iff it is resolved and its dial succeeds |
| MachineEvents.AnsweringAll | cmd/podman/machine/machine.go:95-103 | no connection is missing iff every resolved path is listening |
| MachineEvents.ClosesReachEverySocket | cmd/podman/machine/machine.go:184-186 | the i-th close goes to the i-th connection: every connection is closed once, in `sockets` order |
| MachineEvents.ConnPathsAppend | cmd/podman/machine/machine.go:102 | appending connections to `sockets` appends their paths, in order, to the paths of the connections already there |
| MachineEvents.DialProgress | cmd/podman/machine/machine.go:95-103 | given a turn of the dial loop that appends path `i`'s connection iff it listens and records its dial, the loop's summary moves from `i` to `i + 1`: `sockets` is the old connections plus those of the listening paths among the first `i + 1`, and the trace holds their `i + 1` dials in order |
| MachineEvents.WritesReachEverySocket | cmd/podman/machine/machine.go:175-179 | whatever writes fail, every connection is written the payload exactly once, in `sockets` order |
| MachineEvents.Notifier.constructor | cmd/podman/machine/machine.go:29-31 | the package variables start empty, with the once flag unset |
| MachineEvents.Notifier.DialEventSockets | cmd/podman/machine/machine.go:95-103 | one dial per path in order; `sockets` grows by new connections for exactly the listening paths |
| MachineEvents.Notifier.DialEventSocket | cmd/podman/machine/machine.go:96-102 | one dial; a new connection is appended iff it succeeds |
| MachineEvents.Notifier.InitMachineEvents | cmd/podman/machine/machine.go:82-105 | a resolution error is returned with no dial; otherwise every resolved path is dialled once and the listening ones are connected |
| MachineEvents.Notifier.OpenEventSockOnce | cmd/podman/machine/machine.go:148-163 | the first call runs the block once (no dial if `sockPaths` is empty); every later call does nothing |
| MachineEvents.Notifier.NewMachineEvent | cmd/podman/machine/machine.go:147-180 | runs the once block, then writes the stamped event's payload to every connection; a marshal error writes nothing |
| MachineEvents.Notifier.WriteEventSockets | cmd/podman/machine/machine.go:175-179 | one write per connection in order, carrying on past failures |
| MachineEvents.Notifier.CloseMachineEvents | cmd/podman/machine/machine.go:182-188 | one close per connection, in order; always succeeds; `sockets` is kept |
| MachineEvents.PublishAll | cmd/podman/machine/machine.go:147-180 | with `sockPaths` never assigned, publishing never dials and never changes `sockets`; each event is written to every connection, in publish order |
| MachineEvents.PublishAndClose | cmd/podman/machine/machine.go:147-188 | after the pre-hook, publishing then the post-hook write each event to every connection in order and then close every connection once; `sockets` is unchanged and no error is returned |
| MachineEvents.RunMachineCommand | cmd/podman/machine/machine.go:34-41 | over a whole command, a resolution error aborts with no I/O; otherwise the trace is one dial per resolved path, then the writes, then one close per connection the pre-hook opened |

## Left out

- Real dialling, writing and closing are not modelled. The sets `listening` and `failing` give their outcomes, both as socket paths. A dial or a write therefore succeeds or fails according to its socket path alone; timing and repeated attempts do not change it. `registry.Context()` and dial timeouts are not modelled.
- `json.Marshal` and the configured JSON library are a function parameter; the wire format is not modelled.
- `time.Now()` is a parameter `now`.
- Go's `regexp` engine is not modelled in general; only the one pattern `machine_events.*\.sock` is, by a scanner proved equal to its meaning.
- Fs.Join: only an empty directory is dropped; `filepath.Join`'s cleaning of the path (removing duplicate or trailing separators, resolving `.` and `..`) is not modelled.
- `filepath.WalkDir` is modelled by the callback invocations it makes. The model does not derive them from a directory tree, and it does not model `SkipDir`.
- The thread safety of `sync.Once` is not modelled; the model is single-threaded. The once flag is the field `openEventSockDone`, and "at most once" is stated by `MachineEvents.Notifier.OpenEventSockOnce`: when the flag was already set, the call adds no connection and leaves the trace unchanged.
- Logging (`logrus`, `cobra.CompErrorln`) is not modelled.
- Command registration (`init`, the `machineCmd` definition) is not modelled. `MachineEvents.RunMachineCommand` stands for the order in which cobra runs the hooks and the body.
- `getSystemDefaultProvider` and `provider.List` become an input listing. `machine.ListOptions` and the other fields of `ListResponse` are not modelled.
- `events.Event` has only the fields the notifier touches, plus representative context fields. `libpod/events` is not part of this model.
- `pkg/domain/entities/manifest.go` holds only option structs that the notifier does not use, and is not modelled.
- Go's nil and empty slices are told apart only where the code returns nil: `Option.None` in the completers. In the resolver both are the empty sequence, as callers only test the length.
- MachineEvents.Notifier.DialEventSockets: the ghost `io` trace records each dial's path and outcome, not the error value. The connections in `sockets` are not stated to be pairwise distinct. Each new connection is proved freshly allocated instead, because carrying the pairwise form through the dial loop is too costly for the verifier.
- MachineEvents.RunMachineCommand: the command body cannot fail. A body that returns an error, and what cobra then does about the post-hook, is not modelled.

# Ristretto build scripts — a Dafny model

Ristretto's library build runs untrusted notebook code in a Deno worker
without permissions. The worker reaches the outside world only by posting
`[cmd, ...args]` with a reply port to a privileged host. The host looks the
name up in a fixed command table, answers on the port and closes it. There
are four hosts:

- `run-build.js` reads and writes the working directory. It answers `false`
  on any failure.
- `run-container-build.js` drives docker. It prepares an internal network, an
  external network and two images, then runs the build container on the
  internal network. With the proxy's id read correctly, an HTTP proxy is its
  only way out. As written, the host never connects or starts the proxy (see
  Findings).
- `run-build-in-container.js` runs inside that container. It installs npm
  packages and streams the resulting JavaScript files back as markdown
  documents.
- `run-bundle-libraries.js` reads and replaces the bundle notebook.

On the worker side, `build-in-container.js` turns a `false` reply into an
exception (`parentRequest`). It adapts a port's messages to an async
iterator (`eventToIterator`) and dispatches its first argument by name
(`build`).

The model is functional. Ports are traces of posted messages ending in a
close. A command's behaviour is an outcome datatype. Directories are trees
given in listing order. npm and docker are function parameters that return a
process output, or `None` when the process cannot be spawned.

| module | file | models |
|---|---|---|
| `Base` | base.dfy | bytes, `Option` |
| `Text` | text.dfy | `join`, suffix tests, ASCII lower-casing, decimal rendering and parsing, `JSON.stringify` of a string and its inverse |
| `Rpc` | rpc.dfy | reply framing: streamed replies, single replies, reading a trace back |
| `ProcessOutput` | process_output.dfy | `runNpm`, `runDocker`, awaiting a fixed list of invocations |
| `FsTree` | fs_tree.dfy | directory trees, path lookup, writing a file |
| `HostBuild` | host_build.dfy | `readPaths`, `readFile`, `writeFile` and `handleMessage` of run-build.js |
| `ContainerBuild` | container_build.dfy | the docker argument vectors, a model of the docker state they change, `runBuild` and `handleMessage` of run-container-build.js |
| `InContainerHost` | in_container_host.dfy | `getFiles`, the emitted documents, `install` and `handleMessage` of run-build-in-container.js |
| `BundleHost` | bundle_host.dfy | the commands and `handleMessage` of run-bundle-libraries.js |
| `EventIterator` | event_iterator.dfy | `eventToIterator` as a two-queue state machine |
| `Worker` | worker.dfy | `parentRequest` and `build` |

## Model

| member | source | states |
|---|---|---|
| Rpc.StreamReply | build/build-libraries/run-container-build.js:161-173 | A streamed reply posts the yielded values in production order. It then posts exactly one terminal marker, `{done: true}` exactly when the generator returned and `{error: true}` exactly when it threw, and closes the port as the last event. |
| Rpc.SingleReply | build/build-libraries/run-container-build.js:157-160 | A single reply is one message, the result or the host's failure marker, followed by the close. |
| Rpc.ObserveStreamReply | build/build-libraries/run-container-build.js:161-171 | A reader of a streamed reply recovers exactly the values, in order, and whether the generator finished. |
| Rpc.StreamReplyObserve | build/build-libraries/run-container-build.js:161-173 | Every well-framed trace is the streamed reply of what the reader recovers from it. Framing and reading are mutual inverses. |
| Rpc.HandleMixed | build/build-libraries/run-container-build.js:153-174 | `getArgs` posts one message and never `{done: true}`. A table name is streamed, and its trace reads back as the generator's run. Any other name posts only `{error: true}`, with no value frames. The port is always closed once, at the end. |
| Rpc.StreamFailure | build/build-libraries/run-container-build.js:162-171 | A generator that throws after k values gives those k frames, then `{error: true}`, then the close. `{done: true}` never appears. |
| ProcessOutput.Captured | build/build-libraries/run-build-in-container.js:7-8 | There is a stdout entry exactly when stdout is non-empty and a stderr entry exactly when stderr is non-empty. Stdout comes first, and each entry carries the captured bytes. |
| ProcessOutput.RunNpm | build/build-libraries/run-build-in-container.js:1-18 | The first entry is `-- npm ` followed by the space-joined arguments, then the captured entries. Exit code 0 adds nothing. A nonzero code adds exactly one trailing stderr entry naming it. |
| ProcessOutput.RecoverRunNpm | build/build-libraries/run-build-in-container.js:5-17 | `runNpm` loses nothing: both captured streams and the exit code can be read back from its entries. |
| ProcessOutput.RunDocker | build/build-libraries/run-container-build.js:3-13 | A header entry followed by the captured entries, 1 to 3 entries in all. |
| ProcessOutput.RunDockerStreams | build/build-libraries/run-container-build.js:8-12 | Both captured streams are reported in full. The exit code is not reported: outputs that differ only in their code give the same entries. |
| ProcessOutput.RunSteps | build/build-libraries/run-container-build.js:83-85 | Each awaited invocation's entries are yielded in order. The first invocation that throws ends the generator with a failure. A nonzero exit does not stop it. |
| FsTree.PutFile | run-build.js:27 | After a write, the written name reads back as the new content, and every path under another first component reads as before. |
| FsTree.PutFileFails | run-build.js:27 | A write fails exactly when the first entry carrying the target name is a directory. |
| HostBuild.LevelFiles | run-build.js:5-11 | Each file path reported from one directory is the parent path with one name appended. |
| HostBuild.SubdirPaths | run-build.js:14-18 | Paths from subdirectories are strictly deeper than the directory's own files and keep the parent path as their prefix. |
| HostBuild.ReadPaths | run-build.js:3-19 | Every path extends the parent. No path from a subdirectory is followed by a file of the directory itself, so all files come before any subdirectory's paths. |
| HostBuild.ReadPathsExact | run-build.js:3-19 | A path is reported exactly when a file sits there, no component below the parent starts with `.`, and the name ends with the suffix. |
| HostBuild.LevelFilesOrder | run-build.js:5-13 | Files of a directory are reported in listing order. |
| HostBuild.SubdirOrder | run-build.js:14-18 | Subdirectories are walked in listing order, each one's paths before the next one's. |
| HostBuild.WriteFile | run-build.js:25-32 | A write succeeds only for the path `['notebook.md']`, with byte data or with no data argument, which empties the file. The data is then readable there, and every other top-level path reads as before. |
| HostBuild.HandleMessage | run-build.js:34-55 | Every request gets one message, then the close. `false` is posted exactly when the command is unknown or its operation fails, so a refused write always gets `false`. Only an allowed write changes the tree. `readPaths` answers with the walk from the root using `.md`, and `readFile` with the file's bytes. |
| HostBuild.WriteThenRead | run-build.js:21-32 | After an accepted write of `notebook.md`, reading it gives back the written bytes, and other top-level paths read as before. In the source this holds only for valid UTF-8 without a leading byte-order mark (see Left out). |
| ContainerBuild.ParseArgvRoundTrip | build/build-libraries/run-container-build.js:79-148 | Each docker command's argument vector can be parsed back to the command. |
| ContainerBuild.ArgvInjective | build/build-libraries/run-container-build.js:79-148 | Two commands have the same argument vector only when they are the same command. |
| ContainerBuild.SourceVectors | build/build-libraries/run-container-build.js:79-148 | The command lists of `clean`, `buildImages`, `createNetworks` and `runBuild` render as the literal vectors the host passes to docker. The `--internal` network is created first, and `clean` removes the same two networks in the same order. |
| ContainerBuild.CleanUndoesCreate | build/build-libraries/run-container-build.js:78-116 | On a docker without the two networks, `createNetworks` followed by `clean` leaves the network set as it was. |
| ContainerBuild.Isolation | build/build-libraries/run-container-build.js:117-150 | With the corrected id, on a docker with none of these images, networks or containers, after building the images and creating the networks, `runBuild` gives one build run, on the internal network only. The one container it can reach is the running proxy, under the alias the in-container npm proxy setting names and attached to both networks. The proxy is stopped afterwards. |
| ContainerBuild.RunBuildWith | build/build-libraries/run-container-build.js:125-149 | The values are the id header and the create output, then connect, start, the streamed run of the build container's vector (its `-- docker` header first) and stop, in that order. The generator finishes exactly when none of the awaited docker calls throws. |
| ContainerBuild.Issued | build/build-libraries/run-container-build.js:125-149 | The commands `runBuild` issues after `docker create` are a prefix of connect, start, the build container's run and stop. Each is spawned, except the streamed run, which always follows a start. A shorter list stops exactly at the first command docker cannot spawn. |
| ContainerBuild.RunBuildWithIssues | build/build-libraries/run-container-build.js:117-149 | For every outcome, the values are the id header, the create output and what each issued command yields, in issue order. The streamed step runs the source's `docker run` vector on the internal network. The run finishes exactly when the issued commands are the whole list. |
| ContainerBuild.RunBuild | build/build-libraries/run-container-build.js:117-149 | The corrected `runBuild` from the first Findings row, which is not what the host runs. A failed `docker create` yields nothing. Otherwise the values are what the commands issued against the id read from `docker create`'s output yield. The header and the connect, start and stop commands all name that id, and the build container runs with the source's vector. On a finished run the streamed step starts with its `-- docker` header. The run finishes exactly when all four commands were issued. |
| ContainerBuild.RunBuildAsWritten | build/build-libraries/run-container-build.js:117-149 | `runBuild` as the host runs it. A failed `docker create` yields nothing. Otherwise the values are what the commands issued against `""` yield. The header and the connect, start and stop commands all name `""`, whatever docker printed. The run finishes exactly when all four commands were issued. |
| ContainerBuild.AsWrittenDiffers | build/build-libraries/run-container-build.js:118-124 | The host as written behaves like the corrected `runBuild` exactly when `docker create` fails or prints only whitespace. |
| ContainerBuild.ProxyIdReadsCreateOutput | build/build-libraries/run-container-build.js:124 | When `docker create` prints an id and a newline, the corrected id reading returns that id. |
| ContainerBuild.AsWrittenProxyUnreachable | build/build-libraries/run-container-build.js:124-148 | As written, after the commands a finished run issued, the build container runs on the internal network and finds no running container there. |
| ContainerBuild.CorrectedProxyReachable | build/build-libraries/run-container-build.js:117-148 | With the id read from docker's output, the header names that id. After the commands a finished run issued, the created proxy is the build container's only reachable peer, running and attached to both networks. |
| ContainerBuild.HandleMessage | build/build-libraries/run-container-build.js:153-174 | `getArgs` posts the host's arguments, then closes. `clean`, `buildImages`, `createNetworks` and `runBuild` are streamed and read back as their generators' runs. `runBuild` reads back as the run as written, addressing the container `""`. A failed `docker create` gives only `{error: true}`, and so does an unknown name. |
| InContainerHost.ExclusionNeverApplies | build/build-libraries/run-build-in-container.js:42 | For a directory-entry name, which has no slash, the `./run-container-build.js` exclusion removes nothing. Selection is the extension test alone. |
| InContainerHost.AsWrittenKeepsExcluded | build/build-libraries/run-build-in-container.js:42-43 | As written, a top-level `run-container-build.js`, whose listing name has no slash, is reported as `./run-container-build.js`, the path the exclusion names. |
| InContainerHost.CorrectedExcludes | build/build-libraries/run-build-in-container.js:35-46 | With the exclusion compared against the full path, the walk reports what the walk as written reports, in the same order, minus `./run-container-build.js`, which it never reports. |
| InContainerHost.Listing | build/build-libraries/run-build-in-container.js:35-46 | Every file met by the walk is listed under a directory path that extends the starting path. |
| InContainerHost.GetFilesSelects | build/build-libraries/run-build-in-container.js:35-46 | `getFiles` yields exactly the selected files of the depth-first walk, in walk order. Each path is the directory path followed by the name, and a subdirectory is walked under `path + name + '/'`. |
| InContainerHost.Select | build/build-libraries/run-build-in-container.js:42-43 | The selected files are exactly the listed files whose name passes the test, with none added. |
| InContainerHost.EnsureNewline | build/build-libraries/run-build-in-container.js:62 | The content ends with a newline afterwards. It is unchanged exactly when it already ended with one, and otherwise gains exactly one character. |
| InContainerHost.DropTwoUnderDot | build/build-libraries/run-build-in-container.js:62 | For a path under `./`, the document names the path without that prefix. |
| InContainerHost.OutputDoc | build/build-libraries/run-build-in-container.js:62 | The document is the fence, the path in backticks, a fenced block with the content, and a closing fence on its own line. |
| InContainerHost.OutputDocDetermines | build/build-libraries/run-build-in-container.js:62 | When the paths hold no backtick, two documents are equal exactly when they name the same path and carry the same newline-terminated content. A document names one file. |
| InContainerHost.EnsureNewlineIdempotent | build/build-libraries/run-build-in-container.js:62 | Adding the final newline twice is the same as adding it once. |
| InContainerHost.Install | build/build-libraries/run-build-in-container.js:52-65 | The first value is the banner. Then come the `npm set proxy`, `npm init -y` and `npm install <packages>` entry lists in order, then one document per selected file in walk order. The generator finishes exactly when all three npm calls could run. A failure ends it right after the last successful npm call. |
| InContainerHost.HandleMessage | build/build-libraries/run-build-in-container.js:68-89 | `getArgs` posts the arguments, then closes. `install` is streamed and reads back as the install run. Any other name gets only `{error: true}`. |
| BundleHost.ReadText | build/build-libraries/run-bundle-libraries.js:2-7 | A read returns the file's text exactly when the file exists, and throws otherwise. |
| BundleHost.Call | build/build-libraries/run-bundle-libraries.js:1-11 | Only `saveBundle` changes files, and it replaces the bundle at its fixed path. The two reads read their fixed paths. A name outside the table throws. |
| BundleHost.HandleMessage | build/build-libraries/run-bundle-libraries.js:13-24 | Every call posts exactly one message, then closes, and never posts `{done: true}`. `{error: true}` is posted exactly for an unknown name or a missing file. A result is posted as it is. Only the bundle path can change. |
| BundleHost.SaveThenLoad | build/build-libraries/run-bundle-libraries.js:5-10 | Loading after saving gives back the saved text. The library notebook is unaffected. |
| BundleHost.SaveIdempotent | build/build-libraries/run-bundle-libraries.js:8-10 | Saving the same text twice leaves the same files as saving it once. |
| EventIterator.OnValue | build/build-libraries/build-in-container.js:21-27 | An arriving value resolves the oldest pending `next()` and is not buffered. With nobody waiting, it is appended to the buffer. |
| EventIterator.OnNext | build/build-libraries/build-in-container.js:31-38 | `next()` takes the oldest buffered value when there is one. Otherwise it queues itself as the newest waiter. |
| EventIterator.OnReturn | build/build-libraries/build-in-container.js:40-42 | `return()` calls `unsubscribe` once and leaves both queues untouched. |
| EventIterator.ValuePreserves | build/build-libraries/build-in-container.js:21-27 | An arriving value keeps the adapter's invariant. |
| EventIterator.NextPreserves | build/build-libraries/build-in-container.js:31-38 | A `next()` call keeps the adapter's invariant. |
| EventIterator.ExecInv | build/build-libraries/build-in-container.js:18-46 | After any sequence of arrivals, `next()` calls and `return()` calls, the invariant holds. The i-th delivery gives the i-th value to the i-th `next()` call, the buffer holds exactly the undelivered values, and the waiters are the unserved calls, oldest first. |
| EventIterator.Fifo | build/build-libraries/build-in-container.js:18-39 | Values reach consumers in arrival order. As many deliveries happen as there are matched arrivals and calls. The waiter queue and the buffer are never both non-empty. |
| Worker.ParentRequest | build/build-libraries/build-in-container.js:1-16 | It throws exactly when the reply is `false`, with a message naming the command, and otherwise returns the reply unchanged. |
| Worker.FalseMessageNamesCommand | build/build-libraries/build-in-container.js:11-13 | The command name can be read back from the error message, as a JSON string. |
| Worker.Build | build/build-libraries/build-in-container.js:75-92 | Only a name in the table is run, with the remaining arguments. An empty argument list reports `missing command`, and any other name `invalid command: <name>`. A marker reply crashes the call. |
| Worker.BuildAgainstHost | build/build-libraries/build-in-container.js:75-86 | Against the in-container host, `build` runs `install` exactly when the container's first argument is `install`. Otherwise it reports the missing or invalid command. |
| Text.JsonRoundTrip | build/build-libraries/build-in-container.js:12 | Reading back the `JSON.stringify` form of a string gives the string. |
| Text.ParseIntToString | build/build-libraries/run-build-in-container.js:15 | The decimal text of an exit code parses back to that code. |

## Findings

| source | as written | input that shows it | evidently intended | confidence | as-written member | corrected member |
|---|---|---|---|---|---|---|
| build/build-libraries/run-container-build.js:124 | `createOutput` is the entry array `runDocker` returns. Its `stdout` is undefined, and decoding undefined gives `""`, so the proxy id is always empty. | `docker create` printing `abc123\n`: the host then runs `docker network connect ristretto-build-libraries-external ""`, `docker start ""` and `docker stop ""`. | Take the id from the stdout that `docker create` printed, trimmed. | high (follows from the code; not executed) | ContainerBuild.AsWrittenProxyUnreachable | ContainerBuild.CorrectedProxyReachable |
| build/build-libraries/run-build-in-container.js:42 | `entry.name !== './run-container-build.js'` compares a bare directory-entry name, which never holds a slash, with a path. The test never excludes anything. | A file `run-container-build.js` at the top of the working directory: `getFiles('./')` yields `./run-container-build.js`. | Compare the full path `${path}${entry.name}` with `./run-container-build.js`, so that file is left out. | medium (the dead test follows from the code; which file was meant to be left out is inferred from the constant; not executed) | InContainerHost.AsWrittenKeepsExcluded | InContainerHost.CorrectedExcludes |

The handlers model the hosts as written. `ContainerBuild.HandleMessage`
streams `ContainerBuild.RunBuildAsWritten`, and `InContainerHost.Install`
walks with `getFiles` as written. The corrected definitions are
`ContainerBuild.RunBuild`, with the id read from the `docker create` output,
and `InContainerHost.GetFilesCorrected`, with the exclusion compared against the full
path. The network isolation lemma `ContainerBuild.Isolation` is stated for the
corrected id.

## Notes

- The only path `writeFile` in run-build.js accepts is `['notebook.md']`.
- run-build.js answers every failure with `false`. It never posts `{error: true}`.
- `runDocker` drops the exit code, and its header entry reads `npm ...` followed by the docker arguments.

## Left out

- Worker bootstrap is not modelled: the regular expression that extracts the entry code block, the base64 import and the `Worker` constructor. It is runtime plumbing with no contract beyond the regular expression itself.
- `runDockerStream` is only partly modelled. Its first value, the stdout entry `-- docker <argv>`, is modelled as `ContainerBuild.StreamHeader`, so the streamed step always yields at least that entry. What follows the header is the collaborator `stream`, applied to the `docker run` vector. The `Deno.Command` spawn, the text decoder streams and the 100 ms polling loop are not modelled. When its synchronous setup or the spawn throws, it yields a stderr entry and then the object `{error: true}` as an ordinary value. Errors while reading the output streams are only logged. Stderr chunks are pushed onto `chunks.stderr`, which is undefined, so the first stderr chunk throws inside `appendStderr` and is logged, and stderr never reaches the generator. On the wire `{error: true}` is indistinguishable from the error marker, but the model's payloads are distinct from the markers. A nonzero docker exit only ends its polling loop and yields no marker.
- ContainerBuild.ProxyId: decoding is modelled for ASCII bytes only, which covers a docker container id. Any other byte becomes the replacement character instead of going through UTF-8 decoding. Trimming removes ASCII whitespace only.
- ContainerBuild.Apply: docker's state is modelled only as far as these commands touch it. A command docker refuses leaves the state unchanged. Removing a network does not check for attached containers.
- `proxy.js` is not modelled. It forwards requests with `fetch` and has no CONNECT relay to model.
- Console output and `logOutput` are left out. They only print.
- Path normalisation by `join` is left out. `readFile` follows the path components as given. The source joins them onto `.`, so `..` would reach outside the working directory, because nothing checks read paths.
- HostBuild.WriteFile: writing decodes the bytes with `new TextDecoder().decode` (run-build.js:27) and writes the text back as UTF-8. That decode drops a leading byte-order mark (the bytes EF BB BF) and replaces each invalid UTF-8 sequence with U+FFFD. The model stores the bytes as sent.
- HostBuild.WriteThenRead: the exact read-back holds for the stored bytes of the model. In the source, only valid UTF-8 without a leading EF BB BF reads back unchanged.
- Directory listing and file read errors during a walk are not modelled. The trees of `readPaths` and `getFiles` hold every entry with its content. A failed `readDir` or `readTextFile` inside a generator would end it with `{error: true}`, or with `false` in run-build.js.
- BundleHost.Call: a write to the bundle path is assumed to succeed. File system errors on write are not modelled.
- The caller-side end of a streamed reply is not modelled. `eventToIterator` never looks for `{done: true}` or `{error: true}`, so the model makes no claim that the worker's loop ends.
- Command tables are closed sets of their literal keys. Names that `in` finds on the object prototype, such as `toString`, are not modelled.
- Every `handleMessage` reads `e.ports[0]` and `e.data` as given. A message without a port or without an array is not modelled.

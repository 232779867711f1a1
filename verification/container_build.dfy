/** The host of run-container-build.js: the docker invocations that prepare
    two networks and two images and then run the build container on the
    internal network with the proxy as its only way out, and the
    `handleMessage` that serves them to the build worker. */
module ContainerBuild {
  import opened Base
  import Text
  import opened Rpc
  import opened ProcessOutput
  import InContainerHost

  const Internal := "ristretto-build-libraries-internal"
  const External := "ristretto-build-libraries-external"
  const ProxyImage := "ristretto-build-libraries-proxy"
  const BuildImage := "ristretto-build-libraries-build-in-container"
  const Platform := "linux/amd64"
  const ProxyAlias := "proxy"

  const Commands: set<string> := {"getArgs", "clean", "buildImages", "createNetworks", "runBuild"}

  /** The docker collaborator. */
  type Docker = Exec

  // ---------------------------------------------------------------------
  // Docker commands and their argument vectors
  // ---------------------------------------------------------------------

  /** The docker subcommands the host issues. */
  datatype DockerCmd =
    | NetworkRemove(net: string)
    | NetworkCreate(net: string, internal: bool)
    | ImageBuild(tag: string, dockerfile: string)
    | ContainerCreate(net: string, alias: string, image: string)
    | NetworkConnect(net: string, container: string)
    | ContainerStart(container: string)
    | ContainerRun(net: string, image: string)
    | ContainerStop(container: string)

  const PlatformFlag := "--platform=linux/amd64"
  const NetworkFlag := "--network="
  const AliasFlag := "--network-alias="

  /** The argument vector passed to `docker` for a command. */
  function Argv(c: DockerCmd): seq<string>
  {
    match c
    case NetworkRemove(n) => ["network", "rm", n]
    case NetworkCreate(n, i) => if i then ["network", "create", "--internal", n] else ["network", "create", n]
    case ImageBuild(t, f) => ["build", "--platform", Platform, "-t", t, "-f", f, "."]
    case ContainerCreate(n, a, img) => ["create", PlatformFlag, NetworkFlag + n, AliasFlag + a, img]
    case NetworkConnect(n, id) => ["network", "connect", n, id]
    case ContainerStart(id) => ["start", id]
    case ContainerRun(n, img) => ["run", PlatformFlag, NetworkFlag + n, img]
    case ContainerStop(id) => ["stop", id]
  }

  function Argvs(cs: seq<DockerCmd>): (r: seq<seq<string>>)
    ensures |r| == |cs| && forall i :: 0 <= i < |cs| ==> r[i] == Argv(cs[i])
  {
    if |cs| == 0 then [] else [Argv(cs[0])] + Argvs(cs[1..])
  }

  /** Reads an argument vector back as a command; `None` for a vector the
      host never issues. */
  function ParseArgv(v: seq<string>): Option<DockerCmd>
  {
    if |v| == 3 && v[0] == "network" && v[1] == "rm" then Some(NetworkRemove(v[2]))
    else if |v| == 4 && v[0] == "network" && v[1] == "create" && v[2] == "--internal" then Some(NetworkCreate(v[3], true))
    else if |v| == 3 && v[0] == "network" && v[1] == "create" then Some(NetworkCreate(v[2], false))
    else if |v| == 8 && v[0] == "build" && v[1] == "--platform" && v[2] == Platform && v[3] == "-t"
            && v[5] == "-f" && v[7] == "." then Some(ImageBuild(v[4], v[6]))
    else if |v| == 5 && v[0] == "create" && v[1] == PlatformFlag
            && Text.StartsWith(v[2], NetworkFlag) && Text.StartsWith(v[3], AliasFlag)
    then Some(ContainerCreate(v[2][|NetworkFlag|..], v[3][|AliasFlag|..], v[4]))
    else if |v| == 4 && v[0] == "network" && v[1] == "connect" then Some(NetworkConnect(v[2], v[3]))
    else if |v| == 2 && v[0] == "start" then Some(ContainerStart(v[1]))
    else if |v| == 4 && v[0] == "run" && v[1] == PlatformFlag && Text.StartsWith(v[2], NetworkFlag)
    then Some(ContainerRun(v[2][|NetworkFlag|..], v[3]))
    else if |v| == 2 && v[0] == "stop" then Some(ContainerStop(v[1]))
    else None
  }

  lemma FlagSuffix(flag: string, s: string)
    ensures Text.StartsWith(flag + s, flag) && (flag + s)[|flag|..] == s
  {
    assert (flag + s)[..|flag|] == flag;
  }

  /** The vector of a command determines the command: no two commands are
      given to docker alike. */
  lemma ParseArgvRoundTrip(c: DockerCmd)
    ensures ParseArgv(Argv(c)) == Some(c)
  {
    match c
    case ContainerCreate(n, a, img) =>
      FlagSuffix(NetworkFlag, n);
      FlagSuffix(AliasFlag, a);
    case ContainerRun(n, img) =>
      FlagSuffix(NetworkFlag, n);
    case _ =>
  }

  lemma ArgvInjective(c: DockerCmd, d: DockerCmd)
    ensures Argv(c) == Argv(d) <==> c == d
  {
    ParseArgvRoundTrip(c);
    ParseArgvRoundTrip(d);
  }

  // ---------------------------------------------------------------------
  // The command lists of each generator
  // ---------------------------------------------------------------------

  const CleanCmds: seq<DockerCmd> := [NetworkRemove(Internal), NetworkRemove(External)]

  const BuildImagesCmds: seq<DockerCmd> := [
    ImageBuild(ProxyImage, "Dockerfile.proxy"),
    ImageBuild(BuildImage, "Dockerfile.build-in-container")
  ]

  const CreateNetworksCmds: seq<DockerCmd> := [NetworkCreate(Internal, true), NetworkCreate(External, false)]

  const CreateProxy := ContainerCreate(Internal, ProxyAlias, ProxyImage)
  const RunBuildContainer := ContainerRun(Internal, BuildImage)

  /** The commands of `runBuild` after the proxy was created, addressed to
      the container `id`, in order; the third is the streamed one. */
  function AfterCreate(id: string): seq<DockerCmd>
  {
    [NetworkConnect(External, id), ContainerStart(id), RunBuildContainer, ContainerStop(id)]
  }

  lemma InternalFlag()
    ensures NetworkFlag + Internal == "--network=ristretto-build-libraries-internal"
  {
  }

  /** The typed command lists render as the literal vectors of the source. */
  lemma SourceVectors(id: string)
    ensures Argvs(CleanCmds) == [
      ["network", "rm", "ristretto-build-libraries-internal"],
      ["network", "rm", "ristretto-build-libraries-external"]]
    ensures Argvs(BuildImagesCmds) == [
      ["build", "--platform", "linux/amd64", "-t", "ristretto-build-libraries-proxy", "-f", "Dockerfile.proxy", "."],
      ["build", "--platform", "linux/amd64", "-t", "ristretto-build-libraries-build-in-container",
       "-f", "Dockerfile.build-in-container", "."]]
    ensures Argvs(CreateNetworksCmds) == [
      ["network", "create", "--internal", "ristretto-build-libraries-internal"],
      ["network", "create", "ristretto-build-libraries-external"]]
    ensures Argv(CreateProxy) == ["create", "--platform=linux/amd64", "--network=ristretto-build-libraries-internal",
      "--network-alias=proxy", "ristretto-build-libraries-proxy"]
    ensures Argvs(AfterCreate(id)) == [
      ["network", "connect", "ristretto-build-libraries-external", id],
      ["start", id],
      ["run", "--platform=linux/amd64", "--network=ristretto-build-libraries-internal",
       "ristretto-build-libraries-build-in-container"],
      ["stop", id]]
  {
    assert Argvs(CleanCmds) == [Argv(CleanCmds[0]), Argv(CleanCmds[1])];
    assert Argvs(BuildImagesCmds) == [Argv(BuildImagesCmds[0]), Argv(BuildImagesCmds[1])];
    assert Argvs(CreateNetworksCmds) == [Argv(CreateNetworksCmds[0]), Argv(CreateNetworksCmds[1])];
    InternalFlag();
    assert AliasFlag + ProxyAlias == "--network-alias=proxy";
    var cs := AfterCreate(id);
    assert Argvs(cs) == [Argv(cs[0]), Argv(cs[1]), Argv(cs[2]), Argv(cs[3])];
  }

  // ---------------------------------------------------------------------
  // What the commands do to docker's state
  // ---------------------------------------------------------------------

  datatype Container = Container(image: string, alias: string, networks: set<string>, running: bool)

  /** A run of the build container: its image, its network, and the running
      containers on that network it can reach, by id. */
  datatype BuildRun = BuildRun(image: string, net: string, peers: map<string, Container>)

  /** Docker's state as far as the commands touch it: networks with their
      internal flag, built image tags, containers by id, and the build runs
      made so far. */
  datatype Topo = Topo(nets: map<string, bool>, images: set<string>, containers: map<string, Container>, runs: seq<BuildRun>)

  const Empty := Topo(map[], {}, map[], [])

  /** The running containers attached to network `n`. */
  function Peers(t: Topo, n: string): map<string, Container>
  {
    map c | c in t.containers && t.containers[c].running && n in t.containers[c].networks :: t.containers[c]
  }

  /** The effect of one command; `newId` is the id docker assigns to a
      created container. A command docker refuses (an unknown network,
      image or container, a network or container that already exists)
      leaves the state as it is: the host never inspects exit codes. */
  function Apply(t: Topo, c: DockerCmd, newId: string): Topo
  {
    match c
    case NetworkRemove(n) => t.(nets := t.nets - {n})
    case NetworkCreate(n, i) => if n in t.nets then t else t.(nets := t.nets[n := i])
    case ImageBuild(tag, _) => t.(images := t.images + {tag})
    case ContainerCreate(n, a, img) =>
      if n in t.nets && img in t.images && newId !in t.containers
      then t.(containers := t.containers[newId := Container(img, a, {n}, false)])
      else t
    case NetworkConnect(n, id) =>
      if n in t.nets && id in t.containers
      then t.(containers := t.containers[id := t.containers[id].(networks := t.containers[id].networks + {n})])
      else t
    case ContainerStart(id) =>
      if id in t.containers then t.(containers := t.containers[id := t.containers[id].(running := true)]) else t
    case ContainerRun(n, img) =>
      if n in t.nets && img in t.images then t.(runs := t.runs + [BuildRun(img, n, Peers(t, n))]) else t
    case ContainerStop(id) =>
      if id in t.containers then t.(containers := t.containers[id := t.containers[id].(running := false)]) else t
  }

  function ApplyAll(t: Topo, cs: seq<DockerCmd>, newId: string): Topo
    decreases |cs|
  {
    if |cs| == 0 then t else ApplyAll(Apply(t, cs[0], newId), cs[1..], newId)
  }

  lemma {:induction false} ApplyAllAppend(t: Topo, a: seq<DockerCmd>, b: seq<DockerCmd>, newId: string)
    ensures ApplyAll(t, a + b, newId) == ApplyAll(ApplyAll(t, a, newId), b, newId)
    decreases |a|
  {
    if |a| == 0 {
      assert a + b == b;
    } else {
      assert (a + b)[0] == a[0];
      assert (a + b)[1..] == a[1..] + b;
      ApplyAllAppend(Apply(t, a[0], newId), a[1..], b, newId);
    }
  }

  lemma ApplyTwo(t: Topo, c: DockerCmd, d: DockerCmd, newId: string)
    ensures ApplyAll(t, [c, d], newId) == Apply(Apply(t, c, newId), d, newId)
  {
    assert [c, d][1..] == [d];
    assert [d][1..] == [];
    assert ApplyAll(t, [c, d], newId) == ApplyAll(Apply(t, c, newId), [d], newId);
    assert ApplyAll(Apply(t, c, newId), [d], newId) == ApplyAll(Apply(Apply(t, c, newId), d, newId), [], newId);
  }

  lemma ApplyAfterCreate(t: Topo, id: string, newId: string)
    ensures ApplyAll(t, AfterCreate(id), newId)
      == Apply(Apply(Apply(Apply(t, NetworkConnect(External, id), newId), ContainerStart(id), newId),
                     RunBuildContainer, newId), ContainerStop(id), newId)
  {
    var cs := AfterCreate(id);
    assert cs == [cs[0], cs[1]] + [cs[2], cs[3]];
    ApplyAllAppend(t, [cs[0], cs[1]], [cs[2], cs[3]], newId);
    ApplyTwo(t, cs[0], cs[1], newId);
    ApplyTwo(ApplyAll(t, [cs[0], cs[1]], newId), cs[2], cs[3], newId);
  }

  /** `clean` removes exactly the networks `createNetworks` adds: run after
      it on a docker without those networks, the network set is as before. */
  lemma CleanUndoesCreate(t: Topo, newId: string)
    requires Internal !in t.nets && External !in t.nets
    ensures ApplyAll(ApplyAll(t, CreateNetworksCmds, newId), CleanCmds, newId).nets == t.nets
  {
    ApplyTwo(t, CreateNetworksCmds[0], CreateNetworksCmds[1], newId);
    var t1 := ApplyAll(t, CreateNetworksCmds, newId);
    assert t1.nets == t.nets[Internal := true][External := false];
    ApplyTwo(t1, CleanCmds[0], CleanCmds[1], newId);
  }

  /** The state after the three preparing generators and `runBuild`, when
      docker names the proxy container `newId` and `runBuild` issues the
      commands `after` once the proxy is created. */
  function Session(newId: string, after: seq<DockerCmd>): Topo
  {
    var prepared := ApplyAll(ApplyAll(Empty, BuildImagesCmds, newId), CreateNetworksCmds, newId);
    ApplyAll(Apply(prepared, CreateProxy, newId), after, newId)
  }

  /** The state `buildImages` and `createNetworks` leave on a docker that
      had neither. */
  const Ready := Topo(map[Internal := true, External := false], {ProxyImage, BuildImage}, map[], [])

  lemma Prepared(newId: string)
    ensures ApplyAll(ApplyAll(Empty, BuildImagesCmds, newId), CreateNetworksCmds, newId) == Ready
  {
    ApplyTwo(Empty, BuildImagesCmds[0], BuildImagesCmds[1], newId);
    var t := ApplyAll(Empty, BuildImagesCmds, newId);
    assert t == Empty.(images := {ProxyImage, BuildImage});
    ApplyTwo(t, CreateNetworksCmds[0], CreateNetworksCmds[1], newId);
  }

  /** The proxy as `docker create` leaves it. */
  const Created := Container(ProxyImage, ProxyAlias, {Internal}, false)

  lemma SessionUnfold(newId: string, id: string)
    ensures Session(newId, AfterCreate(id))
      == Apply(Apply(Apply(Apply(Ready.(containers := map[newId := Created]), NetworkConnect(External, id), newId),
                           ContainerStart(id), newId), RunBuildContainer, newId), ContainerStop(id), newId)
  {
    Prepared(newId);
    assert Apply(Ready, CreateProxy, newId) == Ready.(containers := map[newId := Created]);
    ApplyAfterCreate(Ready.(containers := map[newId := Created]), id, newId);
  }

  /** Network isolation: when `runBuild` issues all its commands and
      addresses the container docker created, the build container runs once, on the internal network only,
      and the one container it can reach is the running proxy under the
      alias the in-container npm configuration names, itself attached to
      both networks; the proxy is stopped afterwards. */
  lemma Isolation(newId: string)
    ensures var t := Session(newId, AfterCreate(newId));
      && Internal in t.nets && External in t.nets && t.nets[Internal] && !t.nets[External]
      && |t.runs| == 1
      && t.runs[0].image == BuildImage && t.runs[0].net == Internal
      && t.runs[0].peers == map[newId := Container(ProxyImage, ProxyAlias, {Internal, External}, true)]
      && InContainerHost.NpmSteps[0][1] == "proxy=http://" + t.runs[0].peers[newId].alias + ":3000/"
      && newId in t.containers && !t.containers[newId].running
  {
    SessionUnfold(newId, newId);
    var t1 := Ready.(containers := map[newId := Created]);
    var linked := Created.(networks := {Internal, External});
    var t2 := Apply(t1, NetworkConnect(External, newId), newId);
    assert t1.containers[newId].networks + {External} == {Internal, External};
    assert t1.containers[newId := linked] == map[newId := linked];
    assert t2 == Ready.(containers := map[newId := linked]);
    var up := linked.(running := true);
    var t3 := Apply(t2, ContainerStart(newId), newId);
    assert t3 == Ready.(containers := map[newId := up]);
    assert Peers(t3, Internal) == map[newId := up];
    var t4 := Apply(t3, RunBuildContainer, newId);
    assert t4 == t3.(runs := [BuildRun(BuildImage, Internal, map[newId := up])]);
    var t5 := Apply(t4, ContainerStop(newId), newId);
    assert t5 == t4.(containers := map[newId := up.(running := false)]);
  }

  // ---------------------------------------------------------------------
  // runBuild
  // ---------------------------------------------------------------------

  /** JavaScript's `trim` for the whitespace docker prints around an id. */
  predicate Blank(c: char)
  {
    c == ' ' || c == '\t' || c == '\n' || c == '\r' || c == '\U{B}' || c == '\U{C}'
  }

  function TrimStart(s: string): (r: string)
    ensures |r| <= |s| && r == s[|s| - |r|..]
    ensures |r| > 0 ==> !Blank(r[0])
  {
    if |s| > 0 && Blank(s[0]) then TrimStart(s[1..]) else s
  }

  function TrimEnd(s: string): (r: string)
    ensures |r| <= |s| && r == s[..|r|]
    ensures |r| > 0 ==> !Blank(r[|r| - 1])
  {
    if |s| > 0 && Blank(s[|s| - 1]) then TrimEnd(s[..|s| - 1]) else s
  }

  function Trim(s: string): string
  {
    TrimEnd(TrimStart(s))
  }

  /** `TextDecoder.decode` on bytes below 128, each the character of that
      code; any other byte becomes the replacement character. */
  function DecodeAscii(b: seq<byte>): (r: string)
    ensures |r| == |b|
    ensures forall i :: 0 <= i < |b| ==> r[i] == if b[i] < 128 then b[i] as int as char else '\U{FFFD}'
  {
    if |b| == 0 then [] else [if b[0] < 128 then b[0] as int as char else '\U{FFFD}'] + DecodeAscii(b[1..])
  }

  lemma {:induction false} DecodeAppend(a: seq<byte>, b: seq<byte>)
    ensures DecodeAscii(a + b) == DecodeAscii(a) + DecodeAscii(b)
    decreases |a|
  {
    if |a| == 0 {
      assert a + b == b;
    } else {
      assert (a + b)[0] == a[0];
      assert (a + b)[1..] == a[1..] + b;
      DecodeAppend(a[1..], b);
    }
  }

  /** A printable ASCII character other than the space: what a container id
      is made of. */
  predicate Visible(c: char)
  {
    33 <= c as int <= 126
  }

  function EncodeAscii(s: string): (r: seq<byte>)
    requires forall i :: 0 <= i < |s| ==> Visible(s[i])
    ensures |r| == |s|
    ensures forall i :: 0 <= i < |s| ==> r[i] as int == s[i] as int
  {
    if |s| == 0 then []
    else
      assert Visible(s[0]);
      [s[0] as int as byte] + EncodeAscii(s[1..])
  }

  lemma DecodeEncodeAt(s: string, i: int)
    requires forall j :: 0 <= j < |s| ==> Visible(s[j])
    requires 0 <= i < |s|
    ensures DecodeAscii(EncodeAscii(s))[i] == s[i]
  {
    var b := EncodeAscii(s);
    assert b[i] as int == s[i] as int;
    assert b[i] < 128;
    assert b[i] as int as char == s[i];
  }

  lemma DecodeEncode(s: string)
    requires forall i :: 0 <= i < |s| ==> Visible(s[i])
    ensures DecodeAscii(EncodeAscii(s) + [10]) == s + "\n"
  {
    var b := EncodeAscii(s);
    forall i | 0 <= i < |s|
      ensures DecodeAscii(b)[i] == s[i]
    {
      DecodeEncodeAt(s, i);
    }
    assert DecodeAscii(b) == s;
    assert DecodeAscii([10]) == "\n" by {
      assert DecodeAscii([10]) == [(10 as byte) as int as char] + DecodeAscii([]);
    }
    DecodeAppend(b, [10]);
  }

  lemma TrimIdLine(id: string)
    requires forall i :: 0 <= i < |id| ==> Visible(id[i])
    ensures Trim(id + "\n") == id
  {
    var s := id + "\n";
    if |id| > 0 {
      assert !Blank(s[0]);
      assert TrimStart(s) == s;
      assert s[..|s| - 1] == id;
      assert TrimEnd(s) == TrimEnd(id);
      assert !Blank(id[|id| - 1]);
    } else {
      assert TrimStart(s) == TrimStart(s[1..]);
      assert s[1..] == "";
    }
  }

  /** The id of the proxy container, read from what `docker create` printed
      on standard output. */
  function ProxyId(o: ProcOutput): string
  {
    Trim(DecodeAscii(o.stdout))
  }

  /** `docker create` prints the new id and a newline; the id is recovered. */
  lemma ProxyIdReadsCreateOutput(id: string, o: ProcOutput)
    requires forall i :: 0 <= i < |id| ==> Visible(id[i])
    requires o.stdout == EncodeAscii(id) + [10]
    ensures ProxyId(o) == id
  {
    DecodeEncode(id);
    TrimIdLine(id);
  }

  /** The id as the source reads it: `createOutput` is the entry array
      `runDocker` returns, whose `stdout` property is undefined, and
      decoding undefined gives the empty string. */
  function ProxyIdAsWritten(createOutput: seq<OutputEntry>): string
  {
    ""
  }

  function IdHeader(id: string): Payload
  {
    One(Entry(Stdout, Text("-- proxyContainerId: " + Text.JsonQuote(id))))
  }

  /** The value yielded for a docker step that produced `o`. */
  function Yielded(c: DockerCmd, o: ProcOutput): Payload
  {
    Many(RunDocker(Argv(c), o))
  }

  /** The streamed-docker collaborator: what `runDockerStream` yields for an
      argument vector after its header. It never throws: a failure is
      reported in its values. */
  type Stream = seq<string> -> seq<Payload>

  /** The entry `runDockerStream` yields before it spawns anything. */
  function StreamHeader(argv: seq<string>): Payload
  {
    One(Entry(Stdout, Text("-- docker " + Text.Join(argv, " "))))
  }

  /** Everything `runDockerStream` yields for `argv`: its header, then what
      the collaborator reports. */
  function Streamed(stream: Stream, argv: seq<string>): seq<Payload>
  {
    [StreamHeader(argv)] + stream(argv)
  }

  /** `runBuild` once the proxy was created with output `o` and `id` was
      taken as its id: the id header and the create output, then connect
      and start, the streamed run of the build container, and stop, each
      awaited in turn; a step that throws ends the generator with a
      failure. */
  function RunBuildWith(docker: Docker, stream: Stream, o: ProcOutput, id: string): (r: Run<Payload>)
    ensures |r.values| >= 2 && r.values[0] == IdHeader(id) && r.values[1] == Yielded(CreateProxy, o)
    ensures r.finished <==>
      docker(Argv(NetworkConnect(External, id))).Some? && docker(Argv(ContainerStart(id))).Some?
      && docker(Argv(ContainerStop(id))).Some?
    ensures r.finished ==>
      r.values == [IdHeader(id), Yielded(CreateProxy, o)]
        + [Yielded(NetworkConnect(External, id), docker(Argv(NetworkConnect(External, id))).value)]
        + [Yielded(ContainerStart(id), docker(Argv(ContainerStart(id))).value)]
        + Streamed(stream, Argv(RunBuildContainer)) + [Yielded(ContainerStop(id), docker(Argv(ContainerStop(id))).value)]
  {
    var head := [IdHeader(id), Yielded(CreateProxy, o)];
    var streamed := Streamed(stream, Argv(RunBuildContainer));
    match docker(Argv(NetworkConnect(External, id)))
    case None => Run(head, false)
    case Some(co) =>
      var linked := head + [Yielded(NetworkConnect(External, id), co)];
      match docker(Argv(ContainerStart(id)))
      case None => Run(linked, false)
      case Some(so) =>
        var started := linked + [Yielded(ContainerStart(id), so)];
        match docker(Argv(ContainerStop(id)))
        case None =>
          Run(started + streamed, false)
        case Some(po) =>
          var all := started + streamed + [Yielded(ContainerStop(id), po)];
          Run(all, true)
  }

  /** The commands `runBuild` issues after `docker create` when it takes
      `id` as the proxy's id, in order: connect, start, the streamed run
      and stop, up to the first one docker cannot spawn. The streamed run
      never throws, so it follows every start. */
  function Issued(docker: Docker, id: string): (cs: seq<DockerCmd>)
    ensures |cs| <= 4 && |cs| != 2 && cs == AfterCreate(id)[..|cs|]
    ensures forall k :: 0 <= k < |cs| && k != 2 ==> docker(Argv(cs[k])).Some?
    ensures |cs| < 4 ==> docker(Argv(AfterCreate(id)[|cs|])).None?
  {
    var all := AfterCreate(id);
    if docker(Argv(all[0])).None? then []
    else if docker(Argv(all[1])).None? then all[..1]
    else if docker(Argv(all[3])).None? then all[..3]
    else all
  }

  /** What one issued command yields: the streamed run's values, or the
      entries of a docker command that was spawned. */
  function YieldOne(docker: Docker, stream: Stream, c: DockerCmd): seq<Payload>
  {
    if c.ContainerRun? then Streamed(stream, Argv(c))
    else match docker(Argv(c))
      case Some(o) => [Yielded(c, o)]
      case None => []
  }

  function Yields(docker: Docker, stream: Stream, cs: seq<DockerCmd>): seq<Payload>
  {
    if |cs| == 0 then [] else YieldOne(docker, stream, cs[0]) + Yields(docker, stream, cs[1..])
  }

  lemma {:induction false} YieldsAppend(docker: Docker, stream: Stream, a: seq<DockerCmd>, b: seq<DockerCmd>)
    ensures Yields(docker, stream, a + b) == Yields(docker, stream, a) + Yields(docker, stream, b)
    decreases |a|
  {
    if |a| == 0 {
      assert a + b == b;
    } else {
      assert (a + b)[0] == a[0];
      assert (a + b)[1..] == a[1..] + b;
      YieldsAppend(docker, stream, a[1..], b);
    }
  }

  lemma YieldsSingle(docker: Docker, stream: Stream, c: DockerCmd)
    ensures Yields(docker, stream, [c]) == YieldOne(docker, stream, c)
  {
    assert [c][1..] == [];
  }

  /** What the prefixes of the source's command list yield. */
  lemma YieldsOfAfterCreate(docker: Docker, stream: Stream, id: string)
    ensures var all := AfterCreate(id);
      var y0, y1, y2, y3 := YieldOne(docker, stream, all[0]), YieldOne(docker, stream, all[1]),
                            YieldOne(docker, stream, all[2]), YieldOne(docker, stream, all[3]);
      && Yields(docker, stream, all[..1]) == y0
      && Yields(docker, stream, all[..3]) == y0 + y1 + y2
      && Yields(docker, stream, all) == y0 + y1 + y2 + y3
      && y2 == Streamed(stream, Argv(RunBuildContainer))
  {
    var all := AfterCreate(id);
    var c0, c1, c2, c3 := all[0], all[1], all[2], all[3];
    YieldsSingle(docker, stream, c0);
    YieldsSingle(docker, stream, c1);
    YieldsSingle(docker, stream, c2);
    YieldsSingle(docker, stream, c3);
    assert all[..1] == [c0];
    assert all[..3] == [c0] + [c1] + [c2];
    assert all == [c0] + [c1] + [c2] + [c3];
    YieldsAppend(docker, stream, [c0], [c1]);
    YieldsAppend(docker, stream, [c0] + [c1], [c2]);
    YieldsAppend(docker, stream, [c0] + [c1] + [c2], [c3]);
  }

  /** The values of a `runBuild` run are the id header, the create output
      and what each issued command yields, in issue order; it finishes
      exactly when every command of the source's list was issued. */
  lemma RunBuildWithIssues(docker: Docker, stream: Stream, o: ProcOutput, id: string)
    ensures var r := RunBuildWith(docker, stream, o, id);
      && r.values == [IdHeader(id), Yielded(CreateProxy, o)] + Yields(docker, stream, Issued(docker, id))
      && (r.finished <==> Issued(docker, id) == AfterCreate(id))
  {
    RunBuildWithFinishes(docker, stream, o, id);
    RunBuildWithValues(docker, stream, o, id);
  }

  lemma RunBuildWithFinishes(docker: Docker, stream: Stream, o: ProcOutput, id: string)
    ensures RunBuildWith(docker, stream, o, id).finished <==> Issued(docker, id) == AfterCreate(id)
  {
    var all := AfterCreate(id);
    if Issued(docker, id) == all {
      assert docker(Argv(all[0])).Some? && docker(Argv(all[1])).Some? && docker(Argv(all[3])).Some?;
    }
  }

  lemma RunBuildWithValues(docker: Docker, stream: Stream, o: ProcOutput, id: string)
    ensures RunBuildWith(docker, stream, o, id).values
      == [IdHeader(id), Yielded(CreateProxy, o)] + Yields(docker, stream, Issued(docker, id))
  {
    YieldsOfAfterCreate(docker, stream, id);
    var all := AfterCreate(id);
    var head := [IdHeader(id), Yielded(CreateProxy, o)];
    var y0, y1, y2, y3 := YieldOne(docker, stream, all[0]), YieldOne(docker, stream, all[1]),
                          YieldOne(docker, stream, all[2]), YieldOne(docker, stream, all[3]);
    if docker(Argv(all[0])).None? {
      assert Issued(docker, id) == [];
    } else if docker(Argv(all[1])).None? {
      ValuesAfterConnect(docker, stream, o, id);
    } else if docker(Argv(all[3])).None? {
      ValuesBeforeStop(docker, stream, o, id);
      Assoc4(head, y0, y1, y2);
    } else {
      ValuesAll(docker, stream, o, id);
      Assoc5(head, y0, y1, y2, y3);
    }
  }

  lemma Assoc4<T>(a: seq<T>, b: seq<T>, c: seq<T>, d: seq<T>)
    ensures a + b + c + d == a + (b + c + d)
  {
  }

  lemma Assoc5<T>(a: seq<T>, b: seq<T>, c: seq<T>, d: seq<T>, e: seq<T>)
    ensures a + b + c + d + e == a + (b + c + d + e)
  {
  }

  lemma ValuesAfterConnect(docker: Docker, stream: Stream, o: ProcOutput, id: string)
    requires docker(Argv(NetworkConnect(External, id))).Some? && docker(Argv(ContainerStart(id))).None?
    ensures RunBuildWith(docker, stream, o, id).values
      == [IdHeader(id), Yielded(CreateProxy, o)] + YieldOne(docker, stream, NetworkConnect(External, id))
  {
  }

  lemma ValuesBeforeStop(docker: Docker, stream: Stream, o: ProcOutput, id: string)
    requires docker(Argv(NetworkConnect(External, id))).Some? && docker(Argv(ContainerStart(id))).Some?
    requires docker(Argv(ContainerStop(id))).None?
    ensures RunBuildWith(docker, stream, o, id).values
      == [IdHeader(id), Yielded(CreateProxy, o)] + YieldOne(docker, stream, NetworkConnect(External, id))
           + YieldOne(docker, stream, ContainerStart(id)) + Streamed(stream, Argv(RunBuildContainer))
  {
    assert YieldOne(docker, stream, NetworkConnect(External, id))
      == [Yielded(NetworkConnect(External, id), docker(Argv(NetworkConnect(External, id))).value)];
    assert YieldOne(docker, stream, ContainerStart(id))
      == [Yielded(ContainerStart(id), docker(Argv(ContainerStart(id))).value)];
  }

  lemma ValuesAll(docker: Docker, stream: Stream, o: ProcOutput, id: string)
    requires docker(Argv(NetworkConnect(External, id))).Some? && docker(Argv(ContainerStart(id))).Some?
    requires docker(Argv(ContainerStop(id))).Some?
    ensures RunBuildWith(docker, stream, o, id).values
      == [IdHeader(id), Yielded(CreateProxy, o)] + YieldOne(docker, stream, NetworkConnect(External, id))
           + YieldOne(docker, stream, ContainerStart(id)) + Streamed(stream, Argv(RunBuildContainer))
           + YieldOne(docker, stream, ContainerStop(id))
  {
    assert YieldOne(docker, stream, NetworkConnect(External, id))
      == [Yielded(NetworkConnect(External, id), docker(Argv(NetworkConnect(External, id))).value)];
    assert YieldOne(docker, stream, ContainerStart(id))
      == [Yielded(ContainerStart(id), docker(Argv(ContainerStart(id))).value)];
    assert YieldOne(docker, stream, ContainerStop(id))
      == [Yielded(ContainerStop(id), docker(Argv(ContainerStop(id))).value)];
  }

  /** What a `runBuild` run that created the proxy with output `o` does when
      it takes `id` as the proxy's id: the id header names `id`, the create
      output follows, the values are what the issued commands yield, and the
      connect, start and stop commands all address `id`; the build container
      runs with the source's vector, on the internal network; the run
      finishes exactly when all four commands were issued. */
  predicate Addresses(docker: Docker, stream: Stream, o: ProcOutput, id: string, r: Run<Payload>)
  {
    && |r.values| >= 2 && r.values[0] == IdHeader(id) && r.values[1] == Yielded(CreateProxy, o)
    && r.values == [IdHeader(id), Yielded(CreateProxy, o)] + Yields(docker, stream, Issued(docker, id))
    && (r.finished <==> Issued(docker, id) == AfterCreate(id))
    && (r.finished <==>
          docker(Argv(NetworkConnect(External, id))).Some? && docker(Argv(ContainerStart(id))).Some?
          && docker(Argv(ContainerStop(id))).Some?)
    && (r.finished ==>
          && |r.values| >= 6
          && r.values[2] == Yielded(NetworkConnect(External, id), docker(Argv(NetworkConnect(External, id))).value)
          && r.values[3] == Yielded(ContainerStart(id), docker(Argv(ContainerStart(id))).value)
          && r.values[4] == StreamHeader(Argv(ContainerRun(Internal, BuildImage)))
          && r.values[5..|r.values| - 1] == stream(Argv(ContainerRun(Internal, BuildImage)))
          && r.values[|r.values| - 1] == Yielded(ContainerStop(id), docker(Argv(ContainerStop(id))).value))
  }

  lemma RunBuildWithAddresses(docker: Docker, stream: Stream, o: ProcOutput, id: string)
    ensures Addresses(docker, stream, o, id, RunBuildWith(docker, stream, o, id))
  {
    RunBuildWithIssues(docker, stream, o, id);
    var r := RunBuildWith(docker, stream, o, id);
    if r.finished {
      var head := [IdHeader(id), Yielded(CreateProxy, o)];
      var connect := Yielded(NetworkConnect(External, id), docker(Argv(NetworkConnect(External, id))).value);
      var start := Yielded(ContainerStart(id), docker(Argv(ContainerStart(id))).value);
      var streamed := Streamed(stream, Argv(RunBuildContainer));
      var stop := Yielded(ContainerStop(id), docker(Argv(ContainerStop(id))).value);
      assert r.values == (head + [connect] + [start] + streamed) + [stop];
      assert r.values[2] == (head + [connect] + [start])[2];
      assert r.values[3] == (head + [connect] + [start])[3];
      assert r.values[4..|r.values| - 1] == streamed;
      assert r.values[4] == streamed[0];
      assert r.values[5..|r.values| - 1] == streamed[1..];
    }
  }

  /** `runBuild` reading the proxy's id from what `docker create` printed,
      the evidently intended behaviour: a failed `docker create` throws
      before anything is yielded; otherwise every later step addresses the
      printed id. */
  function RunBuild(docker: Docker, stream: Stream): (r: Run<Payload>)
    ensures docker(Argv(CreateProxy)).None? ==> |r.values| == 0 && !r.finished
    ensures docker(Argv(CreateProxy)).Some? ==>
      var o := docker(Argv(CreateProxy)).value;
      Addresses(docker, stream, o, ProxyId(o), r)
  {
    match docker(Argv(CreateProxy))
    case None => Run([], false)
    case Some(o) =>
      RunBuildWithAddresses(docker, stream, o, ProxyId(o));
      RunBuildWith(docker, stream, o, ProxyId(o))
  }

  /** `runBuild` as the host runs it: whatever `docker create` printed, the
      id it uses is the empty string, so the header and every later step
      name `""`. A failed `docker create` throws before anything is
      yielded. */
  function RunBuildAsWritten(docker: Docker, stream: Stream): (r: Run<Payload>)
    ensures docker(Argv(CreateProxy)).None? ==> |r.values| == 0 && !r.finished
    ensures docker(Argv(CreateProxy)).Some? ==>
      Addresses(docker, stream, docker(Argv(CreateProxy)).value, "", r)
  {
    match docker(Argv(CreateProxy))
    case None => Run([], false)
    case Some(o) =>
      RunBuildWithAddresses(docker, stream, o, "");
      RunBuildWith(docker, stream, o, ProxyIdAsWritten(RunDocker(Argv(CreateProxy), o)))
  }

  lemma IdHeaderInjective(a: string, b: string)
    requires IdHeader(a) == IdHeader(b)
    ensures a == b
  {
    var prefix := "-- proxyContainerId: ";
    var ta := prefix + Text.JsonQuote(a);
    var tb := prefix + Text.JsonQuote(b);
    assert ta == tb by {
      assert Entry(Stdout, Text(ta)) == Entry(Stdout, Text(tb));
    }
    assert ta[|prefix|..] == Text.JsonQuote(a);
    assert tb[|prefix|..] == Text.JsonQuote(b);
    Text.JsonRoundTrip(a);
    Text.JsonRoundTrip(b);
  }

  /** The discrepancy: the host as written behaves as the corrected
      `runBuild` exactly when `docker create` fails or prints nothing but
      whitespace. */
  lemma AsWrittenDiffers(docker: Docker, stream: Stream)
    ensures RunBuildAsWritten(docker, stream) == RunBuild(docker, stream) <==>
      docker(Argv(CreateProxy)).None? || ProxyId(docker(Argv(CreateProxy)).value) == ""
  {
    if docker(Argv(CreateProxy)).Some? {
      var o := docker(Argv(CreateProxy)).value;
      if RunBuildAsWritten(docker, stream) == RunBuild(docker, stream) {
        assert IdHeader("") == IdHeader(ProxyId(o));
        IdHeaderInjective("", ProxyId(o));
      }
    }
  }

  /** Addressing `""` reaches no container: after the source's commands
      addressed to `""`, the build run finds no running container. */
  lemma EmptyIdSession(newId: string)
    requires newId != ""
    ensures var t := Session(newId, AfterCreate(""));
      && |t.runs| == 1 && t.runs[0].net == Internal && t.runs[0].peers == map[]
  {
    SessionUnfold(newId, "");
    var t1 := Ready.(containers := map[newId := Created]);
    assert Apply(t1, NetworkConnect(External, ""), newId) == t1;
    assert Apply(t1, ContainerStart(""), newId) == t1;
    assert Peers(t1, Internal) == map[];
  }

  /** As written, the build container finds no running container on its
      network: in a finished run the proxy docker created is never
      connected or started. */
  lemma AsWrittenProxyUnreachable(newId: string, docker: Docker, stream: Stream)
    requires newId != ""
    ensures RunBuildAsWritten(docker, stream).finished ==>
      var t := Session(newId, Issued(docker, ""));
      && |t.runs| == 1 && t.runs[0].net == Internal && t.runs[0].peers == map[]
  {
    if RunBuildAsWritten(docker, stream).finished {
      EmptyIdSession(newId);
    }
  }

  /** With the id read from docker's output, a finished `runBuild` issues
      commands after which the proxy created as `id` is the running peer
      of the build container, reached through the external network. */
  lemma CorrectedProxyReachable(id: string, docker: Docker, stream: Stream)
    requires id != "" && forall i :: 0 <= i < |id| ==> Visible(id[i])
    requires docker(Argv(CreateProxy)).Some?
    requires docker(Argv(CreateProxy)).value.stdout == EncodeAscii(id) + [10]
    ensures RunBuild(docker, stream).values[0] == IdHeader(id)
    ensures RunBuild(docker, stream).finished ==>
      var t := Session(id, Issued(docker, id));
      && |t.runs| == 1 && t.runs[0].net == Internal
      && t.runs[0].peers == map[id := Container(ProxyImage, ProxyAlias, {Internal, External}, true)]
  {
    ProxyIdReadsCreateOutput(id, docker(Argv(CreateProxy)).value);
    if RunBuild(docker, stream).finished {
      assert Issued(docker, id) == AfterCreate(id);
      Isolation(id);
    }
  }

  // ---------------------------------------------------------------------
  // handleMessage
  // ---------------------------------------------------------------------

  /** The generator of each streamed command, `runBuild` as the host runs
      it. */
  function Generator(cmd: string, docker: Docker, stream: Stream): Run<Payload>
  {
    if cmd == "clean" then RunSteps(docker, RunDocker, Argvs(CleanCmds))
    else if cmd == "buildImages" then RunSteps(docker, RunDocker, Argvs(BuildImagesCmds))
    else if cmd == "createNetworks" then RunSteps(docker, RunDocker, Argvs(CreateNetworksCmds))
    else RunBuildAsWritten(docker, stream)
  }

  /** `handleMessage` for a request naming `cmd`, given the host's arguments,
      the docker collaborator and the streamed-docker collaborator. */
  function HandleMessage(cmd: string, denoArgs: seq<string>, docker: Docker, stream: Stream)
    : (t: seq<PortEvent<Payload>>)
    ensures ClosedOnceAtEnd(t)
    ensures cmd == GetArgs ==> t == [Post(Val(Args(denoArgs))), Close]
    ensures cmd in Commands && cmd != GetArgs ==> WellFramed(t) && Observe(t) == Some(Generator(cmd, docker, stream))
    ensures cmd == "runBuild" && docker(Argv(CreateProxy)).None? ==> t == [Post(ErrorMark), Close]
    ensures cmd == "runBuild" && docker(Argv(CreateProxy)).Some? ==>
      Observe(t).Some? && Addresses(docker, stream, docker(Argv(CreateProxy)).value, "", Observe(t).value)
    ensures cmd !in Commands ==> t == [Post(ErrorMark), Close]
  {
    HandleMixed(Commands, cmd, Returned(Args(denoArgs)), Generator(cmd, docker, stream))
  }
}

/** The tagged output entries the container hosts build from a finished
    subprocess (`runNpm` in run-build-in-container.js, `runDocker` in
    run-container-build.js), and the values their generators yield. */
module ProcessOutput {
  import opened Base
  import Text
  import opened Rpc

  datatype Stream = Stdout | Stderr

  /** The second element of an entry: a JavaScript string, the bytes
      `TextEncoder` makes of a string, or bytes captured from a process. */
  datatype Chunk = Text(s: string) | Utf8(s: string) | Raw(b: seq<byte>)

  /** A two-element array `[stream, chunk]`. */
  datatype OutputEntry = Entry(stream: Stream, chunk: Chunk)

  /** What `new Deno.Command(...).output()` resolves to. */
  datatype ProcOutput = ProcOutput(stdout: seq<byte>, stderr: seq<byte>, code: int)

  /** A value yielded by a container host's command: the argument list that
      `getArgs` returns, one entry, or a whole entry list. */
  datatype Payload = Args(a: seq<string>) | One(e: OutputEntry) | Many(es: seq<OutputEntry>)

  const ExitPrefix := "-- Received nonzero exit code: "

  /** The captured-stream entries: stdout only if non-empty, stderr only if
      non-empty, stdout first. */
  function Captured(o: ProcOutput): (r: seq<OutputEntry>)
    ensures |r| == (if |o.stdout| > 0 then 1 else 0) + (if |o.stderr| > 0 then 1 else 0)
    ensures forall i :: 0 <= i < |r| ==>
      r[i] == (if r[i].stream == Stdout then Entry(Stdout, Raw(o.stdout)) else Entry(Stderr, Raw(o.stderr)))
    ensures (exists i :: 0 <= i < |r| && r[i].stream == Stdout) <==> |o.stdout| > 0
    ensures (exists i :: 0 <= i < |r| && r[i].stream == Stderr) <==> |o.stderr| > 0
    ensures |r| == 2 ==> r[0].stream == Stdout && r[1].stream == Stderr
  {
    var r := (if |o.stdout| > 0 then [Entry(Stdout, Raw(o.stdout))] else [])
      + (if |o.stderr| > 0 then [Entry(Stderr, Raw(o.stderr))] else []);
    assert |o.stdout| > 0 ==> r[0].stream == Stdout;
    assert |o.stderr| > 0 ==> r[|r| - 1].stream == Stderr;
    r
  }

  /** `runNpm(args)` given the output of the npm process: a header naming the
      command, the captured streams, and on a nonzero exit one trailing
      stderr entry naming the code (the function never throws for it). */
  function RunNpm(args: seq<string>, o: ProcOutput): (r: seq<OutputEntry>)
    ensures |r| == 1 + |Captured(o)| + (if o.code == 0 then 0 else 1)
    ensures r[0] == Entry(Stdout, Text("-- npm " + Text.Join(args, " ")))
    ensures o.code == 0 ==> r == [r[0]] + Captured(o)
    ensures o.code != 0 ==>
      && r[..|r| - 1] == [r[0]] + Captured(o)
      && r[|r| - 1] == Entry(Stderr, Text(ExitPrefix + Text.IntToString(o.code)))
  {
    var base := [Entry(Stdout, Text("-- npm " + Text.Join(args, " ")))] + Captured(o);
    if o.code == 0 then base
    else base + [Entry(Stderr, Text(ExitPrefix + Text.IntToString(o.code)))]
  }

  /** `runDocker(args)` given the output of the docker process. The header
      text reads `npm ...` and the exit code is not reported. */
  function RunDocker(args: seq<string>, o: ProcOutput): (r: seq<OutputEntry>)
    ensures 1 <= |r| <= 3
    ensures r[0] == Entry(Stdout, Text("npm " + Text.Join(args, " ")))
    ensures r[1..] == Captured(o)
  {
    [Entry(Stdout, Text("npm " + Text.Join(args, " ")))] + Captured(o)
  }

  // ---------------------------------------------------------------------
  // Reading an entry list back
  // ---------------------------------------------------------------------

  /** The captured bytes of one stream, concatenated in entry order. */
  function Collect(es: seq<OutputEntry>, s: Stream): seq<byte>
  {
    if |es| == 0 then []
    else (if es[0].stream == s && es[0].chunk.Raw? then es[0].chunk.b else []) + Collect(es[1..], s)
  }

  /** The exit code an entry list reports: the code named by a trailing
      nonzero-exit entry, else 0. */
  function ExitCodeOf(es: seq<OutputEntry>): int
  {
    if |es| > 0 && es[|es| - 1].stream == Stderr && es[|es| - 1].chunk.Text?
       && Text.StartsWith(es[|es| - 1].chunk.s, ExitPrefix)
    then
      match Text.ParseInt(es[|es| - 1].chunk.s[|ExitPrefix|..])
      case Some(c) => c
      case None => 0
    else 0
  }

  function Recover(es: seq<OutputEntry>): ProcOutput
  {
    ProcOutput(Collect(es, Stdout), Collect(es, Stderr), ExitCodeOf(es))
  }

  lemma {:induction false} CollectAppend(a: seq<OutputEntry>, b: seq<OutputEntry>, s: Stream)
    ensures Collect(a + b, s) == Collect(a, s) + Collect(b, s)
    decreases |a|
  {
    if |a| > 0 {
      assert (a + b)[0] == a[0];
      assert (a + b)[1..] == a[1..] + b;
      CollectAppend(a[1..], b, s);
    } else {
      assert a + b == b;
    }
  }

  lemma CollectCaptured(o: ProcOutput, s: Stream)
    ensures Collect(Captured(o), s) == (if s == Stdout then o.stdout else o.stderr)
  {
    var out := if |o.stdout| > 0 then [Entry(Stdout, Raw(o.stdout))] else [];
    var err := if |o.stderr| > 0 then [Entry(Stderr, Raw(o.stderr))] else [];
    CollectAppend(out, err, s);
  }

  /** A nonzero code is read back from the trailing entry that names it. */
  lemma ExitCodeOfTrailer(base: seq<OutputEntry>, code: int)
    ensures ExitCodeOf(base + [Entry(Stderr, Text(ExitPrefix + Text.IntToString(code)))]) == code
  {
    var t := ExitPrefix + Text.IntToString(code);
    assert t[..|ExitPrefix|] == ExitPrefix;
    assert t[|ExitPrefix|..] == Text.IntToString(code);
    Text.ParseIntToString(code);
  }

  /** The header and the captured entries name no exit code. */
  lemma ExitCodeOfCaptured(header: string, o: ProcOutput)
    ensures ExitCodeOf([Entry(Stdout, Text(header))] + Captured(o)) == 0
  {
    var es := [Entry(Stdout, Text(header))] + Captured(o);
    var last := es[|es| - 1];
    assert last.stream == Stderr ==> last.chunk.Raw?;
  }

  lemma CollectHeader(header: string, o: ProcOutput, s: Stream)
    ensures Collect([Entry(Stdout, Text(header))] + Captured(o), s) == (if s == Stdout then o.stdout else o.stderr)
  {
    CollectAppend([Entry(Stdout, Text(header))], Captured(o), s);
    CollectCaptured(o, s);
  }

  /** `runNpm` loses nothing: both captured streams and the exit code can be
      read back from the entries it returns. */
  lemma RecoverRunNpm(args: seq<string>, o: ProcOutput)
    ensures Recover(RunNpm(args, o)) == o
  {
    var header := "-- npm " + Text.Join(args, " ");
    var base := [Entry(Stdout, Text(header))] + Captured(o);
    CollectHeader(header, o, Stdout);
    CollectHeader(header, o, Stderr);
    if o.code == 0 {
      assert RunNpm(args, o) == base;
      ExitCodeOfCaptured(header, o);
    } else {
      var tail := [Entry(Stderr, Text(ExitPrefix + Text.IntToString(o.code)))];
      assert RunNpm(args, o) == base + tail;
      CollectAppend(base, tail, Stdout);
      CollectAppend(base, tail, Stderr);
      ExitCodeOfTrailer(base, o.code);
    }
  }

  /** `runDocker` reports both captured streams in full but drops the exit
      status: two runs that differ only in their exit code give the same entries. */
  lemma RunDockerStreams(args: seq<string>, o: ProcOutput, code: int)
    ensures Collect(RunDocker(args, o), Stdout) == o.stdout
    ensures Collect(RunDocker(args, o), Stderr) == o.stderr
    ensures RunDocker(args, o) == RunDocker(args, o.(code := code))
  {
    CollectHeader("npm " + Text.Join(args, " "), o, Stdout);
    CollectHeader("npm " + Text.Join(args, " "), o, Stderr);
  }

  // ---------------------------------------------------------------------
  // Running a fixed sequence of subprocess invocations
  // ---------------------------------------------------------------------

  /** A subprocess collaborator: the output of the program run with the given
      arguments, or `None` when it could not be spawned (the awaited promise
      rejects and the generator throws). */
  type Exec = seq<string> -> Option<ProcOutput>

  /** A generator that awaits each invocation in order and yields its entry
      list (`report` is `RunNpm` or `RunDocker`): it stops with a failure at
      the first invocation that throws, and a nonzero exit does not stop it. */
  function RunSteps(exec: Exec, report: (seq<string>, ProcOutput) -> seq<OutputEntry>, steps: seq<seq<string>>)
    : (r: Run<Payload>)
    ensures |r.values| <= |steps|
    ensures forall j :: 0 <= j < |r.values| ==>
      exec(steps[j]).Some? && r.values[j] == Many(report(steps[j], exec(steps[j]).value))
    ensures r.finished <==> |r.values| == |steps|
    ensures !r.finished ==> exec(steps[|r.values|]).None?
  {
    if |steps| == 0 then Run([], true)
    else
      match exec(steps[0])
      case None => Run([], false)
      case Some(o) =>
        var rest := RunSteps(exec, report, steps[1..]);
        Run([Many(report(steps[0], o))] + rest.values, rest.finished)
  }
}

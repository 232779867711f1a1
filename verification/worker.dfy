/** The unprivileged side in build-in-container.js: `parentRequest`, which
    turns a `false` reply into an exception, and `build`, which asks the host
    for its arguments and dispatches the first one by name. */
module Worker {
  import Base
  import Text
  import FsTree
  import opened Rpc
  import opened ProcessOutput
  import InContainerHost

  /** The commands the worker itself knows. */
  const WorkerCommands: set<string> := {"install"}

  /** A call that either returned a value or threw an `Error` with a message. */
  datatype Answer<T> = Answered(reply: T) | Raised(message: string)

  /** The message of the `Error` that `parentRequest` throws. */
  function FalseMessage(cmd: string): string
  {
    "Received false from parent request " + Text.JsonQuote(cmd) + " in worker"
  }

  /** `parentRequest(cmd, ...)` given the first message posted on its port:
      it throws exactly when the host answered `false`, and otherwise returns
      the message unchanged (markers included). */
  function ParentRequest<V>(cmd: string, reply: Msg<V>): (r: Answer<Msg<V>>)
    ensures r.Raised? <==> reply.FalseMark?
    ensures r.Answered? ==> r.reply == reply
    ensures r.Raised? ==> r.message == FalseMessage(cmd)
  {
    if reply.FalseMark? then Raised(FalseMessage(cmd)) else Answered(reply)
  }

  /** The error message of `parentRequest` names the command it was for, and
      the command can be read back from it. */
  lemma FalseMessageNamesCommand(cmd: string)
    ensures var m := FalseMessage(cmd);
      && Text.StartsWith(m, "Received false from parent request ")
      && Text.JsonUnquote(m[|"Received false from parent request "|..|m| - |" in worker"|]) == Base.Some(cmd)
  {
    var m := FalseMessage(cmd);
    var head := "Received false from parent request ";
    assert m[|head|..|m| - |" in worker"|] == Text.JsonQuote(cmd);
    Text.JsonRoundTrip(cmd);
  }

  /** How `build()` ends before it closes the worker: a command from the table
      was started with the remaining arguments, a message was reported, or an
      exception was caught and logged (`Crashed`, with the message when the
      model knows it). */
  datatype BuildEnd = Dispatched(cmd: string, args: seq<string>) | Reported(text: string) | Crashed(message: Base.Option<string>)

  /** `build()` given the reply to `parentRequest('getArgs')`. Only a name in
      the table is run; an empty argument list reports `missing command`;
      any other name reports `invalid command: <name>`. A marker reply cannot
      be destructured into `[cmd, ...args]` and throws. */
  function Build(reply: Msg<seq<string>>): (r: BuildEnd)
    ensures r.Dispatched? ==> r.cmd in WorkerCommands
    ensures reply.Val? && |reply.v| > 0 && reply.v[0] in WorkerCommands ==> r == Dispatched(reply.v[0], reply.v[1..])
    ensures r == Reported("missing command") <==> reply.Val? && |reply.v| == 0
    ensures reply.Val? && |reply.v| > 0 && reply.v[0] !in WorkerCommands ==> r == Reported("invalid command: " + reply.v[0])
    ensures r.Crashed? <==> !reply.Val?
  {
    match ParentRequest(GetArgs, reply)
    case Raised(m) => Crashed(Base.Some(m))
    case Answered(Val(a)) =>
      if |a| == 0 then Reported("missing command")
      else if a[0] in WorkerCommands then Dispatched(a[0], a[1..])
      else
        assert "invalid command: " + a[0] != "missing command" by {
          assert ("invalid command: " + a[0])[0] == 'i';
        }
        Reported("invalid command: " + a[0])
    case Answered(_) => Crashed(Base.None)
  }

  /** A message of the in-container host read as a reply to `getArgs`;
      `None` for a payload other than an argument list. */
  function ArgsReply(m: Msg<Payload>): Base.Option<Msg<seq<string>>>
  {
    match m
    case Val(Args(a)) => Base.Some(Val(a))
    case Val(_) => Base.None
    case DoneMark => Base.Some(DoneMark)
    case ErrorMark => Base.Some(ErrorMark)
    case FalseMark => Base.Some(FalseMark)
  }

  /** End to end: when the worker's `getArgs` request reaches the in-container
      host, `build()` runs `install` exactly when the container's first
      argument is `install`, and otherwise reports the missing or invalid
      command. */
  lemma BuildAgainstHost(denoArgs: seq<string>, npm: InContainerHost.Npm, es: seq<FsTree.Node<string>>)
    ensures var t := InContainerHost.HandleMessage(GetArgs, denoArgs, npm, es);
      && ArgsReply(t[0].m) == Base.Some(Val(denoArgs))
      && var r := Build(Val(denoArgs));
      && (|denoArgs| == 0 ==> r == Reported("missing command"))
      && (|denoArgs| > 0 && denoArgs[0] == "install" ==> r == Dispatched("install", denoArgs[1..]))
      && (|denoArgs| > 0 && denoArgs[0] != "install" ==> r == Reported("invalid command: " + denoArgs[0]))
  {
  }
}

/** The host of run-bundle-libraries.js: three single-reply commands that read
    the library notebook and read or replace the bundle notebook, answered
    with one message and no completion marker. */
module BundleHost {
  import opened Base
  import opened Rpc

  const LibrarySourcePath := "./build/build-libraries/library-source.md"
  const BundlePath := "./codemirror-bundle.md"

  const Commands: set<string> := {"getLibrarySource", "loadBundle", "saveBundle"}

  /** The text files the host can reach, by the path it names them with. */
  type Store = map<string, string>

  /** What a command resolves to: a file's text, or `undefined` from
      `saveBundle`. */
  datatype Value = Str(s: string) | Undefined

  /** `Deno.readTextFile`: the text, or a throw for a missing file. */
  function ReadText(st: Store, path: string): (r: Single<Value>)
    ensures r.Returned? <==> path in st
    ensures r.Returned? ==> r.v == Str(st[path])
  {
    if path in st then Returned(Str(st[path])) else Threw
  }

  /** The text `saveBundle` writes: its first argument, and the empty string
      when it is called without one (encoding `undefined` gives no bytes). */
  function SavedText(args: seq<string>): string
  {
    if |args| > 0 then args[0] else ""
  }

  /** The outcome of `commands[cmd](...args)` and the store it leaves. A name
      outside the table is `undefined`, and calling it throws. */
  function Call(st: Store, cmd: string, args: seq<string>): (r: (Single<Value>, Store))
    ensures cmd != "saveBundle" ==> r.1 == st
    ensures cmd == "saveBundle" ==> r == (Returned(Undefined), st[BundlePath := SavedText(args)])
    ensures cmd == "getLibrarySource" ==> r.0 == ReadText(st, LibrarySourcePath)
    ensures cmd == "loadBundle" ==> r.0 == ReadText(st, BundlePath)
    ensures cmd !in Commands ==> r.0 == Threw
  {
    if cmd == "getLibrarySource" then (ReadText(st, LibrarySourcePath), st)
    else if cmd == "loadBundle" then (ReadText(st, BundlePath), st)
    else if cmd == "saveBundle" then (Returned(Undefined), st[BundlePath := SavedText(args)])
    else (Threw, st)
  }

  datatype Handled = Handled(trace: seq<PortEvent<Value>>, store: Store)

  /** `handleMessage` for `[cmd, ...args]`: the result, or `{error: true}`
      when the call threw, then the close. No `{done: true}` is ever posted,
      and only `saveBundle` changes a file, and only the bundle. */
  function HandleMessage(st: Store, cmd: string, args: seq<string>): (h: Handled)
    ensures SingleFramed(h.trace) && ClosedOnceAtEnd(h.trace)
    ensures forall i :: 0 <= i < |h.trace| ==> h.trace[i] != Post(DoneMark) && h.trace[i] != Post(FalseMark)
    ensures h.trace[0] == Post(ErrorMark) <==>
      cmd !in Commands
      || (cmd == "getLibrarySource" && LibrarySourcePath !in st)
      || (cmd == "loadBundle" && BundlePath !in st)
    ensures cmd == "getLibrarySource" && LibrarySourcePath in st ==> h.trace[0] == Post(Val(Str(st[LibrarySourcePath])))
    ensures cmd == "loadBundle" && BundlePath in st ==> h.trace[0] == Post(Val(Str(st[BundlePath])))
    ensures cmd == "saveBundle" ==> h.trace[0] == Post(Val(Undefined))
    ensures h.store != st ==> cmd == "saveBundle"
    ensures forall p :: p != BundlePath ==> (p in h.store <==> p in st) && (p in st ==> h.store[p] == st[p])
  {
    var (outcome, store) := Call(st, cmd, args);
    Handled(SingleReply(outcome, ErrorMark), store)
  }

  /** Saving then loading the bundle gives back the saved text, and leaves
      the library notebook as it was. */
  lemma SaveThenLoad(st: Store, text: string, rest: seq<string>, more: seq<string>)
    ensures var saved := HandleMessage(st, "saveBundle", [text] + rest).store;
      && HandleMessage(saved, "loadBundle", more).trace == [Post(Val(Str(text))), Close]
      && HandleMessage(saved, "getLibrarySource", more).trace == HandleMessage(st, "getLibrarySource", more).trace
  {
    assert LibrarySourcePath != BundlePath;
  }

  /** Saving is idempotent: saving the same text twice leaves the same files
      as saving it once. */
  lemma SaveIdempotent(st: Store, args: seq<string>)
    ensures var once := HandleMessage(st, "saveBundle", args).store;
      HandleMessage(once, "saveBundle", args).store == once
  {
  }
}

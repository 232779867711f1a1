/** The privileged host of run-build.js: it answers a worker's `readPaths`,
    `readFile` and `writeFile` requests against the working directory, posts
    exactly one message per request (`false` on any failure) and closes the
    reply port. The working directory is an abstract tree of byte files. */
module HostBuild {
  import opened Base
  import Text
  import opened FsTree
  import opened Rpc

  type Tree = seq<Node<seq<byte>>>

  /** An argument the worker sends after the command name. */
  datatype Arg = PathArg(p: seq<string>) | BytesArg(b: seq<byte>)

  /** What the host posts on success: the list of paths, a file's bytes, or
      the `undefined` that `writeFile` resolves to. */
  datatype HostValue = Paths(ps: seq<seq<string>>) | Data(b: seq<byte>) | Undefined

  /** The single file a worker may write. */
  const NotebookName := "notebook.md"

  /** `readPaths()` is called with its default suffix. */
  const DefaultSuffix := ".md"

  // ---------------------------------------------------------------------
  // readPaths
  // ---------------------------------------------------------------------

  /** The non-hidden files of one directory whose name ends with `suffix`, in
      listing order, each as `parent` plus its name. */
  function LevelFiles(suffix: string, parent: seq<string>, es: Tree): (r: seq<seq<string>>)
    ensures forall i :: 0 <= i < |r| ==> |r[i]| == |parent| + 1 && r[i][..|parent|] == parent
    decreases es
  {
    if |es| == 0 then []
    else
      var rest := LevelFiles(suffix, parent, es[1..]);
      if es[0].File? && !Hidden(es[0].name) && Text.EndsWith(es[0].name, suffix) then
        var q := parent + [es[0].name];
        assert q[..|parent|] == parent;
        [q] + rest
      else rest
  }

  /** The walk of every non-hidden subdirectory, in listing order; each
      subdirectory contributes its own files first, then its subdirectories. */
  function SubdirPaths(suffix: string, parent: seq<string>, es: Tree): (r: seq<seq<string>>)
    ensures forall i :: 0 <= i < |r| ==> |r[i]| > |parent| + 1 && r[i][..|parent|] == parent
    decreases es
  {
    if |es| == 0 then []
    else
      (if es[0].Dir? && !Hidden(es[0].name) then
         var sub := parent + [es[0].name];
         var inner := LevelFiles(suffix, sub, es[0].children) + SubdirPaths(suffix, sub, es[0].children);
         assert forall i :: 0 <= i < |inner| ==> inner[i][..|parent|] == parent by {
           forall i | 0 <= i < |inner|
             ensures inner[i][..|parent|] == parent
           {
             assert inner[i][..|sub|] == sub;
             assert inner[i][..|parent|] == inner[i][..|sub|][..|parent|];
           }
         }
         inner
       else [])
      + SubdirPaths(suffix, parent, es[1..])
  }

  /** `readPaths(suffix, parent)`: every visible matching file of the
      directory, then the walk of its visible subdirectories. A path from a
      subdirectory is never followed by a file of the directory itself. */
  function ReadPaths(suffix: string, parent: seq<string>, es: Tree): (r: seq<seq<string>>)
    ensures forall i :: 0 <= i < |r| ==> |r[i]| > |parent| && r[i][..|parent|] == parent
    ensures forall i, j :: 0 <= i < j < |r| && |r[i]| > |parent| + 1 ==> |r[j]| > |parent| + 1
  {
    LevelFiles(suffix, parent, es) + SubdirPaths(suffix, parent, es)
  }

  /** Every file path under `parent`, whatever its name: the reference the
      walk is compared with. */
  function AllFilePaths(parent: seq<string>, es: Tree): (r: set<seq<string>>)
    ensures forall p :: p in r ==> |p| > |parent| && p[..|parent|] == parent
    decreases es
  {
    if |es| == 0 then {}
    else
      (match es[0]
       case File(n, _) => {parent + [n]}
       case Dir(n, ch) =>
         var sub := AllFilePaths(parent + [n], ch);
         assert forall p :: p in sub ==> p[..|parent|] == parent by {
           forall p | p in sub
             ensures p[..|parent|] == parent
           {
             assert p[..|parent| + 1] == parent + [n];
             assert p[..|parent|] == p[..|parent| + 1][..|parent|];
           }
         }
         sub)
      + AllFilePaths(parent, es[1..])
  }

  /** A path `readPaths` should report: below `parent`, no component after
      `parent` hidden, and the final name ending with `suffix`. */
  predicate Wanted(suffix: string, parent: seq<string>, p: seq<string>)
  {
    && |p| > |parent|
    && (forall k :: |parent| <= k < |p| ==> !Hidden(p[k]))
    && Text.EndsWith(p[|p| - 1], suffix)
  }

  lemma WantedStep(suffix: string, parent: seq<string>, n: string, p: seq<string>)
    requires |p| > |parent| + 1 && p[..|parent| + 1] == parent + [n]
    ensures Wanted(suffix, parent, p) <==> !Hidden(n) && Wanted(suffix, parent + [n], p)
  {
    assert p[|parent|] == (parent + [n])[|parent|];
  }

  lemma FileStep(suffix: string, parent: seq<string>, n: string, c: seq<byte>, p: seq<string>)
    ensures p in ReadPaths(suffix, parent, [File(n, c)])
        <==> p in AllFilePaths(parent, [File(n, c)]) && Wanted(suffix, parent, p)
  {
    var e: Tree := [File(n, c)];
    assert e[1..] == [];
    assert SubdirPaths(suffix, parent, e) == [];
    assert AllFilePaths(parent, e) == {parent + [n]};
    if !Hidden(n) && Text.EndsWith(n, suffix) {
      assert LevelFiles(suffix, parent, e) == [parent + [n]];
    } else {
      assert LevelFiles(suffix, parent, e) == [];
    }
    if p == parent + [n] {
      assert p[|parent|] == n;
    }
  }

  lemma DirStep(suffix: string, parent: seq<string>, n: string, ch: Tree, p: seq<string>)
    requires p in ReadPaths(suffix, parent + [n], ch)
        <==> p in AllFilePaths(parent + [n], ch) && Wanted(suffix, parent + [n], p)
    ensures p in ReadPaths(suffix, parent, [Dir(n, ch)])
        <==> p in AllFilePaths(parent, [Dir(n, ch)]) && Wanted(suffix, parent, p)
  {
    var e: Tree := [Dir(n, ch)];
    assert LevelFiles(suffix, parent, e) == [];
    assert AllFilePaths(parent, e) == AllFilePaths(parent + [n], ch);
    if !Hidden(n) {
      assert SubdirPaths(suffix, parent, e) == ReadPaths(suffix, parent + [n], ch);
    } else {
      assert SubdirPaths(suffix, parent, e) == [];
    }
    if p in AllFilePaths(parent + [n], ch) {
      WantedStep(suffix, parent, n, p);
    }
  }

  /** A listing is its first entry followed by the rest, both for the walk
      and for the reference set. */
  lemma SplitFirst(suffix: string, parent: seq<string>, es: Tree)
    requires |es| > 0
    ensures forall p :: (p in ReadPaths(suffix, parent, es)
      <==> p in ReadPaths(suffix, parent, [es[0]]) || p in ReadPaths(suffix, parent, es[1..]))
    ensures AllFilePaths(parent, es) == AllFilePaths(parent, [es[0]]) + AllFilePaths(parent, es[1..])
  {
    var head, rest := [es[0]], es[1..];
    assert es == head + rest;
    LevelFilesOrder(suffix, parent, head, rest);
    SubdirOrder(suffix, parent, head, rest);
    assert head[1..] == [];
  }

  /** `readPaths` reports exactly the wanted files: a path is yielded if and
      only if a file sits there and neither it nor any directory on the way
      down from `parent` is hidden, and its name ends with the suffix. */
  lemma {:induction false} ReadPathsExact(suffix: string, parent: seq<string>, es: Tree, p: seq<string>)
    ensures p in ReadPaths(suffix, parent, es) <==> p in AllFilePaths(parent, es) && Wanted(suffix, parent, p)
    decreases es
  {
    if |es| > 0 {
      SplitFirst(suffix, parent, es);
      ReadPathsExact(suffix, parent, es[1..], p);
      match es[0]
      case File(n, c) => FileStep(suffix, parent, n, c, p);
      case Dir(n, ch) =>
        ReadPathsExact(suffix, parent + [n], ch, p);
        DirStep(suffix, parent, n, ch, p);
    }
  }

  /** Listing order is kept for the files of one directory: the files of an
      earlier part of the listing are reported before those of a later part. */
  lemma {:induction false} LevelFilesOrder(suffix: string, parent: seq<string>, a: Tree, b: Tree)
    ensures LevelFiles(suffix, parent, a + b) == LevelFiles(suffix, parent, a) + LevelFiles(suffix, parent, b)
    decreases |a|
  {
    if |a| == 0 {
      assert a + b == b;
    } else {
      assert (a + b)[0] == a[0];
      assert (a + b)[1..] == a[1..] + b;
      LevelFilesOrder(suffix, parent, a[1..], b);
    }
  }

  /** Subdirectories are walked in listing order: every path from an earlier
      subdirectory precedes every path from a later one. */
  lemma {:induction false} SubdirOrder(suffix: string, parent: seq<string>, a: Tree, b: Tree)
    ensures SubdirPaths(suffix, parent, a + b) == SubdirPaths(suffix, parent, a) + SubdirPaths(suffix, parent, b)
    decreases |a|
  {
    if |a| == 0 {
      assert a + b == b;
    } else {
      assert (a + b)[0] == a[0];
      assert (a + b)[1..] == a[1..] + b;
      SubdirOrder(suffix, parent, a[1..], b);
    }
  }

  // ---------------------------------------------------------------------
  // readFile, writeFile
  // ---------------------------------------------------------------------

  /** `writeFile` proceeds only for the one-element path `['notebook.md']`;
      everything else is refused before anything is written. */
  predicate WriteAllowed(args: seq<Arg>)
  {
    |args| > 0 && args[0] == PathArg([NotebookName])
  }

  /** The bytes `writeFile` writes: `TextDecoder.decode` of the second
      argument, which decodes a missing argument as the empty text and throws
      for anything that is not a byte buffer. */
  function WriteData(args: seq<Arg>): Option<seq<byte>>
  {
    if |args| < 2 then Some([])
    else if args[1].BytesArg? then Some(args[1].b)
    else None
  }

  /** `writeFile(path, data)`: the new tree, or `None` when it throws. */
  function WriteFile(es: Tree, args: seq<Arg>): (r: Option<Tree>)
    ensures r.Some? ==> WriteAllowed(args) && WriteData(args).Some?
    ensures r.Some? ==> Lookup(r.value, [NotebookName]) == WriteData(args)
    ensures r.Some? ==> forall p :: |p| > 0 && p[0] != NotebookName ==> Lookup(r.value, p) == Lookup(es, p)
  {
    if !WriteAllowed(args) then None
    else
      match WriteData(args)
      case None => None
      case Some(d) => PutFile(es, NotebookName, d)
  }

  /** `readFile(path)`: the bytes at the path the first argument names. */
  function ReadFile(es: Tree, args: seq<Arg>): Option<seq<byte>>
  {
    if |args| > 0 && args[0].PathArg? then Lookup(es, args[0].p) else None
  }

  // ---------------------------------------------------------------------
  // handleMessage
  // ---------------------------------------------------------------------

  /** What a request does: the reply outcome and the tree afterwards. */
  function Perform(es: Tree, cmd: string, args: seq<Arg>): (Single<HostValue>, Tree)
  {
    if cmd == "readPaths" then (Returned(Paths(ReadPaths(DefaultSuffix, [], es))), es)
    else if cmd == "readFile" then
      match ReadFile(es, args)
      case Some(d) => (Returned(Data(d)), es)
      case None => (Threw, es)
    else if cmd == "writeFile" then
      match WriteFile(es, args)
      case Some(es') => (Returned(Undefined), es')
      case None => (Threw, es)
    else (Threw, es)
  }

  datatype Handled = Handled(trace: seq<PortEvent<HostValue>>, tree: Tree)

  /** `handleMessage` for `[cmd, ...args]`: exactly one message then the
      close; `false` exactly when the command is unknown or throws; the tree
      changes only through an allowed `writeFile`. */
  function HandleMessage(es: Tree, cmd: string, args: seq<Arg>): (h: Handled)
    ensures SingleFramed(h.trace) && ClosedOnceAtEnd(h.trace)
    ensures h.trace[0] == Post(FalseMark) <==>
      !(|| cmd == "readPaths"
        || (cmd == "readFile" && ReadFile(es, args).Some?)
        || (cmd == "writeFile" && WriteFile(es, args).Some?))
    ensures cmd == "writeFile" && !WriteAllowed(args) ==> h.trace[0] == Post(FalseMark)
    ensures h.tree != es ==> cmd == "writeFile" && WriteAllowed(args)
    ensures cmd == "readPaths" ==> h.trace[0] == Post(Val(Paths(ReadPaths(DefaultSuffix, [], es))))
    ensures cmd == "readFile" && ReadFile(es, args).Some? ==> h.trace[0] == Post(Val(Data(ReadFile(es, args).value)))
  {
    var (outcome, tree) := Perform(es, cmd, args);
    Handled(SingleReply(outcome, FalseMark), tree)
  }

  /** What is written can be read back: after an accepted `writeFile` of
      `data`, `readFile(['notebook.md'])` answers with `data`, and every path
      not under that name reads as before. */
  lemma WriteThenRead(es: Tree, data: seq<byte>, p: seq<string>)
    requires HandleMessage(es, "writeFile", [PathArg([NotebookName]), BytesArg(data)]).trace[0] != Post(FalseMark)
    ensures
      var es' := HandleMessage(es, "writeFile", [PathArg([NotebookName]), BytesArg(data)]).tree;
      && HandleMessage(es', "readFile", [PathArg([NotebookName])]).trace[0] == Post(Val(Data(data)))
      && (|p| > 0 && p[0] != NotebookName ==>
            HandleMessage(es', "readFile", [PathArg(p)]).trace == HandleMessage(es, "readFile", [PathArg(p)]).trace)
  {
    var args := [PathArg([NotebookName]), BytesArg(data)];
    assert WriteFile(es, args).Some?;
  }
}

/** The host of run-build-in-container.js, which runs inside the build
    container: `getArgs` returns the container's arguments, and `install`
    streams the npm output and then one fenced markdown document per
    JavaScript or JSON file found under the working directory. */
module InContainerHost {
  import opened Base
  import Text
  import opened FsTree
  import opened Rpc
  import opened ProcessOutput

  const Commands: set<string> := {"getArgs", "install"}

  const Packages: seq<string> := [
    "@rollup/browser",
    "@codemirror/autocomplete",
    "@codemirror/commands",
    "@codemirror/language",
    "@codemirror/lint",
    "@codemirror/search",
    "@codemirror/state",
    "@codemirror/view",
    "@codemirror/lang-html",
    "@codemirror/lang-css",
    "@codemirror/lang-json",
    "@codemirror/lang-javascript"
  ]

  /** The three npm invocations of `install`, in order. */
  const NpmSteps: seq<seq<string>> := [
    ["set", "proxy=http://proxy:3000/"],
    ["init", "-y"],
    ["install"] + Packages
  ]

  const Banner := "Installing packages:\n\n```\n"

  /** The npm collaborator. */
  type Npm = Exec

  // ---------------------------------------------------------------------
  // getFiles
  // ---------------------------------------------------------------------

  /** `/\.(js|json|mjs)$/i`: the name ends with one of the three extensions,
      ignoring ASCII case. */
  predicate ScriptLike(name: string)
  {
    var lower := Text.LowerAll(name);
    Text.EndsWith(lower, ".js") || Text.EndsWith(lower, ".json") || Text.EndsWith(lower, ".mjs")
  }

  /** The test `getFiles` applies to a non-directory entry. */
  predicate Selected(name: string)
  {
    ScriptLike(name) && name != "./run-container-build.js"
  }

  /** A directory listing never holds a name with a slash, so the exclusion
      of `./run-container-build.js` never removes anything. */
  lemma ExclusionNeverApplies(name: string)
    requires forall i :: 0 <= i < |name| ==> name[i] != '/'
    ensures Selected(name) <==> ScriptLike(name)
  {
    var excluded := "./run-container-build.js";
    assert excluded[1] == '/';
  }

  /** A file met by the walk: the directory path it was listed under, its
      name and its text. */
  datatype Found = Found(dir: string, name: string, content: string)
  {
    function Path(): string { dir + name }
  }

  /** Every file below `path`, depth first in listing order: a directory's
      files and subdirectories are visited where they occur in its listing,
      a subdirectory under `path + name + '/'`. */
  function Listing(path: string, es: seq<Node<string>>): (r: seq<Found>)
    ensures forall i :: 0 <= i < |r| ==> Text.StartsWith(r[i].dir, path)
    decreases es
  {
    if |es| == 0 then []
    else
      (match es[0]
       case Dir(n, ch) =>
         var sub := Listing(path + n + "/", ch);
         assert forall i :: 0 <= i < |sub| ==> Text.StartsWith(sub[i].dir, path) by {
           forall i | 0 <= i < |sub|
             ensures Text.StartsWith(sub[i].dir, path)
           {
             assert sub[i].dir[..|path + n + "/"|] == path + n + "/";
             assert sub[i].dir[..|path|] == (path + n + "/")[..|path|];
           }
         }
         sub
       case File(n, c) => [Found(path, n, c)])
      + Listing(path, es[1..])
  }

  /** `getFiles(path)`: the path of every selected file, in walk order. */
  function GetFiles(path: string, es: seq<Node<string>>): seq<string>
    decreases es
  {
    if |es| == 0 then []
    else
      (match es[0]
       case Dir(n, ch) => GetFiles(path + n + "/", ch)
       case File(n, _) => if Selected(n) then [path + n] else [])
      + GetFiles(path, es[1..])
  }

  /** The selected files of a listing, in order. */
  function Select(fs: seq<Found>): (r: seq<Found>)
    ensures forall i :: 0 <= i < |r| ==> Selected(r[i].name) && r[i] in fs
    ensures forall f :: f in fs && Selected(f.name) ==> f in r
  {
    if |fs| == 0 then []
    else (if Selected(fs[0].name) then [fs[0]] else []) + Select(fs[1..])
  }

  function PathsOf(fs: seq<Found>): (r: seq<string>)
    ensures |r| == |fs| && forall i :: 0 <= i < |fs| ==> r[i] == fs[i].Path()
  {
    if |fs| == 0 then [] else [fs[0].Path()] + PathsOf(fs[1..])
  }

  lemma {:induction false} SelectAppend(a: seq<Found>, b: seq<Found>)
    ensures Select(a + b) == Select(a) + Select(b)
    decreases |a|
  {
    if |a| == 0 {
      assert a + b == b;
    } else {
      assert (a + b)[0] == a[0];
      assert (a + b)[1..] == a[1..] + b;
      SelectAppend(a[1..], b);
    }
  }

  lemma PathsOfAppend(a: seq<Found>, b: seq<Found>)
    ensures PathsOf(a + b) == PathsOf(a) + PathsOf(b)
  {
  }

  /** `getFiles` yields exactly the paths of the selected files of the full
      walk, in walk order: each is the directory path it was listed under
      followed by its name. */
  lemma {:induction false} GetFilesSelects(path: string, es: seq<Node<string>>)
    ensures GetFiles(path, es) == PathsOf(Select(Listing(path, es)))
    decreases es
  {
    if |es| > 0 {
      GetFilesSelects(path, es[1..]);
      var head := match es[0]
        case Dir(n, ch) => Listing(path + n + "/", ch)
        case File(n, c) => [Found(path, n, c)];
      assert Listing(path, es) == head + Listing(path, es[1..]);
      SelectAppend(head, Listing(path, es[1..]));
      PathsOfAppend(Select(head), Select(Listing(path, es[1..])));
      match es[0]
      case Dir(n, ch) => GetFilesSelects(path + n + "/", ch);
      case File(n, c) =>
        assert Select(head) == (if Selected(n) then head else []);
    }
  }

  /** The file the exclusion in `getFiles` names. */
  const ExcludedPath := "./run-container-build.js"

  /** As written, the exclusion does not apply to the file it names: the
      entry of a `run-container-build.js` at the top of the working
      directory is a plain name, and it is reported like any other
      script. */
  lemma AsWrittenKeepsExcluded(name: string, content: string)
    requires "./" + name == ExcludedPath
    ensures NoSlash(name)
    ensures GetFiles("./", [File(name, content)]) == [ExcludedPath]
  {
    assert name == ExcludedPath[2..];
    forall i | 0 <= i < |name|
      ensures name[i] != '/'
    {
      assert name[i] == ExcludedPath[i + 2];
    }
    assert name[|name| - 3..] == ExcludedPath[|ExcludedPath| - 3..];
    JsStaysScript(name);
    assert |name| != |ExcludedPath|;
    var es := [File(name, content)];
    assert es[1..] == [];
    assert GetFiles("./", es) == ["./" + name] + GetFiles("./", []);
  }

  /** A name ending in `.js` in lower case matches the pattern. */
  lemma JsStaysScript(name: string)
    requires Text.EndsWith(name, ".js")
    ensures ScriptLike(name)
  {
    var l := Text.LowerAll(name);
    forall k | 0 <= k < 3
      ensures l[|l| - 3..][k] == ".js"[k]
    {
      assert l[|l| - 3 + k] == Text.LowerAscii(name[|name| - 3 + k]);
    }
  }

  predicate NoSlash(name: string)
  {
    forall i :: 0 <= i < |name| ==> name[i] != '/'
  }

  /** A tree as a directory listing gives it: no name holds a slash. */
  predicate Plain(es: seq<Node<string>>)
    decreases es
  {
    forall i :: 0 <= i < |es| ==>
      NoSlash(es[i].name) && (es[i].Dir? ==> Plain(es[i].children))
  }

  /** `getFiles` with the exclusion compared against the full path, as the
      constant it is compared with is written. */
  function GetFilesCorrected(path: string, es: seq<Node<string>>): seq<string>
    decreases es
  {
    if |es| == 0 then []
    else
      (match es[0]
       case Dir(n, ch) => GetFilesCorrected(path + n + "/", ch)
       case File(n, _) => if ScriptLike(n) && path + n != ExcludedPath then [path + n] else [])
      + GetFilesCorrected(path, es[1..])
  }

  /** The sequence without the occurrences of `x`. */
  function Without(xs: seq<string>, x: string): (r: seq<string>)
    ensures x !in r
    ensures forall y :: y in r <==> y in xs && y != x
  {
    if |xs| == 0 then [] else (if xs[0] == x then [] else [xs[0]]) + Without(xs[1..], x)
  }

  lemma {:induction false} WithoutAppend(a: seq<string>, b: seq<string>, x: string)
    ensures Without(a + b, x) == Without(a, x) + Without(b, x)
    decreases |a|
  {
    if |a| == 0 {
      assert a + b == b;
    } else {
      assert (a + b)[0] == a[0];
      assert (a + b)[1..] == a[1..] + b;
      WithoutAppend(a[1..], b, x);
    }
  }

  /** On a tree as a directory listing gives it, the corrected walk reports
      what the walk as written reports, in the same order, except the
      excluded file. */
  lemma {:induction false} CorrectedExcludes(path: string, es: seq<Node<string>>)
    requires Plain(es)
    ensures GetFilesCorrected(path, es) == Without(GetFiles(path, es), ExcludedPath)
    ensures ExcludedPath !in GetFilesCorrected(path, es)
    decreases es
  {
    if |es| > 0 {
      assert Plain(es[1..]) by {
        forall i | 0 <= i < |es[1..]|
          ensures NoSlash(es[1..][i].name) && (es[1..][i].Dir? ==> Plain(es[1..][i].children))
        {
          assert es[1..][i] == es[i + 1];
        }
      }
      CorrectedExcludes(path, es[1..]);
      match es[0]
      case Dir(n, ch) =>
        CorrectedExcludes(path + n + "/", ch);
        WithoutAppend(GetFiles(path + n + "/", ch), GetFiles(path, es[1..]), ExcludedPath);
      case File(n, c) =>
        ExclusionNeverApplies(n);
        var head := if Selected(n) then [path + n] else [];
        WithoutAppend(head, GetFiles(path, es[1..]), ExcludedPath);
        assert Without(head, ExcludedPath) == (if ScriptLike(n) && path + n != ExcludedPath then [path + n] else []) by {
          if Selected(n) {
            assert head[1..] == [];
          }
        }
    }
  }

  // ---------------------------------------------------------------------
  // The emitted documents
  // ---------------------------------------------------------------------

  /** The content with a final newline added when it lacks one. */
  function EnsureNewline(content: string): (r: string)
    ensures Text.EndsWith(r, "\n")
    ensures Text.StartsWith(r, content) && |content| <= |r| <= |content| + 1
    ensures Text.EndsWith(content, "\n") <==> r == content
  {
    if Text.EndsWith(content, "\n") then content else content + "\n"
  }

  /** `path.slice(2)`. */
  function DropTwo(path: string): string
  {
    if |path| >= 2 then path[2..] else ""
  }

  /** For a path under `./` the document names it without that prefix. */
  lemma DropTwoUnderDot(path: string)
    requires Text.StartsWith(path, "./")
    ensures "./" + DropTwo(path) == path
  {
    assert path == path[..2] + path[2..];
  }

  const DocHead := "\n```\n\n`"
  const DocMid := "`\n\n```\n"
  const DocTail := "```\n"

  /** The markdown document emitted for one file: the path in backticks, then
      the content in a fenced block whose closing fence starts a line. */
  function OutputDoc(path: string, content: string): (d: string)
    ensures d == DocHead + DropTwo(path) + DocMid + EnsureNewline(content) + DocTail
    ensures Text.EndsWith(d, "\n```\n")
  {
    var body := EnsureNewline(content);
    var d := DocHead + DropTwo(path) + DocMid + body + DocTail;
    assert d[|d| - 5..] == body[|body| - 1..] + DocTail;
    d
  }

  predicate NoBacktick(s: string)
  {
    forall i :: 0 <= i < |s| ==> s[i] != '`'
  }

  /** The position of the first backtick at or after `i`, or `|s|`. */
  function TickFrom(s: string, i: nat): (j: nat)
    requires i <= |s|
    ensures i <= j <= |s|
    decreases |s| - i
  {
    if i == |s| || s[i] == '`' then i else TickFrom(s, i + 1)
  }

  lemma {:induction false} TickAt(s: string, i: nat, j: nat)
    requires i <= j < |s| && s[j] == '`'
    requires forall m :: i <= m < j ==> s[m] != '`'
    ensures TickFrom(s, i) == j
    decreases j - i
  {
    if i < j {
      TickAt(s, i + 1, j);
    }
  }

  /** Where the parts of a document sit: the path runs from the end of the
      head to the first backtick after it, and the body fills the space
      between the middle and the closing fence. */
  lemma DocParts(a: string, b: string)
    requires NoBacktick(a)
    ensures var d := DocHead + a + DocMid + b + DocTail;
      && |d| == |DocHead| + |a| + |DocMid| + |b| + |DocTail|
      && TickFrom(d, |DocHead|) == |DocHead| + |a|
      && d[|DocHead|..|DocHead| + |a|] == a
      && d[|DocHead| + |a| + |DocMid|..|d| - |DocTail|] == b
  {
    var d := DocHead + a + DocMid + b + DocTail;
    assert d == DocHead + a + (DocMid + b + DocTail);
    assert d[|DocHead| + |a|] == (DocMid + b + DocTail)[0];
    forall m | |DocHead| <= m < |DocHead| + |a|
      ensures d[m] != '`'
    {
      assert d[m] == a[m - |DocHead|];
    }
    TickAt(d, |DocHead|, |DocHead| + |a|);
  }

  /** A document names one file: when the paths hold no backtick, two
      documents are equal exactly when they name the same path and carry
      the same newline-terminated content. */
  lemma OutputDocDetermines(p1: string, c1: string, p2: string, c2: string)
    requires NoBacktick(DropTwo(p1)) && NoBacktick(DropTwo(p2))
    ensures OutputDoc(p1, c1) == OutputDoc(p2, c2) <==>
      DropTwo(p1) == DropTwo(p2) && EnsureNewline(c1) == EnsureNewline(c2)
  {
    var a1, a2 := DropTwo(p1), DropTwo(p2);
    var b1, b2 := EnsureNewline(c1), EnsureNewline(c2);
    if OutputDoc(p1, c1) == OutputDoc(p2, c2) {
      DocParts(a1, b1);
      DocParts(a2, b2);
    }
  }

  /** Adding the newline is idempotent, so a document's body never gains a
      second blank line. */
  lemma EnsureNewlineIdempotent(content: string)
    ensures EnsureNewline(EnsureNewline(content)) == EnsureNewline(content)
  {
  }

  // ---------------------------------------------------------------------
  // install
  // ---------------------------------------------------------------------

  function DocValue(f: Found): Payload
  {
    One(Entry(Stdout, Utf8(OutputDoc(f.Path(), f.content))))
  }

  function Docs(fs: seq<Found>): (r: seq<Payload>)
    ensures |r| == |fs| && forall i :: 0 <= i < |fs| ==> r[i] == DocValue(fs[i])
  {
    seq(|fs|, i requires 0 <= i < |fs| => DocValue(fs[i]))
  }

  /** The `install` generator over the working directory `es` as it stands
      after the npm invocations: the banner, the three npm entry lists in
      order, then one document per selected file in walk order. */
  function Install(npm: Npm, es: seq<Node<string>>): (r: Run<Payload>)
    ensures |r.values| >= 1 && r.values[0] == One(Entry(Stdout, Utf8(Banner)))
    ensures r.finished <==> forall k :: 0 <= k < |NpmSteps| ==> npm(NpmSteps[k]).Some?
    ensures r.finished ==>
      var files := Select(Listing("./", es));
      && |r.values| == 1 + |NpmSteps| + |files|
      && (forall k :: 0 <= k < |NpmSteps| ==> r.values[1 + k] == Many(RunNpm(NpmSteps[k], npm(NpmSteps[k]).value)))
      && (forall i :: 0 <= i < |files| ==> r.values[1 + |NpmSteps| + i] == DocValue(files[i]))
    ensures !r.finished ==>
      var k := |r.values| - 1;
      && k < |NpmSteps| && npm(NpmSteps[k]).None?
      && forall j :: 0 <= j < k ==> npm(NpmSteps[j]).Some? && r.values[1 + j] == Many(RunNpm(NpmSteps[j], npm(NpmSteps[j]).value))
  {
    var banner := One(Entry(Stdout, Utf8(Banner)));
    var p := RunSteps(npm, RunNpm, NpmSteps);
    if !p.finished then
      Run([banner] + p.values, false)
    else
      Run([banner] + p.values + Docs(Select(Listing("./", es))), true)
  }

  // ---------------------------------------------------------------------
  // handleMessage
  // ---------------------------------------------------------------------

  /** `handleMessage` for a request naming `cmd`, given the container's
      arguments, the npm collaborator and the working directory. */
  function HandleMessage(cmd: string, denoArgs: seq<string>, npm: Npm, es: seq<Node<string>>)
    : (t: seq<PortEvent<Payload>>)
    ensures ClosedOnceAtEnd(t)
    ensures cmd == GetArgs ==> t == [Post(Val(Args(denoArgs))), Close]
    ensures cmd == "install" ==> WellFramed(t) && Observe(t) == Some(Install(npm, es))
    ensures cmd !in Commands ==> t == [Post(ErrorMark), Close]
  {
    HandleMixed(Commands, cmd, Returned(Args(denoArgs)), Install(npm, es))
  }
}

/** A directory as `Deno.readDir` lists it: entries in listing order, each a
    file with some content or a directory with its own entries. */
module FsTree {
  import opened Base
  import Text

  datatype Node<C> = File(name: string, content: C) | Dir(name: string, children: seq<Node<C>>)

  /** A name `readPaths` skips: it starts with a dot. */
  predicate Hidden(name: string)
  {
    Text.StartsWith(name, ".")
  }

  /** The content of the file reached by following `path` component by
      component from the entries `es`; `None` when a component is missing,
      the path ends at a directory or passes through a file. The first entry
      with a matching name is the one used. */
  function Lookup<C>(es: seq<Node<C>>, path: seq<string>): Option<C>
  {
    if |path| == 0 || |es| == 0 then None
    else if es[0].name == path[0] then
      match es[0]
      case File(_, c) => if |path| == 1 then Some(c) else None
      case Dir(_, ch) => if |path| == 1 then None else Lookup(ch, path[1..])
    else Lookup(es[1..], path)
  }

  /** The effect of `Deno.writeTextFile` on an entry of this directory: an
      existing file of that name gets the new content in place, an absent
      name is added as a new last entry, and a directory of that name makes
      the write fail. */
  function PutFile<C>(es: seq<Node<C>>, name: string, content: C): (r: Option<seq<Node<C>>>)
    ensures r.Some? ==> Lookup(r.value, [name]) == Some(content)
    ensures r.Some? ==> forall p :: |p| > 0 && p[0] != name ==> Lookup(r.value, p) == Lookup(es, p)
  {
    if |es| == 0 then Some([File(name, content)])
    else if es[0].name == name then
      if es[0].File? then
        var r := [File(name, content)] + es[1..];
        assert forall p :: |p| > 0 && p[0] != name ==> Lookup(r, p) == Lookup(r[1..], p);
        Some(r)
      else None
    else
      match PutFile(es[1..], name, content)
      case Some(rest) =>
        var r := [es[0]] + rest;
        assert r[1..] == rest;
        Some(r)
      case None => None
  }

  /** A write fails only when a directory already has the target name. */
  lemma {:induction false} PutFileFails<C>(es: seq<Node<C>>, name: string, content: C)
    ensures PutFile(es, name, content).None? <==>
      exists i :: 0 <= i < |es| && es[i].name == name && es[i].Dir? && forall j :: 0 <= j < i ==> es[j].name != name
  {
    if |es| > 0 && es[0].name != name {
      PutFileFails(es[1..], name, content);
      if PutFile(es, name, content).None? {
        var i :| 0 <= i < |es| - 1 && es[1..][i].name == name && es[1..][i].Dir?
          && forall j :: 0 <= j < i ==> es[1..][j].name != name;
        assert es[i + 1].name == name && es[i + 1].Dir?;
        assert forall j :: 0 <= j < i + 1 ==> es[j].name != name by {
          forall j | 0 <= j < i + 1
            ensures es[j].name != name
          {
            if j > 0 { assert es[j] == es[1..][j - 1]; }
          }
        }
      } else {
        forall i | 0 <= i < |es| && es[i].name == name && es[i].Dir?
          ensures exists j :: 0 <= j < i && es[j].name == name
        {
          assert i > 0 && es[1..][i - 1] == es[i];
          var k :| 0 <= k < i - 1 && es[1..][k].name == name;
          assert es[k + 1] == es[1..][k];
        }
      }
    }
  }
}

/**
 * The OPC package the core reads and rewrites: a map from part paths to part
 * contents, with the paths also kept in a storage order because the code
 * iterates over `part_paths()`.  Part contents are held as the text the code
 * obtains from them.
 */
module Packages {
  import opened Wrappers

  datatype Package = Package(order: seq<string>, parts: map<string, string>)
  {
    /** The paths are listed once each, and exactly the stored parts are listed. */
    ghost predicate Valid() {
      Distinct(order) && (forall p :: p in parts <==> p in order)
    }

    predicate Has(path: string) {
      path in parts
    }

    function Get(path: string): (r: Option<string>)
      ensures r.Some? <==> Has(path)
    {
      if path in parts then Some(parts[path]) else None
    }

    function Paths(): seq<string> {
      order
    }

    /** `add_part`: store `content` under `path`, replacing any previous content. */
    function Add(path: string, content: string): (r: Package)
      ensures r.Get(path) == Some(content)
      ensures forall q :: q != path ==> r.Get(q) == Get(q)
      ensures Valid() ==> r.Valid()
    {
      Package(if path in order then order else order + [path], parts[path := content])
    }

    /** `remove_part`: drop `path` and hand back what it held. */
    function Remove(path: string): (r: (Package, Option<string>))
      ensures r.1 == Get(path) && !r.0.Has(path)
      ensures forall q :: q != path ==> r.0.Get(q) == Get(q)
      ensures Valid() ==> r.0.Valid()
    {
      (Package(Without(order, path), parts - {path}), Get(path))
    }
  }

  function Without(s: seq<string>, x: string): (r: seq<string>)
    ensures forall y :: y in r <==> y in s && y != x
    ensures Distinct(s) ==> Distinct(r)
  {
    if s == [] then []
    else if s[0] == x then Without(s[1..], x)
    else
      var rest := Without(s[1..], x);
      assert Distinct(s) ==> s[0] !in s[1..];
      [s[0]] + rest
  }

  predicate Distinct(s: seq<string>) {
    forall i, j :: 0 <= i < j < |s| ==> s[i] != s[j]
  }

  function Empty(): (r: Package)
    ensures r.Valid() && r.Paths() == [] && forall q :: !r.Has(q)
  {
    Package([], map[])
  }
}

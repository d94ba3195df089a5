/**
 * `PresentationReader` (src/oxml/presentation.rs): the slide list an opened
 * package yields. The slides come from the presentation's relationships,
 * ordered by the number in their ids. When there are none, they come from the
 * package's slide parts in lexicographic order.
 */
module PresentationReading {
  import opened Wrappers
  import opened Strings
  import opened Packages
  import opened PartPaths
  import opened Relationships
  import Editor
  import GeneratorXml
  import RepairChecks

  /** A `<Relationship>` element as the XML parser hands it over: its three attributes, each possibly absent. */
  datatype RelElement = RelElement(id: Option<string>, relType: Option<string>, target: Option<string>)

  /** A slide relationship the reader keeps: its id and the package path of its target. */
  datatype SlideLink = SlideLink(id: string, path: string)

  /** The element a relationship is written as. */
  function ElementOf(r: Relationship): RelElement {
    RelElement(Some(r.id), Some(Uri(r.relType)), Some(r.target))
  }

  function ElementsOf(rs: seq<Relationship>): (es: seq<RelElement>)
    ensures |es| == |rs|
  {
    if rs == [] then [] else ElementsOf(rs[..|rs| - 1]) + [ElementOf(rs[|rs| - 1])]
  }

  // ---------------------------------------------------------------------
  // Which relationships name slides
  // ---------------------------------------------------------------------

  /** A type URI names a slide: it holds "/slide" but neither "Layout" nor "Master". */
  predicate IsSlideType(u: string) {
    Contains(u, "/slide") && !Contains(u, "Layout") && !Contains(u, "Master")
  }

  /** The reader's filter accepts exactly the type URIs that `from_uri` reads as a slide. */
  lemma SlideTypeIsFromUriSlide(u: string)
    ensures IsSlideType(u) <==> FromUri(u) == Slide
  {
  }

  /** An element the reader keeps: a slide type (a missing type reads as ""), an id and a target. */
  predicate Kept(e: RelElement) {
    IsSlideType(if e.relType.Some? then e.relType.value else "") && e.id.Some? && e.target.Some?
  }

  /** The kept elements, in document order, with their targets made package paths. */
  function SlideLinks(es: seq<RelElement>): (ls: seq<SlideLink>)
    ensures |ls| <= |es|
  {
    if es == [] then []
    else
      var e := es[|es| - 1];
      SlideLinks(es[..|es| - 1])
        + (if Kept(e) then [SlideLink(e.id.value, RepairChecks.SlideTargetPath(e.target.value))] else [])
  }

  /** Every kept link comes from a kept element, with its id and its target's path. */
  lemma {:induction false} SlideLinksFromElements(es: seq<RelElement>, j: nat)
    requires j < |SlideLinks(es)|
    ensures exists k :: 0 <= k < |es| && Kept(es[k])
              && SlideLinks(es)[j] == SlideLink(es[k].id.value, RepairChecks.SlideTargetPath(es[k].target.value))
  {
    var init := es[..|es| - 1];
    if j < |SlideLinks(init)| {
      SlideLinksFromElements(init, j);
      var k :| 0 <= k < |init| && Kept(init[k])
                && SlideLinks(init)[j] == SlideLink(init[k].id.value, RepairChecks.SlideTargetPath(init[k].target.value));
      assert es[k] == init[k];
    } else {
      assert SlideLinks(es)[j] == SlideLink(es[|es| - 1].id.value, RepairChecks.SlideTargetPath(es[|es| - 1].target.value));
    }
  }

  /** Dropping the elements that are not slides leaves one link per kept element. */
  lemma {:induction false} SlideLinksCount(es: seq<RelElement>)
    ensures |SlideLinks(es)| == KeptCount(es)
  {
    if es != [] {
      SlideLinksCount(es[..|es| - 1]);
    }
  }

  function KeptCount(es: seq<RelElement>): nat {
    if es == [] then 0 else KeptCount(es[..|es| - 1]) + (if Kept(es[|es| - 1]) then 1 else 0)
  }

  // ---------------------------------------------------------------------
  // Ordering by relationship id
  // ---------------------------------------------------------------------

  /** The sort key: the id without its leading "rId"s, parsed as a u32, or 0 when that fails. */
  function IdKey(id: string): nat {
    match ParseU32(TrimStartMatches(id, "rId"))
    case Some(n) => n
    case None => 0
  }

  /** Where `RelIdNumber` finds a number, the sort key is that number. */
  lemma IdKeyAgrees(id: string, n: nat)
    requires RelIdNumber(id) == Some(n)
    ensures IdKey(id) == n
  {
    var d := id[3..];
    assert id == "rId" + d;
    assert |d| > 0 && (d[0] == '+' || IsDigit(d[0]));
    FirstCharNotPrefix(d, "rId");
    assert TrimStartMatches(d, "rId") == d;
    assert TrimStartMatches(id, "rId") == TrimStartMatches(id[3..], "rId");
  }

  /** "rId" followed by a number below 2^32 has that number as its key. */
  lemma IdKeyOf(n: nat)
    requires n < U32_LIMIT
    ensures IdKey("rId" + NatToString(n)) == n
  {
    RelIdNumberOf(n);
    IdKeyAgrees("rId" + NatToString(n), n);
  }

  function Key(l: SlideLink): nat {
    IdKey(l.id)
  }

  /** Neighbours are in key order. */
  predicate KeySorted<T>(ls: seq<T>, key: T -> nat) {
    forall i :: 0 <= i < |ls| - 1 ==> key(ls[i]) <= key(ls[i + 1])
  }

  /** Puts `x` before the first element whose key is not smaller, so equal keys keep their order. */
  function InsertByKey<T(==)>(x: T, ls: seq<T>, key: T -> nat): (r: seq<T>)
    ensures |r| == |ls| + 1 && multiset(r) == multiset(ls) + multiset{x}
    ensures r[0] == x || (|ls| > 0 && r[0] == ls[0])
  {
    if ls == [] || key(x) <= key(ls[0]) then [x] + ls
    else
      assert ls == [ls[0]] + ls[1..];
      [ls[0]] + InsertByKey(x, ls[1..], key)
  }

  /** `sort_by` comparing keys: a stable sort, written as an insertion sort. */
  function SortByKey<T(==)>(ls: seq<T>, key: T -> nat): (r: seq<T>)
    ensures multiset(r) == multiset(ls)
  {
    if ls == [] then []
    else
      assert ls == [ls[0]] + ls[1..];
      InsertByKey(ls[0], SortByKey(ls[1..], key), key)
  }

  lemma {:induction false} InsertByKeySorted<T>(x: T, ls: seq<T>, key: T -> nat)
    requires KeySorted(ls, key)
    ensures KeySorted(InsertByKey(x, ls, key), key)
  {
    if ls != [] && key(x) > key(ls[0]) {
      InsertByKeySorted(x, ls[1..], key);
    }
  }

  lemma {:induction false} SortByKeySorted<T>(ls: seq<T>, key: T -> nat)
    ensures KeySorted(SortByKey(ls, key), key)
  {
    if ls != [] {
      SortByKeySorted(ls[1..], key);
      InsertByKeySorted(ls[0], SortByKey(ls[1..], key), key);
    }
  }

  /** The elements with key `k`, in order. */
  function WithKey<T>(ls: seq<T>, key: T -> nat, k: nat): seq<T> {
    if ls == [] then [] else (if key(ls[0]) == k then [ls[0]] else []) + WithKey(ls[1..], key, k)
  }

  lemma {:induction false} InsertByKeyStable<T>(x: T, ls: seq<T>, key: T -> nat, k: nat)
    ensures WithKey(InsertByKey(x, ls, key), key, k) == (if key(x) == k then [x] else []) + WithKey(ls, key, k)
  {
    var r := InsertByKey(x, ls, key);
    if ls == [] || key(x) <= key(ls[0]) {
      assert r[1..] == ls;
    } else {
      InsertByKeyStable(x, ls[1..], key, k);
      assert r[1..] == InsertByKey(x, ls[1..], key);
    }
  }

  /** Stability: the elements sharing a key come out in the order they went in. */
  lemma {:induction false} SortByKeyStable<T>(ls: seq<T>, key: T -> nat, k: nat)
    ensures WithKey(SortByKey(ls, key), key, k) == WithKey(ls, key, k)
  {
    if ls != [] {
      SortByKeyStable(ls[1..], key, k);
      InsertByKeyStable(ls[0], SortByKey(ls[1..], key), key, k);
    }
  }

  /** Elements already in key order are left as they are. */
  lemma {:induction false} SortByKeyKeepsSorted<T>(ls: seq<T>, key: T -> nat)
    requires KeySorted(ls, key)
    ensures SortByKey(ls, key) == ls
  {
    if ls != [] {
      SortByKeyKeepsSorted(ls[1..], key);
    }
  }

  function PathsOf(ls: seq<SlideLink>): (ps: seq<string>)
    ensures |ps| == |ls| && forall k :: 0 <= k < |ls| ==> ps[k] == ls[k].path
  {
    if ls == [] then [] else PathsOf(ls[..|ls| - 1]) + [ls[|ls| - 1].path]
  }

  /** The slide paths the relationships give: kept, ordered by id number, reduced to their paths. */
  function RelsSlidePaths(es: seq<RelElement>): seq<string> {
    PathsOf(SortByKey(SlideLinks(es), Key))
  }

  // ---------------------------------------------------------------------
  // The fallback: the package's slide parts, sorted
  // ---------------------------------------------------------------------

  /** `str` ordering: lexicographic on characters, a prefix first. */
  predicate LexLe(a: string, b: string) {
    |a| == 0 || (|b| > 0 && (a[0] < b[0] || (a[0] == b[0] && LexLe(a[1..], b[1..]))))
  }

  lemma {:induction false} LexLeTotal(a: string, b: string)
    ensures LexLe(a, b) || LexLe(b, a)
  {
    if |a| > 0 && |b| > 0 && a[0] == b[0] {
      LexLeTotal(a[1..], b[1..]);
    }
  }

  predicate LexSorted(ps: seq<string>) {
    forall i :: 0 <= i < |ps| - 1 ==> LexLe(ps[i], ps[i + 1])
  }

  function InsertLex(x: string, ps: seq<string>): (r: seq<string>)
    ensures |r| == |ps| + 1 && multiset(r) == multiset(ps) + multiset{x}
    ensures r[0] == x || (|ps| > 0 && r[0] == ps[0])
  {
    if ps == [] || LexLe(x, ps[0]) then [x] + ps
    else
      assert ps == [ps[0]] + ps[1..];
      [ps[0]] + InsertLex(x, ps[1..])
  }

  /** `slice::sort` on strings, written as an insertion sort. */
  function SortLex(ps: seq<string>): (r: seq<string>)
    ensures multiset(r) == multiset(ps)
  {
    if ps == [] then []
    else
      assert ps == [ps[0]] + ps[1..];
      InsertLex(ps[0], SortLex(ps[1..]))
  }

  lemma {:induction false} InsertLexSorted(x: string, ps: seq<string>)
    requires LexSorted(ps)
    ensures LexSorted(InsertLex(x, ps))
  {
    if ps != [] && !LexLe(x, ps[0]) {
      LexLeTotal(x, ps[0]);
      InsertLexSorted(x, ps[1..]);
    }
  }

  lemma {:induction false} SortLexSorted(ps: seq<string>)
    ensures LexSorted(SortLex(ps))
  {
    if ps != [] {
      SortLexSorted(ps[1..]);
      InsertLexSorted(ps[0], SortLex(ps[1..]));
    }
  }

  /** The listed paths that name slide parts, in listing order. */
  function SlideNames(paths: seq<string>): (r: seq<string>)
    ensures forall k :: 0 <= k < |r| ==> Editor.IsSlideName(r[k])
  {
    if paths == [] then []
    else (if Editor.IsSlideName(paths[0]) then [paths[0]] else []) + SlideNames(paths[1..])
  }

  /** The filter keeps as many paths as `count_slides` counts. */
  lemma {:induction false} SlideNamesCounted(paths: seq<string>)
    ensures |SlideNames(paths)| == Editor.CountSlides(paths)
  {
    if paths != [] {
      SlideNamesCounted(paths[1..]);
    }
  }

  /** A slide name is kept wherever it is listed. */
  lemma {:induction false} SlideNamesKeep(paths: seq<string>, q: string)
    requires q in paths && Editor.IsSlideName(q)
    ensures q in SlideNames(paths)
  {
    if paths[0] != q {
      SlideNamesKeep(paths[1..], q);
    }
  }

  function FallbackPaths(paths: seq<string>): seq<string> {
    SortLex(SlideNames(paths))
  }

  /** The fallback lists every slide part of the package once per listing, sorted, and nothing else. */
  lemma FallbackPathsMeaning(paths: seq<string>)
    ensures LexSorted(FallbackPaths(paths))
    ensures |FallbackPaths(paths)| == Editor.CountSlides(paths)
    ensures forall q :: q in FallbackPaths(paths) <==> q in paths && Editor.IsSlideName(q)
  {
    SortLexSorted(SlideNames(paths));
    SlideNamesCounted(paths);
    var r := FallbackPaths(paths);
    forall q
      ensures q in r <==> q in paths && Editor.IsSlideName(q)
    {
      assert q in r <==> q in multiset(r);
      assert q in SlideNames(paths) <==> q in multiset(SlideNames(paths));
      if q in paths && Editor.IsSlideName(q) {
        SlideNamesKeep(paths, q);
      }
      if q in SlideNames(paths) {
        SlideNamesFrom(paths, q);
      }
    }
  }

  lemma {:induction false} SlideNamesFrom(paths: seq<string>, q: string)
    requires q in SlideNames(paths)
    ensures q in paths
  {
    if paths[0] != q {
      SlideNamesFrom(paths[1..], q);
    }
  }

  // ---------------------------------------------------------------------
  // parse_presentation_xml as a whole
  // ---------------------------------------------------------------------

  /** The parsed relationships, when the package has the presentation's rels part and it parses. */
  function ParsedRels(p: Package, parse: string -> Option<seq<RelElement>>): Option<seq<RelElement>> {
    match p.Get(PRESENTATION_RELS_PART)
    case Some(xml) => parse(xml)
    case None => None
  }

  /**
   * The slide paths after `parse_presentation_xml`: those the relationships give
   * when they parse (else the paths held before), and the fallback when that is empty.
   */
  function ReadSlidePaths(p: Package, parsed: Option<seq<RelElement>>, prior: seq<string>): (r: seq<string>)
    ensures |r| == 0 ==> Editor.CountSlides(p.Paths()) == 0
  {
    var primary := if parsed.Some? then RelsSlidePaths(parsed.value) else prior;
    if primary == [] then (SlideNamesCounted(p.Paths()); FallbackPaths(p.Paths())) else primary
  }

  /** Relationships with at least one slide decide the list alone: the package's parts are not consulted. */
  lemma RelsDecide(p: Package, q: Package, es: seq<RelElement>, prior: seq<string>)
    requires KeptCount(es) > 0
    ensures ReadSlidePaths(p, Some(es), prior) == ReadSlidePaths(q, Some(es), prior) == RelsSlidePaths(es)
    ensures |ReadSlidePaths(p, Some(es), prior)| == KeptCount(es)
  {
    SlideLinksCount(es);
  }

  /** The reader's list is key-sorted links' paths, or the sorted slide parts. */
  lemma ReadSlidePathsOrdered(p: Package, es: seq<RelElement>, prior: seq<string>)
    ensures ReadSlidePaths(p, Some(es), prior) == PathsOf(SortByKey(SlideLinks(es), Key))
         || ReadSlidePaths(p, Some(es), prior) == FallbackPaths(p.Paths())
    ensures KeySorted(SortByKey(SlideLinks(es), Key), Key)
  {
    SortByKeySorted(SlideLinks(es), Key);
  }

  // ---------------------------------------------------------------------
  // Reading what the generator writes
  // ---------------------------------------------------------------------

  /** The links the generator's relationships for `n` slides give: slide i with id rId(i+2). */
  function GeneratedLinks(n: nat): (ls: seq<SlideLink>)
    ensures |ls| == n
  {
    if n == 0 then [] else GeneratedLinks(n - 1) + [SlideLink("rId" + NatToString(n + 2), SlidePath(n))]
  }

  lemma GeneratedLinksAt(n: nat, k: nat)
    requires k < n
    ensures GeneratedLinks(n)[k] == SlideLink("rId" + NatToString(k + 3), SlidePath(k + 1))
  {
    if k < n - 1 {
      GeneratedLinksAt(n - 1, k);
    }
  }

  lemma SlideRelLink(i: nat)
    ensures Kept(ElementOf(GeneratorXml.SlideRel(i)))
    ensures RepairChecks.SlideTargetPath(SlideTarget(i)) == SlidePath(i)
  {
    UriRoundTrip(Slide);
    var t := SlideTarget(i);
    FirstCharNotPrefix(t, "/");
  }

  lemma FixedRelsDropped()
    ensures !Kept(ElementOf(RepairChecks.MasterRel())) && !Kept(ElementOf(GeneratorXml.ThemeRel()))
  {
    UriRoundTrip(SlideMaster);
    UriRoundTrip(Theme);
  }

  lemma {:induction false} GeneratedRelsLinks(n: nat)
    ensures SlideLinks(ElementsOf(GeneratorXml.PresentationRelsList(n))) == GeneratedLinks(n)
  {
    var rs := GeneratorXml.PresentationRelsList(n);
    if n == 0 {
      FixedRelsDropped();
      assert ElementsOf(rs)[..1] == ElementsOf(rs[..1]);
      assert ElementsOf(rs[..1])[..0] == [];
    } else {
      GeneratedRelsLinks(n - 1);
      assert rs[..|rs| - 1] == GeneratorXml.PresentationRelsList(n - 1);
      SlideRelLink(n);
    }
  }

  lemma GeneratedLinksSorted(n: nat)
    requires n + 2 < U32_LIMIT
    ensures KeySorted(GeneratedLinks(n), Key)
  {
    var ls := GeneratedLinks(n);
    forall i | 0 <= i < n - 1
      ensures Key(ls[i]) <= Key(ls[i + 1])
    {
      GeneratedLinksAt(n, i);
      GeneratedLinksAt(n, i + 1);
      IdKeyOf(i + 3);
      IdKeyOf(i + 4);
    }
  }

  /**
   * Reading back the relationships the generator writes for `n` slides gives
   * slides 1..n in order (ids stop parsing as u32 past 2^32 - 3 slides).
   */
  lemma ReadGeneratedRels(p: Package, n: nat, prior: seq<string>)
    requires 0 < n && n + 2 < U32_LIMIT
    ensures var r := ReadSlidePaths(p, Some(ElementsOf(GeneratorXml.PresentationRelsList(n))), prior);
            |r| == n && forall k :: 0 <= k < n ==> r[k] == SlidePath(k + 1)
  {
    GeneratedRelsLinks(n);
    GeneratedLinksSorted(n);
    SortByKeyKeepsSorted(GeneratedLinks(n), Key);
    forall k | 0 <= k < n
      ensures PathsOf(GeneratedLinks(n))[k] == SlidePath(k + 1)
    {
      GeneratedLinksAt(n, k);
    }
  }

  // ---------------------------------------------------------------------
  // The reader
  // ---------------------------------------------------------------------

  class PresentationReader {
    const package: Package
    var slidePaths: seq<string>
    /** `info.slide_count`. */
    var slideCount: nat

    /** After parsing, the info's count is the length of the slide list. */
    predicate Counted()
      reads this
    {
      slideCount == |slidePaths|
    }

    /**
     * `open` over an already opened package: the structure is parsed with `parse`
     * standing for the XML parser.
     */
    constructor Open(p: Package, parse: string -> Option<seq<RelElement>>)
      ensures package == p
      ensures slidePaths == ReadSlidePaths(p, ParsedRels(p, parse), [])
      ensures Counted()
    {
      package := p;
      slidePaths := [];
      slideCount := 0;
      new;
      ParsePresentationXml(parse);
    }

    /** `parse_presentation_xml`. */
    method ParsePresentationXml(parse: string -> Option<seq<RelElement>>)
      modifies this
      ensures slidePaths == ReadSlidePaths(package, ParsedRels(package, parse), old(slidePaths))
      ensures Counted()
    {
      var rels := package.Get(PRESENTATION_RELS_PART);
      if rels.Some? {
        var parsed := parse(rels.value);
        if parsed.Some? {
          var es := parsed.value;
          var links: seq<SlideLink> := [];
          for i := 0 to |es|
            invariant links == SlideLinks(es[..i])
          {
            var e := es[i];
            assert es[..i + 1][..i] == es[..i];
            var relType := if e.relType.Some? then e.relType.value else "";
            if IsSlideType(relType) && e.id.Some? && e.target.Some? {
              links := links + [SlideLink(e.id.value, RepairChecks.SlideTargetPath(e.target.value))];
            }
          }
          assert es[..|es|] == es;
          slidePaths := PathsOf(SortByKey(links, Key));
        }
      }
      if slidePaths == [] {
        slidePaths := FallbackPaths(package.Paths());
      }
      slideCount := |slidePaths|;
    }

    /** `slide_count`. */
    function SlideCount(): (n: nat)
      reads this
      ensures Counted() ==> n == slideCount
    {
      |slidePaths|
    }

    /**
     * `get_slide`, up to the slide parser: the content of the index-th slide part,
     * NotFound for an index past the list or a listed part the package lacks.
     */
    function GetSlide(index: nat): (r: Result<string>)
      reads this
      ensures index >= |slidePaths| ==> r == Err(Editor.SlideNotFound(index))
      ensures index < |slidePaths| && !package.Has(slidePaths[index])
              ==> r == Err(NotFound("Slide file not found: " + slidePaths[index]))
      ensures r.Ok? <==> index < |slidePaths| && package.Has(slidePaths[index])
      ensures r.Ok? ==> package.Get(slidePaths[index]) == Some(r.value)
    {
      if index >= |slidePaths| then Err(Editor.SlideNotFound(index))
      else
        match package.Get(slidePaths[index])
        case Some(xml) => Ok(xml)
        case None => Err(NotFound("Slide file not found: " + slidePaths[index]))
    }
  }
}

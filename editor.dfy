/**
 * `PresentationEditor` (src/oxml/editor.rs): adds, replaces and removes the
 * slides of a package and keeps presentation.xml, its rels part and
 * [Content_Types].xml in step with the slide count.
 *
 * The package transformations are functions on `Package` values; the editor
 * is a class whose methods make the same changes step by step and are proved
 * to end in the state those functions describe.
 */
module Editor {
  import opened Wrappers
  import opened Strings
  import opened Packages
  import opened PartPaths
  import opened Relationships
  import RepairChecks
  import RepairEdits
  import GeneratorXml

  const SLD_ID_LST_CLOSE: string := "</p:sldIdLst>"

  /** The error an absent or out-of-range slide index gives. */
  function SlideNotFound(index: nat): PptxError {
    NotFound("Slide " + NatToString(index) + " not found")
  }

  // ---------------------------------------------------------------------
  // The string inserters

  /** Inserting before the first occurrence of a tag leaves the entry right before that tag. */
  lemma InsertBeforeTag(s: string, tag: string, ins: string)
    ensures !Contains(s, tag) ==> InsertBefore(s, tag, ins) == s
    ensures Contains(s, tag) ==> Contains(InsertBefore(s, tag, ins), ins + tag)
  {
    if Contains(s, tag) {
      var k := Find(s, tag).value;
      var r := InsertBefore(s, tag, ins);
      var a, b := s[..k], s[k..];
      assert r == a + ins + b;
      assert b[..|tag|] == tag;
      assert r[k..k + |ins| + |tag|] == ins + b[..|tag|];
      OccursContains(r, ins + tag, k);
    }
  }

  /** `add_slide_to_presentation_xml`: a sldId line for slide `n` before "</p:sldIdLst>". */
  function AddSlideToPresentationXml(xml: string, n: nat): (r: string)
    ensures !Contains(xml, SLD_ID_LST_CLOSE) ==> r == xml
    ensures Contains(xml, SLD_ID_LST_CLOSE) ==> Contains(r, "\n" + GeneratorXml.SldIdLine(n) + SLD_ID_LST_CLOSE)
    ensures Contains(xml, SLD_ID_LST_CLOSE) ==> |r| == |xml| + 1 + |GeneratorXml.SldIdLine(n)|
  {
    InsertBeforeTag(xml, SLD_ID_LST_CLOSE, "\n" + GeneratorXml.SldIdLine(n));
    InsertBefore(xml, SLD_ID_LST_CLOSE, "\n" + GeneratorXml.SldIdLine(n))
  }

  /** `add_slide_to_presentation_rels`: an indented slide relationship before "</Relationships>". */
  function AddSlideToPresentationRels(xml: string, n: nat): (r: string)
    ensures !Contains(xml, RELS_CLOSE) ==> r == xml
    ensures Contains(xml, RELS_CLOSE) ==> Contains(r, "\n" + INDENT + RelXml(GeneratorXml.SlideRel(n)) + RELS_CLOSE)
  {
    InsertBeforeTag(xml, RELS_CLOSE, "\n" + INDENT + RelXml(GeneratorXml.SlideRel(n)));
    InsertBefore(xml, RELS_CLOSE, "\n" + INDENT + RelXml(GeneratorXml.SlideRel(n)))
  }

  /** `add_slide_to_content_types`: a slide Override before "</Types>". */
  function AddSlideToContentTypes(xml: string, n: nat): (r: string)
    ensures !Contains(xml, RepairEdits.TYPES_CLOSE) ==> r == xml
    ensures Contains(xml, RepairEdits.TYPES_CLOSE) ==> Contains(r, "\n" + GeneratorXml.SlideOverride(n) + RepairEdits.TYPES_CLOSE)
  {
    InsertBeforeTag(xml, RepairEdits.TYPES_CLOSE, "\n" + GeneratorXml.SlideOverride(n));
    InsertBefore(xml, RepairEdits.TYPES_CLOSE, "\n" + GeneratorXml.SlideOverride(n))
  }

  /**
   * The three inserted entries describe the same slide: the sldId line's
   * r:id is the new relationship's Id, that relationship is a slide
   * relationship resolving to the slide part, and once content types held
   * "</Types>" they cover the slide part.
   */
  lemma InsertedEntriesAgree(n: nat, ct: string)
    ensures GeneratorXml.SldIdLine(n) == RepairEdits.SldIdEntry(256 + n, GeneratorXml.SlideRel(n).id)
    ensures GeneratorXml.SlideRel(n).relType == Slide
    ensures RepairText.ResolvePath(PRESENTATION_RELS_PART, GeneratorXml.SlideRel(n).target) == SlidePath(n)
    ensures Contains(ct, RepairEdits.TYPES_CLOSE) ==> RepairChecks.Covered(AddSlideToContentTypes(ct, n), SlidePath(n))
  {
    GeneratorXml.SlideRelResolves(n);
    if Contains(ct, RepairEdits.TYPES_CLOSE) {
      var o := GeneratorXml.SlideOverride(n);
      var r := AddSlideToContentTypes(ct, n);
      MiddleContained("\n", o, RepairEdits.TYPES_CLOSE);
      ContainsTrans(r, "\n" + o + RepairEdits.TYPES_CLOSE, o);
      GeneratorXml.OverrideHasAttr(SlidePath(n), RepairText.CT_SLIDE);
      ContainsTrans(r, o, RepairChecks.OverrideAttr(SlidePath(n)));
    }
  }

  // ---------------------------------------------------------------------
  // Adding a slide

  /** `update_presentation_xml`: rewrite presentation.xml when the package has it. */
  function PresentationXmlUpdated(p: Package, n: nat): (r: Package)
    ensures forall q :: q != PRESENTATION_PART ==> r.Get(q) == p.Get(q)
    ensures r.Has(PRESENTATION_PART) <==> p.Has(PRESENTATION_PART)
    ensures p.Has(PRESENTATION_PART) ==>
      r.parts[PRESENTATION_PART] == AddSlideToPresentationXml(p.parts[PRESENTATION_PART], n)
    ensures p.Valid() ==> r.Valid()
  {
    match p.Get(PRESENTATION_PART)
    case None => p
    case Some(x) => p.Add(PRESENTATION_PART, AddSlideToPresentationXml(x, n))
  }

  /** `update_presentation_rels`: rewrite the presentation's rels part when the package has it. */
  function PresentationRelsUpdated(p: Package, n: nat): (r: Package)
    ensures forall q :: q != PRESENTATION_RELS_PART ==> r.Get(q) == p.Get(q)
    ensures r.Has(PRESENTATION_RELS_PART) <==> p.Has(PRESENTATION_RELS_PART)
    ensures p.Has(PRESENTATION_RELS_PART) ==>
      r.parts[PRESENTATION_RELS_PART] == AddSlideToPresentationRels(p.parts[PRESENTATION_RELS_PART], n)
    ensures p.Valid() ==> r.Valid()
  {
    match p.Get(PRESENTATION_RELS_PART)
    case None => p
    case Some(x) => p.Add(PRESENTATION_RELS_PART, AddSlideToPresentationRels(x, n))
  }

  /** `update_content_types`: rewrite [Content_Types].xml when the package has it. */
  function ContentTypesUpdated(p: Package, n: nat): (r: Package)
    ensures forall q :: q != CONTENT_TYPES_PART ==> r.Get(q) == p.Get(q)
    ensures r.Has(CONTENT_TYPES_PART) <==> p.Has(CONTENT_TYPES_PART)
    ensures p.Has(CONTENT_TYPES_PART) ==>
      r.parts[CONTENT_TYPES_PART] == AddSlideToContentTypes(p.parts[CONTENT_TYPES_PART], n)
    ensures p.Valid() ==> r.Valid()
  {
    match p.Get(CONTENT_TYPES_PART)
    case None => p
    case Some(x) => p.Add(CONTENT_TYPES_PART, AddSlideToContentTypes(x, n))
  }

  /** The slide part and its rels part stored, before the fixed parts are rewritten. */
  function WithSlideParts(p: Package, n: nat, slideXml: string, relsXml: string): Package {
    p.Add(SlidePath(n), slideXml).Add(SlideRelsPath(n), relsXml)
  }

  /** What `add_slide` makes of package `p` when the new slide is number `n`. */
  function AddedSlide(p: Package, n: nat, slideXml: string, relsXml: string): Package {
    ContentTypesUpdated(PresentationRelsUpdated(PresentationXmlUpdated(WithSlideParts(p, n, slideXml, relsXml), n), n), n)
  }

  /** One of the three parts `add_slide` rewrites. */
  predicate IsFixedPart(q: string) {
    q == PRESENTATION_PART || q == PRESENTATION_RELS_PART || q == CONTENT_TYPES_PART
  }

  /** Storing the two slide parts touches no fixed part. */
  lemma WithSlidePartsKeepsFixed(p: Package, n: nat, slideXml: string, relsXml: string)
    ensures WithSlideParts(p, n, slideXml, relsXml).Get(PRESENTATION_PART) == p.Get(PRESENTATION_PART)
    ensures WithSlideParts(p, n, slideXml, relsXml).Get(PRESENTATION_RELS_PART) == p.Get(PRESENTATION_RELS_PART)
    ensures WithSlideParts(p, n, slideXml, relsXml).Get(CONTENT_TYPES_PART) == p.Get(CONTENT_TYPES_PART)
  {
    NumberedPathShapes(n, n);
    FixedPartsOutsideSlidesDir();
  }

  /** The fixed parts after `add_slide`: each one present is passed through its inserter. */
  lemma AddedSlideFixedParts(p: Package, n: nat, slideXml: string, relsXml: string)
    ensures AddedSlide(p, n, slideXml, relsXml).Has(PRESENTATION_PART) <==> p.Has(PRESENTATION_PART)
    ensures AddedSlide(p, n, slideXml, relsXml).Has(PRESENTATION_RELS_PART) <==> p.Has(PRESENTATION_RELS_PART)
    ensures AddedSlide(p, n, slideXml, relsXml).Has(CONTENT_TYPES_PART) <==> p.Has(CONTENT_TYPES_PART)
    ensures p.Has(PRESENTATION_PART) ==>
      AddedSlide(p, n, slideXml, relsXml).parts[PRESENTATION_PART] == AddSlideToPresentationXml(p.parts[PRESENTATION_PART], n)
    ensures p.Has(PRESENTATION_RELS_PART) ==>
      AddedSlide(p, n, slideXml, relsXml).parts[PRESENTATION_RELS_PART] == AddSlideToPresentationRels(p.parts[PRESENTATION_RELS_PART], n)
    ensures p.Has(CONTENT_TYPES_PART) ==>
      AddedSlide(p, n, slideXml, relsXml).parts[CONTENT_TYPES_PART] == AddSlideToContentTypes(p.parts[CONTENT_TYPES_PART], n)
  {
    var p1 := WithSlideParts(p, n, slideXml, relsXml);
    var p2 := PresentationXmlUpdated(p1, n);
    var p3 := PresentationRelsUpdated(p2, n);
    WithSlidePartsKeepsFixed(p, n, slideXml, relsXml);
    FixedPartsDistinct();
  }

  lemma FixedPartsDistinct()
    ensures PRESENTATION_PART != PRESENTATION_RELS_PART && PRESENTATION_PART != CONTENT_TYPES_PART
    ensures PRESENTATION_RELS_PART != CONTENT_TYPES_PART
  {
    assert PRESENTATION_PART[4] != PRESENTATION_RELS_PART[4];
    assert PRESENTATION_PART[0] != CONTENT_TYPES_PART[0];
    assert PRESENTATION_RELS_PART[0] != CONTENT_TYPES_PART[0];
  }

  /** Adding slide `n` stores the slide part and its rels part with the given texts. */
  lemma AddedSlideStores(p: Package, n: nat, slideXml: string, relsXml: string)
    ensures AddedSlide(p, n, slideXml, relsXml).Get(SlidePath(n)) == Some(slideXml)
    ensures AddedSlide(p, n, slideXml, relsXml).Get(SlideRelsPath(n)) == Some(relsXml)
  {
    NumberedPathShapes(n, n);
    FixedPartsOutsideSlidesDir();
  }

  /** Adding a slide changes no part besides the two new ones and the three fixed ones. */
  lemma AddedSlideKeepsOthers(p: Package, n: nat, slideXml: string, relsXml: string)
    ensures forall q :: q != SlidePath(n) && q != SlideRelsPath(n) && !IsFixedPart(q) ==>
      AddedSlide(p, n, slideXml, relsXml).Get(q) == p.Get(q)
    ensures p.Valid() ==> AddedSlide(p, n, slideXml, relsXml).Valid()
  {
  }

  /**
   * Each fixed part that holds its closing tag gains the new slide's entry
   * right before it; one without the tag is left as it was.
   */
  lemma AddedSlideRegisters(p: Package, n: nat, slideXml: string, relsXml: string)
    ensures p.Has(PRESENTATION_PART) ==>
      var x, r := p.parts[PRESENTATION_PART], AddedSlide(p, n, slideXml, relsXml).parts[PRESENTATION_PART];
      (Contains(x, SLD_ID_LST_CLOSE) ==> Contains(r, "\n" + GeneratorXml.SldIdLine(n) + SLD_ID_LST_CLOSE)) &&
      (!Contains(x, SLD_ID_LST_CLOSE) ==> r == x)
    ensures p.Has(PRESENTATION_RELS_PART) ==>
      var x, r := p.parts[PRESENTATION_RELS_PART], AddedSlide(p, n, slideXml, relsXml).parts[PRESENTATION_RELS_PART];
      (Contains(x, RELS_CLOSE) ==> Contains(r, "\n" + INDENT + RelXml(GeneratorXml.SlideRel(n)) + RELS_CLOSE)) &&
      (!Contains(x, RELS_CLOSE) ==> r == x)
    ensures p.Has(CONTENT_TYPES_PART) ==>
      var x, r := p.parts[CONTENT_TYPES_PART], AddedSlide(p, n, slideXml, relsXml).parts[CONTENT_TYPES_PART];
      (Contains(x, RepairEdits.TYPES_CLOSE) ==> RepairChecks.Covered(r, SlidePath(n))) &&
      (!Contains(x, RepairEdits.TYPES_CLOSE) ==> r == x)
  {
    AddedSlideFixedParts(p, n, slideXml, relsXml);
    if p.Has(CONTENT_TYPES_PART) {
      InsertedEntriesAgree(n, p.parts[CONTENT_TYPES_PART]);
    }
  }

  // ---------------------------------------------------------------------
  // Numbered parts, contiguity and the slide count

  /** Slide part `j`, or its rels part when `rels` holds. */
  function NumberedPath(rels: bool, j: nat): string {
    if rels then SlideRelsPath(j) else SlidePath(j)
  }

  /** Numbered parts live in the slides directory and name one slide of one family each. */
  lemma NumberedPathFacts(rels: bool, j: nat, m: nat)
    ensures InSlidesDir(NumberedPath(rels, j)) && !IsFixedPart(NumberedPath(rels, j))
    ensures NumberedPath(rels, j) == SlidePath(m) <==> !rels && j == m
    ensures NumberedPath(rels, j) == SlideRelsPath(m) <==> rels && j == m
  {
    NumberedPathShapes(j, m);
    NumberedPathShapes(m, j);
    FixedPartsOutsideSlidesDir();
    if NumberedPath(rels, j) == SlidePath(m) && !rels {
      SlidePathInjective(j, m);
    }
    if NumberedPath(rels, j) == SlideRelsPath(m) && rels {
      SlideRelsPathInjective(j, m);
    }
  }

  /** Slides 1..n and their rels parts are present, and no other numbered part is. */
  ghost predicate Contiguous(p: Package, n: nat) {
    forall rels: bool, j: nat :: p.Has(NumberedPath(rels, j)) <==> 1 <= j <= n
  }

  /** `count_slides`' filter: a slide part name, not a rels part. */
  predicate IsSlideName(q: string) {
    StartsWith(q, "ppt/slides/slide") && EndsWith(q, ".xml") && !Contains(q, "_rels")
  }

  /** `count_slides`: how many listed paths pass the filter. */
  function CountSlides(paths: seq<string>): (r: nat)
    ensures r <= |paths|
  {
    if paths == [] then 0 else (if IsSlideName(paths[0]) then 1 else 0) + CountSlides(paths[1..])
  }

  /** Slide parts pass the filter; rels parts and the fixed parts do not. */
  lemma SlideNames(n: nat)
    ensures IsSlideName(SlidePath(n)) && !IsSlideName(SlideRelsPath(n))
    ensures forall q :: IsFixedPart(q) ==> !IsSlideName(q)
  {
    var p, d := SlidePath(n), NatToString(n);
    assert p == "ppt/slides/slide" + d + ".xml";
    DigitsLackLetter(d, '_');
    assert '_' !in p;
    MissingCharNotContained(p, "_rels", 0);
    NumberedPathShapes(n, n);
    FixedPartsOutsideSlidesDir();
    forall q | StartsWith(q, "ppt/slides/slide") ensures InSlidesDir(q) {
      assert q[..11] == q[..16][..11];
    }
  }

  lemma {:induction false} CountSnoc(paths: seq<string>, x: string)
    ensures CountSlides(paths + [x]) == CountSlides(paths) + (if IsSlideName(x) then 1 else 0)
  {
    if paths != [] {
      CountSnoc(paths[1..], x);
      assert (paths + [x])[1..] == paths[1..] + [x];
    }
  }

  lemma {:induction false} CountWithout(paths: seq<string>, x: string)
    requires Distinct(paths)
    ensures CountSlides(Without(paths, x)) == CountSlides(paths) - (if x in paths && IsSlideName(x) then 1 else 0)
  {
    if paths != [] {
      assert Distinct(paths[1..]);
      CountWithout(paths[1..], x);
      assert paths[0] == x ==> x !in paths[1..];
    }
  }

  /** Storing a part adds one to the count exactly when it is a new slide part. */
  lemma CountAdd(p: Package, q: string, c: string)
    requires p.Valid()
    ensures CountSlides(p.Add(q, c).Paths()) == CountSlides(p.Paths()) + (if IsSlideName(q) && !p.Has(q) then 1 else 0)
  {
    if q !in p.order {
      CountSnoc(p.order, q);
    }
  }

  /** Dropping a part takes one from the count exactly when it was a slide part. */
  lemma CountRemove(p: Package, q: string)
    requires p.Valid()
    ensures CountSlides(p.Remove(q).0.Paths()) == CountSlides(p.Paths()) - (if IsSlideName(q) && p.Has(q) then 1 else 0)
  {
    CountWithout(p.order, q);
  }

  /** Adding slide n + 1 to slides 1..n keeps the numbered parts contiguous, now up to n + 1. */
  lemma AddedSlideContiguous(p: Package, n: nat, slideXml: string, relsXml: string)
    requires Contiguous(p, n)
    ensures Contiguous(AddedSlide(p, n + 1, slideXml, relsXml), n + 1)
  {
    var r := AddedSlide(p, n + 1, slideXml, relsXml);
    AddedSlideStores(p, n + 1, slideXml, relsXml);
    AddedSlideKeepsOthers(p, n + 1, slideXml, relsXml);
    forall rels: bool, j: nat
      ensures r.Has(NumberedPath(rels, j)) <==> 1 <= j <= n + 1
    {
      NumberedPathFacts(rels, j, n + 1);
    }
  }

  /** Adding a slide whose part was absent adds one to `count_slides`. */
  lemma AddedSlideCount(p: Package, n: nat, slideXml: string, relsXml: string)
    requires p.Valid() && !p.Has(SlidePath(n))
    ensures CountSlides(AddedSlide(p, n, slideXml, relsXml).Paths()) == CountSlides(p.Paths()) + 1
  {
    SlideNames(n);
    var p1 := p.Add(SlidePath(n), slideXml);
    CountAdd(p, SlidePath(n), slideXml);
    var p2 := p1.Add(SlideRelsPath(n), relsXml);
    CountAdd(p1, SlideRelsPath(n), relsXml);
    var p3 := PresentationXmlUpdated(p2, n);
    UpdateKeepsCount(p2, PRESENTATION_PART, p3);
    var p4 := PresentationRelsUpdated(p3, n);
    UpdateKeepsCount(p3, PRESENTATION_RELS_PART, p4);
    var p5 := ContentTypesUpdated(p4, n);
    UpdateKeepsCount(p4, CONTENT_TYPES_PART, p5);
  }

  /** Rewriting a fixed part that is present or staying away from it keeps the count. */
  lemma UpdateKeepsCount(p: Package, f: string, r: Package)
    requires p.Valid() && IsFixedPart(f)
    requires r == p || (p.Has(f) && exists c :: r == p.Add(f, c))
    ensures r.Valid() && CountSlides(r.Paths()) == CountSlides(p.Paths())
  {
    if r != p {
      var c :| r == p.Add(f, c);
      CountAdd(p, f, c);
    }
  }

  // ---------------------------------------------------------------------
  // Removing a slide

  /** `renumber_slide`'s move of one part: take it out and, if it was there, store it under `to`. */
  function MovePart(p: Package, from: string, to: string): (r: Package)
    ensures from != to ==> r.Get(from) == None && r.Get(to) == (if p.Has(from) then p.Get(from) else p.Get(to))
    ensures from == to ==> r.Get(from) == p.Get(from)
    ensures forall q :: q != from && q != to ==> r.Get(q) == p.Get(q)
    ensures p.Valid() ==> r.Valid()
  {
    var removed := p.Remove(from);
    match removed.1
    case None => removed.0
    case Some(c) => removed.0.Add(to, c)
  }

  /** Moving a part that is present to a free name of the same kind keeps the count. */
  lemma MovePartCount(p: Package, from: string, to: string)
    requires p.Valid() && from != to && (p.Has(from) ==> !p.Has(to)) && IsSlideName(from) == IsSlideName(to)
    ensures CountSlides(MovePart(p, from, to).Paths()) == CountSlides(p.Paths())
  {
    var removed := p.Remove(from);
    CountRemove(p, from);
    if removed.1.Some? {
      CountAdd(removed.0, to, removed.1.value);
    }
  }

  /** `renumber_slide(old_num, new_num)`: move the slide part, then its rels part. */
  function RenumberedSlide(p: Package, oldNum: nat, newNum: nat): Package {
    MovePart(MovePart(p, SlidePath(oldNum), SlidePath(newNum)), SlideRelsPath(oldNum), SlideRelsPath(newNum))
  }

  /** The renumbering loop `for i in lo..=last`: slides lo..last each moved down by one, in increasing order. */
  function RenumberedThrough(p: Package, lo: nat, last: nat): Package
    requires 1 <= lo
    decreases last
  {
    if last < lo then p else RenumberedSlide(RenumberedThrough(p, lo, last - 1), last, last - 1)
  }

  /** The slide part and its rels part dropped. */
  function WithoutSlideParts(p: Package, k: nat): Package {
    p.Remove(SlidePath(k)).0.Remove(SlideRelsPath(k)).0
  }

  /** The three `rebuild_*` calls, storing the regenerated fixed parts. */
  function Rebuilt(p: Package, presentation: string, presentationRels: string, contentTypes: string): Package {
    p.Add(PRESENTATION_PART, presentation)
     .Add(PRESENTATION_RELS_PART, presentationRels)
     .Add(CONTENT_TYPES_PART, contentTypes)
  }

  /**
   * What `remove_slide` makes of a package with `n` slides when slide `k`
   * (1-based) goes: slide k's parts dropped, slides k+1..n moved down one,
   * the fixed parts regenerated for n - 1 slides.
   */
  function RemovedSlide(p: Package, n: nat, k: nat): Package
    requires 1 <= k <= n
  {
    RebuiltFor(RenumberedThrough(WithoutSlideParts(p, k), k + 1, n), n - 1)
  }

  /** The three fixed parts regenerated for `m` slides. */
  function RebuiltFor(p: Package, m: nat): Package {
    Rebuilt(p, GeneratorXml.PresentationText(m), GeneratorXml.PresentationRelsText(m), GeneratorXml.ContentTypesText(m))
  }

  /**
   * Where numbered part j of family `rels` comes from once slide k is gone
   * and slides k+1..i-1 have moved down: below k nothing moved, k..i-2 hold
   * their successors, i-1 is vacated, and i onwards is untouched.
   */
  function ShiftedPart(p: Package, rels: bool, k: nat, i: nat, j: nat): Option<string> {
    if j < k then p.Get(NumberedPath(rels, j))
    else if j + 1 < i then p.Get(NumberedPath(rels, j + 1))
    else if j + 1 == i then None
    else p.Get(NumberedPath(rels, j))
  }

  ghost predicate FamilyShifted(p: Package, q: Package, rels: bool, k: nat, i: nat) {
    forall j: nat :: q.Get(NumberedPath(rels, j)) == ShiftedPart(p, rels, k, i, j)
  }

  /** Every part outside the slides directory is as it was. */
  ghost predicate OutsideKept(p: Package, q: Package) {
    forall path :: !InSlidesDir(path) ==> q.Get(path) == p.Get(path)
  }

  /** The state of the renumbering loop when it reaches `i`. */
  ghost predicate Shifted(p: Package, q: Package, k: nat, i: nat) {
    FamilyShifted(p, q, false, k, i) && FamilyShifted(p, q, true, k, i) && OutsideKept(p, q) &&
    (p.Valid() ==> q.Valid() && CountSlides(q.Paths()) == CountSlides(p.Paths()))
  }

  /** Moving part i-1 of one family down to i-2 advances that family's shift. */
  lemma MoveShiftsFamily(p: Package, q: Package, rels: bool, k: nat, i: nat)
    requires 1 <= k && k + 2 <= i && FamilyShifted(p, q, rels, k, i - 1)
    ensures FamilyShifted(p, MovePart(q, NumberedPath(rels, i - 1), NumberedPath(rels, i - 2)), rels, k, i)
  {
    forall j: nat
      ensures MovePart(q, NumberedPath(rels, i - 1), NumberedPath(rels, i - 2)).Get(NumberedPath(rels, j))
        == ShiftedPart(p, rels, k, i, j)
    {
      MoveShiftsAt(p, q, rels, k, i, j);
    }
  }

  lemma MoveShiftsAt(p: Package, q: Package, rels: bool, k: nat, i: nat, j: nat)
    requires 1 <= k && k + 2 <= i && FamilyShifted(p, q, rels, k, i - 1)
    ensures MovePart(q, NumberedPath(rels, i - 1), NumberedPath(rels, i - 2)).Get(NumberedPath(rels, j))
      == ShiftedPart(p, rels, k, i, j)
  {
    if j == i - 1 {
      MoveVacates(p, q, rels, k, i, j);
    } else if j == i - 2 {
      MoveFills(p, q, rels, k, i, j);
    } else {
      MoveLeaves(p, q, rels, k, i, j);
    }
  }

  /** The slot moved from ends up empty. */
  lemma MoveVacates(p: Package, q: Package, rels: bool, k: nat, i: nat, j: nat)
    requires 1 <= k && k + 2 <= i && j == i - 1
    ensures MovePart(q, NumberedPath(rels, i - 1), NumberedPath(rels, i - 2)).Get(NumberedPath(rels, j))
      == ShiftedPart(p, rels, k, i, j)
  {
    NumberedPathFacts(rels, i - 1, i - 2);
  }

  /** The slot moved to receives what the slot above held, which is the original part one higher. */
  lemma MoveFills(p: Package, q: Package, rels: bool, k: nat, i: nat, j: nat)
    requires 1 <= k && k + 2 <= i && j == i - 2 && FamilyShifted(p, q, rels, k, i - 1)
    ensures MovePart(q, NumberedPath(rels, i - 1), NumberedPath(rels, i - 2)).Get(NumberedPath(rels, j))
      == ShiftedPart(p, rels, k, i, j)
  {
    NumberedPathFacts(rels, i - 1, i - 2);
    assert q.Get(NumberedPath(rels, i - 2)) == ShiftedPart(p, rels, k, i - 1, i - 2);
    assert q.Get(NumberedPath(rels, i - 1)) == ShiftedPart(p, rels, k, i - 1, i - 1);
  }

  /** Every other slot of the family is untouched by the move, and its shifted content is the same at i - 1 and i. */
  lemma MoveLeaves(p: Package, q: Package, rels: bool, k: nat, i: nat, j: nat)
    requires 1 <= k && k + 2 <= i && j != i - 1 && j != i - 2 && FamilyShifted(p, q, rels, k, i - 1)
    ensures MovePart(q, NumberedPath(rels, i - 1), NumberedPath(rels, i - 2)).Get(NumberedPath(rels, j))
      == ShiftedPart(p, rels, k, i, j)
  {
    NumberedPathFacts(rels, j, i - 1);
    NumberedPathFacts(rels, j, i - 2);
    assert q.Get(NumberedPath(rels, j)) == ShiftedPart(p, rels, k, i - 1, j);
  }

  /** Moving parts of the other family leaves this family's shift alone. */
  lemma MoveKeepsFamily(p: Package, q: Package, rels: bool, k: nat, i: nat, a: nat, b: nat)
    requires FamilyShifted(p, q, rels, k, i)
    ensures FamilyShifted(p, MovePart(q, NumberedPath(!rels, a), NumberedPath(!rels, b)), rels, k, i)
  {
    forall j: nat
      ensures MovePart(q, NumberedPath(!rels, a), NumberedPath(!rels, b)).Get(NumberedPath(rels, j)) == q.Get(NumberedPath(rels, j))
    {
      NumberedPathFacts(rels, j, a);
      NumberedPathFacts(rels, j, b);
    }
  }

  /** One pass of the loop (renumber slide i-1 as i-2) keeps the loop state. */
  lemma ShiftStep(p: Package, q: Package, k: nat, i: nat)
    requires 1 <= k && k + 2 <= i && Shifted(p, q, k, i - 1)
    ensures Shifted(p, RenumberedSlide(q, i - 1, i - 2), k, i)
  {
    ShiftStepFamilies(p, q, k, i);
    ShiftStepOutside(p, q, i);
    if p.Valid() {
      assert q.Get(NumberedPath(false, i - 2)) == ShiftedPart(p, false, k, i - 1, i - 2);
      assert q.Get(NumberedPath(true, i - 2)) == ShiftedPart(p, true, k, i - 1, i - 2);
      ShiftStepCount(q, k, i);
    }
  }

  lemma ShiftStepFamilies(p: Package, q: Package, k: nat, i: nat)
    requires 1 <= k && k + 2 <= i
    requires FamilyShifted(p, q, false, k, i - 1) && FamilyShifted(p, q, true, k, i - 1)
    ensures FamilyShifted(p, RenumberedSlide(q, i - 1, i - 2), false, k, i)
    ensures FamilyShifted(p, RenumberedSlide(q, i - 1, i - 2), true, k, i)
  {
    var q1 := MovePart(q, NumberedPath(false, i - 1), NumberedPath(false, i - 2));
    MoveShiftsFamily(p, q, false, k, i);
    MoveKeepsFamily(p, q, true, k, i - 1, i - 1, i - 2);
    MoveShiftsFamily(p, q1, true, k, i);
    MoveKeepsFamily(p, q1, false, k, i, i - 1, i - 2);
  }

  lemma ShiftStepOutside(p: Package, q: Package, i: nat)
    requires 2 <= i && OutsideKept(p, q)
    ensures OutsideKept(p, RenumberedSlide(q, i - 1, i - 2))
  {
    NumberedPathShapes(i - 1, i - 1);
    NumberedPathShapes(i - 2, i - 2);
  }

  lemma ShiftStepCount(q: Package, k: nat, i: nat)
    requires 1 <= k && k + 2 <= i && q.Valid()
    requires q.Get(NumberedPath(false, i - 2)) == None && q.Get(NumberedPath(true, i - 2)) == None
    ensures RenumberedSlide(q, i - 1, i - 2).Valid()
    ensures CountSlides(RenumberedSlide(q, i - 1, i - 2).Paths()) == CountSlides(q.Paths())
  {
    var q1 := MovePart(q, SlidePath(i - 1), SlidePath(i - 2));
    NumberedPathFacts(false, i - 1, i - 2);
    NumberedPathFacts(true, i - 1, i - 2);
    SlideNames(i - 1);
    SlideNames(i - 2);
    MovePartCount(q, SlidePath(i - 1), SlidePath(i - 2));
    MovePartCount(q1, SlideRelsPath(i - 1), SlideRelsPath(i - 2));
  }

  /** Before the first pass the state is the package with slide k's parts gone. */
  lemma ShiftBase(p: Package, k: nat)
    requires !p.Has(SlidePath(k)) && !p.Has(SlideRelsPath(k))
    ensures Shifted(p, p, k, k + 1)
  {
    forall rels: bool, j: nat
      ensures p.Get(NumberedPath(rels, j)) == ShiftedPart(p, rels, k, k + 1, j)
    {
    }
  }

  lemma RenumberShiftsStep(p: Package, k: nat, i: nat)
    requires 1 <= k && k + 2 <= i && Shifted(p, RenumberedThrough(p, k + 1, i - 2), k, i - 1)
    ensures Shifted(p, RenumberedThrough(p, k + 1, i - 1), k, i)
  {
    ShiftStep(p, RenumberedThrough(p, k + 1, i - 2), k, i);
  }

  /** The renumbering loop's invariant, by induction on the number of passes. */
  lemma {:induction false} RenumberShiftsBelow(p: Package, k: nat, i: nat)
    requires 1 <= k < i
    requires !p.Has(SlidePath(k)) && !p.Has(SlideRelsPath(k))
    ensures Shifted(p, RenumberedThrough(p, k + 1, i - 1), k, i)
    decreases i
  {
    if i == k + 1 {
      ShiftBase(p, k);
    } else {
      RenumberShiftsBelow(p, k, i - 1);
      RenumberShiftsStep(p, k, i);
    }
  }

  /** The loop's state once it has run through slide `last`. */
  lemma RenumberShifts(p: Package, k: nat, last: nat)
    requires 1 <= k <= last
    requires !p.Has(SlidePath(k)) && !p.Has(SlideRelsPath(k))
    ensures Shifted(p, RenumberedThrough(p, k + 1, last), k, last + 1)
  {
    RenumberShiftsBelow(p, k, last + 1);
  }

  /** Dropping slide k's parts is invisible to the shift, which never reads slot k. */
  lemma ShiftedIgnoresDropped(p: Package, rels: bool, k: nat, i: nat, j: nat)
    requires k < i
    ensures ShiftedPart(WithoutSlideParts(p, k), rels, k, i, j) == ShiftedPart(p, rels, k, i, j)
  {
    NumberedPathFacts(rels, j, k);
    NumberedPathFacts(rels, j + 1, k);
  }

  /**
   * After slide k of n is dropped and the rest renumbered: slides and rels
   * parts below k stay, those from k+1 up move down by one, number n is
   * vacated, and anything numbered above n is left alone (`ShiftedPart`
   * with i = n + 1).  Nothing outside the slides directory changes, and the
   * count drops by one when slide k was there.
   */
  lemma RemainingShifts(p: Package, n: nat, k: nat)
    requires 1 <= k <= n
    ensures forall rels: bool, j: nat ::
      RenumberedThrough(WithoutSlideParts(p, k), k + 1, n).Get(NumberedPath(rels, j)) == ShiftedPart(p, rels, k, n + 1, j)
    ensures OutsideKept(p, RenumberedThrough(WithoutSlideParts(p, k), k + 1, n))
  {
    var p1 := WithoutSlideParts(p, k);
    RenumberShifts(p1, k, n);
    RemainingFacts(p, p1, RenumberedThrough(p1, k + 1, n), n, k);
  }

  lemma RemainingFacts(p: Package, p1: Package, q: Package, n: nat, k: nat)
    requires 1 <= k <= n && p1 == WithoutSlideParts(p, k) && Shifted(p1, q, k, n + 1)
    ensures forall rels: bool, j: nat :: q.Get(NumberedPath(rels, j)) == ShiftedPart(p, rels, k, n + 1, j)
    ensures OutsideKept(p, q)
  {
    NumberedPathShapes(k, k);
    forall rels: bool, j: nat
      ensures q.Get(NumberedPath(rels, j)) == ShiftedPart(p, rels, k, n + 1, j)
    {
      ShiftedIgnoresDropped(p, rels, k, n + 1, j);
    }
  }

  /** Removing slide k's parts and renumbering keeps a well-formed package well-formed, one slide fewer. */
  lemma RemainingCount(p: Package, n: nat, k: nat)
    requires 1 <= k <= n && p.Valid()
    ensures RenumberedThrough(WithoutSlideParts(p, k), k + 1, n).Valid()
    ensures CountSlides(RenumberedThrough(WithoutSlideParts(p, k), k + 1, n).Paths()) == CountSlides(p.Paths()) - (if p.Has(SlidePath(k)) then 1 else 0)
  {
    var p1 := WithoutSlideParts(p, k);
    WithoutSlidePartsCount(p, k);
    RenumberShifts(p1, k, n);
  }

  lemma WithoutSlidePartsCount(p: Package, k: nat)
    requires p.Valid()
    ensures WithoutSlideParts(p, k).Valid() && !WithoutSlideParts(p, k).Has(SlidePath(k))
    ensures !WithoutSlideParts(p, k).Has(SlideRelsPath(k))
    ensures CountSlides(WithoutSlideParts(p, k).Paths()) == CountSlides(p.Paths()) - (if p.Has(SlidePath(k)) then 1 else 0)
  {
    var p1 := p.Remove(SlidePath(k)).0;
    SlideNames(k);
    CountRemove(p, SlidePath(k));
    CountRemove(p1, SlideRelsPath(k));
    NumberedPathShapes(k, k);
  }

  /** Storing the regenerated fixed parts changes nothing else and keeps the count. */
  lemma RebuiltParts(q: Package, a: string, b: string, c: string)
    ensures forall path :: !IsFixedPart(path) ==> Rebuilt(q, a, b, c).Get(path) == q.Get(path)
    ensures Rebuilt(q, a, b, c).Get(PRESENTATION_PART) == Some(a)
    ensures Rebuilt(q, a, b, c).Get(PRESENTATION_RELS_PART) == Some(b)
    ensures Rebuilt(q, a, b, c).Get(CONTENT_TYPES_PART) == Some(c)
    ensures q.Valid() ==> Rebuilt(q, a, b, c).Valid() && CountSlides(Rebuilt(q, a, b, c).Paths()) == CountSlides(q.Paths())
  {
    FixedPartsDistinct();
    SlideNames(0);
    if q.Valid() {
      var q1 := q.Add(PRESENTATION_PART, a);
      var q2 := q1.Add(PRESENTATION_RELS_PART, b);
      CountAdd(q, PRESENTATION_PART, a);
      CountAdd(q1, PRESENTATION_RELS_PART, b);
      CountAdd(q2, CONTENT_TYPES_PART, c);
    }
  }

  /** Rebuilding the fixed parts leaves each numbered part alone. */
  lemma RebuiltAt(q: Package, a: string, b: string, c: string, rels: bool, j: nat)
    ensures Rebuilt(q, a, b, c).Get(NumberedPath(rels, j)) == q.Get(NumberedPath(rels, j))
  {
    NumberedPathFacts(rels, j, j);
    RebuiltParts(q, a, b, c);
  }

  /**
   * After `remove_slide` of slide k out of n: below k nothing moves, slides
   * k+1..n (with their rels parts) become k..n-1, number n is vacated and
   * anything numbered above n is left alone.
   */
  lemma RemovedSlideShifts(p: Package, n: nat, k: nat)
    requires 1 <= k <= n
    ensures forall rels: bool, j: nat ::
      RemovedSlide(p, n, k).Get(NumberedPath(rels, j)) == ShiftedPart(p, rels, k, n + 1, j)
  {
    var q := RenumberedThrough(WithoutSlideParts(p, k), k + 1, n);
    var a, b, c := GeneratorXml.PresentationText(n - 1), GeneratorXml.PresentationRelsText(n - 1), GeneratorXml.ContentTypesText(n - 1);
    RemainingShifts(p, n, k);
    forall rels: bool, j: nat
      ensures Rebuilt(q, a, b, c).Get(NumberedPath(rels, j)) == q.Get(NumberedPath(rels, j))
    {
      RebuiltAt(q, a, b, c, rels, j);
    }
  }

  /**
   * `remove_slide` regenerates the three fixed parts for n - 1 slides and
   * changes nothing outside the slides directory besides them.
   */
  lemma RemovedSlideRebuilds(p: Package, n: nat, k: nat)
    requires 1 <= k <= n
    ensures RemovedSlide(p, n, k).Get(PRESENTATION_PART) == Some(GeneratorXml.PresentationText(n - 1))
    ensures RemovedSlide(p, n, k).Get(PRESENTATION_RELS_PART) == Some(GeneratorXml.PresentationRelsText(n - 1))
    ensures RemovedSlide(p, n, k).Get(CONTENT_TYPES_PART) == Some(GeneratorXml.ContentTypesText(n - 1))
    ensures forall path :: !InSlidesDir(path) && !IsFixedPart(path) ==> RemovedSlide(p, n, k).Get(path) == p.Get(path)
  {
    RemainingShifts(p, n, k);
    RebuiltParts(RenumberedThrough(WithoutSlideParts(p, k), k + 1, n), GeneratorXml.PresentationText(n - 1),
      GeneratorXml.PresentationRelsText(n - 1), GeneratorXml.ContentTypesText(n - 1));
  }

  /** A well-formed package stays well-formed, and loses one slide from its count when slide k was there. */
  lemma RemovedSlideCount(p: Package, n: nat, k: nat)
    requires 1 <= k <= n && p.Valid()
    ensures RemovedSlide(p, n, k).Valid()
    ensures CountSlides(RemovedSlide(p, n, k).Paths()) == CountSlides(p.Paths()) - (if p.Has(SlidePath(k)) then 1 else 0)
  {
    RemainingCount(p, n, k);
    RebuiltParts(RenumberedThrough(WithoutSlideParts(p, k), k + 1, n), GeneratorXml.PresentationText(n - 1),
      GeneratorXml.PresentationRelsText(n - 1), GeneratorXml.ContentTypesText(n - 1));
  }

  /** Removing one of slides 1..n leaves slides 1..n-1, each with its rels part, and no other numbered part. */
  lemma RemovedSlideContiguous(p: Package, n: nat, k: nat)
    requires 1 <= k <= n && Contiguous(p, n)
    ensures Contiguous(RemovedSlide(p, n, k), n - 1)
  {
    var r := RemovedSlide(p, n, k);
    RemovedSlideShifts(p, n, k);
    forall rels: bool, j: nat
      ensures r.Has(NumberedPath(rels, j)) <==> 1 <= j <= n - 1
    {
      assert r.Get(NumberedPath(rels, j)) == ShiftedPart(p, rels, k, n + 1, j);
      assert p.Has(NumberedPath(rels, j)) <==> 1 <= j <= n;
      assert p.Has(NumberedPath(rels, j + 1)) <==> 1 <= j + 1 <= n;
    }
  }

  /**
   * After a removal every remaining slide i is registered: its part is
   * present and the rebuilt content types cover it (the sldId and rels
   * entries the rebuilt parts give it agree by
   * GeneratorXml.SlideNumberingAgrees).
   */
  lemma RemovedSlideRegistered(p: Package, n: nat, k: nat, i: nat)
    requires 1 <= k <= n && Contiguous(p, n) && 1 <= i <= n - 1
    ensures RemovedSlide(p, n, k).Has(SlidePath(i))
    ensures RemovedSlide(p, n, k).Get(CONTENT_TYPES_PART) == Some(GeneratorXml.ContentTypesText(n - 1))
    ensures RepairChecks.Covered(GeneratorXml.ContentTypesText(n - 1), SlidePath(i))
  {
    RemovedSlideContiguous(p, n, k);
    assert RemovedSlide(p, n, k).Has(NumberedPath(false, i));
    RemovedSlideRebuilds(p, n, k);
    GeneratorXml.ContentTypesCoverSlides(n - 1, i);
  }

  // ---------------------------------------------------------------------
  // Looking up and replacing a slide

  /** With slides 1..n in place, slide index `index` (0-based) is found exactly when it is below n. */
  lemma SlideFoundInRange(p: Package, n: nat, index: nat)
    requires Contiguous(p, n)
    ensures p.Has(SlidePath(index + 1)) <==> index < n
  {
    assert p.Has(NumberedPath(false, index + 1)) <==> 1 <= index + 1 <= n;
  }

  /** `update_slide` replaces one of slides 1..n: the numbering, well-formedness and count all stay. */
  lemma ReplacedSlideKeeps(p: Package, n: nat, i: nat, slideXml: string)
    requires 1 <= i <= n && p.Valid() && Contiguous(p, n)
    ensures p.Add(SlidePath(i), slideXml).Valid() && Contiguous(p.Add(SlidePath(i), slideXml), n)
    ensures CountSlides(p.Add(SlidePath(i), slideXml).Paths()) == CountSlides(p.Paths())
  {
    var r := p.Add(SlidePath(i), slideXml);
    assert p.Has(NumberedPath(false, i));
    CountAdd(p, SlidePath(i), slideXml);
    forall rels: bool, j: nat
      ensures r.Has(NumberedPath(rels, j)) == p.Has(NumberedPath(rels, j))
    {
      if NumberedPath(rels, j) != SlidePath(i) {
        assert r.Get(NumberedPath(rels, j)) == p.Get(NumberedPath(rels, j));
      }
    }
  }

  /** Adding slide n + 1 to a consistent package of n slides leaves a consistent package of n + 1. */
  lemma AddedSlideConsistent(p: Package, n: nat, slideXml: string, relsXml: string)
    requires Holds(p, n)
    ensures Holds(AddedSlide(p, n + 1, slideXml, relsXml), n + 1)
  {
    SlideFoundInRange(p, n, n);
    AddedSlideContiguous(p, n, slideXml, relsXml);
    AddedSlideCount(p, n + 1, slideXml, relsXml);
  }

  /**
   * What the editor keeps: the package is well-formed, slides 1..n are
   * present with their rels parts, no other numbered part is, and
   * `count_slides` agrees with n.
   */
  ghost predicate Holds(p: Package, n: nat) {
    p.Valid() && Contiguous(p, n) && CountSlides(p.Paths()) == n
  }

  /** Dropping one of slides 1..n and renumbering the rest leaves a consistent package of n - 1 slides. */
  lemma RemainingHolds(p: Package, n: nat, k: nat)
    requires 1 <= k <= n && Holds(p, n)
    ensures Holds(RenumberedThrough(WithoutSlideParts(p, k), k + 1, n), n - 1)
  {
    var q := RenumberedThrough(WithoutSlideParts(p, k), k + 1, n);
    assert p.Has(NumberedPath(false, k));
    RemainingCount(p, n, k);
    RemainingShifts(p, n, k);
    forall rels: bool, j: nat
      ensures q.Has(NumberedPath(rels, j)) <==> 1 <= j <= n - 1
    {
      assert q.Get(NumberedPath(rels, j)) == ShiftedPart(p, rels, k, n + 1, j);
      assert p.Has(NumberedPath(rels, j)) <==> 1 <= j <= n;
      assert p.Has(NumberedPath(rels, j + 1)) <==> 1 <= j + 1 <= n;
    }
  }

  /** Regenerating the fixed parts keeps a consistent package consistent. */
  lemma RebuiltHolds(q: Package, m: nat, r: Package)
    requires Holds(q, m) && r == RebuiltFor(q, m)
    ensures Holds(r, m)
  {
    var a, b, c := GeneratorXml.PresentationText(m), GeneratorXml.PresentationRelsText(m), GeneratorXml.ContentTypesText(m);
    RebuiltParts(q, a, b, c);
    forall rels: bool, j: nat
      ensures Rebuilt(q, a, b, c).Has(NumberedPath(rels, j)) == q.Has(NumberedPath(rels, j))
    {
      RebuiltAt(q, a, b, c, rels, j);
    }
  }

  /** Removing one of slides 1..n from a consistent package leaves a consistent package of n - 1 slides. */
  lemma RemovedSlideConsistent(p: Package, n: nat, k: nat)
    requires 1 <= k <= n && Holds(p, n)
    ensures Holds(RemovedSlide(p, n, k), n - 1)
  {
    RemainingHolds(p, n, k);
    RebuiltHolds(RenumberedThrough(WithoutSlideParts(p, k), k + 1, n), n - 1, RemovedSlide(p, n, k));
  }

  // ---------------------------------------------------------------------
  // The editor

  /**
   * `PresentationEditor`: a package and the number of slides it is taken to
   * hold.  `Consistent` is what the operations keep: slides 1..slideCount
   * are present with their rels parts, no other numbered part is, and the
   * count agrees with `count_slides`.
   */
  class PresentationEditor {
    var package: Package
    var slideCount: nat

    ghost predicate Consistent()
      reads this
    {
      Holds(package, slideCount)
    }

    /** `new`: an empty package and no slides. */
    constructor ()
      ensures package == Empty() && slideCount == 0
      ensures Consistent()
    {
      package := Empty();
      slideCount := 0;
    }

    /** `open`, once the package has been read: the slide count is `count_slides` of it. */
    constructor Open(p: Package)
      ensures package == p && slideCount == CountSlides(p.Paths())
    {
      package := p;
      slideCount := CountSlides(p.Paths());
    }

    /** `get_slide`: the XML of slide `index` (0-based), or NotFound when its part is absent. */
    function GetSlide(index: nat): (r: Result<string>)
      reads this
      ensures r.Ok? ==> package.Get(SlidePath(index + 1)) == Some(r.value)
      ensures r.Err? ==> !package.Has(SlidePath(index + 1)) && r.error == SlideNotFound(index)
    {
      match package.Get(SlidePath(index + 1))
      case None => Err(SlideNotFound(index))
      case Some(xml) => Ok(xml)
    }

    /** On a consistent editor `get_slide` succeeds exactly for the indices below the slide count. */
    lemma GetSlideInRange(index: nat)
      requires Consistent()
      ensures GetSlide(index).Ok? <==> index < slideCount
    {
      SlideFoundInRange(package, slideCount, index);
    }

    /** `update_presentation_xml`: rewrite presentation.xml when it is present. */
    method UpdatePresentationXml(n: nat)
      modifies this
      ensures package == PresentationXmlUpdated(old(package), n) && slideCount == old(slideCount)
    {
      var xml := package.Get(PRESENTATION_PART);
      if xml.Some? {
        var updated := AddSlideToPresentationXml(xml.value, n);
        package := package.Add(PRESENTATION_PART, updated);
      }
    }

    /** `update_presentation_rels`: rewrite presentation.xml.rels when it is present. */
    method UpdatePresentationRels(n: nat)
      modifies this
      ensures package == PresentationRelsUpdated(old(package), n) && slideCount == old(slideCount)
    {
      var xml := package.Get(PRESENTATION_RELS_PART);
      if xml.Some? {
        var updated := AddSlideToPresentationRels(xml.value, n);
        package := package.Add(PRESENTATION_RELS_PART, updated);
      }
    }

    /** `update_content_types`: rewrite [Content_Types].xml when it is present. */
    method UpdateContentTypes(n: nat)
      modifies this
      ensures package == ContentTypesUpdated(old(package), n) && slideCount == old(slideCount)
    {
      var xml := package.Get(CONTENT_TYPES_PART);
      if xml.Some? {
        var updated := AddSlideToContentTypes(xml.value, n);
        package := package.Add(CONTENT_TYPES_PART, updated);
      }
    }

    /**
     * `add_slide`: store slide slideCount + 1 and its rels part, register it
     * in the three fixed parts and return its 0-based index.
     */
    method AddSlide(slideXml: string, relsXml: string) returns (r: Result<nat>)
      modifies this
      ensures package == AddedSlide(old(package), old(slideCount) + 1, slideXml, relsXml)
      ensures slideCount == old(slideCount) + 1 && r == Ok(old(slideCount))
      ensures old(Consistent()) ==> Consistent()
    {
      ghost var p0, n0 := package, slideCount;
      var newIndex := slideCount + 1;
      package := package.Add(SlidePath(newIndex), slideXml);
      package := package.Add(SlideRelsPath(newIndex), relsXml);
      UpdatePresentationXml(newIndex);
      UpdatePresentationRels(newIndex);
      UpdateContentTypes(newIndex);
      slideCount := newIndex;
      if Holds(p0, n0) {
        AddedSlideConsistent(p0, n0, slideXml, relsXml);
      }
      r := Ok(newIndex - 1);
    }

    /** `update_slide`: replace the XML of slide `index` (0-based), NotFound when it is out of range. */
    method UpdateSlide(index: nat, slideXml: string) returns (r: Result<()>)
      modifies this
      ensures r.Err? <==> index >= old(slideCount)
      ensures r.Err? ==> r.error == SlideNotFound(index) && package == old(package)
      ensures r.Ok? ==> package == old(package).Add(SlidePath(index + 1), slideXml)
      ensures slideCount == old(slideCount)
      ensures old(Consistent()) ==> Consistent()
    {
      if index >= slideCount {
        return Err(SlideNotFound(index));
      }
      ghost var p0, wasConsistent := package, Consistent();
      package := package.Add(SlidePath(index + 1), slideXml);
      if wasConsistent {
        ReplacedSlideKeeps(p0, slideCount, index + 1, slideXml);
      }
      return Ok(());
    }

    /** `renumber_slide`: move slide `oldNum` and then its rels part to number `newNum`, each only if present. */
    method RenumberSlide(oldNum: nat, newNum: nat)
      modifies this
      ensures package == RenumberedSlide(old(package), oldNum, newNum) && slideCount == old(slideCount)
    {
      var moved := package.Remove(SlidePath(oldNum));
      package := moved.0;
      if moved.1.Some? {
        package := package.Add(SlidePath(newNum), moved.1.value);
      }
      moved := package.Remove(SlideRelsPath(oldNum));
      package := moved.0;
      if moved.1.Some? {
        package := package.Add(SlideRelsPath(newNum), moved.1.value);
      }
    }

    /** `rebuild_presentation_xml`: regenerate presentation.xml for the current slide count. */
    method RebuildPresentationXml()
      modifies this
      ensures package == old(package).Add(PRESENTATION_PART, GeneratorXml.PresentationText(slideCount))
      ensures slideCount == old(slideCount)
    {
      var xml := GeneratorXml.CreatePresentationXml("", slideCount);
      package := package.Add(PRESENTATION_PART, xml);
    }

    /** `rebuild_presentation_rels`: regenerate presentation.xml.rels for the current slide count. */
    method RebuildPresentationRels()
      modifies this
      ensures package == old(package).Add(PRESENTATION_RELS_PART, GeneratorXml.PresentationRelsText(slideCount))
      ensures slideCount == old(slideCount)
    {
      var xml := GeneratorXml.CreatePresentationRelsXml(slideCount);
      package := package.Add(PRESENTATION_RELS_PART, xml);
    }

    /** `rebuild_content_types`: regenerate [Content_Types].xml for the current slide count. */
    method RebuildContentTypes()
      modifies this
      ensures package == old(package).Add(CONTENT_TYPES_PART, GeneratorXml.ContentTypesText(slideCount))
      ensures slideCount == old(slideCount)
    {
      var xml := GeneratorXml.CreateContentTypesXml(slideCount);
      package := package.Add(CONTENT_TYPES_PART, xml);
    }

    /**
     * `remove_slide`: drop slide `index` (0-based) and its rels part, move
     * the later slides down by one, and regenerate the three fixed parts;
     * NotFound when the index is out of range.  `remaining` is the package
     * between the renumbering and the regeneration, so the new package is
     * `RemovedSlide(old(package), old(slideCount), index + 1)`.
     */
    method RemoveSlide(index: nat) returns (r: Result<()>, ghost remaining: Package)
      modifies this
      ensures r.Err? <==> index >= old(slideCount)
      ensures r.Err? ==> r.error == SlideNotFound(index) && package == old(package) && slideCount == old(slideCount)
      ensures r.Ok? ==> slideCount == old(slideCount) - 1
      ensures r.Ok? ==> remaining == RenumberedThrough(WithoutSlideParts(old(package), index + 1), index + 1 + 1, old(slideCount))
      ensures r.Ok? ==> package == RebuiltFor(remaining, slideCount)
    {
      remaining := package;
      if index >= slideCount {
        return Err(SlideNotFound(index)), remaining;
      }
      DropSlide(index + 1);
      remaining := package;
      RebuildFixedParts();
      r := Ok(());
    }

    /**
     * `remove_slide` up to its `slide_count -= 1`: drop slide `slideNum` and
     * its rels part, move the later slides down, count one slide fewer.
     */
    method DropSlide(slideNum: nat)
      requires 1 <= slideNum <= slideCount
      modifies this
      ensures slideCount == old(slideCount) - 1
      ensures package == RenumberedThrough(WithoutSlideParts(old(package), slideNum), slideNum + 1, old(slideCount))
    {
      RemoveSlideParts(slideNum);
      RenumberFollowing(slideNum);
      slideCount := slideCount - 1;
    }

    /** The two `remove_part` calls of `remove_slide`: the slide part and its rels part. */
    method RemoveSlideParts(slideNum: nat)
      modifies this
      ensures slideCount == old(slideCount) && package == WithoutSlideParts(old(package), slideNum)
    {
      package := package.Remove(SlidePath(slideNum)).0;
      package := package.Remove(SlideRelsPath(slideNum)).0;
    }

    /** `remove_slide`'s closing calls: `rebuild_presentation_xml`, `rebuild_presentation_rels`, `rebuild_content_types`. */
    method RebuildFixedParts()
      modifies this
      ensures package == RebuiltFor(old(package), slideCount)
      ensures slideCount == old(slideCount)
    {
      RebuildPresentationXml();
      RebuildPresentationRels();
      RebuildContentTypes();
    }

    /** `remove_slide`'s loop: each of slides slideNum + 1..slideCount moves down by one, in increasing order. */
    method RenumberFollowing(slideNum: nat)
      requires 1 <= slideNum <= slideCount
      modifies this
      ensures package == RenumberedThrough(old(package), slideNum + 1, old(slideCount))
      ensures slideCount == old(slideCount)
    {
      ghost var dropped := package;
      for i := slideNum + 1 to slideCount + 1
        invariant package == RenumberedThrough(dropped, slideNum + 1, i - 1)
        invariant slideCount == old(slideCount)
      {
        RenumberSlide(i, i - 1);
      }
    }
  }
}

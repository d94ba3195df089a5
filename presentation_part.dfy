/**
 * `PresentationPart`, the in-memory form of `ppt/presentation.xml`: the slide
 * references with the ids `add_slide` hands out (256 + k), the master's and
 * the theme's relationship ids, and the slide size; the relationships it
 * creates and the XML it writes.
 */
module PresentationParts {
  import opened Wrappers
  import opened Strings
  import opened PartPaths
  import opened Relationships
  import GeneratorXml
  import RepairEdits
  import RepairChecks
  import RepairText

  /** A `<p:sldId>` entry: the slide's numeric id and its relationship id. */
  datatype SlideRef = SlideRef(id: nat, rId: string)

  /** The ids `add_slide` hands out, in order: the k-th slide (0-based) gets 257 + k. */
  ghost predicate AssignedIds(refs: seq<SlideRef>) {
    forall k :: 0 <= k < |refs| ==> refs[k].id == 257 + k
  }

  lemma AssignedIdsIncrease(refs: seq<SlideRef>, i: nat, j: nat)
    requires AssignedIds(refs) && i < j < |refs|
    ensures refs[i].id < refs[j].id
  {
  }

  // ---------------------------------------------------------------------
  // create_relationships

  /** `next_id` of a new `Relationships` once the master's relationship went in. */
  function NextAfterMaster(master: Option<string>): nat {
    match master
    case None => 2
    case Some(r) =>
      match RelIdNumber(r)
      case Some(n) => if n >= 1 then n + 1 else 1
      case None => 1
  }

  /** The master's relationship: its set id, or the first id a new collection hands out. */
  function MasterRelOf(master: Option<string>): Relationship {
    Relationship(if master.Some? then master.value else "rId1", SlideMaster, RepairChecks.MASTER_TARGET)
  }

  /** The theme's relationship: its set id, or the next id after the master's. */
  function ThemeRelOf(master: Option<string>, theme: Option<string>): Relationship {
    Relationship(if theme.Some? then theme.value else "rId" + NatToString(NextAfterMaster(master)),
                 Theme, GeneratorXml.THEME_TARGET)
  }

  /** One Slide relationship per reference, the k-th (0-based) targeting slides/slide{k+1}.xml. */
  function SlideRels(refs: seq<SlideRef>): (rs: seq<Relationship>)
    ensures |rs| == |refs|
    ensures forall k :: 0 <= k < |refs| ==> rs[k] == Relationship(refs[k].rId, Slide, SlideTarget(k + 1))
  {
    if refs == [] then []
    else SlideRels(refs[..|refs| - 1]) + [Relationship(refs[|refs| - 1].rId, Slide, SlideTarget(|refs|))]
  }

  /** The relationships `create_relationships` gives: master, theme, then the slides. */
  function CreatedRels(master: Option<string>, theme: Option<string>, refs: seq<SlideRef>): seq<Relationship> {
    [MasterRelOf(master), ThemeRelOf(master, theme)] + SlideRels(refs)
  }

  /**
   * The ids `create_relationships` can add without overflowing `next_id`: no
   * numbered id is `rId4294967295`, and a defaulted theme id still fits.
   */
  predicate CreatableIds(master: Option<string>, theme: Option<string>, refs: seq<SlideRef>) {
    (master.Some? ==> RelIdNumber(master.value) != Some(U32_LIMIT - 1))
    && (theme.Some? ==> RelIdNumber(theme.value) != Some(U32_LIMIT - 1))
    && (theme.None? ==> NextAfterMaster(master) + 1 < U32_LIMIT)
    && forall k :: 0 <= k < |refs| ==> RelIdNumber(refs[k].rId) != Some(U32_LIMIT - 1)
  }

  lemma CreatedRelsSnoc(master: Option<string>, theme: Option<string>, refs: seq<SlideRef>, i: nat)
    requires i < |refs|
    ensures CreatedRels(master, theme, refs[..i + 1])
      == CreatedRels(master, theme, refs[..i]) + [Relationship(refs[i].rId, Slide, SlideTarget(i + 1))]
  {
    assert refs[..i + 1][..i] == refs[..i];
  }

  /**
   * Master first, theme second, then one Slide relationship per reference with
   * that reference's id, whose target resolves to the slide's part.
   */
  lemma CreatedRelsOrder(master: Option<string>, theme: Option<string>, refs: seq<SlideRef>)
    ensures var rs := CreatedRels(master, theme, refs);
      |rs| == |refs| + 2 && rs[0].relType == SlideMaster && rs[1].relType == Theme
      && (forall k :: 2 <= k < |rs| ==> rs[k].relType == Slide && rs[k].id == refs[k - 2].rId)
  {
  }

  lemma CreatedSlideTargets(master: Option<string>, theme: Option<string>, refs: seq<SlideRef>, k: nat)
    requires 2 <= k < |refs| + 2
    ensures RepairText.ResolvePath(PRESENTATION_RELS_PART, CreatedRels(master, theme, refs)[k].target) == SlidePath(k - 1)
  {
    GeneratorXml.SlideRelResolves(k - 1);
  }

  /** Without set ids the master gets rId1 and the theme rId2, as a new collection hands them out. */
  lemma DefaultRelIds(refs: seq<SlideRef>)
    ensures CreatedRels(None, None, refs)[0].id == "rId1"
    ensures CreatedRels(None, None, refs)[1].id == "rId2"
  {
    GeneratorXml.SmallNumbers();
  }

  /**
   * With default master and theme and slide k's relationship id rId(k+2), the
   * relationships are those `create_presentation_rels_xml` writes.
   */
  lemma GeneratedRelsAgree(n: nat, refs: seq<SlideRef>)
    requires |refs| == n && forall k :: 0 <= k < n ==> refs[k].rId == "rId" + NatToString(k + 1 + 2)
    ensures CreatedRels(None, None, refs) == GeneratorXml.PresentationRelsList(n)
  {
    var rs, gs := CreatedRels(None, None, refs), GeneratorXml.PresentationRelsList(n);
    DefaultRelIds(refs);
    forall k | 2 <= k < n + 2
      ensures rs[k] == gs[k]
    {
      assert rs[k] == Relationship(refs[k - 2].rId, Slide, SlideTarget(k - 2 + 1));
    }
  }

  // ---------------------------------------------------------------------
  // to_xml

  /** The entry of one slide reference. */
  function RefLine(r: SlideRef): string {
    RepairEdits.SldIdEntry(r.id, r.rId)
  }

  function RefLines(refs: seq<SlideRef>): (ls: seq<string>)
    ensures |ls| == |refs| && forall k :: 0 <= k < |refs| ==> ls[k] == RefLine(refs[k])
  {
    if refs == [] then [] else RefLines(refs[..|refs| - 1]) + [RefLine(refs[|refs| - 1])]
  }

  /** What `to_xml` writes: the master's rId (rId1 by default), one entry per reference, the sizes. */
  function PartXml(master: Option<string>, refs: seq<SlideRef>, width: nat, height: nat): string {
    GeneratorXml.PresentationHead(if master.Some? then master.value else "rId1")
    + BrokenLines(RefLines(refs)) + GeneratorXml.PresentationTail(width, height)
  }

  /**
   * A new part given n slides with relationship ids rId3.. writes what
   * `create_presentation_xml` writes for n slides.
   */
  lemma DefaultPartIsGenerated(n: nat, refs: seq<SlideRef>)
    requires |refs| == n
    requires forall k :: 0 <= k < n ==> refs[k] == SlideRef(256 + (k + 1), "rId" + NatToString(k + 1 + 2))
    ensures PartXml(None, refs, GeneratorXml.SLIDE_WIDTH, GeneratorXml.SLIDE_HEIGHT) == GeneratorXml.PresentationText(n)
  {
    assert RefLines(refs) == GeneratorXml.SldIdLines(n);
  }

  class PresentationPart {
    var path: string
    var slideRefs: seq<SlideRef>
    var slideMasterRId: Option<string>
    var themeRId: Option<string>
    var slideWidth: nat
    var slideHeight: nat

    /** Every slide reference carries the id `add_slide` gave it. */
    ghost predicate Assigned()
      reads this
    {
      AssignedIds(slideRefs)
    }

    constructor()
      ensures path == PRESENTATION_PART && slideRefs == [] && slideMasterRId == None && themeRId == None
      ensures slideWidth == GeneratorXml.SLIDE_WIDTH && slideHeight == GeneratorXml.SLIDE_HEIGHT
      ensures Assigned()
    {
      path := PRESENTATION_PART;
      slideRefs := [];
      slideMasterRId := None;
      themeRId := None;
      slideWidth := GeneratorXml.SLIDE_WIDTH;
      slideHeight := GeneratorXml.SLIDE_HEIGHT;
    }

    method SetSlideMaster(rId: string)
      modifies this
      ensures slideMasterRId == Some(rId)
      ensures path == old(path) && slideRefs == old(slideRefs) && themeRId == old(themeRId)
      ensures slideWidth == old(slideWidth) && slideHeight == old(slideHeight)
    {
      slideMasterRId := Some(rId);
    }

    method SetTheme(rId: string)
      modifies this
      ensures themeRId == Some(rId)
      ensures path == old(path) && slideRefs == old(slideRefs) && slideMasterRId == old(slideMasterRId)
      ensures slideWidth == old(slideWidth) && slideHeight == old(slideHeight)
    {
      themeRId := Some(rId);
    }

    method SetDimensions(width: nat, height: nat)
      modifies this
      ensures slideWidth == width && slideHeight == height
      ensures path == old(path) && slideRefs == old(slideRefs)
      ensures slideMasterRId == old(slideMasterRId) && themeRId == old(themeRId)
    {
      slideWidth := width;
      slideHeight := height;
    }

    /** `add_slide`: the new reference gets id 256 + len + 1 and goes at the end. */
    method AddSlide(rId: string) returns (id: nat)
      requires 257 + |slideRefs| < U32_LIMIT
      modifies this
      ensures id == 256 + |old(slideRefs)| + 1
      ensures slideRefs == old(slideRefs) + [SlideRef(id, rId)]
      ensures path == old(path) && slideMasterRId == old(slideMasterRId) && themeRId == old(themeRId)
      ensures slideWidth == old(slideWidth) && slideHeight == old(slideHeight)
      ensures old(Assigned()) ==> Assigned()
    {
      id := 256 + |slideRefs| + 1;
      slideRefs := slideRefs + [SlideRef(id, rId)];
    }

    /** `create_relationships`: a new collection filled with master, theme and one relationship per slide. */
    method CreateRelationships() returns (rels: Relationships)
      requires CreatableIds(slideMasterRId, themeRId, slideRefs)
      ensures fresh(rels)
      ensures rels.rels == CreatedRels(slideMasterRId, themeRId, slideRefs)
    {
      rels := new Relationships();
      if slideMasterRId.Some? {
        rels.AddWithId(slideMasterRId.value, SlideMaster, RepairChecks.MASTER_TARGET);
        assert rels.rels == [MasterRelOf(slideMasterRId)];
      } else {
        var masterId := rels.Add(SlideMaster, RepairChecks.MASTER_TARGET);
        GeneratorXml.SmallNumbers();
        assert masterId == "rId1";
        assert rels.rels == [MasterRelOf(slideMasterRId)];
      }
      assert rels.nextId == NextAfterMaster(slideMasterRId);
      if themeRId.Some? {
        rels.AddWithId(themeRId.value, Theme, GeneratorXml.THEME_TARGET);
      } else {
        var themeId := rels.Add(Theme, GeneratorXml.THEME_TARGET);
      }
      assert rels.rels == [MasterRelOf(slideMasterRId), ThemeRelOf(slideMasterRId, themeRId)];
      assert slideRefs[..0] == [];
      for i := 0 to |slideRefs|
        invariant rels.rels == CreatedRels(slideMasterRId, themeRId, slideRefs[..i])
      {
        CreatedRelsSnoc(slideMasterRId, themeRId, slideRefs, i);
        rels.AddWithId(slideRefs[i].rId, Slide, SlideTarget(i + 1));
      }
      assert slideRefs[..|slideRefs|] == slideRefs;
    }

    /** `to_xml`: one pushed entry per slide reference inside the fixed frame. */
    method ToXml() returns (xml: string)
      ensures xml == PartXml(slideMasterRId, slideRefs, slideWidth, slideHeight)
    {
      var list := "";
      assert slideRefs[..0] == [];
      for i := 0 to |slideRefs|
        invariant list == BrokenLines(RefLines(slideRefs[..i]))
      {
        assert slideRefs[..i + 1][..i] == slideRefs[..i];
        GeneratorXml.BrokenLinesSnoc(RefLines(slideRefs[..i]), RefLine(slideRefs[i]));
        list := list + "\n" + RefLine(slideRefs[i]);
      }
      assert slideRefs[..|slideRefs|] == slideRefs;
      var master := if slideMasterRId.Some? then slideMasterRId.value else "rId1";
      xml := GeneratorXml.PresentationHead(master) + list + GeneratorXml.PresentationTail(slideWidth, slideHeight);
    }
  }
}

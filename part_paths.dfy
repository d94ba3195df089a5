/**
 * The part names the crate writes for numbered parts: slides, their rels
 * parts, and the single layout and master.
 */
module PartPaths {
  import opened Strings

  const CONTENT_TYPES_PART: string := "[Content_Types].xml"
  const PACKAGE_RELS_PART: string := "_rels/.rels"
  const PRESENTATION_PART: string := "ppt/presentation.xml"
  const PRESENTATION_RELS_PART: string := "ppt/_rels/presentation.xml.rels"

  /** "ppt/slides/slide{n}.xml" */
  function SlidePath(n: nat): (p: string)
    ensures p == "ppt/slides/slide" + NatToString(n) + ".xml"
    ensures StartsWith(p, "ppt/slides/slide") && EndsWith(p, ".xml")
  {
    var p := "ppt/slides/slide" + NatToString(n) + ".xml";
    assert p[..16] == "ppt/slides/slide";
    assert p[|p| - 4..] == ".xml";
    p
  }

  /** "ppt/slides/_rels/slide{n}.xml.rels" */
  function SlideRelsPath(n: nat): string {
    "ppt/slides/_rels/slide" + NatToString(n) + ".xml.rels"
  }

  /** "slides/slide{n}.xml", the target the presentation's rels part uses. */
  function SlideTarget(n: nat): string {
    "slides/slide" + NatToString(n) + ".xml"
  }

  /** "ppt/slideLayouts/slideLayout{n}.xml" */
  function LayoutPath(n: nat): string {
    "ppt/slideLayouts/slideLayout" + NatToString(n) + ".xml"
  }

  /** "ppt/slideMasters/slideMaster{n}.xml" */
  function MasterPath(n: nat): string {
    "ppt/slideMasters/slideMaster" + NatToString(n) + ".xml"
  }

  /** Different slide numbers name different slide parts. */
  lemma SlidePathInjective(a: nat, b: nat)
    requires SlidePath(a) == SlidePath(b)
    ensures a == b
  {
    var da, db := NatToString(a), NatToString(b);
    assert |da| == |db|;
    assert da == SlidePath(a)[16..16 + |da|];
    assert db == SlidePath(b)[16..16 + |db|];
    NatToStringInjective(a, b);
  }

  /** Different slide numbers name different slide rels parts. */
  lemma SlideRelsPathInjective(a: nat, b: nat)
    requires SlideRelsPath(a) == SlideRelsPath(b)
    ensures a == b
  {
    var da, db := NatToString(a), NatToString(b);
    assert |da| == |db|;
    assert da == SlideRelsPath(a)[22..22 + |da|];
    assert db == SlideRelsPath(b)[22..22 + |db|];
    NatToStringInjective(a, b);
  }

  /** The directory every slide part and slide rels part lives in. */
  const SLIDES_DIR: string := "ppt/slides/"

  predicate InSlidesDir(p: string) {
    StartsWith(p, SLIDES_DIR)
  }

  /** Slide parts and slide rels parts lie in the slides directory and differ at index 11. */
  lemma NumberedPathShapes(a: nat, b: nat)
    ensures InSlidesDir(SlidePath(a)) && SlidePath(a)[11] == 's'
    ensures InSlidesDir(SlideRelsPath(b)) && |SlideRelsPath(b)| > 11 && SlideRelsPath(b)[11] == '_'
    ensures SlidePath(a) != SlideRelsPath(b)
  {
    var p, q := SlidePath(a), SlideRelsPath(b);
    assert p[..16] == "ppt/slides/slide";
    assert p[..11] == p[..16][..11];
    assert q[..22] == "ppt/slides/_rels/slide";
    assert q[..11] == q[..22][..11];
  }

  /** The package's fixed parts lie outside the slides directory. */
  lemma FixedPartsOutsideSlidesDir()
    ensures !InSlidesDir(CONTENT_TYPES_PART) && !InSlidesDir(PRESENTATION_PART) && !InSlidesDir(PRESENTATION_RELS_PART)
  {
    assert CONTENT_TYPES_PART[0] != SLIDES_DIR[0];
    assert PRESENTATION_PART[4] != SLIDES_DIR[4];
    assert PRESENTATION_RELS_PART[4] != SLIDES_DIR[4];
  }

  /** Decimal digits hold no letter. */
  lemma DigitsLackLetter(d: string, c: char)
    requires AllDigits(d) && !IsDigit(c)
    ensures c !in d
  {
  }
}

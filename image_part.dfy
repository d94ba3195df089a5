/**
 * The image part (src/parts/image.rs): a binary part stored under
 * "ppt/media/image{n}.{ext}", referenced from slides by a "../media/…" target.
 */
module ImageParts {
  import opened Wrappers
  import opened Strings
  import PartPaths
  import RepairText

  /** The extension a lower-cased format is stored under: "jpeg" becomes "jpg". */
  function ExtensionOf(format: string): (e: string)
    ensures format == "jpeg" ==> e == "jpg"
    ensures format != "jpeg" ==> e == format
  {
    if format == "jpeg" then "jpg" else format
  }

  /** `mime_type`: the MIME type of a lower-cased format, octet-stream when unknown. */
  function MimeOf(format: string): (m: string)
    ensures format in {"png", "jpg", "jpeg", "gif", "bmp", "tiff", "tif"} <==> m != "application/octet-stream"
  {
    match format
    case "png" => "image/png"
    case "jpg" => "image/jpeg"
    case "jpeg" => "image/jpeg"
    case "gif" => "image/gif"
    case "bmp" => "image/bmp"
    case "tiff" => "image/tiff"
    case "tif" => "image/tiff"
    case _ => "application/octet-stream"
  }

  /** The part's path for an image number and an extension. */
  function MediaPath(n: nat, ext: string): string {
    "ppt/media/image" + NatToString(n) + "." + ext
  }

  datatype ImagePart = ImagePart(
    path: string,
    imageNumber: nat,
    format: string,
    data: seq<bv8>,
    width: nat,
    height: nat)
  {
    /** `extension`. */
    function Extension(): string {
      ExtensionOf(format)
    }

    /** `mime_type`. */
    function MimeType(): string {
      MimeOf(format)
    }

    /** `rel_target`: the target a slide's relationship uses. */
    function RelTarget(): (t: string)
      ensures StartsWith(t, "../")
    {
      assert ("../" + ("media/image" + NatToString(imageNumber) + "." + Extension()))[..3] == "../";
      "../" + ("media/image" + NatToString(imageNumber) + "." + Extension())
    }

    /** `set_dimensions`: sets the width and height and nothing else. */
    function SetDimensions(w: nat, h: nat): (r: ImagePart)
      ensures r.width == w && r.height == h && r.(width := width, height := height) == this
    {
      this.(width := w, height := h)
    }

    /** `to_xml`: an image has no XML content. */
    function ToXml(): (r: Result<string>)
      ensures r.Err? && r.error.InvalidOperation?
    {
      Err(InvalidOperation("Images don't have XML content"))
    }
  }

  /** `from_xml`: an image cannot be made from XML. */
  function FromXml(xml: string): (r: Result<ImagePart>)
    ensures r.Err? && r.error.InvalidOperation?
  {
    Err(InvalidOperation("Cannot create image from XML"))
  }

  /** `ImagePart::new`: the format lower-cased, the path from the number and extension, no dimensions. */
  function New(n: nat, format: string, data: seq<bv8>): (p: ImagePart)
    ensures p.imageNumber == n && p.format == ToLower(format) && p.data == data
    ensures p.width == 0 && p.height == 0
  {
    var lower := ToLower(format);
    ImagePart(MediaPath(n, ExtensionOf(lower)), n, lower, data, 0, 0)
  }

  /** A new part's path agrees with its `extension`, and its MIME type with its extension's. */
  lemma NewPathAgrees(n: nat, format: string, data: seq<bv8>)
    ensures var p := New(n, format, data);
            p.path == MediaPath(n, p.Extension()) && MimeOf(p.Extension()) == p.MimeType()
  {
  }

  /** Media paths of different numbers differ, whatever the extensions. */
  lemma MediaPathsDistinct(m: nat, n: nat, x: string, y: string)
    requires m != n
    ensures MediaPath(m, x) != MediaPath(n, y)
  {
    var sm, sn := NatToString(m), NatToString(n);
    var pre := "ppt/media/image";
    if MediaPath(m, x) == MediaPath(n, y) {
      var s := MediaPath(m, x);
      assert s == pre + (sm + "." + x);
      assert s == pre + (sn + "." + y);
      DigitsThenDot(sm, sn, s[|pre|..], x, y);
      NatToStringInjective(m, n);
      assert false;
    }
  }

  /** Images of different numbers never share a path. */
  lemma PathsDistinct(m: nat, n: nat, fm: string, fn: string, dm: seq<bv8>, dn: seq<bv8>)
    requires m != n
    ensures New(m, fm, dm).path != New(n, fn, dn).path
  {
    MediaPathsDistinct(m, n, ExtensionOf(ToLower(fm)), ExtensionOf(ToLower(fn)));
  }

  /** Two digit runs each followed by '.' that start the same string are equal. */
  lemma DigitsThenDot(a: string, b: string, s: string, x: string, y: string)
    requires AllDigits(a) && AllDigits(b)
    requires s == a + "." + x && s == b + "." + y
    ensures a == b
  {
    assert forall i :: 0 <= i < |a| ==> s[i] == a[i];
    assert forall i :: 0 <= i < |b| ==> s[i] == b[i];
    assert !IsDigit(s[|a|]) && !IsDigit(s[|b|]);
    assert |a| == |b|;
    assert a == s[..|a|] && b == s[..|b|];
  }

  /** Image 1 as "png" is stored as "ppt/media/image1.png" with format "png". */
  lemma PngExample(data: seq<bv8>)
    ensures New(1, "png", data).path == "ppt/media/image1.png" && New(1, "png", data).format == "png"
  {
    LowerPng();
    assert NatToString(1) == "1";
  }

  /** "JPEG" is stored as "jpeg", with MIME type image/jpeg. */
  lemma JpegExample(data: seq<bv8>)
    ensures New(1, "JPEG", data).format == "jpeg" && New(1, "JPEG", data).MimeType() == "image/jpeg"
  {
    LowerJpeg();
  }

  /** Image 3 in format "png" is referenced as "../media/image3.png"; a "jpeg" one as "…/image3.jpg". */
  lemma RelTargetExample(p: ImagePart)
    requires p.imageNumber == 3 && p.format in {"png", "jpeg"}
    ensures p.format == "png" ==> p.RelTarget() == "../media/image3.png"
    ensures p.format == "jpeg" ==> p.RelTarget() == "../media/image3.jpg"
  {
    assert NatToString(3) == "3";
  }

  lemma LowerPng()
    ensures ToLower("png") == "png"
  {
    assert ToLower("g") == "g";
    assert ToLower("ng") == "ng" by {
      assert "ng"[1..] == "g";
    }
    assert "png"[1..] == "ng";
  }

  lemma LowerJpeg()
    ensures ToLower("JPEG") == "jpeg" && ToLower("jpeg") == "jpeg"
  {
    assert ToLower("G") == "g" && ToLower("g") == "g";
    assert ToLower("EG") == "eg" && ToLower("eg") == "eg" by {
      assert "EG"[1..] == "G" && "eg"[1..] == "g";
    }
    assert ToLower("PEG") == "peg" && ToLower("peg") == "peg" by {
      assert "PEG"[1..] == "EG" && "peg"[1..] == "eg";
    }
    assert "JPEG"[1..] == "PEG" && "jpeg"[1..] == "peg";
  }

  /** A slide's rels part contains no '/' in its file name. */
  lemma SlideRelsSplit(k: nat)
    ensures PartPaths.SlideRelsPath(k) == "ppt/slides" + "/_rels/" + ("slide" + NatToString(k) + ".xml.rels")
    ensures '/' !in "slide" + NatToString(k) + ".xml.rels"
  {
    var name := "slide" + NatToString(k) + ".xml.rels";
    var digits := NatToString(k);
    forall i | 0 <= i < |name|
      ensures name[i] != '/'
    {
      if 5 <= i < 5 + |digits| {
        assert name[i] == digits[i - 5];
      }
    }
  }

  lemma MediaTarget(t: string, d: string, e: string)
    requires t == "media/image" + d + "." + e
    ensures !StartsWith(t, "../") && "ppt" + "/" + t == "ppt/media/image" + d + "." + e
  {
    assert t[0] == 'm';
    RepairText.PlainTarget(t);
  }

  /** From slide k's rels part, "../media/image{d}.{e}" resolves to "ppt/media/image{d}.{e}". */
  lemma ResolveMedia(k: nat, d: string, e: string)
    ensures RepairText.ResolvePath(PartPaths.SlideRelsPath(k), "../" + ("media/image" + d + "." + e))
         == "ppt/media/image" + d + "." + e
  {
    var t := "media/image" + d + "." + e;
    MediaTarget(t, d, e);
    SlideRelsSplit(k);
    RepairText.PlainDir("ppt/slides");
    RepairText.PptSlidesParent("ppt/slides");
    RepairText.ResolveUp(PartPaths.SlideRelsPath(k), "ppt/slides", "slide" + NatToString(k) + ".xml.rels", t);
  }

  /** From slide k's rels part, an image's target resolves to the image's own path. */
  lemma RelTargetResolves(p: ImagePart, k: nat)
    requires p.path == MediaPath(p.imageNumber, p.Extension())
    ensures RepairText.ResolvePath(PartPaths.SlideRelsPath(k), p.RelTarget()) == p.path
  {
    ResolveMedia(k, NatToString(p.imageNumber), p.Extension());
  }

  /** In particular for every new image. */
  lemma NewRelTargetResolves(n: nat, format: string, data: seq<bv8>, k: nat)
    ensures RepairText.ResolvePath(PartPaths.SlideRelsPath(k), New(n, format, data).RelTarget()) == New(n, format, data).path
  {
    NewPathAgrees(n, format, data);
    RelTargetResolves(New(n, format, data), k);
  }
}

/**
 * Bullet points of slide content (src/generator/slide_content/bullet.rs):
 * the bullet styles and their OOXML elements, the indentation of a list
 * level, the text format of a bullet and the bullet point builder.
 */
module Bullets {
  import Wrappers
  import opened Strings
  import opened XmlText
  import Colors

  /** One indentation step, half an inch in EMU. */
  const INDENT_STEP: nat := 457200

  /** The bullet styles; `None` is the style without a bullet. */
  datatype BulletStyle =
    | Bullet
    | Number
    | LetterLower
    | LetterUpper
    | RomanLower
    | RomanUpper
    | Custom(ch: char)
    | None
  {
    /** `to_xml`: the bullet element of the style. */
    function ToXml(): (s: string)
      ensures StartsWith(s, "<a:bu") && EndsWith(s, "/>")
    {
      match this
      case Bullet => "<a:buChar char=\"•\"/>"
      case Number => AutoNum("arabicPeriod")
      case LetterLower => AutoNum("alphaLcPeriod")
      case LetterUpper => AutoNum("alphaUcPeriod")
      case RomanLower => AutoNum("romanLcPeriod")
      case RomanUpper => AutoNum("romanUcPeriod")
      case Custom(c) => BuChar([c])
      case None => "<a:buNone/>"
    }

    /** `to_xml` with the custom character escaped, as an attribute value needs. */
    function ToXmlFixed(): (s: string)
      ensures StartsWith(s, "<a:bu") && EndsWith(s, "/>")
    {
      match this
      case Custom(c) => BuChar(EscapeXml([c]))
      case _ => ToXml()
    }
  }

  function AutoNum(kind: string): (s: string)
    ensures StartsWith(s, "<a:bu") && EndsWith(s, "/>")
  {
    assert ("<a:buAutoNum type=\"" + kind + "\"/>")[..5] == "<a:bu";
    "<a:buAutoNum type=\"" + kind + "\"/>"
  }

  function BuChar(value: string): (s: string)
    ensures StartsWith(s, "<a:bu") && EndsWith(s, "/>")
  {
    assert ("<a:buChar char=\"" + value + "\"/>")[..5] == "<a:bu";
    "<a:buChar " + Attr("char", value) + "/>"
  }

  /** The automatic numberings are told apart by their `type`, and differ from every other style. */
  lemma AutoNumStylesDistinct(a: BulletStyle, b: BulletStyle)
    requires a != b
    requires a.Number? || a.LetterLower? || a.LetterUpper? || a.RomanLower? || a.RomanUpper?
    ensures a.ToXml() != b.ToXml()
  {
    var s, t := a.ToXml(), b.ToXml();
    assert s[5] == 'A';
    if b.Number? || b.LetterLower? || b.LetterUpper? || b.RomanLower? || b.RomanUpper? {
      if a.Number? || b.Number? {
        assert |s| != |t|;
      } else if (a.LetterLower? || a.LetterUpper?) != (b.LetterLower? || b.LetterUpper?) {
        assert s[19] != t[19];
      } else {
        assert s[24] != t[24];
      }
    } else {
      assert s[5] != t[5];
    }
  }

  /** Two custom characters give the same element only when they are the same character. */
  lemma CustomDistinct(c: char, d: char)
    requires c != d
    ensures Custom(c).ToXml() != Custom(d).ToXml()
  {
    assert Custom(c).ToXml()[16] == c;
    assert Custom(d).ToXml()[16] == d;
  }

  /** `Bullet` writes the same element as a custom '•'. */
  lemma BulletIsCustomDot()
    ensures Bullet.ToXml() == Custom('•').ToXml()
  {
  }

  /** The custom character lands in the `char` attribute unescaped: a '"' closes the value early. */
  lemma CustomQuoteBreaksAttribute()
    ensures Custom('"').ToXml() == "<a:buChar " + Attr("char", "") + "\"/>"
  {
  }

  /** Escaped, the attribute value holds no '"' and reads back as the character. */
  lemma FixedCustomAttribute(c: char)
    ensures Custom(c).ToXmlFixed() == "<a:buChar " + Attr("char", EscapeXml([c])) + "/>"
    ensures '"' !in EscapeXml([c]) && Unescape(EscapeXml([c])) == [c]
  {
    UnescapeEscape([c]);
  }

  // ---------------------------------------------------------------------
  // Indentation
  // ---------------------------------------------------------------------

  /** The indent and the left margin of a level: indent 457200·(level+1), marL 457200·level + indent. */
  function IndentAmounts(level: nat): (r: (nat, nat))
    ensures r.0 == INDENT_STEP * (level + 1)
    ensures r.1 == INDENT_STEP * (2 * level + 1)
  {
    var indent := INDENT_STEP + level * INDENT_STEP;
    var marginLeft := level * INDENT_STEP;
    (indent, marginLeft + indent)
  }

  /** `indent_xml`: a hanging indent of one step more than the level's margin. */
  function IndentXml(level: nat): string {
    var amounts := IndentAmounts(level);
    Attr("indent", "-" + NatToString(amounts.0)) + " " + Attr("marL", NatToString(amounts.1))
  }

  /** Each level moves the margin by two steps and the indent by one; level 0 indents one step. */
  lemma IndentGrowth(level: nat)
    ensures IndentAmounts(level + 1).1 == IndentAmounts(level).1 + 2 * INDENT_STEP
    ensures IndentAmounts(level + 1).0 == IndentAmounts(level).0 + INDENT_STEP
    ensures IndentAmounts(level).1 - IndentAmounts(level).0 == INDENT_STEP * level
    ensures IndentAmounts(0) == (INDENT_STEP, INDENT_STEP)
  {
  }

  // ---------------------------------------------------------------------
  // Text format
  // ---------------------------------------------------------------------

  datatype BulletTextFormat = BulletTextFormat(
    bold: bool,
    italic: bool,
    underline: bool,
    strikethrough: bool,
    subscript: bool,
    superscript: bool,
    color: Wrappers.Option<string>,
    highlight: Wrappers.Option<string>,
    fontSize: Wrappers.Option<nat>,
    fontFamily: Wrappers.Option<string>)
  {
    /** Subscript and superscript are never both set. */
    predicate ScriptsExclusive() {
      !(subscript && superscript)
    }

    function Bold(): (r: BulletTextFormat)
      ensures r.bold && r.(bold := bold) == this
    {
      this.(bold := true)
    }

    function Italic(): (r: BulletTextFormat)
      ensures r.italic && r.(italic := italic) == this
    {
      this.(italic := true)
    }

    function Underline(): (r: BulletTextFormat)
      ensures r.underline && r.(underline := underline) == this
    {
      this.(underline := true)
    }

    function Strikethrough(): (r: BulletTextFormat)
      ensures r.strikethrough && r.(strikethrough := strikethrough) == this
    {
      this.(strikethrough := true)
    }

    /** `subscript`: sets subscript and clears superscript. */
    function Subscript(): (r: BulletTextFormat)
      ensures r.subscript && !r.superscript && r.ScriptsExclusive()
      ensures r.(subscript := subscript, superscript := superscript) == this
    {
      this.(subscript := true, superscript := false)
    }

    /** `superscript`: sets superscript and clears subscript. */
    function Superscript(): (r: BulletTextFormat)
      ensures r.superscript && !r.subscript && r.ScriptsExclusive()
      ensures r.(subscript := subscript, superscript := superscript) == this
    {
      this.(superscript := true, subscript := false)
    }

    function Color(hex: string): (r: BulletTextFormat)
      ensures r.color == Wrappers.Some(Colors.NormalizeColor(hex))
      ensures r.color.Some? && !StartsWith(r.color.value, "#") && Colors.NoLowerCase(r.color.value)
      ensures r.(color := color) == this
    {
      Colors.NormalizedShape(hex);
      this.(color := Wrappers.Some(Colors.NormalizeColor(hex)))
    }

    function Highlight(hex: string): (r: BulletTextFormat)
      ensures r.highlight == Wrappers.Some(Colors.NormalizeColor(hex))
      ensures r.highlight.Some? && !StartsWith(r.highlight.value, "#") && Colors.NoLowerCase(r.highlight.value)
      ensures r.(highlight := highlight) == this
    {
      Colors.NormalizedShape(hex);
      this.(highlight := Wrappers.Some(Colors.NormalizeColor(hex)))
    }

    function FontSize(size: nat): (r: BulletTextFormat)
      ensures r.fontSize == Wrappers.Some(size) && r.(fontSize := fontSize) == this
    {
      this.(fontSize := Wrappers.Some(size))
    }

    function FontFamily(family: string): (r: BulletTextFormat)
      ensures r.fontFamily == Wrappers.Some(family) && r.(fontFamily := fontFamily) == this
    {
      this.(fontFamily := Wrappers.Some(family))
    }
  }

  /** `BulletTextFormat::new` and `default`: nothing set. */
  function DefaultFormat(): (f: BulletTextFormat)
    ensures !f.bold && !f.italic && !f.underline && !f.strikethrough && !f.subscript && !f.superscript
    ensures f.color.None? && f.highlight.None? && f.fontSize.None? && f.fontFamily.None?
  {
    BulletTextFormat(false, false, false, false, false, false, Wrappers.None, Wrappers.None, Wrappers.None, Wrappers.None)
  }

  /** Every setter keeps subscript and superscript exclusive, starting from the default. */
  lemma {:induction false} SettersKeepScriptsExclusive(f: BulletTextFormat, hex: string, size: nat, family: string)
    requires f.ScriptsExclusive()
    ensures DefaultFormat().ScriptsExclusive()
    ensures f.Bold().ScriptsExclusive() && f.Italic().ScriptsExclusive() && f.Underline().ScriptsExclusive()
    ensures f.Strikethrough().ScriptsExclusive() && f.Color(hex).ScriptsExclusive() && f.Highlight(hex).ScriptsExclusive()
    ensures f.FontSize(size).ScriptsExclusive() && f.FontFamily(family).ScriptsExclusive()
  {
  }

  /** Of subscript and superscript, the one set last wins. */
  lemma LastScriptWins(f: BulletTextFormat)
    ensures f.Subscript().Superscript() == f.Superscript()
    ensures f.Superscript().Subscript() == f.Subscript()
  {
  }

  // ---------------------------------------------------------------------
  // Bullet points
  // ---------------------------------------------------------------------

  datatype BulletPoint = BulletPoint(text: string, level: nat, style: BulletStyle, format: Wrappers.Option<BulletTextFormat>)
  {
    /** The format the shortcut setters start from: the present one, or the default. */
    function FormatOrDefault(): (f: BulletTextFormat)
      ensures format.Some? ==> f == format.value
      ensures format.None? ==> f == DefaultFormat()
    {
      if format.Some? then format.value else DefaultFormat()
    }

    function WithLevel(l: nat): (r: BulletPoint)
      ensures r.level == l && r.(level := level) == this
    {
      this.(level := l)
    }

    function WithStyle(s: BulletStyle): (r: BulletPoint)
      ensures r.style == s && r.(style := style) == this
    {
      this.(style := s)
    }

    function WithFormat(f: BulletTextFormat): (r: BulletPoint)
      ensures r.format == Wrappers.Some(f) && r.(format := format) == this
    {
      this.(format := Wrappers.Some(f))
    }

    /** `bold` and the other shortcuts: apply the format setter to the format or a default one. */
    function Bold(): (r: BulletPoint)
      ensures r == WithFormat(FormatOrDefault().Bold())
    {
      this.(format := Wrappers.Some(FormatOrDefault().Bold()))
    }

    function Italic(): (r: BulletPoint)
      ensures r == WithFormat(FormatOrDefault().Italic())
    {
      this.(format := Wrappers.Some(FormatOrDefault().Italic()))
    }

    function Strikethrough(): (r: BulletPoint)
      ensures r == WithFormat(FormatOrDefault().Strikethrough())
    {
      this.(format := Wrappers.Some(FormatOrDefault().Strikethrough()))
    }

    function Subscript(): (r: BulletPoint)
      ensures r == WithFormat(FormatOrDefault().Subscript())
    {
      this.(format := Wrappers.Some(FormatOrDefault().Subscript()))
    }

    function Superscript(): (r: BulletPoint)
      ensures r == WithFormat(FormatOrDefault().Superscript())
    {
      this.(format := Wrappers.Some(FormatOrDefault().Superscript()))
    }

    function Highlight(color: string): (r: BulletPoint)
      ensures r == WithFormat(FormatOrDefault().Highlight(color))
    {
      this.(format := Wrappers.Some(FormatOrDefault().Highlight(color)))
    }

    function Color(hex: string): (r: BulletPoint)
      ensures r == WithFormat(FormatOrDefault().Color(hex))
    {
      this.(format := Wrappers.Some(FormatOrDefault().Color(hex)))
    }

    function FontSize(size: nat): (r: BulletPoint)
      ensures r == WithFormat(FormatOrDefault().FontSize(size))
    {
      this.(format := Wrappers.Some(FormatOrDefault().FontSize(size)))
    }
  }

  /** `BulletPoint::new`: level 0, a plain bullet, no format. */
  function NewBulletPoint(text: string): (b: BulletPoint)
    ensures b.text == text && b.level == 0 && b.style == Bullet && b.format.None?
  {
    BulletPoint(text, 0, Bullet, Wrappers.None)
  }

  /**
   * A shortcut on a bullet without a format creates a default format with just
   * that setting; text, level and style stay.
   */
  lemma ShortcutCreatesFormat(b: BulletPoint)
    requires b.format.None?
    ensures b.Bold().format == Wrappers.Some(DefaultFormat().(bold := true))
    ensures b.Subscript().format == Wrappers.Some(DefaultFormat().(subscript := true))
    ensures b.Bold().(format := Wrappers.None) == b
  {
  }

  /** Shortcuts keep the format's scripts exclusive. */
  lemma ShortcutsKeepScriptsExclusive(b: BulletPoint)
    requires b.format.Some? ==> b.format.value.ScriptsExclusive()
    ensures b.Bold().format.value.ScriptsExclusive() && b.Italic().format.value.ScriptsExclusive()
    ensures b.Subscript().format.value.ScriptsExclusive() && b.Superscript().format.value.ScriptsExclusive()
  {
    SettersKeepScriptsExclusive(b.FormatOrDefault(), "", 0, "");
  }
}

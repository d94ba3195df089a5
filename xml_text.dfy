/**
 * XML text shared by every serializer: the XML declaration and `escape_xml`,
 * which the crate defines identically in several modules (a chain of
 * `str::replace` calls, "&" first).
 */
module XmlText {
  import opened Strings

  /** The declaration every generated part starts with. */
  const XML_DECL: string := "<?xml version=\"1.0\"" + " encoding=\"UTF-8\" standalone=\"yes\"?>"

  /** An attribute as the serializers write it: `name="value"`. */
  function Attr(name: string, value: string): string {
    name + "=\"" + value + "\""
  }

  /** A character other than '=' and '"' that neither the name nor the value holds is not in the attribute. */
  lemma AttrLacks(c: char, name: string, value: string)
    requires c != '=' && c != '"' && c !in name && c !in value
    ensures c !in Attr(name, value)
  {
  }

  /** The entity a single character escapes to. */
  function EscapeChar(c: char): string {
    match c
    case '&' => "&amp;"
    case '<' => "&lt;"
    case '>' => "&gt;"
    case '"' => "&quot;"
    case '\'' => "&apos;"
    case _ => [c]
  }

  /** Markup characters that escaping removes. */
  predicate IsMarkup(c: char) {
    c == '<' || c == '>' || c == '"' || c == '\''
  }

  /** Escaping character by character. */
  function EscapeXml(s: string): (r: string)
    ensures forall i :: 0 <= i < |r| ==> !IsMarkup(r[i])
    ensures |r| >= |s|
  {
    if s == [] then "" else EscapeChar(s[0]) + EscapeXml(s[1..])
  }

  /** `escape_xml` as written: five `replace` calls, "&" first. */
  function EscapeChained(s: string): string {
    Replace(Replace(Replace(Replace(Replace(s, "&", "&amp;"), "<", "&lt;"), ">", "&gt;"), "\"", "&quot;"), "'", "&apos;")
  }

  /** Reading the five entities back, left to right. */
  function Unescape(t: string): string
    decreases |t|
  {
    if t == [] then ""
    else if StartsWith(t, "&amp;") then "&" + Unescape(t[5..])
    else if StartsWith(t, "&lt;") then "<" + Unescape(t[4..])
    else if StartsWith(t, "&gt;") then ">" + Unescape(t[4..])
    else if StartsWith(t, "&quot;") then "\"" + Unescape(t[6..])
    else if StartsWith(t, "&apos;") then "'" + Unescape(t[6..])
    else [t[0]] + Unescape(t[1..])
  }

  // ---------------------------------------------------------------------
  // The chained replaces are a character-by-character map

  /** `replace` of one character, as a map over the characters. */
  function MapChar(s: string, c: char, rep: string): string {
    if s == [] then "" else (if s[0] == c then rep else [s[0]]) + MapChar(s[1..], c, rep)
  }

  lemma {:induction false} ReplaceCharIsMap(s: string, c: char, rep: string)
    ensures Replace(s, [c], rep) == MapChar(s, c, rep)
    decreases |s|
  {
    if s != [] {
      assert s[..1] == [c] <==> s[0] == c;
      ReplaceCharIsMap(s[1..], c, rep);
    }
  }

  lemma {:induction false} MapCharAppend(a: string, b: string, c: char, rep: string)
    ensures MapChar(a + b, c, rep) == MapChar(a, c, rep) + MapChar(b, c, rep)
    decreases |a|
  {
    if a == [] {
      assert a + b == b;
    } else {
      assert (a + b)[0] == a[0] && (a + b)[1..] == a[1..] + b;
      MapCharAppend(a[1..], b, c, rep);
    }
  }

  /** The five maps in the order `escape_xml` applies them. */
  function MapChain(s: string): string {
    MapChar(MapChar(MapChar(MapChar(MapChar(s, '&', "&amp;"), '<', "&lt;"), '>', "&gt;"), '"', "&quot;"), '\'', "&apos;")
  }

  lemma MapChainAppend(a: string, b: string)
    ensures MapChain(a + b) == MapChain(a) + MapChain(b)
  {
    var a1, b1 := MapChar(a, '&', "&amp;"), MapChar(b, '&', "&amp;");
    MapCharAppend(a, b, '&', "&amp;");
    var a2, b2 := MapChar(a1, '<', "&lt;"), MapChar(b1, '<', "&lt;");
    MapCharAppend(a1, b1, '<', "&lt;");
    var a3, b3 := MapChar(a2, '>', "&gt;"), MapChar(b2, '>', "&gt;");
    MapCharAppend(a2, b2, '>', "&gt;");
    var a4, b4 := MapChar(a3, '"', "&quot;"), MapChar(b3, '"', "&quot;");
    MapCharAppend(a3, b3, '"', "&quot;");
    MapCharAppend(a4, b4, '\'', "&apos;");
  }

  lemma {:induction false} MapCharAbsent(s: string, c: char, rep: string)
    requires c !in s
    ensures MapChar(s, c, rep) == s
    decreases |s|
  {
    if s != [] {
      assert s[0] in s;
      MapCharAbsent(s[1..], c, rep);
    }
  }

  lemma MapCharSingle(c: char, d: char, rep: string)
    ensures MapChar([c], d, rep) == if c == d then rep else [c]
  {
    assert [c][1..] == [];
  }

  /** The maps after the one that produces an entity leave it alone. */
  lemma MapChainAmp(c: char, e: string)
    requires c == '&' && e == "&amp;"
    ensures MapChain([c]) == e
  {
    MapCharSingle(c, '&', e);
    MapCharAbsent(e, '<', "&lt;");
    MapCharAbsent(e, '>', "&gt;");
    MapCharAbsent(e, '"', "&quot;");
    MapCharAbsent(e, '\'', "&apos;");
  }

  lemma MapChainLt(c: char, e: string)
    requires c == '<' && e == "&lt;"
    ensures MapChain([c]) == e
  {
    MapCharSingle(c, '&', "&amp;");
    MapCharSingle(c, '<', e);
    MapCharAbsent(e, '>', "&gt;");
    MapCharAbsent(e, '"', "&quot;");
    MapCharAbsent(e, '\'', "&apos;");
  }

  lemma MapChainGt(c: char, e: string)
    requires c == '>' && e == "&gt;"
    ensures MapChain([c]) == e
  {
    MapCharSingle(c, '&', "&amp;");
    MapCharSingle(c, '<', "&lt;");
    MapCharSingle(c, '>', e);
    MapCharAbsent(e, '"', "&quot;");
    MapCharAbsent(e, '\'', "&apos;");
  }

  lemma MapChainQuot(c: char, e: string)
    requires c == '"' && e == "&quot;"
    ensures MapChain([c]) == e
  {
    MapCharSingle(c, '&', "&amp;");
    MapCharSingle(c, '<', "&lt;");
    MapCharSingle(c, '>', "&gt;");
    MapCharSingle(c, '"', e);
    MapCharAbsent(e, '\'', "&apos;");
  }

  lemma MapChainOther(c: char)
    requires c != '&' && c != '<' && c != '>' && c != '"'
    ensures MapChain([c]) == EscapeChar(c)
  {
    MapCharSingle(c, '&', "&amp;");
    MapCharSingle(c, '<', "&lt;");
    MapCharSingle(c, '>', "&gt;");
    MapCharSingle(c, '"', "&quot;");
    MapCharSingle(c, '\'', "&apos;");
  }

  lemma MapChainChar(c: char)
    ensures MapChain([c]) == EscapeChar(c)
  {
    if c == '&' {
      MapChainAmp(c, "&amp;");
    } else if c == '<' {
      MapChainLt(c, "&lt;");
    } else if c == '>' {
      MapChainGt(c, "&gt;");
    } else if c == '"' {
      MapChainQuot(c, "&quot;");
    } else {
      MapChainOther(c);
    }
  }

  lemma {:induction false} MapChainIsEscape(s: string)
    ensures MapChain(s) == EscapeXml(s)
    decreases |s|
  {
    if s != [] {
      assert s == [s[0]] + s[1..];
      MapChainAppend([s[0]], s[1..]);
      MapChainChar(s[0]);
      MapChainIsEscape(s[1..]);
    }
  }

  /** The chain of replaces escapes each character on its own, "&" included. */
  lemma EscapeChainedIsEscapeXml(s: string)
    ensures EscapeChained(s) == EscapeXml(s)
  {
    var s1 := Replace(s, "&", "&amp;");
    assert "&" == ['&'];
    ReplaceCharIsMap(s, '&', "&amp;");
    var s2 := Replace(s1, "<", "&lt;");
    assert "<" == ['<'];
    ReplaceCharIsMap(s1, '<', "&lt;");
    var s3 := Replace(s2, ">", "&gt;");
    assert ">" == ['>'];
    ReplaceCharIsMap(s2, '>', "&gt;");
    var s4 := Replace(s3, "\"", "&quot;");
    assert "\"" == ['"'];
    ReplaceCharIsMap(s3, '"', "&quot;");
    assert "'" == ['\''];
    ReplaceCharIsMap(s4, '\'', "&apos;");
    MapChainIsEscape(s);
  }

  // ---------------------------------------------------------------------
  // Round trip

  /** The unescaping step at a text that starts with `e`. */
  lemma UnescapeAt(t: string, e: string, c: char, rest: string)
    requires t == e + rest
    requires e == EscapeChar(c)
    ensures Unescape(t) == [c] + Unescape(rest)
  {
    assert t[..|e|] == e && t[|e|..] == rest;
    if c == '&' {
      assert StartsWith(t, "&amp;");
    } else if c == '<' {
      assert t[1] == 'l';
      assert !StartsWith(t, "&amp;");
    } else if c == '>' {
      assert t[1] == 'g';
      assert !StartsWith(t, "&amp;") && !StartsWith(t, "&lt;");
    } else if c == '"' {
      assert t[1] == 'q';
      assert !StartsWith(t, "&amp;") && !StartsWith(t, "&lt;") && !StartsWith(t, "&gt;");
    } else if c == '\'' {
      assert t[1] == 'a' && t[2] == 'p';
      assert !StartsWith(t, "&amp;") && !StartsWith(t, "&lt;") && !StartsWith(t, "&gt;");
      assert !StartsWith(t, "&quot;");
    } else {
      assert t[0] == c;
      FirstCharNotPrefix(t, "&amp;");
      FirstCharNotPrefix(t, "&lt;");
      FirstCharNotPrefix(t, "&gt;");
      FirstCharNotPrefix(t, "&quot;");
      FirstCharNotPrefix(t, "&apos;");
    }
  }

  /** Unescaping gives back the original text. */
  lemma {:induction false} UnescapeEscape(s: string)
    ensures Unescape(EscapeXml(s)) == s
    decreases |s|
  {
    if s != [] {
      UnescapeAt(EscapeXml(s), EscapeChar(s[0]), s[0], EscapeXml(s[1..]));
      UnescapeEscape(s[1..]);
    }
  }

  /** Text without any of the five special characters. */
  predicate NoSpecial(s: string) {
    forall i :: 0 <= i < |s| ==> !IsMarkup(s[i]) && s[i] != '&'
  }

  /** Text without the five special characters is unchanged by escaping. */
  lemma {:induction false} EscapePlain(s: string)
    requires NoSpecial(s)
    ensures EscapeXml(s) == s
    decreases |s|
  {
    if s != [] {
      EscapePlain(s[1..]);
    }
  }

  /** Escaping distributes over concatenation. */
  lemma {:induction false} EscapeAppend(a: string, b: string)
    ensures EscapeXml(a + b) == EscapeXml(a) + EscapeXml(b)
    decreases |a|
  {
    if a == [] {
      assert a + b == b;
    } else {
      assert (a + b)[0] == a[0] && (a + b)[1..] == a[1..] + b;
      EscapeAppend(a[1..], b);
    }
  }

  lemma EscapeSingle(c: char)
    ensures EscapeXml([c]) == EscapeChar(c)
  {
    assert [c][1..] == [];
  }

  /** One special character between two plain texts is the only thing escaped. */
  lemma EscapeBetween(a: string, c: char, b: string)
    requires NoSpecial(a) && NoSpecial(b)
    ensures EscapeXml(a + [c] + b) == a + EscapeChar(c) + b
  {
    EscapeAppend(a + [c], b);
    EscapeAppend(a, [c]);
    EscapePlain(a);
    EscapePlain(b);
    EscapeSingle(c);
  }

  /** A plain text between two characters keeps its own text. */
  lemma EscapeEnclosed(l: char, t: string, r: char)
    requires NoSpecial(t)
    ensures EscapeXml([l] + t + [r]) == EscapeChar(l) + t + EscapeChar(r)
  {
    EscapeAppend([l] + t, [r]);
    EscapeAppend([l], t);
    EscapePlain(t);
    EscapeSingle(l);
    EscapeSingle(r);
  }

  /** A bare ampersand between words becomes "&amp;" ("a & b" gives "a &amp; b"). */
  lemma AmpersandBetweenWords(a: string, b: string)
    requires NoSpecial(a) && NoSpecial(b)
    ensures EscapeXml(a + "&" + b) == a + "&amp;" + b
  {
    EscapeBetween(a, '&', b);
  }

  /** A tag name in angle brackets is escaped on both sides ("<tag>" gives "&lt;tag&gt;"). */
  lemma TagEscaped(t: string)
    requires NoSpecial(t)
    ensures EscapeXml("<" + t + ">") == "&lt;" + t + "&gt;"
  {
    EscapeEnclosed('<', t, '>');
  }

  /** Quotes around a word are escaped on both sides ("\"quoted\"" gives "&quot;quoted&quot;"). */
  lemma QuotedEscaped(t: string)
    requires NoSpecial(t)
    ensures EscapeXml("\"" + t + "\"") == "&quot;" + t + "&quot;"
  {
    EscapeEnclosed('"', t, '"');
  }
}

/**
 * Relationship types and the relationship list of one part
 * (src/parts/relationships.rs).
 */
module Relationships {
  import opened Wrappers
  import opened Strings
  import opened XmlText
  import opened RepairText

  // ---------------------------------------------------------------------
  // Relationship types and their URIs

  datatype RelationshipType =
    | OfficeDocument
    | Slide
    | SlideLayout
    | SlideMaster
    | Theme
    | Image
    | Chart
    | CoreProperties
    | ExtendedProperties
    | Custom(uri: string)

  const SCHEMAS: string := "http://schemas.openxmlformats.org"
  const OFFICE_RELS_PATH: string := "/officeDocument/2006/relationships/"
  const PACKAGE_RELS_PATH: string := "/package/2006/relationships/metadata/"
  /** The namespace of the officeDocument relationship types, ending in '/'. */
  const OFFICE_RELS: string := SCHEMAS + OFFICE_RELS_PATH
  /** The namespace of the package metadata relationship types, ending in '/'. */
  const PACKAGE_RELS: string := SCHEMAS + PACKAGE_RELS_PATH

  /** `RelationshipType::uri`. */
  function Uri(t: RelationshipType): (u: string)
    ensures t.Custom? ==> u == t.uri
  {
    match t
    case OfficeDocument => OFFICE_RELS + "officeDocument"
    case Slide => OFFICE_RELS + "slide"
    case SlideLayout => OFFICE_RELS + "slideLayout"
    case SlideMaster => OFFICE_RELS + "slideMaster"
    case Theme => OFFICE_RELS + "theme"
    case Image => OFFICE_RELS + "image"
    case Chart => OFFICE_RELS + "chart"
    case CoreProperties => PACKAGE_RELS + "core-properties"
    case ExtendedProperties => OFFICE_RELS + "extended-properties"
    case Custom(u) => u
  }

  /**
   * `RelationshipType::from_uri` as written: substring tests in a fixed
   * order, "/officeDocument" before "core-properties" and
   * "extended-properties".
   */
  function FromUri(u: string): (t: RelationshipType)
    ensures t.Custom? ==> t.uri == u
    ensures Contains(u, "/slide") && !Contains(u, "Layout") && !Contains(u, "Master") ==> t == Slide
  {
    if Contains(u, "/slide") && !Contains(u, "Layout") && !Contains(u, "Master") then Slide
    else if Contains(u, "/slideLayout") then SlideLayout
    else if Contains(u, "/slideMaster") then SlideMaster
    else if Contains(u, "/theme") then Theme
    else if Contains(u, "/image") then Image
    else if Contains(u, "/chart") then Chart
    else if Contains(u, "/officeDocument") then OfficeDocument
    else if Contains(u, "core-properties") then CoreProperties
    else if Contains(u, "extended-properties") then ExtendedProperties
    else Custom(u)
  }

  /** The same tests with the two properties types tested before "/officeDocument". */
  function FromUriFixed(u: string): (t: RelationshipType)
    ensures t.Custom? ==> t.uri == u
    ensures Contains(u, "/slide") && !Contains(u, "Layout") && !Contains(u, "Master") ==> t == Slide
  {
    if Contains(u, "/slide") && !Contains(u, "Layout") && !Contains(u, "Master") then Slide
    else if Contains(u, "/slideLayout") then SlideLayout
    else if Contains(u, "/slideMaster") then SlideMaster
    else if Contains(u, "/theme") then Theme
    else if Contains(u, "/image") then Image
    else if Contains(u, "/chart") then Chart
    else if Contains(u, "core-properties") then CoreProperties
    else if Contains(u, "extended-properties") then ExtendedProperties
    else if Contains(u, "/officeDocument") then OfficeDocument
    else Custom(u)
  }

  /** A URI that none of the tests recognises. */
  predicate Unrecognised(u: string) {
    !Contains(u, "/slide") && !Contains(u, "/theme") && !Contains(u, "/image") && !Contains(u, "/chart")
    && !Contains(u, "/officeDocument") && !Contains(u, "core-properties") && !Contains(u, "extended-properties")
  }

  // Facts about the namespaces, one small literal at a time.

  /** The bigrams "sl", "th", "im", "ar" and "co" that tell the tested patterns apart. */
  predicate KeyBigram(x: char, y: char) {
    (x == 's' && y == 'l') || (x == 't' && y == 'h') || (x == 'i' && y == 'm') || (x == 'a' && y == 'r')
    || (x == 'c' && y == 'o')
  }

  lemma SchemasLacks(x: char, y: char)
    requires KeyBigram(x, y)
    ensures NoBigram(SCHEMAS, x, y)
  {
    if x == 's' {
      SchemasLacksSl();
    } else if x == 't' {
      SchemasLacksTh();
    } else if x == 'i' {
      SchemasLacksIm();
    } else if x == 'a' {
      SchemasLacksAr();
    } else {
      SchemasLacksCo();
    }
  }

  lemma SchemasLacksSl()
    ensures NoBigram(SCHEMAS, 's', 'l')
  {
  }

  lemma SchemasLacksTh()
    ensures NoBigram(SCHEMAS, 't', 'h')
  {
  }

  lemma SchemasLacksIm()
    ensures NoBigram(SCHEMAS, 'i', 'm')
  {
  }

  lemma SchemasLacksAr()
    ensures NoBigram(SCHEMAS, 'a', 'r')
  {
  }

  lemma SchemasLacksCo()
    ensures NoBigram(SCHEMAS, 'c', 'o')
  {
  }

  /** No '-' (of the property names) and no 'L' or 'M' (of slideLayout, slideMaster). */
  predicate NoMarkerChar(s: string) {
    '-' !in s && 'L' !in s && 'M' !in s
  }

  /** `NoMarkerChar`, stated position by position. */
  predicate NoMarkerAt(s: string) {
    forall i :: 0 <= i < |s| ==> s[i] != '-' && s[i] != 'L' && s[i] != 'M'
  }

  /** `PlainName`, stated position by position. */
  predicate PlainAt(s: string) {
    forall i :: 0 <= i < |s| ==> s[i] != '"' && s[i] != '\n' && s[i] != 'T'
  }

  lemma NoMarkerFromPositions(s: string)
    requires NoMarkerAt(s)
    ensures NoMarkerChar(s)
  {
  }

  lemma PlainFromPositions(s: string)
    requires PlainAt(s)
    ensures PlainName(s)
  {
  }

  lemma SchemasMarkerFree()
    ensures NoMarkerAt(SCHEMAS)
  {
  }

  lemma SchemasPlainAt()
    ensures PlainAt(SCHEMAS)
  {
  }

  lemma SchemasLacksD()
    ensures 'D' !in SCHEMAS
  {
  }

  lemma SchemasChars()
    ensures NoMarkerChar(SCHEMAS) && 'D' !in SCHEMAS
  {
    SchemasMarkerFree();
    NoMarkerFromPositions(SCHEMAS);
    SchemasLacksD();
  }

  lemma SchemasPlain()
    ensures PlainName(SCHEMAS)
  {
    SchemasPlainAt();
    PlainFromPositions(SCHEMAS);
  }

  lemma OfficePathLacks(x: char, y: char)
    requires KeyBigram(x, y)
    ensures NoBigram(OFFICE_RELS_PATH, x, y)
  {
    if x == 's' {
      OfficePathLacksSl();
    } else if x == 't' {
      OfficePathLacksTh();
    } else if x == 'i' {
      OfficePathLacksIm();
    } else if x == 'a' {
      OfficePathLacksAr();
    } else {
      OfficePathLacksCo();
    }
  }

  lemma OfficePathLacksSl()
    ensures NoBigram(OFFICE_RELS_PATH, 's', 'l')
  {
  }

  lemma OfficePathLacksTh()
    ensures NoBigram(OFFICE_RELS_PATH, 't', 'h')
  {
  }

  lemma OfficePathLacksIm()
    ensures NoBigram(OFFICE_RELS_PATH, 'i', 'm')
  {
  }

  lemma OfficePathLacksAr()
    ensures NoBigram(OFFICE_RELS_PATH, 'a', 'r')
  {
  }

  lemma OfficePathLacksCo()
    ensures NoBigram(OFFICE_RELS_PATH, 'c', 'o')
  {
  }

  lemma OfficePathMarkerFree()
    ensures NoMarkerAt(OFFICE_RELS_PATH)
  {
  }

  lemma OfficePathPlainAt()
    ensures PlainAt(OFFICE_RELS_PATH)
  {
  }

  lemma OfficePathChars()
    ensures NoMarkerChar(OFFICE_RELS_PATH)
  {
    OfficePathMarkerFree();
    NoMarkerFromPositions(OFFICE_RELS_PATH);
  }

  lemma OfficePathPlain()
    ensures PlainName(OFFICE_RELS_PATH)
  {
    OfficePathPlainAt();
    PlainFromPositions(OFFICE_RELS_PATH);
  }

  lemma PackagePathLacks(x: char, y: char)
    requires KeyBigram(x, y)
    ensures NoBigram(PACKAGE_RELS_PATH, x, y)
  {
    if x == 's' {
      PackagePathLacksSl();
    } else if x == 't' {
      PackagePathLacksTh();
    } else if x == 'i' {
      PackagePathLacksIm();
    } else if x == 'a' {
      PackagePathLacksAr();
    } else {
      PackagePathLacksCo();
    }
  }

  lemma PackagePathLacksSl()
    ensures NoBigram(PACKAGE_RELS_PATH, 's', 'l')
  {
  }

  lemma PackagePathLacksTh()
    ensures NoBigram(PACKAGE_RELS_PATH, 't', 'h')
  {
  }

  lemma PackagePathLacksIm()
    ensures NoBigram(PACKAGE_RELS_PATH, 'i', 'm')
  {
  }

  lemma PackagePathLacksAr()
    ensures NoBigram(PACKAGE_RELS_PATH, 'a', 'r')
  {
  }

  lemma PackagePathLacksCo()
    ensures NoBigram(PACKAGE_RELS_PATH, 'c', 'o')
  {
  }

  lemma PackagePathChars()
    ensures '-' !in PACKAGE_RELS_PATH && 'D' !in PACKAGE_RELS_PATH
  {
  }

  lemma PackagePathPlainAt()
    ensures PlainAt(PACKAGE_RELS_PATH)
  {
  }

  lemma PackagePathPlain()
    ensures PlainName(PACKAGE_RELS_PATH)
  {
    PackagePathPlainAt();
    PlainFromPositions(PACKAGE_RELS_PATH);
  }

  /** The officeDocument namespace followed by `name` has a key bigram only where `name` has it. */
  lemma OfficeUriLacks(name: string, x: char, y: char)
    requires KeyBigram(x, y) && NoBigram(name, x, y)
    ensures NoBigram(OFFICE_RELS + name, x, y)
  {
    SchemasLacks(x, y);
    OfficePathLacks(x, y);
    NoBigramConcat(SCHEMAS, OFFICE_RELS_PATH, x, y);
    NoBigramConcat(OFFICE_RELS, name, x, y);
  }

  lemma OfficeUriLacksChar(name: string, c: char)
    requires c == '-' || c == 'L' || c == 'M'
    requires c !in name
    ensures c !in OFFICE_RELS + name
  {
    SchemasChars();
    OfficePathChars();
  }

  /** A pattern holding a key bigram at `k` that `name` lacks is absent from its URI. */
  lemma OfficeUriLacksPattern(name: string, pat: string, k: nat)
    requires k + 1 < |pat| && KeyBigram(pat[k], pat[k + 1]) && NoBigram(name, pat[k], pat[k + 1])
    ensures !Contains(OFFICE_RELS + name, pat)
  {
    OfficeUriLacks(name, pat[k], pat[k + 1]);
    MissingBigramNotContained(OFFICE_RELS + name, pat, k);
  }

  /** `pat` occurs in the officeDocument namespace followed by `name` when "/" + `name` starts with it. */
  lemma OfficeUriHasPattern(name: string, pat: string)
    requires StartsWith("/" + name, pat)
    ensures Contains(OFFICE_RELS + name, pat)
  {
    var u := OFFICE_RELS + name;
    var k := |OFFICE_RELS| - 1;
    assert OFFICE_RELS[k] == '/' by {
      assert OFFICE_RELS_PATH[|OFFICE_RELS_PATH| - 1] == '/';
    }
    assert u[k..] == "/" + name;
    assert u[k..k + |pat|] == ("/" + name)[..|pat|];
    OccursContains(u, pat, k);
  }

  /** "/officeDocument" is part of the officeDocument namespace itself. */
  lemma OfficeUriHasOfficeDocument(name: string)
    ensures Contains(OFFICE_RELS + name, "/officeDocument")
  {
    var u := OFFICE_RELS + name;
    assert u == SCHEMAS + OFFICE_RELS_PATH + name;
    assert OFFICE_RELS_PATH[..15] == "/officeDocument";
    assert u[|SCHEMAS|..|SCHEMAS| + 15] == OFFICE_RELS_PATH[..15];
    OccursContains(u, "/officeDocument", |SCHEMAS|);
  }

  /** `name` occurs in its own URI, right after the namespace. */
  lemma UriHasName(ns: string, name: string)
    ensures Contains(ns + name, name)
  {
    assert (ns + name)[|ns|..|ns| + |name|] == name;
    OccursContains(ns + name, name, |ns|);
  }

  /** Without "/slide" neither "/slideLayout" nor "/slideMaster" occurs. */
  lemma NoSlideKinds(u: string)
    requires !Contains(u, "/slide")
    ensures !Contains(u, "/slideLayout") && !Contains(u, "/slideMaster")
  {
    if Contains(u, "/slideLayout") {
      assert "/slideLayout" == "/slide" + "Layout";
      PrefixContained(u, "/slide", "Layout");
    }
    if Contains(u, "/slideMaster") {
      assert "/slideMaster" == "/slide" + "Master";
      PrefixContained(u, "/slide", "Master");
    }
  }

  // ---------------------------------------------------------------------
  // Round trips, one type at a time (the name is a parameter so that the
  // verifier does not evaluate the tests on the literal URI)

  lemma OfficeDocumentName(x: char, y: char)
    requires KeyBigram(x, y)
    ensures NoBigram("officeDocument", x, y) && '-' !in "officeDocument"
  {
  }

  lemma OfficeDocumentRoundTrip(name: string)
    requires name == "officeDocument"
    ensures FromUri(OFFICE_RELS + name) == OfficeDocument && FromUriFixed(OFFICE_RELS + name) == OfficeDocument
  {
    OfficeDocumentLacksKinds(name);
    OfficeDocumentLacksProperties(name);
    OfficeUriHasOfficeDocument(name);
  }

  /** The officeDocument URI holds none of the slide, theme, image and chart patterns. */
  lemma OfficeDocumentLacksKinds(name: string)
    requires name == "officeDocument"
    ensures !Contains(OFFICE_RELS + name, "/slide") && !Contains(OFFICE_RELS + name, "/slideLayout")
    ensures !Contains(OFFICE_RELS + name, "/slideMaster") && !Contains(OFFICE_RELS + name, "/theme")
    ensures !Contains(OFFICE_RELS + name, "/image") && !Contains(OFFICE_RELS + name, "/chart")
  {
    OfficeDocumentName('s', 'l');
    OfficeDocumentName('t', 'h');
    OfficeDocumentName('i', 'm');
    OfficeDocumentName('a', 'r');
    OfficeUriLacksPattern(name, "/slide", 1);
    NoSlideKinds(OFFICE_RELS + name);
    OfficeUriLacksPattern(name, "/theme", 1);
    OfficeUriLacksPattern(name, "/image", 1);
    OfficeUriLacksPattern(name, "/chart", 3);
  }

  /** The officeDocument URI names neither properties type. */
  lemma OfficeDocumentLacksProperties(name: string)
    requires name == "officeDocument"
    ensures !Contains(OFFICE_RELS + name, "core-properties") && !Contains(OFFICE_RELS + name, "extended-properties")
  {
    OfficeDocumentName('c', 'o');
    OfficeUriLacksPattern(name, "core-properties", 0);
    OfficeUriLacksChar(name, '-');
    MissingCharNotContained(OFFICE_RELS + name, "extended-properties", 8);
  }

  lemma SlideName()
    ensures 'L' !in "slide" && 'M' !in "slide"
  {
  }

  lemma SlideRoundTrip(name: string)
    requires name == "slide"
    ensures FromUri(OFFICE_RELS + name) == Slide && FromUriFixed(OFFICE_RELS + name) == Slide
  {
    SlideName();
    OfficeUriHasPattern(name, "/slide");
    OfficeUriLacksChar(name, 'L');
    OfficeUriLacksChar(name, 'M');
    MissingCharNotContained(OFFICE_RELS + name, "Layout", 0);
    MissingCharNotContained(OFFICE_RELS + name, "Master", 0);
  }

  lemma SlideLayoutRoundTrip(name: string)
    requires name == "slideLayout"
    ensures FromUri(OFFICE_RELS + name) == SlideLayout && FromUriFixed(OFFICE_RELS + name) == SlideLayout
  {
    assert OFFICE_RELS + name == (OFFICE_RELS + "slide") + "Layout";
    UriHasName(OFFICE_RELS + "slide", "Layout");
    OfficeUriHasPattern(name, "/slideLayout");
  }

  lemma SlideMasterName()
    ensures 'L' !in "slideMaster"
  {
  }

  lemma SlideMasterRoundTrip(name: string)
    requires name == "slideMaster"
    ensures FromUri(OFFICE_RELS + name) == SlideMaster && FromUriFixed(OFFICE_RELS + name) == SlideMaster
  {
    SlideMasterUri(OFFICE_RELS + name, name);
  }

  /** The slide-master URI holds "Master" and "/slideMaster" but not "/slideLayout". */
  lemma SlideMasterUri(u: string, name: string)
    requires name == "slideMaster" && u == OFFICE_RELS + name
    ensures Contains(u, "Master") && !Contains(u, "/slideLayout") && Contains(u, "/slideMaster")
  {
    assert u == (OFFICE_RELS + "slide") + "Master";
    UriHasName(OFFICE_RELS + "slide", "Master");
    SlideMasterLacksLayout(u, name);
    SlideMasterHasPattern(name);
  }

  lemma SlideMasterLacksLayout(u: string, name: string)
    requires name == "slideMaster" && u == OFFICE_RELS + name
    ensures !Contains(u, "/slideLayout")
  {
    SlideMasterName();
    OfficeUriLacksChar(name, 'L');
    MissingCharNotContained(u, "/slideLayout", 6);
  }

  lemma SlideMasterHasPattern(name: string)
    requires name == "slideMaster"
    ensures Contains(OFFICE_RELS + name, "/slideMaster")
  {
    assert "/" + name == "/slideMaster";
    OfficeUriHasPattern(name, "/slideMaster");
  }

  lemma ThemeName()
    ensures NoBigram("theme", 's', 'l')
  {
  }

  lemma ThemeRoundTrip(name: string)
    requires name == "theme"
    ensures FromUri(OFFICE_RELS + name) == Theme && FromUriFixed(OFFICE_RELS + name) == Theme
  {
    ThemeName();
    OfficeUriLacksPattern(name, "/slide", 1);
    NoSlideKinds(OFFICE_RELS + name);
    OfficeUriHasPattern(name, "/theme");
  }

  lemma ImageName()
    ensures NoBigram("image", 's', 'l') && NoBigram("image", 't', 'h')
  {
  }

  lemma ImageRoundTrip(name: string)
    requires name == "image"
    ensures FromUri(OFFICE_RELS + name) == Image && FromUriFixed(OFFICE_RELS + name) == Image
  {
    ImageName();
    OfficeUriLacksPattern(name, "/slide", 1);
    NoSlideKinds(OFFICE_RELS + name);
    OfficeUriLacksPattern(name, "/theme", 1);
    OfficeUriHasPattern(name, "/image");
  }

  lemma ChartName()
    ensures NoBigram("chart", 's', 'l') && NoBigram("chart", 't', 'h') && NoBigram("chart", 'i', 'm')
  {
  }

  lemma ChartRoundTrip(name: string)
    requires name == "chart"
    ensures FromUri(OFFICE_RELS + name) == Chart && FromUriFixed(OFFICE_RELS + name) == Chart
  {
    ChartName();
    OfficeUriLacksPattern(name, "/slide", 1);
    NoSlideKinds(OFFICE_RELS + name);
    OfficeUriLacksPattern(name, "/theme", 1);
    OfficeUriLacksPattern(name, "/image", 1);
    OfficeUriHasPattern(name, "/chart");
  }

  lemma ExtendedName(x: char, y: char)
    requires KeyBigram(x, y)
    ensures NoBigram("extended-properties", x, y)
  {
  }

  /**
   * The ExtendedProperties URI lies in the officeDocument namespace, so the
   * code as written reads it back as OfficeDocument; the corrected order reads
   * it back as ExtendedProperties.
   */
  lemma ExtendedPropertiesRoundTrip(name: string)
    requires name == "extended-properties"
    ensures FromUri(OFFICE_RELS + name) == OfficeDocument
    ensures FromUriFixed(OFFICE_RELS + name) == ExtendedProperties
  {
    ExtendedName('s', 'l');
    ExtendedName('t', 'h');
    ExtendedName('i', 'm');
    ExtendedName('a', 'r');
    ExtendedName('c', 'o');
    OfficeUriLacksPattern(name, "/slide", 1);
    NoSlideKinds(OFFICE_RELS + name);
    OfficeUriLacksPattern(name, "/theme", 1);
    OfficeUriLacksPattern(name, "/image", 1);
    OfficeUriLacksPattern(name, "/chart", 3);
    OfficeUriLacksPattern(name, "core-properties", 0);
    OfficeUriHasOfficeDocument(name);
    UriHasName(OFFICE_RELS, name);
  }

  lemma CorePropertiesName(x: char, y: char)
    requires KeyBigram(x, y) && !(x == 'c' && y == 'o')
    ensures NoBigram("core-properties", x, y) && 'D' !in "core-properties"
  {
  }

  lemma PackageUriLacks(name: string, x: char, y: char)
    requires name == "core-properties"
    requires KeyBigram(x, y) && !(x == 'c' && y == 'o')
    ensures NoBigram(PACKAGE_RELS + name, x, y)
  {
    SchemasLacks(x, y);
    PackagePathLacks(x, y);
    NoBigramConcat(SCHEMAS, PACKAGE_RELS_PATH, x, y);
    CorePropertiesName(x, y);
    NoBigramConcat(PACKAGE_RELS, name, x, y);
  }

  lemma CorePropertiesRoundTrip(name: string)
    requires name == "core-properties"
    ensures FromUri(PACKAGE_RELS + name) == CoreProperties && FromUriFixed(PACKAGE_RELS + name) == CoreProperties
  {
    var u := PACKAGE_RELS + name;
    CorePropertiesLacksKinds(u, name);
    CorePropertiesLacksOffice(u, name);
    UriHasName(PACKAGE_RELS, name);
  }

  /** The core-properties URI holds none of the slide, theme, image and chart patterns. */
  lemma CorePropertiesLacksKinds(u: string, name: string)
    requires name == "core-properties" && u == PACKAGE_RELS + name
    ensures !Contains(u, "/slide") && !Contains(u, "/slideLayout") && !Contains(u, "/slideMaster")
    ensures !Contains(u, "/theme") && !Contains(u, "/image") && !Contains(u, "/chart")
  {
    PackageUriLacks(name, 's', 'l');
    PackageUriLacks(name, 't', 'h');
    PackageUriLacks(name, 'i', 'm');
    PackageUriLacks(name, 'a', 'r');
    MissingBigramNotContained(u, "/slide", 1);
    NoSlideKinds(u);
    MissingBigramNotContained(u, "/theme", 1);
    MissingBigramNotContained(u, "/image", 1);
    MissingBigramNotContained(u, "/chart", 3);
  }

  /** The core-properties URI lacks the 'D' of "/officeDocument". */
  lemma CorePropertiesLacksOffice(u: string, name: string)
    requires name == "core-properties" && u == PACKAGE_RELS + name
    ensures !Contains(u, "/officeDocument")
  {
    SchemasChars();
    PackagePathChars();
    CorePropertiesName('s', 'l');
    assert 'D' !in u;
    MissingCharNotContained(u, "/officeDocument", 7);
  }

  /** Every predefined type except ExtendedProperties survives `uri` then `from_uri`. */
  lemma UriRoundTrip(t: RelationshipType)
    requires !t.Custom? && t != ExtendedProperties
    ensures FromUri(Uri(t)) == t
  {
    match t
    case OfficeDocument => OfficeDocumentRoundTrip("officeDocument");
    case Slide => SlideRoundTrip("slide");
    case SlideLayout => SlideLayoutRoundTrip("slideLayout");
    case SlideMaster => SlideMasterRoundTrip("slideMaster");
    case Theme => ThemeRoundTrip("theme");
    case Image => ImageRoundTrip("image");
    case Chart => ChartRoundTrip("chart");
    case CoreProperties => CorePropertiesRoundTrip("core-properties");
  }

  /** With the corrected order every predefined type survives the round trip. */
  lemma UriRoundTripFixed(t: RelationshipType)
    requires !t.Custom?
    ensures FromUriFixed(Uri(t)) == t
  {
    match t
    case OfficeDocument => OfficeDocumentRoundTrip("officeDocument");
    case Slide => SlideRoundTrip("slide");
    case SlideLayout => SlideLayoutRoundTrip("slideLayout");
    case SlideMaster => SlideMasterRoundTrip("slideMaster");
    case Theme => ThemeRoundTrip("theme");
    case Image => ImageRoundTrip("image");
    case Chart => ChartRoundTrip("chart");
    case CoreProperties => CorePropertiesRoundTrip("core-properties");
    case ExtendedProperties => ExtendedPropertiesRoundTrip("extended-properties");
  }

  /**
   * A custom URI that no test recognises survives the round trip, and a URI
   * read back as Custom holds none of the patterns except possibly "/slide"
   * (next to a "Layout" or "Master" that is not part of "/slideLayout" or
   * "/slideMaster").
   */
  lemma CustomRoundTrip(u: string)
    ensures Unrecognised(u) ==> FromUri(Uri(Custom(u))) == Custom(u) && FromUriFixed(Uri(Custom(u))) == Custom(u)
    ensures FromUriFixed(u).Custom? ==>
              !Contains(u, "/theme") && !Contains(u, "/image") && !Contains(u, "/chart")
              && !Contains(u, "/officeDocument") && !Contains(u, "core-properties")
              && !Contains(u, "extended-properties")
  {
    if Unrecognised(u) {
      NoSlideKinds(u);
    }
  }

  /** The URI of a predefined type holds no double quote, no line break and no 'T'. */
  lemma PredefinedUriChars(t: RelationshipType)
    requires !t.Custom?
    ensures PlainName(Uri(t))
  {
    SchemasPlain();
    OfficePathPlain();
    PackagePathPlain();
    NamesPlain();
  }

  lemma NamesPlain()
    ensures PlainName("officeDocument") && PlainName("slide") && PlainName("slideLayout")
    ensures PlainName("slideMaster") && PlainName("theme") && PlainName("image") && PlainName("chart")
    ensures PlainName("core-properties") && PlainName("extended-properties")
  {
    SlideNamesPlain();
    ShortNamesPlain();
    OfficeDocumentPlain();
    CorePropertiesPlain();
    ExtendedPropertiesPlain();
  }

  lemma SlideNamesPlain()
    ensures PlainName("slide") && PlainName("slideLayout") && PlainName("slideMaster")
  {
  }

  lemma ShortNamesPlain()
    ensures PlainName("theme") && PlainName("image") && PlainName("chart")
  {
  }

  lemma OfficeDocumentPlain()
    ensures PlainName("officeDocument")
  {
  }

  lemma CorePropertiesPlain()
    ensures PlainName("core-properties")
  {
  }

  lemma ExtendedPropertiesPlain()
    ensures PlainName("extended-properties")
  {
  }
  /** A type name without a double quote, a line break or a 'T'. */
  predicate PlainName(name: string) {
    '"' !in name && '\n' !in name && 'T' !in name
  }

  // ---------------------------------------------------------------------
  // One relationship and its XML element

  datatype Relationship = Relationship(id: string, relType: RelationshipType, target: string)

  /** `Relationship::to_xml`. */
  function RelXml(r: Relationship): string {
    "<Relationship " + Attr("Id", r.id) + " " + Attr("Type", Uri(r.relType)) + " " + Attr("Target", r.target) + "/>"
  }

  /**
   * The three attributes of a generated element, indented or not, read back
   * with `extract_attribute`, as the repair engine reads relationship lines.
   * Values must not hold a double quote; the id and the type URI must not hold
   * a 'T', which would let "Type=" or "Target=" start early.
   */
  lemma RelXmlReadBack(line: string, ind: string, r: Relationship)
    requires line == ind + RelXml(r)
    requires '"' !in ind && 'T' !in ind
    requires '"' !in r.id && 'T' !in r.id
    requires '"' !in Uri(r.relType) && 'T' !in Uri(r.relType)
    requires '"' !in r.target
    ensures ExtractAttribute(line, "Id") == Some(r.id)
    ensures ExtractAttribute(line, "Type") == Some(Uri(r.relType))
    ensures ExtractAttribute(line, "Target") == Some(r.target)
  {
    ReadBackId(line, ind, r);
    ReadBackType(line, ind, r);
    ReadBackTarget(line, ind, r);
  }

  lemma ReadBackId(line: string, ind: string, r: Relationship)
    requires line == ind + RelXml(r)
    requires '"' !in ind && '"' !in r.id
    ensures ExtractAttribute(line, "Id") == Some(r.id)
  {
    var open, sp, close := "<Relationship ", " ", "/>";
    var a1, a2, a3 := Attr("Id", r.id), Attr("Type", Uri(r.relType)), Attr("Target", r.target);
    var pre, post := ind + open, sp + a2 + sp + a3 + close;
    ElementRegroup(line, ind, open, a1, sp, a2, a3, close);
    assert '"' !in open && '"' !in "Id" + "=";
    MissingCharNotContained(pre + "Id" + "=", "Id" + "=\"", 3);
    ExtractAttributeWritten(line, pre, "Id", r.id, post);
  }

  lemma ReadBackType(line: string, ind: string, r: Relationship)
    requires line == ind + RelXml(r)
    requires 'T' !in ind && 'T' !in r.id && '"' !in Uri(r.relType)
    ensures ExtractAttribute(line, "Type") == Some(Uri(r.relType))
  {
    var open, sp, close := "<Relationship ", " ", "/>";
    var a1, a2, a3 := Attr("Id", r.id), Attr("Type", Uri(r.relType)), Attr("Target", r.target);
    var pre, post := ind + open + a1 + sp, sp + a3 + close;
    ElementRegroup(line, ind, open, a1, sp, a2, a3, close);
    assert 'T' !in open && 'T' !in a1 && 'T' !in sp;
    assert 'T' !in pre;
    FirstCharAbsentConcat(pre, "Type" + "=", "Type" + "=\"");
    assert pre + ("Type" + "=") == pre + "Type" + "=";
    ExtractAttributeWritten(line, pre, "Type", Uri(r.relType), post);
  }

  lemma ReadBackTarget(line: string, ind: string, r: Relationship)
    requires line == ind + RelXml(r)
    requires 'T' !in ind && 'T' !in r.id && 'T' !in Uri(r.relType) && '"' !in r.target
    ensures ExtractAttribute(line, "Target") == Some(r.target)
  {
    var open, sp, close := "<Relationship ", " ", "/>";
    var a1, a2, a3 := Attr("Id", r.id), Attr("Type", Uri(r.relType)), Attr("Target", r.target);
    var p1 := ind + open + a1 + sp;
    ElementRegroup(line, ind, open, a1, sp, a2, a3, close);
    TargetFirst(ind, r, p1, a2);
    ExtractAttributeWritten(line, p1 + a2 + sp, "Target", r.target, close);
  }

  /** Nothing before the Target attribute of an element reads as `Target="`. */
  lemma TargetFirst(ind: string, r: Relationship, p1: string, a2: string)
    requires 'T' !in ind && 'T' !in r.id && 'T' !in Uri(r.relType)
    requires p1 == ind + "<Relationship " + Attr("Id", r.id) + " " && a2 == Attr("Type", Uri(r.relType))
    ensures !Contains(p1 + a2 + " " + "Target" + "=", "Target" + "=\"")
  {
    var sp := " ";
    var x := a2[1..] + sp;
    AttrLacks('T', "Id", r.id);
    assert 'T' !in "<Relationship " && 'T' !in sp;
    assert 'T' !in p1;
    TypeAttrTail(Uri(r.relType), a2, x);
    var name, eq, pat := "Target", "Target" + "=", "Target" + "=\"";
    FirstCharAbsentConcat(x, eq, pat);
    SecondCharMismatch('T', x + eq, pat);
    FirstCharAbsentConcat(p1, ['T'] + (x + eq), pat);
    TargetRegroup(p1, a2, sp, name, eq);
  }

  /** The indented element seen around each of its three attributes. */
  lemma ElementRegroup(line: string, ind: string, open: string, a1: string, sp: string, a2: string, a3: string, close: string)
    requires line == ind + (open + a1 + sp + a2 + sp + a3 + close)
    ensures line == (ind + open) + a1 + (sp + a2 + sp + a3 + close)
    ensures line == (ind + open + a1 + sp) + a2 + (sp + a3 + close)
    ensures line == (ind + open + a1 + sp + a2 + sp) + a3 + close
  {
  }

  lemma TargetRegroup(p1: string, a2: string, sp: string, name: string, eq: string)
    requires |a2| > 0 && eq == name + "="
    ensures p1 + a2 + sp + name + "=" == p1 + ([a2[0]] + ((a2[1..] + sp) + eq))
  {
    assert a2 == [a2[0]] + a2[1..];
  }

  /** After its leading 'T', a type attribute holds no 'T' and starts with 'y'. */
  lemma TypeAttrTail(uri: string, a2: string, x: string)
    requires a2 == Attr("Type", uri) && 'T' !in uri && x == a2[1..] + " "
    ensures a2 == ['T'] + a2[1..] && 'T' !in x && x[0] == 'y'
  {
    assert a2 == "Type" + ("=\"" + uri + "\"");
  }

  // ---------------------------------------------------------------------
  // The relationship list

  /** The number in an id of the form "rId<u32>", as `add_with_id` reads it. */
  function RelIdNumber(id: string): (r: Option<nat>)
    ensures r.Some? ==> r.value < U32_LIMIT
  {
    if StartsWith(id, "rId") then ParseU32(id[3..]) else None
  }

  lemma RelIdNumberOf(n: nat)
    requires n < U32_LIMIT
    ensures RelIdNumber("rId" + NatToString(n)) == Some(n)
  {
    var id := "rId" + NatToString(n);
    assert id[..3] == "rId" && id[3..] == NatToString(n);
    ParseU32Format(n);
  }

  /** Either `id` has no number, or its number is below `bound`. */
  predicate IdBelow(id: string, bound: nat) {
    match RelIdNumber(id)
    case None => true
    case Some(k) => k < bound
  }

  /** The first index holding a relationship with the given id. */
  function IndexOfId(rs: seq<Relationship>, id: string): (r: Option<nat>)
    ensures r.Some? ==> r.value < |rs| && rs[r.value].id == id
    ensures r.Some? ==> forall j :: 0 <= j < r.value ==> rs[j].id != id
    ensures r.None? ==> forall j :: 0 <= j < |rs| ==> rs[j].id != id
  {
    if rs == [] then None
    else if rs[0].id == id then Some(0)
    else match IndexOfId(rs[1..], id)
      case None => None
      case Some(k) => Some(k + 1)
  }

  /** The relationships of one type, in stored order. */
  function OfType(rs: seq<Relationship>, t: RelationshipType): (r: seq<Relationship>)
    ensures forall x :: x in r <==> x in rs && x.relType == t
    ensures |r| <= |rs|
  {
    if rs == [] then []
    else if rs[|rs| - 1].relType == t then OfType(rs[..|rs| - 1], t) + [rs[|rs| - 1]]
    else OfType(rs[..|rs| - 1], t)
  }

  /** Each relationship of the type occurs as often as it is stored; no other occurs. */
  lemma {:induction false} OfTypeCounts(rs: seq<Relationship>, t: RelationshipType)
    ensures forall x :: multiset(OfType(rs, t))[x] == if x.relType == t then multiset(rs)[x] else 0
  {
    if rs != [] {
      var init := rs[..|rs| - 1];
      assert rs == init + [rs[|rs| - 1]];
      OfTypeCounts(init, t);
    }
  }

  /**
   * Selecting by type distributes over concatenation: the relationships of
   * the type keep their stored order, each one where it was stored.
   */
  lemma {:induction false} OfTypeConcat(a: seq<Relationship>, b: seq<Relationship>, t: RelationshipType)
    ensures OfType(a + b, t) == OfType(a, t) + OfType(b, t)
    decreases |b|
  {
    if b == [] {
      assert a + b == a;
      assert OfType(b, t) == [];
    } else {
      var init := b[..|b| - 1];
      var last := b[|b| - 1];
      var tail := if last.relType == t then [last] else [];
      assert b == init + [last];
      assert a + b == (a + init) + [last];
      calc {
        OfType(a + b, t);
        { OfTypeAppend(a + init, last, t); }
        OfType(a + init, t) + tail;
        { OfTypeConcat(a, init, t); }
        OfType(a, t) + OfType(init, t) + tail;
        { OfTypeAppend(init, last, t); }
        OfType(a, t) + OfType(b, t);
      }
    }
  }

  /** Adding a relationship adds it at the end of its type's list and nowhere else. */
  lemma OfTypeAppend(rs: seq<Relationship>, x: Relationship, t: RelationshipType)
    ensures OfType(rs + [x], t) == OfType(rs, t) + (if x.relType == t then [x] else [])
  {
    assert (rs + [x])[..|rs|] == rs;
  }

  /** The header line pair of `Relationships::to_xml`. */
  const RELS_OPEN: string := "<Relationships xmlns=\"" + SCHEMAS + "/package/2006/relationships\">"
  const RELS_CLOSE: string := "</Relationships>"

  /** The element lines: four spaces and the element, per relationship. */
  /** The indentation `to_xml` puts after each line break before an element. */
  const INDENT := "    "

  function ElementLines(rs: seq<Relationship>): (ls: seq<string>)
    ensures |ls| == |rs|
  {
    if rs == [] then [] else ElementLines(rs[..|rs| - 1]) + [INDENT + RelXml(rs[|rs| - 1])]
  }

  lemma ElementLinesPrefix(rs: seq<Relationship>, i: nat)
    requires i < |rs|
    ensures BrokenLines(ElementLines(rs[..i + 1])) == BrokenLines(ElementLines(rs[..i])) + "\n" + (INDENT + RelXml(rs[i]))
  {
    assert rs[..i + 1][..i] == rs[..i];
    var ls := ElementLines(rs[..i]);
    var e := INDENT + RelXml(rs[i]);
    assert (ls + [e])[..|ls|] == ls;
  }

  /** The document `to_xml` writes for a list of relationships. */
  function RelsXml(rs: seq<Relationship>): string {
    Document(XML_DECL, RELS_OPEN, ElementLines(rs), RELS_CLOSE)
  }

  class Relationships {
    var rels: seq<Relationship>
    var nextId: nat

    /** `next_id` is a u32 that no numbered id has reached. */
    ghost predicate Valid()
      reads this
    {
      nextId < U32_LIMIT && forall i :: 0 <= i < |rels| ==> IdBelow(rels[i].id, nextId)
    }

    /** `Relationships::new`. */
    constructor()
      ensures rels == [] && nextId == 1 && Valid()
    {
      rels := [];
      nextId := 1;
    }

    /**
     * `add`: the id is "rId" and the counter, which then goes up by one; the
     * id is fresh among those already stored.  The requires rules out the
     * overflow of the u32 counter, which panics.
     */
    method Add(t: RelationshipType, target: string) returns (id: string)
      requires nextId + 1 < U32_LIMIT
      modifies this
      ensures id == "rId" + NatToString(old(nextId)) && nextId == old(nextId) + 1
      ensures rels == old(rels) + [Relationship(id, t, target)]
      ensures old(Valid()) ==> Valid()
      ensures old(Valid()) ==> forall i :: 0 <= i < |old(rels)| ==> old(rels)[i].id != id
    {
      id := "rId" + NatToString(nextId);
      RelIdNumberOf(nextId);
      nextId := nextId + 1;
      rels := rels + [Relationship(id, t, target)];
    }

    /**
     * `add_with_id`: append, and raise the counter past the id's number when
     * the id is "rId<u32>".  The requires rules out the overflow of `num + 1`.
     */
    method AddWithId(id: string, t: RelationshipType, target: string)
      requires RelIdNumber(id) != Some(U32_LIMIT - 1)
      modifies this
      ensures rels == old(rels) + [Relationship(id, t, target)]
      ensures nextId == match RelIdNumber(id)
                        case Some(n) => if n >= old(nextId) then n + 1 else old(nextId)
                        case None => old(nextId)
      ensures old(Valid()) ==> Valid()
    {
      rels := rels + [Relationship(id, t, target)];
      match RelIdNumber(id)
      case Some(n) =>
        if n >= nextId {
          nextId := n + 1;
        }
      case None =>
    }

    /** `get`: the first relationship with that id. */
    function Get(id: string): (r: Option<Relationship>)
      reads this
      ensures r.Some? ==> r.value in rels && r.value.id == id
      ensures r.Some? ==> exists k :: 0 <= k < |rels| && rels[k] == r.value &&
                            forall j :: 0 <= j < k ==> rels[j].id != id
      ensures r.None? ==> forall x :: x in rels ==> x.id != id
    {
      match IndexOfId(rels, id)
      case None => None
      case Some(k) => Some(rels[k])
    }

    /** `get_by_type`: every relationship of that type, in stored order. */
    function GetByType(t: RelationshipType): (r: seq<Relationship>)
      reads this
      ensures forall x :: x in r <==> x in rels && x.relType == t
      ensures forall x :: multiset(r)[x] == if x.relType == t then multiset(rels)[x] else 0
      ensures r == OfType(rels, t)
    {
      OfTypeCounts(rels, t);
      OfType(rels, t)
    }

    function Len(): (n: nat)
      reads this
      ensures n == |rels|
    {
      |rels|
    }

    /** `to_xml`: the header, one line per relationship in order, the closing tag. */
    method ToXml() returns (xml: string)
      ensures xml == RelsXml(rels)
    {
      var head := XML_DECL + "\n" + RELS_OPEN;
      xml := head;
      var i := 0;
      assert rels[..0] == [];
      while i < |rels|
        invariant 0 <= i <= |rels|
        invariant xml == head + BrokenLines(ElementLines(rels[..i]))
      {
        ElementLinesPrefix(rels, i);
        var line := RelXml(rels[i]);
        AppendIndented(xml, head, BrokenLines(ElementLines(rels[..i])), INDENT, line);
        xml := xml + "\n" + INDENT + line;
        i := i + 1;
      }
      assert rels[..i] == rels;
      xml := xml + "\n" + RELS_CLOSE;
      DocumentShape(XML_DECL, RELS_OPEN, ElementLines(rels), RELS_CLOSE);
    }
  }

  /** Two `add` calls on a new list give "rId1" and "rId2". */
  method AddTwice() returns (id1: string, id2: string)
    ensures id1 == "rId1" && id2 == "rId2"
  {
    var rs := new Relationships();
    id1 := rs.Add(Slide, "slides/slide1.xml");
    id2 := rs.Add(Slide, "slides/slide2.xml");
  }

  // ---------------------------------------------------------------------
  // The lines of the generated document

  /**
   * No relationship field holds a line break (the predefined type URIs never
   * do, see `PredefinedUriChars`).
   */
  predicate OneLine(r: Relationship) {
    '\n' !in r.id && '\n' !in r.target && (r.relType.Custom? ==> '\n' !in r.relType.uri)
  }

  lemma ElementEndsPlain(r: Relationship)
    requires OneLine(r)
    ensures PlainLine(INDENT + RelXml(r))
  {
    var open, sp, close := "<Relationship ", " ", "/>";
    ElementPiecesPlain(INDENT, open, sp, close);
    if !r.relType.Custom? {
      PredefinedUriChars(r.relType);
    }
    AttrLacks('\n', "Id", r.id);
    AttrLacks('\n', "Type", Uri(r.relType));
    AttrLacks('\n', "Target", r.target);
    PlainElement(INDENT + RelXml(r), INDENT, open, Attr("Id", r.id), sp, Attr("Type", Uri(r.relType)), Attr("Target", r.target), close);
  }

  /** The fixed pieces of an element line hold no line break. */
  lemma ElementPiecesPlain(ind: string, open: string, sp: string, close: string)
    requires ind == INDENT && open == "<Relationship " && sp == " " && close == "/>"
    ensures '\n' !in ind && '\n' !in open && '\n' !in sp && PlainLine(close) && close != []
  {
  }

  /** An element line assembled from line-free pieces is a plain line. */
  lemma PlainElement(line: string, ind: string, open: string, a1: string, sp: string, a2: string, a3: string, close: string)
    requires line == ind + (open + a1 + sp + a2 + sp + a3 + close)
    requires '\n' !in ind && '\n' !in open && '\n' !in a1 && '\n' !in sp && '\n' !in a2 && '\n' !in a3
    requires PlainLine(close) && close != []
    ensures PlainLine(line)
  {
    ElementRegroup(line, ind, open, a1, sp, a2, a3, close);
    var body := ind + open + a1 + sp + a2 + sp + a3;
    assert line == body + close;
    assert line[|line| - 1] == close[|close| - 1];
  }

  lemma {:induction false} ElementLinesAt(rs: seq<Relationship>, i: nat)
    requires i < |rs|
    ensures ElementLines(rs)[i] == INDENT + RelXml(rs[i])
    decreases |rs|
  {
    if i < |rs| - 1 {
      ElementLinesAt(rs[..|rs| - 1], i);
    }
  }

  lemma ElementLinesPlain(rs: seq<Relationship>)
    requires forall i :: 0 <= i < |rs| ==> OneLine(rs[i])
    ensures AllPlain(ElementLines(rs))
  {
    forall i | 0 <= i < |rs| ensures PlainLine(ElementLines(rs)[i]) {
      ElementLinesAt(rs, i);
      ElementEndsPlain(rs[i]);
    }
  }

  /**
   * `to_xml` writes the declaration, the opening tag, one line per relationship
   * in stored order and the closing tag, each on a line of its own.
   */
  lemma RelsXmlLines(rs: seq<Relationship>)
    requires forall i :: 0 <= i < |rs| ==> OneLine(rs[i])
    ensures Lines(RelsXml(rs)) == [XML_DECL, RELS_OPEN] + ElementLines(rs) + [RELS_CLOSE]
  {
    DeclAndOpenPlain();
    ElementLinesPlain(rs);
    LinesOfDocument(XML_DECL, RELS_OPEN, ElementLines(rs), RELS_CLOSE);
  }

  lemma DeclAndOpenPlain()
    ensures PlainFrame(XML_DECL, RELS_OPEN, RELS_CLOSE)
  {
    DeclPlainLine();
    OpenPlainLine();
    ClosePlainLine();
  }

  lemma DeclPlainLine()
    ensures PlainLine(XML_DECL)
  {
  }

  lemma OpenPlainLine()
    ensures PlainLine(RELS_OPEN)
  {
    SchemasPlain();
  }

  lemma ClosePlainLine()
    ensures PlainLine(RELS_CLOSE) && RELS_CLOSE != []
  {
  }

  /** No frame line of a relationships part holds a "Ta", so none names an attribute "Target". */
  lemma DeclLacksTa()
    ensures NoBigram(XML_DECL, 'T', 'a')
  {
  }

  lemma OpenCloseLackT()
    ensures 'T' !in RELS_OPEN && 'T' !in RELS_CLOSE
  {
    SchemasPlain();
  }
}

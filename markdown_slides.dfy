/**
 * Markdown to slides (`FromMarkdownCommand::parse_markdown`, src/cli/commands.rs):
 * "# " lines open slides, "- ", "* " and "+ " lines add bullets, and every other
 * line is skipped.
 */
module MarkdownSlides {
  import opened Wrappers
  import opened Strings
  import GeneratorXml

  type SlideContent = GeneratorXml.SlideContent

  /** What a line is, once trimmed. */
  datatype LineKind = Heading(title: string) | Bullet(text: string) | Other

  predicate IsBulletMarker(t: string) {
    StartsWith(t, "- ") || StartsWith(t, "* ") || StartsWith(t, "+ ")
  }

  /** A trimmed line starting with "# " is a heading, one starting with a bullet marker a bullet; the rest is trimmed text. */
  function Classify(line: string): (k: LineKind)
    ensures k.Heading? <==> StartsWith(Trim(line), "# ")
    ensures k.Bullet? <==> !StartsWith(Trim(line), "# ") && IsBulletMarker(Trim(line))
    ensures k.Heading? ==> |k.title| <= |line|
    ensures k.Bullet? ==> |k.text| <= |line|
  {
    var t := Trim(line);
    if StartsWith(t, "# ") then Heading(Trim(t[2..]))
    else if IsBulletMarker(t) then Bullet(Trim(t[2..]))
    else Other
  }

  /** A bullet line with text after the marker: the only kind that adds a bullet. */
  predicate IsContent(line: string) {
    Classify(line).Bullet? && Classify(line).text != []
  }

  // ---------------------------------------------------------------------
  // The parse as a fold over the lines
  // ---------------------------------------------------------------------

  /** The slides pushed so far and the slide being filled. */
  datatype ParseState = ParseState(slides: seq<SlideContent>, current: Option<SlideContent>)

  /** The slides with the open one pushed. */
  function Flush(st: ParseState): (ss: seq<SlideContent>)
    ensures |ss| == |st.slides| + (if st.current.Some? then 1 else 0)
  {
    if st.current.Some? then st.slides + [st.current.value] else st.slides
  }

  /** One pass of the loop body. */
  function Step(st: ParseState, line: string): ParseState {
    match Classify(line)
    case Heading(t) => ParseState(Flush(st), Some(GeneratorXml.NewSlideContent(t)))
    case Bullet(b) =>
      if b == [] then st
      else if st.current.Some? then st.(current := Some(GeneratorXml.AddBullet(st.current.value, b)))
      else st.(current := Some(GeneratorXml.AddBullet(GeneratorXml.NewSlideContent("Slide"), b)))
    case Other => st
  }

  function Fold(ls: seq<string>): ParseState {
    if ls == [] then ParseState([], None) else Step(Fold(ls[..|ls| - 1]), ls[|ls| - 1])
  }

  /** What `parse_markdown` returns. */
  function ParseMarkdown(content: string): seq<SlideContent> {
    Flush(Fold(Lines(content)))
  }

  /** `parse_markdown`: the loop over `lines()`, then the last slide pushed; it never fails. */
  method ParseMarkdownLoop(content: string) returns (r: Result<seq<SlideContent>>)
    ensures r == Ok(ParseMarkdown(content))
  {
    var lines := Lines(content);
    var slides: seq<SlideContent> := [];
    var current: Option<SlideContent> := None;
    for i := 0 to |lines|
      invariant ParseState(slides, current) == Fold(lines[..i])
    {
      assert lines[..i + 1][..i] == lines[..i];
      var trimmed := Trim(lines[i]);
      if StartsWith(trimmed, "# ") {
        if current.Some? {
          slides := slides + [current.value];
        }
        current := Some(GeneratorXml.NewSlideContent(Trim(trimmed[2..])));
      } else if IsBulletMarker(trimmed) {
        var bullet := Trim(trimmed[2..]);
        if current.Some? {
          if bullet != [] {
            current := Some(GeneratorXml.AddBullet(current.value, bullet));
          }
        } else if bullet != [] {
          current := Some(GeneratorXml.AddBullet(GeneratorXml.NewSlideContent("Slide"), bullet));
        }
      }
    }
    assert lines[..|lines|] == lines;
    if current.Some? {
      slides := slides + [current.value];
    }
    r := Ok(slides);
  }

  // ---------------------------------------------------------------------
  // What the lines decide
  // ---------------------------------------------------------------------

  /** The titles of the heading lines, in order. */
  function HeadingTitles(ls: seq<string>): seq<string> {
    if ls == [] then []
    else HeadingTitles(ls[..|ls| - 1])
         + (if Classify(ls[|ls| - 1]).Heading? then [Classify(ls[|ls| - 1]).title] else [])
  }

  /** The texts of the bullet lines that add a bullet, in order. */
  function BulletTexts(ls: seq<string>): seq<string> {
    if ls == [] then []
    else BulletTexts(ls[..|ls| - 1]) + (if IsContent(ls[|ls| - 1]) then [Classify(ls[|ls| - 1]).text] else [])
  }

  /** A bullet with text comes before every heading. */
  predicate LeadingBullet(ls: seq<string>) {
    ls != [] && (LeadingBullet(ls[..|ls| - 1]) || (HeadingTitles(ls[..|ls| - 1]) == [] && IsContent(ls[|ls| - 1])))
  }

  /** The slides' titles, in order. */
  function Titles(ss: seq<SlideContent>): (ts: seq<string>)
    ensures |ts| == |ss|
  {
    if ss == [] then [] else Titles(ss[..|ss| - 1]) + [ss[|ss| - 1].title]
  }

  /** The slides' bullets, slide after slide. */
  function AllBullets(ss: seq<SlideContent>): seq<string> {
    if ss == [] then [] else AllBullets(ss[..|ss| - 1]) + ss[|ss| - 1].content
  }

  lemma PushSlide(ss: seq<SlideContent>, s: SlideContent)
    ensures Titles(ss + [s]) == Titles(ss) + [s.title]
    ensures AllBullets(ss + [s]) == AllBullets(ss) + s.content
  {
    assert (ss + [s])[..|ss|] == ss;
  }

  /**
   * A state accounts for a summary of the lines read: a leading bullet, the
   * heading titles and the bullet texts. A slide is open exactly when one has
   * been started.
   */
  predicate Holds(st: ParseState, lead: bool, heads: seq<string>, bullets: seq<string>) {
    && Titles(Flush(st)) == (if lead then ["Slide"] else []) + heads
    && AllBullets(Flush(st)) == bullets
    && (st.current.None? <==> heads == [] && !lead)
  }

  /** The loop's invariant: the state accounts for the summary of the lines read. */
  predicate Accounted(ls: seq<string>, st: ParseState) {
    Holds(st, LeadingBullet(ls), HeadingTitles(ls), BulletTexts(ls))
  }

  lemma {:induction false} FoldAccounted(ls: seq<string>)
    ensures Accounted(ls, Fold(ls))
  {
    if ls != [] {
      var init, line := ls[..|ls| - 1], ls[|ls| - 1];
      FoldAccounted(init);
      StepAccounted(init, line, Fold(init));
      assert init + [line] == ls;
    }
  }

  /** The three line summaries of `init + [line]`, one line further. */
  lemma Unfold(init: seq<string>, line: string)
    ensures HeadingTitles(init + [line])
            == HeadingTitles(init) + (if Classify(line).Heading? then [Classify(line).title] else [])
    ensures BulletTexts(init + [line]) == BulletTexts(init) + (if IsContent(line) then [Classify(line).text] else [])
    ensures LeadingBullet(init + [line]) == (LeadingBullet(init) || (HeadingTitles(init) == [] && IsContent(line)))
  {
    var ls := init + [line];
    assert ls[..|ls| - 1] == init && ls[|ls| - 1] == line;
  }

  lemma StepAccounted(init: seq<string>, line: string, st: ParseState)
    requires Accounted(init, st)
    ensures Accounted(init + [line], Step(st, line))
  {
    Unfold(init, line);
    var k := Classify(line);
    var lead, heads, bullets := LeadingBullet(init), HeadingTitles(init), BulletTexts(init);
    if k.Heading? {
      assert Step(st, line) == ParseState(Flush(st), Some(GeneratorXml.NewSlideContent(k.title)));
      HeadingHolds(st, k.title, lead, heads, bullets);
    } else if IsContent(line) {
      assert Step(st, line) == OpenWith(st, k.text);
      ContentHolds(st, k.text, lead, heads, bullets);
    } else {
      assert Step(st, line) == st;
    }
  }

  /** The state after a bullet with text: added to the open slide, or to a new "Slide". */
  function OpenWith(st: ParseState, b: string): ParseState {
    var c := if st.current.Some? then st.current.value else GeneratorXml.NewSlideContent("Slide");
    st.(current := Some(GeneratorXml.AddBullet(c, b)))
  }

  lemma HeadingHolds(st: ParseState, t: string, lead: bool, heads: seq<string>, bullets: seq<string>)
    requires Holds(st, lead, heads, bullets)
    ensures Holds(ParseState(Flush(st), Some(GeneratorXml.NewSlideContent(t))), lead, heads + [t], bullets)
  {
    var c := GeneratorXml.NewSlideContent(t);
    PushSlide(Flush(st), c);
    assert Flush(ParseState(Flush(st), Some(c))) == Flush(st) + [c];
  }

  lemma ContentHolds(st: ParseState, b: string, lead: bool, heads: seq<string>, bullets: seq<string>)
    requires Holds(st, lead, heads, bullets)
    ensures Holds(OpenWith(st, b), lead || heads == [], heads, bullets + [b])
  {
    var c := if st.current.Some? then st.current.value else GeneratorXml.NewSlideContent("Slide");
    var c' := GeneratorXml.AddBullet(c, b);
    PushSlide(st.slides, c);
    PushSlide(st.slides, c');
    assert Flush(OpenWith(st, b)) == st.slides + [c'];
  }

  /**
   * The slides are one per heading, in order, preceded by one titled "Slide"
   * when a bullet comes before every heading; their bullets are the bullet
   * lines with text, in order.
   */
  lemma ParseMarkdownMeaning(content: string)
    ensures var ls, ss := Lines(content), ParseMarkdown(content);
            && |ss| == |HeadingTitles(ls)| + (if LeadingBullet(ls) then 1 else 0)
            && Titles(ss) == (if LeadingBullet(ls) then ["Slide"] else []) + HeadingTitles(ls)
            && AllBullets(ss) == BulletTexts(ls)
  {
    FoldAccounted(Lines(content));
  }

  /** When the first line is a heading, no bullet precedes every heading. */
  lemma {:induction false} HeadingFirst(ls: seq<string>)
    requires ls != [] && Classify(ls[0]).Heading?
    ensures HeadingTitles(ls) != [] && !LeadingBullet(ls)
  {
    var init := ls[..|ls| - 1];
    if init != [] {
      assert init[0] == ls[0];
      HeadingFirst(init);
    } else {
      assert ls == [ls[0]];
    }
  }

  /** A text whose first line is a heading gives exactly one slide per heading. */
  lemma SlidesPerHeading(content: string)
    requires Lines(content) != [] && Classify(Lines(content)[0]).Heading?
    ensures |ParseMarkdown(content)| == |HeadingTitles(Lines(content))|
    ensures Titles(ParseMarkdown(content)) == HeadingTitles(Lines(content))
  {
    HeadingFirst(Lines(content));
    ParseMarkdownMeaning(content);
  }

  /** Lines that are neither headings nor bullets with text leave the state as it is. */
  lemma SkippedLines(st: ParseState, line: string)
    requires !Classify(line).Heading? && !IsContent(line)
    ensures Step(st, line) == st
  {
  }

  /** A heading pushes the open slide and opens a new one with the default sizes. */
  lemma HeadingOpensSlide(st: ParseState, line: string)
    requires Classify(line).Heading?
    ensures Step(st, line).slides == Flush(st)
    ensures Step(st, line).current == Some(GeneratorXml.NewSlideContent(Classify(line).title))
  {
  }
}

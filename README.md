# pptx-rs core, modelled in Dafny

This project models the core of the pptx-rs crate, which reads, writes,
edits and repairs PowerPoint (`.pptx`) packages and turns Markdown and
Mermaid text into slides. Each part takes the form its Rust code has:
- Values and pure helpers become datatypes, functions and lemmas.
- Objects whose fields the code updates become classes.
- Loops become methods, proved against the functions that specify them.

- **Package integrity and repair** (`src/oxml/repair.rs`). `PptxRepair` holds a
  package of parts and the issues its last validation found.
  - `validate` runs five checks in a fixed order: required parts, XML
    content, relationship targets, slide references, content-type coverage.
  - `repair` validates, attempts every repairable issue, and validates again.
  - Each repair is a text edit of one or two parts, or a generated
    boilerplate part.
  - Lemmas state which issues each check reports (both directions), that
    each repair removes the issue its check reported, that `repair` records
    every issue once, and that repairs keep a well-formed package
    well-formed.
- **Relationships** (`src/parts/relationships.rs`). The relationship types and
  their URIs, and the `Relationships` collection with its `rId` counter.
  Its XML reads back through the attribute extraction the repair engine
  uses.
- **Presentation parts, editor and reader** (`src/oxml/editor.rs`,
  `src/oxml/presentation.rs`, `src/parts/presentation.rs`,
  `src/parts/image.rs`, `src/generator/xml.rs`).
  - The editor adds, replaces and removes slides.
  - It keeps `[Content_Types].xml`, `presentation.xml` and the
    presentation's rels part consistent with the slides.
  - The reader lists the slides in relationship-id order.
  - The generator writes the package-level XML.
- **DrawingML elements** (`src/oxml/text.rs`, `src/oxml/table.rs`,
  `src/oxml/slide.rs`). Text and table elements are written as XML and
  read back from their attributes. The slide reader extracts the shapes,
  the title, the body text and the tables of a slide.
- **Generator values** (`src/generator/shapes.rs`, `src/generator/tables.rs`,
  `src/generator/table/*`, `src/generator/slide_content/bullet.rs`,
  `src/prelude.rs`). These are the shape, fill, line, table and bullet
  builders, the font sizes, the themes, and the layout helpers that centre,
  stack and distribute shapes.
- **Markdown and Mermaid** (`src/cli/commands.rs`,
  `src/cli/markdown/mermaid/*`).
  - Markdown slide parsing.
  - Detection of a Mermaid diagram's kind.
  - The flowchart parser.
  - The sequence and state diagram layouts.
- **Text helpers** shared by these: XML escaping, Rust's `trim`, `lines`,
  `find`, `replace`, `split_once` and `to_string` on numbers, and slide
  part paths.

The package (`crate::opc::Package`) is not part of this model's sources. It
is a value: an ordered list of part paths and a map from path to content.
The XML parser (`XmlParser`, `XmlElement`) is not part of this model
either. Where the code reads an element tree, the model starts from what
the parser finds: the attributes, texts and child lists, in document
order.

## Model

| member | source | states |
|---|---|---|
| RepairIssues.Severity | src/oxml/repair.rs:40-52 | severity is 3 exactly for missing parts, invalid XML and corrupted entries; 1 exactly for orphan slides and empty elements; 2 otherwise |
| RepairIssues.IsRepairable | src/oxml/repair.rs:55-67 | every issue kind is repairable except a corrupted entry |
| RepairIssues.Description | src/oxml/repair.rs:70-101 | the description names the issue's path, slide path, or relationship source and target |
| RepairIssues.NewResult | src/oxml/repair.rs:117-124 | a new result has no issues, is valid, has total 0 and is fully repaired |
| RepairIssues.CountCritical | src/oxml/repair.rs:132-134 | the critical count is at most the number of issues; it is 0 iff no issue has severity 3, and all iff every issue does |
| RepairIssues.CountCriticalAppend | src/oxml/repair.rs:132-134 | counting critical issues distributes over concatenation |
| RepairChecks.MissingParts | src/oxml/repair.rs:253-262 | only MissingPart issues are reported |
| RepairChecks.MissingPartsIff | src/oxml/repair.rs:150-155 | an issue is reported iff it names a required part the package lacks, with that part's description |
| RepairChecks.RequiredPartsGenerated | src/oxml/repair.rs:150-155 | every required part is one `repair_missing_part` has a template for |
| RepairChecks.ValidateXml | src/oxml/repair.rs:284-326 | XML content is rejected, with "Empty XML content", exactly when it is empty or all whitespace |
| RepairChecks.TrimEmptyIffBlank | src/oxml/repair.rs:286-289 | trimmed text is empty iff the text is all whitespace |
| RepairChecks.XmlIssues | src/oxml/repair.rs:264-282 | only InvalidXml issues are reported |
| RepairChecks.XmlIssuesIff | src/oxml/repair.rs:264-282 | an issue is reported iff it names a listed `.xml` or `.rels` part whose content is blank |
| RepairChecks.LineIssue | src/oxml/repair.rs:352-374 | a line gives at most one issue, and only for a relative target without ".." that resolves to an absent part |
| RepairChecks.RelsLinesIssuesFrom | src/oxml/repair.rs:347-376 | every broken relationship comes from a line whose relative target without ".." resolves to a missing part, and carries that line's Id |
| RepairChecks.SlideRelsPaths | src/oxml/repair.rs:335-343 | the rels files checked are exactly the listed slide rels parts |
| RepairChecks.RelationshipIssuesMissing | src/oxml/repair.rs:328-345 | every relationship issue is a BrokenRelationship whose target part is absent |
| RepairChecks.ReferencedFrom | src/oxml/repair.rs:413-429 | the referenced slides are listed without repetition |
| RepairChecks.ReferencedHas | src/oxml/repair.rs:417-426 | every selected line's target, made absolute, is among the referenced slides |
| RepairChecks.ReferencedSource | src/oxml/repair.rs:417-426 | every referenced slide comes from a selected line |
| RepairChecks.SlideParts | src/oxml/repair.rs:431-436 | the actual slides are exactly the listed parts under ppt/slides/ ending in .xml |
| RepairChecks.SlideReferenceIssuesIff | src/oxml/repair.rs:411-455 | an orphan is a referenced slide that is absent; a missing reference is a present slide that is not referenced; nothing else is reported |
| RepairChecks.SlidePrefixedTarget | src/oxml/repair.rs:418-425 | as written, any line whose target mentions "slide" is read as a slide reference, whatever its type |
| RepairChecks.MasterReportedAsOrphan | src/oxml/repair.rs:415-445 | as written, the slide master relationship is reported as an orphan slide; with slide lines chosen by type it is not referenced |
| RepairChecks.Extension | src/oxml/repair.rs:470 | the extension is the text after the last '.', or the whole path when there is none |
| RepairChecks.ContentTypeIssuesFor | src/oxml/repair.rs:457-482 | an issue is reported iff a listed part other than the content types part and the `.rels` parts is covered neither by an Override naming it nor by a Default for its extension |
| RepairChecks.ValidationIssuesRepairable | src/oxml/repair.rs:177-196 | every issue the validation as written reports (slide lines chosen by the "slide" and "Target=" test) is repairable, and its repair succeeds |
| RepairText.ExtractAttribute | src/oxml/repair.rs:378-387 | a found value has no '"' and occurs in the line as `attr="value"`; no such pattern means None |
| RepairText.ExtractAttributeWritten | src/oxml/repair.rs:378-387 | an attribute written as `attr="v"`, with no earlier `attr="`, is extracted as v |
| RepairText.DirName | src/oxml/repair.rs:395 | the directory part is a prefix of the path |
| RepairText.ResolveAbsolute | src/oxml/repair.rs:390-392 | a target with a leading "/" resolves to itself without the "/" |
| RepairText.ResolveInDir | src/oxml/repair.rs:394-408 | a plain relative target resolves into the directory that owns the rels file |
| RepairText.ResolveAtRoot | src/oxml/repair.rs:394-408 | a target of a root-level rels file resolves to itself |
| RepairText.ResolveUp | src/oxml/repair.rs:398-402 | a "../" target resolves one directory above the rels owner |
| RepairText.ResolvePresentationSlide | src/oxml/repair.rs:921-935 | "ppt/_rels/presentation.xml.rels" with "slides/slide1.xml" resolves to "ppt/slides/slide1.xml" |
| RepairText.ResolveSlideLayout | src/oxml/repair.rs:921-935 | a slide's "../slideLayouts/slideLayout1.xml" resolves to "ppt/slideLayouts/slideLayout1.xml" |
| RepairText.EntityRun | src/oxml/repair.rs:558-574 | the scan after '&' collects entity characters and stops at the first other character, the end, or the cap |
| RepairText.AmpStep | src/oxml/repair.rs:552-583 | as written, one '&' step: a known name closed by ';' is kept with the ';'; an unknown closed name becomes "&amp;" and the name, the ';' consumed and not written; an unclosed run becomes "&amp;" and the run |
| RepairText.AmpStepFixed | src/oxml/repair.rs:552-583 | one '&' becomes "&" when it opens a kept entity and "&amp;" otherwise, followed by exactly the characters consumed |
| RepairText.EscapeAmpsFixedIsInsertAmp | src/oxml/repair.rs:538-591 | the scan equals the intended repair: "amp;" goes in after every '&' that does not open a known entity, and nothing else changes |
| RepairText.EscapeAmpsAgrees | src/oxml/repair.rs:538-591 | where no '&' opens an unknown name closed by ';', the pass as written equals the corrected pass and the intended insertion of "amp;" after every bare '&' |
| RepairText.KnownEntityKept | src/oxml/repair.rs:559-577 | a known entity closed by ';' is copied unchanged |
| RepairText.BareAmpEscaped | src/oxml/repair.rs:565-582 | as written, a bare '&' becomes "&amp;" |
| RepairText.BareAmpBetween | src/oxml/repair.rs:1021-1037 | in the repair as written, text with one bare '&' whose next character is neither an entity character nor ';' changes only at that '&', to "&amp;" |
| RepairText.UnknownEntityLosesSemicolon | src/oxml/repair.rs:559-582 | as written, "&nbsp;" becomes "&amp;nbsp"; the intended repair gives "&amp;nbsp;" |
| RepairText.MaxOr | src/oxml/repair.rs:662-676 | the maximum of the values, or the default when there are none |
| RepairText.FindMaxBounds | src/oxml/repair.rs:662-676 | the result is at least every matched id; it is the default exactly when nothing matches, and otherwise one of the matched ids, even one below the default |
| RepairText.NextRelIdIsFresh | src/oxml/repair.rs:616-617 | max+1 is larger than every `Id="rId…"` number in the text, so it matches none |
| RepairText.NextSlideIdIsFresh | src/oxml/repair.rs:642-643 | max+1 is larger than every `<p:sldId id="…"` number in the text, so it matches none |
| RepairText.WrittenMatch | src/oxml/repair.rs:662-668 | a written `rId` number followed by '"' is matched with its value |
| RepairText.WrittenRelIdCounted | src/oxml/repair.rs:662-668 | every written `rId` number is at most the maximum |
| RepairText.InferContentType | src/oxml/repair.rs:714-730 | as written, any ".xml" path containing "slide" gets the slide content type |
| RepairText.InferContentTypeFixed | src/oxml/repair.rs:714-730 | layout paths get the layout type and master paths the master type |
| RepairText.LayoutContentType | src/oxml/repair.rs:714-730 | as written, a slide layout gets the slide content type; the corrected function gives the layout type |
| RepairText.MasterContentType | src/oxml/repair.rs:714-730 | as written, a slide master gets the slide content type; the corrected function gives the master type |
| RepairText.SlideContentType | src/oxml/repair.rs:714-730 | a slide gets the slide content type |
| RepairEdits.GeneratedPart | src/oxml/repair.rs:512-519 | a template exists exactly for the four required parts, and it is never blank; the content types template uses the inference as written |
| RepairEdits.GeneratedContentTypesCover | src/oxml/repair.rs:771-790 | the generated content types (inference as written) have an Override naming every `.xml` part of the package but the content types part, so each of them is covered |
| RepairEdits.RepairMissingPart | src/oxml/repair.rs:512-523 | the repair succeeds iff the path has a template; it then stores non-blank content there (for the content types part, the overrides with the inference as written) and changes no other part; otherwise it fails with "Cannot generate part: path" |
| RepairEdits.MissingPartRepaired | src/oxml/repair.rs:512-523 | afterwards the part, as regenerated by the code as written, is neither missing nor invalid XML |
| RepairEdits.ContentTypesRepaired | src/oxml/repair.rs:771-790 | after the content types part is regenerated as written, every part still reported as lacking a content type is not an `.xml` part |
| RepairEdits.XmlRepaired | src/oxml/repair.rs:538-591 | the repaired text (the pass as written) starts with a declaration when the trimmed text lacks one, is never blank, and equals the intended insertion of "amp;" when no unknown name is closed by ';' |
| RepairEdits.RepairInvalidXml | src/oxml/repair.rs:525-536 | a present part is rewritten with its repaired text as written; an absent part is left alone; nothing else changes |
| RepairEdits.InvalidXmlRepaired | src/oxml/repair.rs:525-536 | afterwards the part, rewritten by the pass as written, passes `validate_xml` |
| RepairEdits.LinesWithout | src/oxml/repair.rs:599-603 | the kept lines are exactly those without the pattern, in order |
| RepairEdits.DropLinesIn | src/oxml/repair.rs:593-608 | only the one part changes, to its lines without the pattern |
| RepairEdits.BrokenRelationshipRepaired | src/oxml/repair.rs:593-608 | afterwards the broken relationship is no longer reported for its rels file |
| RepairEdits.OrphanSlideRepaired | src/oxml/repair.rs:678-693 | afterwards no presentation relationship line targets the orphan slide |
| RepairEdits.AddSlideToPresentation | src/oxml/repair.rs:637-660 | the presentation gains a `<p:sldId>` entry with a fresh id and the given r:id; a missing presentation is left alone |
| RepairEdits.RepairMissingSlideReference | src/oxml/repair.rs:610-635 | the presentation rels gain a Slide relationship with the next rId, and the presentation gains its sldId entry |
| RepairEdits.MissingSlideReferenceRepaired | src/oxml/repair.rs:610-635 | the added relationship line reads back as a reference to the slide, and its id is fresh |
| RepairEdits.SldIdInserted | src/oxml/repair.rs:648-656 | the entry goes before "</p:sldIdLst>", into an empty "<p:sldIdLst/>", or after the master id list, and the text is unchanged otherwise |
| RepairEdits.SldIdEntryFresh | src/oxml/repair.rs:642-643 | the new entry reads back as max+1, which is larger than every `<p:sldId id="…"` number already in the presentation |
| RepairEdits.RepairInvalidContentType | src/oxml/repair.rs:695-712 | an Override with the content type as written goes in before "</Types>"; nothing else changes |
| RepairEdits.ContentTypeRepaired | src/oxml/repair.rs:695-712 | afterwards the part is no longer reported as lacking a content type, whatever type the inference as written gives it |
| RepairEdits.NamespaceDecl | src/oxml/repair.rs:737-742 | a declaration exists exactly for the p, a and r prefixes |
| RepairEdits.RepairMissingNamespace | src/oxml/repair.rs:732-753 | for a present part, a known prefix and a '>' in the text: the part becomes the text before the first '>', a space, the declaration, then the rest, unless the text before that '>' already holds the declaration; in every other case, and for every other part, nothing changes |
| RepairEdits.NamespaceInserted | src/oxml/repair.rs:732-753 | the declaration is inserted iff the text before the first '>' (the first tag, which is the XML declaration when the part has one) does not already hold it; afterwards that text holds it, and a second repair changes nothing |
| RepairEdits.EmptyElementFilled | src/oxml/repair.rs:755-767 | the empty form of the element is replaced by an open-close pair, and the text changes iff it held the empty form |
| RepairEdits.RepairIssueOn | src/oxml/repair.rs:484-510 | a repair (each edit as written) succeeds iff the issue is not a corrupted entry and not a missing part without a template; it keeps a well-formed package well-formed; the errors carry the source's messages |
| Repair.PptxRepair.constructor | src/oxml/repair.rs:167-174 | a new engine holds the package and no issues |
| Repair.PptxRepair.CheckRequiredParts | src/oxml/repair.rs:253-262 | the required-parts loop finds exactly the missing required parts, in order |
| Repair.PptxRepair.CheckXmlValidity | src/oxml/repair.rs:264-282 | the XML loop finds exactly the blank XML parts, in part order |
| Repair.PptxRepair.CheckRelsFile | src/oxml/repair.rs:347-376 | the line loop finds exactly the broken relationships of one rels file |
| Repair.PptxRepair.CheckRelationships | src/oxml/repair.rs:328-345 | `_rels/.rels`, then the presentation rels, then every slide rels file, are checked |
| Repair.PptxRepair.CheckSlideReferences | src/oxml/repair.rs:411-455 | orphan slides, then unreferenced slides, with slide lines chosen as written: every line containing "slide" and "Target=" |
| Repair.PptxRepair.CheckContentTypes | src/oxml/repair.rs:457-482 | exactly the listed parts other than the content types part and the `.rels` parts that no Override names and no Default covers by extension are found |
| Repair.PptxRepair.Validate | src/oxml/repair.rs:177-196 | the previous issues are replaced by the five checks' findings, as written, in fixed order; the package is untouched |
| Repair.PptxRepair.Repair | src/oxml/repair.rs:199-227 | found issues are the as-written validation of the original package; repaired and unrepaired partition them by outcome; nothing is left unrepaired; is_valid iff re-validation is empty; a well-formed package stays well-formed |
| Repair.PptxRepair.AttemptAll | src/oxml/repair.rs:211-220 | the package is the result of the repairs applied in order, and the issues are recorded by outcome |
| Repair.PptxRepair.Attempt | src/oxml/repair.rs:212-219 | a repairable issue is repaired; the outcome is whether the repair succeeds |
| Repair.PptxRepair.RepairOne | src/oxml/repair.rs:484-510 | the package becomes what the issue's repair as written gives, and stays unchanged when it fails |
| Repair.PptxRepair.RepairMissingPart | src/oxml/repair.rs:512-523 | the generated template (content types with the inference as written) is stored under the path, or the package is unchanged and the error names the path |
| Repair.PptxRepair.GeneratePart | src/oxml/repair.rs:513-519 | the template for each of the four required parts, the content types one built with the inference as written, and none for any other path |
| Repair.PptxRepair.RepairInvalidXml | src/oxml/repair.rs:525-536 | a present part is rewritten with its repaired text, the pass as written |
| Repair.PptxRepair.GenerateContentTypes | src/oxml/repair.rs:771-790 | the fixed head, an Override with the content type as written for every `.xml` part but the content types part in part order, then "</Types>" |
| Repair.OverridesOf | src/oxml/repair.rs:781-786 | the loop builds the Override lines, content types as written, in part order |
| Repair.AfterRepair | src/oxml/repair.rs:213-216 | a repair as written keeps a well-formed package well-formed |
| Repair.AttemptStep | src/oxml/repair.rs:211-220 | one more issue applies one more repair and adds one record on the side its outcome picks |
| Repair.RepairedValid | src/oxml/repair.rs:211-220 | repairing any sequence of issues with the repairs as written keeps a well-formed package well-formed |
| Repair.Succeeding | src/oxml/repair.rs:212-214 | the repaired issues are exactly those whose repair succeeds |
| Repair.Failing | src/oxml/repair.rs:215-218 | the unrepaired issues are exactly those whose repair fails or that are not repairable |
| Repair.RecordedOnce | src/oxml/repair.rs:211-220 | every attempted issue is recorded exactly once |
| Repair.NothingUnrepaired | src/oxml/repair.rs:199-227 | after `repair` as written no issue found by the as-written validation is left unrepaired, and every one of them is repaired |
| Repair.ReferencedLines | src/oxml/repair.rs:417-426 | the loop collects, as written, the targets of lines containing "slide" and "Target=", each once, in first-appearance order |
| Repair.XmlIssuesOf | src/oxml/repair.rs:271-281 | the loop reports an InvalidXml issue for each XML path whose content fails the check, in path order, and nothing else |
| Repair.ContentTypeIssuesOf | src/oxml/repair.rs:463-480 | the loop reports an InvalidContentType issue for each part with no Override, no Default for its extension, and no ".rels" suffix |
| Repair.OrphansOf | src/oxml/repair.rs:437-444 | the first loop reports an OrphanSlide for each referenced path (as-written selection) that is not a slide part, in reference order |
| Repair.UnreferencedOf | src/oxml/repair.rs:446-453 | the second loop reports a MissingSlideReference for each slide part the as-written selection does not reference, in part order |
| Repair.AttemptXmlRepair | src/oxml/repair.rs:538-591 | the declaration is added when the trimmed text lacks one, then the ampersand pass as written runs, dropping the ';' of an unknown name |
| Repair.EscapeAmpersands | src/oxml/repair.rs:549-588 | the character loop computes the ampersand pass as written |
| Repair.EscapeAt | src/oxml/repair.rs:551-587 | one step of the loop emits, as written, the text for one position and advances past what it consumed |
| Repair.ScanEntity | src/oxml/repair.rs:552-583 | the inner loop after '&' emits, as written, the kept entity, or "&amp;" and the collected characters (an unknown name's ';' consumed and dropped) |
| Relationships.Uri | src/parts/relationships.rs:25-38 | a custom type gives its own URI |
| Relationships.FromUri | src/parts/relationships.rs:41-63 | as written; an unrecognised URI becomes Custom with that URI, and a "/slide" URI without Layout or Master becomes Slide |
| Relationships.FromUriFixed | src/parts/relationships.rs:41-63 | the same, with extended-properties tested before officeDocument |
| Relationships.UriRoundTrip | src/parts/relationships.rs:25-63 | as written, from_uri(uri(t)) is t for every known type but ExtendedProperties |
| Relationships.ExtendedPropertiesRoundTrip | src/parts/relationships.rs:54-59 | as written, the extended-properties URI maps to OfficeDocument; the corrected function maps it back |
| Relationships.UriRoundTripFixed | src/parts/relationships.rs:25-63 | with the corrected order, from_uri(uri(t)) is t for every known type |
| Relationships.CustomRoundTrip | src/parts/relationships.rs:37-61 | an unrecognised URI round-trips through Custom |
| Relationships.RelXmlReadBack | src/parts/relationships.rs:85-92 | the Id, Type and Target of a written relationship read back through attribute extraction |
| Relationships.RelIdNumberOf | src/parts/relationships.rs:118-126 | the number parsed back from "rId{n}" is n |
| Relationships.IndexOfId | src/parts/relationships.rs:129-131 | the first relationship with the id, or none |
| Relationships.OfType | src/parts/relationships.rs:134-136 | exactly the relationships of the type are selected, no longer than the input |
| Relationships.OfTypeCounts | src/parts/relationships.rs:134-136 | each relationship of the type occurs as often as it is stored, and no other occurs |
| Relationships.OfTypeConcat | src/parts/relationships.rs:134-136 | selecting by type distributes over concatenation, so the selected relationships keep their stored order |
| Relationships.Relationships.constructor | src/parts/relationships.rs:102-107 | a new collection is empty with next id 1 |
| Relationships.Relationships.Add | src/parts/relationships.rs:110-115 | the id is "rId{next_id}", the counter goes up by one, the relationship is appended, and the id is fresh |
| Relationships.Relationships.AddWithId | src/parts/relationships.rs:118-126 | the relationship is appended; next_id becomes max(next_id, N+1) for "rIdN" and is unchanged otherwise |
| Relationships.Relationships.Get | src/parts/relationships.rs:129-131 | a found relationship has the id and no stored relationship before it has that id; none means no stored relationship has it |
| Relationships.Relationships.GetByType | src/parts/relationships.rs:134-136 | exactly the stored relationships of the type, each as often as stored, in stored order (the selection of `OfType`) |
| Relationships.Relationships.Len | src/parts/relationships.rs:144-146 | the number of stored relationships |
| Relationships.Relationships.ToXml | src/parts/relationships.rs:154-165 | the declaration, the root, one element per relationship in stored order, the closing tag |
| Relationships.AddTwice | src/parts/relationships.rs:203-211 | two adds to a new collection give rId1 then rId2 |
| Relationships.RelsXmlLines | src/parts/relationships.rs:154-165 | the lines of the XML are the declaration, the root, one line per relationship, the closing tag |
| XmlText.EscapeXml | src/generator/xml.rs:56-62 | no markup character is left, and the text never shrinks |
| XmlText.EscapeChainedIsEscapeXml | src/generator/xml.rs:56-62 | the chain of five replacements, '&' first, escapes each character on its own |
| XmlText.UnescapeEscape | src/generator/xml.rs:56-62 | escaping loses nothing: unescaping gives the text back |
| XmlText.EscapeAppend | src/generator/xml.rs:56-62 | escaping distributes over concatenation |
| XmlText.AmpersandBetweenWords | src/cli/commands.rs:197-202 | "a & b" becomes "a &amp; b" |
| XmlText.TagEscaped | src/cli/commands.rs:197-202 | "<tag>" becomes "&lt;tag&gt;" |
| PartPaths.SlidePath | src/generator/xml.rs:64-86 | slide n lives at "ppt/slides/slide{n}.xml" |
| PartPaths.SlidePathInjective | src/generator/xml.rs:64-86 | different slide numbers give different paths |
| Packages.Package.Get | src/oxml/repair.rs:273 | a part is found iff it is stored |
| Packages.Package.Add | src/oxml/repair.rs:521 | the part is stored with the content, no other part changes, and a well-formed package stays well-formed |
| Strings.NatToStringInjective | src/parts/relationships.rs:110-115 | different numbers print differently |
| Strings.ParseU32Format | src/parts/relationships.rs:118-126 | a printed u32 parses back to itself |
| GeneratorXml.NewSlideContent | src/generator/xml.rs:15-24 | a new slide content has the given title, no bullets, sizes 44 and 28, a bold title and non-bold content |
| GeneratorXml.AddBullet | src/generator/xml.rs:26-29 | exactly one bullet is appended, after the existing ones, and no other field changes |
| GeneratorXml.WithTitleSize | src/generator/xml.rs:32-35 | the title size becomes Some(size) and nothing else changes |
| GeneratorXml.WithContentSize | src/generator/xml.rs:38-41 | the content size becomes Some(size) and nothing else changes |
| GeneratorXml.WithTitleBold | src/generator/xml.rs:44-47 | the title bold flag is set and nothing else changes |
| GeneratorXml.WithContentBold | src/generator/xml.rs:50-53 | the content bold flag is set and nothing else changes |
| GeneratorXml.BulletsInOrder | src/generator/xml.rs:15-29 | bullets added one after another appear in the order they were added |
| GeneratorXml.SlideOverrides | src/generator/xml.rs:71-76 | there are n slide Overrides, the k-th naming slide k+1 |
| GeneratorXml.CreateContentTypesXml | src/generator/xml.rs:64-86 | the push loop produces the content types document with one slide Override per slide 1..=n between the fixed head and tail |
| GeneratorXml.ContentTypesCoverSlides | src/generator/xml.rs:64-86 | every slide 1..=n is covered by an Override in the generated content types |
| GeneratorXml.SlideOverridesDistinct | src/generator/xml.rs:71-76 | no two slide Overrides are the same, so each slide is listed exactly once |
| GeneratorXml.OverrideElementInjective | src/generator/xml.rs:72-75 | Overrides for different part names differ |
| GeneratorXml.PresentationRelsList | src/generator/xml.rs:97-113 | the relationships are the master, the theme, then one Slide relationship per slide in order |
| GeneratorXml.CreatePresentationRelsXml | src/generator/xml.rs:97-113 | the push loop produces the rels document of exactly that relationship list |
| GeneratorXml.PresentationRelIdsConsecutive | src/generator/xml.rs:97-113 | the k-th relationship has id rId(k+1), so slide i has rId(i+2) |
| GeneratorXml.SlideRelResolves | src/generator/xml.rs:104-107 | the target of slide i's relationship resolves to the slide i part |
| GeneratorXml.SldIdLines | src/generator/xml.rs:123-129 | there are n sldId lines, the k-th for slide k+1 |
| GeneratorXml.CreatePresentationXml | src/generator/xml.rs:115-137 | the push loop produces the presentation document with one sldId line per slide, whatever the title |
| GeneratorXml.SlideNumberingAgrees | src/generator/xml.rs:115-137 | slide k+1 has sldId 257+k and the r:id of the rels entry whose Slide target resolves to that slide's part |
| GeneratorXml.SldIdLinesDistinct | src/generator/xml.rs:123-129 | no two sldId lines are the same |
| GeneratorXml.TitleOnlyOnFirstSlide | src/generator/xml.rs:139-145 | as written, slide 1 is the slide head, the title run with the title unescaped, and the tail; every other slide is the same whatever the title and shows "Slide n"; the corrected slide agrees with it except on a first slide whose title needs escaping |
| GeneratorXml.FixedTitleWellFormed | src/generator/xml.rs:139-195 | with the title escaped, the run holds no '<' and unescapes back to the title |
| GeneratorXml.UnescapedTitleBreaksRun | src/generator/xml.rs:139-195 | as written, a title holding '<' is copied raw into the `<a:t>` run |
| Editor.AddSlideToPresentationXml | src/oxml/editor.rs:165-182 | with "</p:sldIdLst>" present, the sldId line for slide n (id 256+n, rId(n+2)) goes in just before it and nothing is lost; without it the text is unchanged |
| Editor.AddSlideToPresentationRels | src/oxml/editor.rs:192-205 | with "</Relationships>" present, slide n's relationship goes in just before it; otherwise the text is unchanged |
| Editor.AddSlideToContentTypes | src/oxml/editor.rs:215-227 | with "</Types>" present, slide n's Override goes in just before it; otherwise the text is unchanged |
| Editor.InsertedEntriesAgree | src/oxml/editor.rs:165-227 | the three inserted entries agree: the sldId names the new rId, that relationship is a Slide targeting slide n's part, and the content types then cover that part |
| Editor.PresentationXmlUpdated | src/oxml/editor.rs:156-163 | only the presentation part changes, and only when it exists |
| Editor.PresentationRelsUpdated | src/oxml/editor.rs:184-190 | only the presentation rels part changes, and only when it exists |
| Editor.ContentTypesUpdated | src/oxml/editor.rs:207-213 | only the content types part changes, and only when it exists |
| Editor.AddedSlideStores | src/oxml/editor.rs:62-71 | after add_slide the new slide part and its rels part hold the given texts |
| Editor.AddedSlideKeepsOthers | src/oxml/editor.rs:58-84 | add_slide changes no part except the two new slide parts and the three fixed parts |
| Editor.AddedSlideRegisters | src/oxml/editor.rs:73-80 | add_slide registers the new slide in each fixed part that has its closing tag, and leaves the others unchanged |
| Editor.CountSlides | src/oxml/editor.rs:149-154 | the count is at most the number of parts |
| Editor.CountAdd | src/oxml/editor.rs:149-154 | adding a part raises the count by one exactly when it is a new slide part |
| Editor.CountRemove | src/oxml/editor.rs:149-154 | removing a part lowers the count by one exactly when it was a present slide part |
| Editor.AddedSlideContiguous | src/oxml/editor.rs:58-84 | when slides 1..n are exactly the slide parts, slides 1..n+1 are after add_slide |
| Editor.AddedSlideCount | src/oxml/editor.rs:58-84 | add_slide raises the number of slide parts by exactly one |
| Editor.MovePart | src/oxml/editor.rs:229-247 | moving a part empties its old path, puts its content at the new path when it existed, and changes nothing else |
| Editor.RenumberShifts | src/oxml/editor.rs:116-119 | after slide k's parts are gone, renumbering k+1..=last moves each slide j > k to j-1, each with its rels, and touches no other part |
| Editor.RemovedSlideShifts | src/oxml/editor.rs:100-129 | after remove_slide, slide j holds the old slide j below k and the old slide j+1 from k on; the same for rels parts |
| Editor.RemovedSlideRebuilds | src/oxml/editor.rs:123-126 | after remove_slide the three fixed parts are regenerated for n-1 slides, and parts outside ppt/slides are unchanged |
| Editor.RemovedSlideCount | src/oxml/editor.rs:100-129 | remove_slide lowers the number of slide parts by one exactly when the removed slide existed |
| Editor.RemovedSlideContiguous | src/oxml/editor.rs:100-129 | when slides 1..n are exactly the slide parts, slides 1..n-1 are after remove_slide |
| Editor.RemovedSlideRegistered | src/oxml/editor.rs:100-129 | after remove_slide every remaining slide exists and is covered by the rebuilt content types |
| Editor.RemovedSlideConsistent | src/oxml/editor.rs:100-129 | remove_slide keeps the editor's invariant: the count matches the slide parts and the slides are numbered 1..n-1 |
| Editor.RemainingHolds | src/oxml/editor.rs:106-121 | the invariant holds for n-1 slides once slide k is dropped and the later slides are renumbered |
| Editor.RebuiltHolds | src/oxml/editor.rs:123-126 | rebuilding the fixed parts keeps the invariant |
| Editor.AddedSlideConsistent | src/oxml/editor.rs:58-84 | add_slide keeps the invariant with count n+1 |
| Editor.ReplacedSlideKeeps | src/oxml/editor.rs:92-97 | replacing an existing slide keeps the numbering and the count |
| Editor.SlideFoundInRange | src/oxml/editor.rs:47-51 | under the invariant, slide index+1 exists exactly when index < n |
| Editor.PresentationEditor.constructor | src/oxml/editor.rs:33-39 | a new editor has an empty package and 0 slides, and satisfies the invariant |
| Editor.PresentationEditor.Open | src/oxml/editor.rs:22-31 | an opened editor counts the package's slide parts |
| Editor.PresentationEditor.GetSlide | src/oxml/editor.rs:47-55 | the slide's text is returned when its part exists; otherwise NotFound("Slide index not found") |
| Editor.PresentationEditor.GetSlideInRange | src/oxml/editor.rs:47-55 | under the invariant, get_slide succeeds exactly for index < slide_count |
| Editor.PresentationEditor.UpdatePresentationXml | src/oxml/editor.rs:156-163 | the package becomes PresentationXmlUpdated of the old package; the count is unchanged |
| Editor.PresentationEditor.UpdatePresentationRels | src/oxml/editor.rs:184-190 | the package becomes PresentationRelsUpdated of the old package; the count is unchanged |
| Editor.PresentationEditor.UpdateContentTypes | src/oxml/editor.rs:207-213 | the package becomes ContentTypesUpdated of the old package; the count is unchanged |
| Editor.PresentationEditor.AddSlide | src/oxml/editor.rs:58-84 | slide n+1 is added with its rels and registered, the count becomes n+1, the old count is returned as the new 0-based index, and the invariant is kept |
| Editor.PresentationEditor.UpdateSlide | src/oxml/editor.rs:87-98 | NotFound exactly when index >= slide_count, with nothing changed; otherwise only the slide part is replaced; the invariant is kept |
| Editor.PresentationEditor.RenumberSlide | src/oxml/editor.rs:229-247 | the slide part and its rels part move from the old number to the new one |
| Editor.PresentationEditor.RebuildPresentationXml | src/oxml/editor.rs:249-274 | the presentation part becomes the generated presentation document for slide_count slides |
| Editor.PresentationEditor.RebuildPresentationRels | src/oxml/editor.rs:276-295 | the presentation rels part becomes the generated rels document for slide_count slides |
| Editor.PresentationEditor.RebuildContentTypes | src/oxml/editor.rs:297-321 | the content types part becomes the generated content types for slide_count slides |
| Editor.PresentationEditor.RemoveSlide | src/oxml/editor.rs:100-129 | NotFound exactly when index >= slide_count, with nothing changed; otherwise the count drops by one and the package becomes RemovedSlide of the old one |
| Editor.PresentationEditor.DropSlide | src/oxml/editor.rs:106-121 | the slide's parts are removed, the later slides are renumbered down, and the count drops by one |
| Editor.PresentationEditor.RemoveSlideParts | src/oxml/editor.rs:108-114 | the slide part and its rels part are removed |
| Editor.PresentationEditor.RenumberFollowing | src/oxml/editor.rs:116-119 | the loop renumbers slides slideNum+1..=slide_count, each one down by one, in increasing order |
| Editor.PresentationEditor.RebuildFixedParts | src/oxml/editor.rs:123-126 | the three fixed parts are regenerated for the current count |
| PresentationParts.PresentationPart.constructor | src/parts/presentation.rs:30-39 | a new part sits at ppt/presentation.xml with no slides, no master or theme id and a 9144000 x 6858000 slide size |
| PresentationParts.PresentationPart.SetSlideMaster | src/parts/presentation.rs:42-44 | only the master id changes, to the given one |
| PresentationParts.PresentationPart.SetTheme | src/parts/presentation.rs:47-49 | only the theme id changes, to the given one |
| PresentationParts.PresentationPart.SetDimensions | src/parts/presentation.rs:72-75 | only the width and height change, to the given ones |
| PresentationParts.PresentationPart.AddSlide | src/parts/presentation.rs:52-59 | the returned id is 256 + (slides before) + 1, the reference is appended and nothing else changes, so assigned ids stay 257, 258, … |
| PresentationParts.AssignedIdsIncrease | src/parts/presentation.rs:52-59 | ids handed out by add_slide increase strictly with the slide position |
| PresentationParts.PresentationPart.CreateRelationships | src/parts/presentation.rs:78-105 | a fresh collection holding the master, the theme, then one Slide relationship per reference, in that order |
| PresentationParts.SlideRels | src/parts/presentation.rs:94-101 | reference k becomes a Slide relationship with its own r:id and target slides/slide{k+1}.xml |
| PresentationParts.CreatedRelsOrder | src/parts/presentation.rs:78-105 | the created list is master, theme, then the slides, with the master and theme targets fixed |
| PresentationParts.CreatedSlideTargets | src/parts/presentation.rs:94-101 | the k-th slide relationship resolves, from the presentation rels part, to slide k's part |
| PresentationParts.DefaultRelIds | src/parts/presentation.rs:81-92 | without set ids, the counter gives the master rId1 and the theme rId2 |
| PresentationParts.GeneratedRelsAgree | src/parts/presentation.rs:78-105 | with default ids and slide k at rId(k+2), the created relationships are exactly those the generator writes |
| PresentationParts.PresentationPart.ToXml | src/parts/presentation.rs:127-158 | the document is the presentation head with the master r:id (rId1 by default), one sldId line per reference in order, and sldSz then notesSz with width and height swapped |
| PresentationParts.RefLines | src/parts/presentation.rs:128-134 | line k is the sldId entry of reference k |
| PresentationParts.DefaultPartIsGenerated | src/parts/presentation.rs:127-158 | with default master, default size and the ids add_slide assigns, the part's XML equals the generator's presentation document |
| PresentationReading.SlideTypeIsFromUriSlide | src/oxml/presentation.rs:152-153 | the reader's type filter accepts a URI exactly when `from_uri` reads it as a slide |
| PresentationReading.SlideLinksFromElements | src/oxml/presentation.rs:151-162 | each kept link comes from a slide-typed element with an Id and a Target, with that id and that target's package path |
| PresentationReading.SlideLinksCount | src/oxml/presentation.rs:151-162 | exactly one link is kept per slide-typed element that has both an Id and a Target |
| PresentationReading.IdKeyAgrees | src/oxml/presentation.rs:166-170 | wherever the relationship id is "rId" and a u32, the sort key is that number |
| PresentationReading.IdKeyOf | src/oxml/presentation.rs:166-170 | "rId" followed by n < 2^32 sorts under key n |
| PresentationReading.SortByKey | src/oxml/presentation.rs:166-170 | the sorted list is a permutation of the input |
| PresentationReading.SortByKeySorted | src/oxml/presentation.rs:166-170 | the sorted list is in non-decreasing key order |
| PresentationReading.SortByKeyStable | src/oxml/presentation.rs:166-170 | links with equal keys, including the ids that count as 0, keep their document order |
| PresentationReading.SortByKeyKeepsSorted | src/oxml/presentation.rs:166-170 | a list already in key order is left as it is |
| PresentationReading.LexLeTotal | src/oxml/presentation.rs:183 | any two strings are ordered one way or the other |
| PresentationReading.SortLex | src/oxml/presentation.rs:183 | the sorted slide names are a permutation of the filtered ones |
| PresentationReading.SortLexSorted | src/oxml/presentation.rs:183 | the fallback list is in lexicographic order |
| PresentationReading.SlideNames | src/oxml/presentation.rs:179-181 | every kept path starts with ppt/slides/slide, ends with .xml and has no _rels |
| PresentationReading.SlideNamesCounted | src/oxml/presentation.rs:179-181 | the filter keeps as many paths as the editor's `count_slides` counts |
| PresentationReading.FallbackPathsMeaning | src/oxml/presentation.rs:177-185 | the fallback is sorted, as long as `count_slides`, and holds exactly the listed slide part names |
| PresentationReading.ReadSlidePaths | src/oxml/presentation.rs:144-189 | an empty slide list means the package has no slide parts at all |
| PresentationReading.RelsDecide | src/oxml/presentation.rs:144-176 | relationships with a slide decide the list alone, one path per kept element, whatever parts the package holds |
| PresentationReading.ReadSlidePathsOrdered | src/oxml/presentation.rs:144-189 | the list is either the key-sorted relationship paths or the sorted fallback |
| PresentationReading.ReadGeneratedRels | src/oxml/presentation.rs:144-189 | reading the relationships the generator writes for n slides gives slides 1..n in order |
| PresentationReading.PresentationReader.Open | src/oxml/presentation.rs:51-60 | the reader holds the package, and its slide list is what parsing the presentation's relationships gives, with the count set to match |
| PresentationReading.PresentationReader.ParsePresentationXml | src/oxml/presentation.rs:144-189 | the loop collects the slide links, and the slide list becomes ReadSlidePaths of the package and the list held before; slide_count matches its length |
| PresentationReading.PresentationReader.SlideCount | src/oxml/presentation.rs:68-70 | after parsing, slide_count() agrees with the info's slide count |
| PresentationReading.PresentationReader.GetSlide | src/oxml/presentation.rs:73-82 | NotFound("Slide {index} not found") when index >= slide count, NotFound("Slide file not found: …") when the part is missing, otherwise the part's content |
| Colors.NormalizeColor | src/generator/table/cell.rs:109-112 | the stored colour is the input without its leading run of '#', each remaining character upper-cased |
| Colors.NormalizedShape | src/generator/tables.rs:28-31 | a normalised colour has no leading '#' and no lower-case letter |
| Colors.NormalizeIgnoresHash | src/generator/table/cell.rs:109-118 | a colour given with a leading '#' is stored as the same colour given without it |
| Colors.NormalizeKeepsStored | src/generator/table/cell.rs:109-118 | a colour already upper-case and without '#' ("FF0000", "0000FF") is stored unchanged |
| Colors.NormalizeIdempotent | src/generator/shapes.rs:39-44 | normalising a stored colour again changes nothing |
| Colors.NormalizeExample | src/generator/shapes.rs:63-68 | "#ff0000" is stored as "FF0000" |
| GeneratorTables.Cell.Bold | src/generator/tables.rs:22-25 | `bold` sets the flag and leaves the text and background as they were |
| GeneratorTables.Cell.BackgroundColor | src/generator/tables.rs:28-31 | `background_color` stores the normalised colour (no leading '#', upper case), and nothing else changes |
| GeneratorTables.NewCell | src/generator/tables.rs:13-19 | a new cell holds the text, is not bold and has no background |
| GeneratorTables.Row.WithHeight | src/generator/tables.rs:51-54 | `with_height` sets the height and keeps the cells |
| GeneratorTables.NewRow | src/generator/tables.rs:43-48 | a new row holds the cells and has no height |
| GeneratorTables.Table.ColumnCount | src/generator/tables.rs:78-80 | the column count is the number of column widths |
| GeneratorTables.Table.RowCount | src/generator/tables.rs:83-85 | the row count is the number of rows |
| GeneratorTables.SumAppend | src/generator/tables.rs:88-98 | the sums behind `width` and `height` distribute over concatenation |
| GeneratorTables.WidthCovers | src/generator/tables.rs:88-90 | every column width is at most the table width, and added columns add their widths |
| GeneratorTables.WidthExample | src/generator/table/builder.rs:124-132 | columns of 1000000, 1500000 and 2000000 EMU give a width of 4500000 |
| GeneratorTables.HeightMeaning | src/generator/tables.rs:93-98 | rows without a height count 400000 each, and an added row adds its own height |
| GeneratorTables.FromData | src/generator/tables.rs:101-119 | one row per data row, one cell per string, no heights, the widths and the position as given |
| GeneratorTables.FromDataTexts | src/generator/tables.rs:101-119 | the cell texts of a table from data read back as the data |
| GeneratorTables.FromDataHeight | src/generator/tables.rs:93-119 | a table from data is 400000 EMU high per data row |
| GeneratorTables.TableBuilder.Position | src/generator/tables.rs:142-146 | `position` sets x and y and keeps the rows and widths |
| GeneratorTables.TableBuilder.AddRow | src/generator/tables.rs:149-152 | `add_row` appends the row at the end and changes nothing else |
| GeneratorTables.TableBuilder.AddSimpleRow | src/generator/tables.rs:155-164 | `add_simple_row` appends a new row of new cells, one per string |
| GeneratorTables.TableBuilder.Build | src/generator/tables.rs:167-174 | the built table has the rows in the order added, the widths and the position |
| GeneratorTables.NewBuilder | src/generator/tables.rs:132-139 | a new builder has no rows, the given widths and position (0, 0) |
| GeneratorTables.AddSimpleRowsAppend | src/generator/tables.rs:155-164 | simple rows land after the existing rows, in the order added |
| GeneratorTables.BuilderMatchesFromData | src/generator/tables.rs:101-174 | building row by row from strings gives the table `from_data` gives |
| TableModel.CellAlign.AsStr | src/generator/table/cell.rs:14-22 | every horizontal alignment has a non-empty attribute value |
| TableModel.AlignStrInjective | src/generator/table/cell.rs:14-22 | l, ctr, r and just are distinct, so the value names the alignment |
| TableModel.CellVAlign.AsStr | src/generator/table/cell.rs:35-42 | every vertical alignment has a non-empty attribute value |
| TableModel.VAlignStrInjective | src/generator/table/cell.rs:35-42 | t, ctr and b are distinct, so the value names the alignment |
| TableModel.NewCell | src/generator/table/cell.rs:74-88 | a new cell is not bold, italic or underlined, has no colours or font, is centred and middle-aligned, and wraps |
| TableModel.Cell.Bold | src/generator/table/cell.rs:91-95 | sets bold and nothing else |
| TableModel.Cell.Italic | src/generator/table/cell.rs:97-101 | sets italic and nothing else |
| TableModel.Cell.Underline | src/generator/table/cell.rs:103-107 | sets underline and nothing else |
| TableModel.Cell.TextColor | src/generator/table/cell.rs:109-113 | stores the normalised colour (no leading '#', upper case), and nothing else changes |
| TableModel.Cell.BackgroundColor | src/generator/table/cell.rs:115-119 | stores the normalised colour (no leading '#', upper case), and nothing else changes |
| TableModel.Cell.FontSize | src/generator/table/cell.rs:121-125 | sets the font size and nothing else |
| TableModel.Cell.FontFamily | src/generator/table/cell.rs:127-131 | sets the font family and nothing else |
| TableModel.Cell.Align | src/generator/table/cell.rs:133-137 | sets the horizontal alignment and nothing else |
| TableModel.Cell.AlignLeft | src/generator/table/cell.rs:139-143 | is `align(Left)` |
| TableModel.Cell.AlignRight | src/generator/table/cell.rs:145-149 | is `align(Right)` |
| TableModel.Cell.AlignCenter | src/generator/table/cell.rs:151-155 | is `align(Center)` |
| TableModel.Cell.VAlign | src/generator/table/cell.rs:157-161 | sets the vertical alignment and nothing else |
| TableModel.Cell.VAlignTop | src/generator/table/cell.rs:163-167 | is `valign(Top)` |
| TableModel.Cell.VAlignBottom | src/generator/table/cell.rs:169-173 | is `valign(Bottom)` |
| TableModel.Cell.Wrap | src/generator/table/cell.rs:175-178 | sets wrapping and nothing else |
| TableModel.SettersCommute | src/generator/table/cell.rs:91-178 | setters of different fields commute |
| TableModel.FormattedCell | src/generator/table/cell.rs:199-216 | the chained formatting of a new cell sets every field it names, with normalised colours |
| TableModel.Row.WithHeight | src/generator/table/row.rs:24-27 | sets the height and keeps the cells |
| TableModel.Row.CellCount | src/generator/table/row.rs:30-32 | the cell count is the number of cells |
| TableModel.NewRow | src/generator/table/row.rs:16-21 | a new row holds the cells and has no height |
| TableModel.Table.RowCount | src/generator/table/builder.rs:52-54 | the row count is the number of rows |
| TableModel.Table.ColumnCount | src/generator/table/builder.rs:57-59 | the column count is the number of column widths |
| TableModel.WidthMeaning | src/generator/table/builder.rs:39-41 | every column width is at most the width, and added columns add their widths |
| TableModel.WidthExample | src/generator/table/builder.rs:124-132 | columns of 1000000, 1500000 and 2000000 EMU give a width of 4500000 |
| TableModel.HeightMeaning | src/generator/table/builder.rs:44-49 | rows without a height count 400000 each, and an added row adds its own height |
| TableModel.FromData | src/generator/table/builder.rs:20-36 | one row per data row, each a new row of new cells from its strings, with the widths and position given |
| TableModel.TableBuilder.AddRow | src/generator/table/builder.rs:83-86 | appends the row at the end and changes nothing else |
| TableModel.TableBuilder.Position | src/generator/table/builder.rs:89-93 | sets x and y and keeps the rows and widths |
| TableModel.TableBuilder.Build | src/generator/table/builder.rs:96-103 | the built table has the rows in order, the widths and the position |
| TableModel.NewBuilder | src/generator/table/builder.rs:73-80 | a new builder has no rows, the given widths and position (0, 0) |
| TableModel.AddRowsAppend | src/generator/table/builder.rs:83-86 | rows added one by one land after the existing rows, in order |
| TableModel.BuiltTable | src/generator/table/builder.rs:71-103 | the builder gives the table of its rows, widths and position, whether `position` comes first or last |
| TableModel.BuilderMatchesFromData | src/generator/table/builder.rs:20-103 | adding the data rows through the builder gives the table `from_data` gives |
| Bullets.BulletStyle.ToXml | src/generator/slide_content/bullet.rs:27-38 | every style gives one self-closing `<a:bu…/>` element |
| Bullets.AutoNumStylesDistinct | src/generator/slide_content/bullet.rs:27-38 | different styles other than Bullet and Custom give different elements |
| Bullets.CustomDistinct | src/generator/slide_content/bullet.rs:35 | different custom characters give different elements |
| Bullets.BulletIsCustomDot | src/generator/slide_content/bullet.rs:29 | Bullet gives the same element as Custom('•') |
| Bullets.CustomQuoteBreaksAttribute | src/generator/slide_content/bullet.rs:35 | Custom('"') closes the char attribute early, leaving a stray quote |
| Bullets.BulletStyle.ToXmlFixed | src/generator/slide_content/bullet.rs:27-38 | with the character escaped, every style still gives one self-closing `<a:bu…/>` element |
| Bullets.FixedCustomAttribute | src/generator/slide_content/bullet.rs:35 | the escaped character holds no quote and unescapes to the character |
| Bullets.IndentAmounts | src/generator/slide_content/bullet.rs:41-45 | indent is 457200·(level+1) and marL is 457200·(2·level+1) |
| Bullets.IndentGrowth | src/generator/slide_content/bullet.rs:41-45 | each level adds 457200 to the indent and 914400 to marL; marL exceeds the indent by 457200·level; level 0 gives 457200 for both |
| Bullets.DefaultFormat | src/generator/slide_content/bullet.rs:64-66 | the default format sets no flag, colour, size or family |
| Bullets.BulletTextFormat.Bold | src/generator/slide_content/bullet.rs:68-71 | sets bold and nothing else |
| Bullets.BulletTextFormat.Italic | src/generator/slide_content/bullet.rs:73-76 | sets italic and nothing else |
| Bullets.BulletTextFormat.Underline | src/generator/slide_content/bullet.rs:78-81 | sets underline and nothing else |
| Bullets.BulletTextFormat.Strikethrough | src/generator/slide_content/bullet.rs:83-86 | sets strikethrough and nothing else |
| Bullets.BulletTextFormat.Subscript | src/generator/slide_content/bullet.rs:88-92 | sets subscript, clears superscript, and changes nothing else |
| Bullets.BulletTextFormat.Superscript | src/generator/slide_content/bullet.rs:94-98 | sets superscript, clears subscript, and changes nothing else |
| Bullets.BulletTextFormat.Color | src/generator/slide_content/bullet.rs:100-103 | stores the normalised colour (no leading '#', upper case), and nothing else changes |
| Bullets.BulletTextFormat.Highlight | src/generator/slide_content/bullet.rs:105-108 | stores the normalised highlight (no leading '#', upper case), and nothing else changes |
| Bullets.BulletTextFormat.FontSize | src/generator/slide_content/bullet.rs:110-113 | sets the font size and nothing else |
| Bullets.BulletTextFormat.FontFamily | src/generator/slide_content/bullet.rs:115-118 | sets the font family and nothing else |
| Bullets.SettersKeepScriptsExclusive | src/generator/slide_content/bullet.rs:64-118 | the default format and every setter keep subscript and superscript from both being set |
| Bullets.LastScriptWins | src/generator/slide_content/bullet.rs:88-98 | of subscript and superscript, the one set last wins |
| Bullets.NewBulletPoint | src/generator/slide_content/bullet.rs:131-138 | a new point has the text, level 0, style Bullet and no format |
| Bullets.BulletPoint.WithLevel | src/generator/slide_content/bullet.rs:140-143 | sets the level and nothing else |
| Bullets.BulletPoint.WithStyle | src/generator/slide_content/bullet.rs:145-148 | sets the style and nothing else |
| Bullets.BulletPoint.WithFormat | src/generator/slide_content/bullet.rs:150-153 | sets the format and nothing else |
| Bullets.BulletPoint.FormatOrDefault | src/generator/slide_content/bullet.rs:155-193 | the format the shortcuts start from is the point's own, or the default when it has none |
| Bullets.BulletPoint.Bold | src/generator/slide_content/bullet.rs:155-158 | is `with_format` of the current or default format, made bold |
| Bullets.BulletPoint.Italic | src/generator/slide_content/bullet.rs:160-163 | is `with_format` of the current or default format, made italic |
| Bullets.BulletPoint.Strikethrough | src/generator/slide_content/bullet.rs:165-168 | is `with_format` of the current or default format, struck through |
| Bullets.BulletPoint.Subscript | src/generator/slide_content/bullet.rs:170-173 | is `with_format` of the current or default format, made subscript |
| Bullets.BulletPoint.Superscript | src/generator/slide_content/bullet.rs:175-178 | is `with_format` of the current or default format, made superscript |
| Bullets.BulletPoint.Highlight | src/generator/slide_content/bullet.rs:180-183 | is `with_format` of the current or default format with the highlight |
| Bullets.BulletPoint.Color | src/generator/slide_content/bullet.rs:185-188 | is `with_format` of the current or default format with the colour |
| Bullets.BulletPoint.FontSize | src/generator/slide_content/bullet.rs:190-193 | is `with_format` of the current or default format with the size |
| Bullets.ShortcutCreatesFormat | src/generator/slide_content/bullet.rs:155-173 | on a point without a format, a shortcut creates the default format with its one field set, and changes nothing else |
| Bullets.ShortcutsKeepScriptsExclusive | src/generator/slide_content/bullet.rs:155-178 | the formats the shortcuts create never have both subscript and superscript |
| Shapes.ShapeType.PresetName | src/generator/shapes.rs:17-27 | every shape type has a non-empty preset name |
| Shapes.PresetNamesDistinct | src/generator/shapes.rs:17-27 | different shape types have different preset names |
| Shapes.Alpha | src/generator/shapes.rs:47-51 | the alpha is 100000 − 1000·p for p ≤ 100 and 0 above; it never exceeds 100000 |
| Shapes.AlphaMonotone | src/generator/shapes.rs:47-51 | more transparency never gives a larger alpha |
| Shapes.AlphaExamples | src/generator/shapes.rs:47-51 | 0 gives 100000, 50 gives 50000, 100 gives 0 |
| Shapes.ShapeFill.Transparency | src/generator/shapes.rs:47-51 | `transparency` stores the alpha of the percentage and keeps the colour |
| Shapes.NewFill | src/generator/shapes.rs:39-44 | a new fill stores the normalised colour (no leading '#', upper case), with no transparency |
| Shapes.NewLine | src/generator/shapes.rs:63-68 | a new line stores the normalised colour (no leading '#', upper case), and the width |
| Shapes.FillAndLineAgree | src/generator/shapes.rs:39-68 | a fill and a line store the same string for a colour given with or without '#' |
| Shapes.FillExample | src/generator/shapes.rs:39-51 | "FF0000" at 50% gives colour "FF0000" and alpha 50000 |
| Shapes.NewShape | src/generator/shapes.rs:86-97 | a new shape has the type and box given and no fill, line or text |
| Shapes.Shape.WithFill | src/generator/shapes.rs:100-103 | sets the fill and nothing else |
| Shapes.Shape.WithLine | src/generator/shapes.rs:106-109 | sets the line and nothing else |
| Shapes.Shape.WithText | src/generator/shapes.rs:112-115 | sets the text and nothing else |
| Shapes.SettersIndependent | src/generator/shapes.rs:100-115 | the `with_*` setters commute and keep the type and box |
| ImageParts.ExtensionOf | src/parts/image.rs:94-99 | "jpeg" is stored under "jpg", and every other format is its own extension |
| ImageParts.MimeOf | src/parts/image.rs:82-91 | the MIME type is octet-stream exactly for formats outside png, jpg, jpeg, gif, bmp, tiff and tif |
| ImageParts.New | src/parts/image.rs:22-36 | a new part holds the number, the lower-cased format and the data, with no dimensions |
| ImageParts.NewPathAgrees | src/parts/image.rs:22-36 | a new part's path is ppt/media/image{n}.{extension()}, and the extension has the format's MIME type |
| ImageParts.MediaPathsDistinct | src/parts/image.rs:29 | media paths of different image numbers differ, whatever the extensions |
| ImageParts.PathsDistinct | src/parts/image.rs:22-36 | images of different numbers never share a path |
| ImageParts.PngExample | src/parts/image.rs:135-142 | image 1 as "png" is at ppt/media/image1.png with format "png" |
| ImageParts.JpegExample | src/parts/image.rs:82-91 | "JPEG" is stored as "jpeg" and has MIME type image/jpeg |
| ImageParts.ImagePart.RelTarget | src/parts/image.rs:102-104 | the target climbs out of the slide directory with "../" |
| ImageParts.RelTargetExample | src/parts/image.rs:154-157 | image 3 as "png" is referenced as "../media/image3.png", and as "jpeg" as "../media/image3.jpg" |
| ImageParts.RelTargetResolves | src/parts/image.rs:102-104 | from any slide's rels part, the target resolves to the image's own path |
| ImageParts.NewRelTargetResolves | src/parts/image.rs:22-36 | for every new image, the target resolves back to its path |
| ImageParts.ImagePart.SetDimensions | src/parts/image.rs:66-69 | sets the width and height and nothing else |
| ImageParts.ImagePart.ToXml | src/parts/image.rs:120-123 | always fails with InvalidOperation |
| ImageParts.FromXml | src/parts/image.rs:125-127 | always fails with InvalidOperation |
| FontSizes.ToEmu | src/prelude.rs:72-75 | the value is a whole number of hundredths, and dividing by 100 gives the point size back |
| FontSizes.ToEmuMonotone | src/prelude.rs:52-75 | larger point sizes give larger values |
| FontSizes.ToEmuExamples | src/prelude.rs:52-75 | TITLE (44) gives 4400 and BODY (18) gives 1800 |
| Themes.All | src/prelude.rs:478-480 | there are seven themes, with distinct names |
| Themes.AllWellFormed | src/prelude.rs:393-476 | every colour of every theme is six upper-case hexadecimal digits |
| Themes.ThemeWellFormed | src/prelude.rs:393-476 | each listed theme's colours are six upper-case hexadecimal digits |
| Themes.ThemeExamples | src/prelude.rs:619-625 | the first theme is named "Corporate" and Dark's background is "121212" |
| Layouts.CenterX | src/prelude.rs:495-497 | the room left of the shape equals the room right of it, or is 1 EMU less |
| Layouts.CenterY | src/prelude.rs:500-502 | the room above the shape equals the room below it, or is 1 EMU less |
| Layouts.Center | src/prelude.rs:505-507 | both coordinates are centred in that sense |
| Layouts.CenterExample | src/prelude.rs:628-636 | a 1000000 × 500000 shape is placed at ((9144000 − 1000000)/2, (6858000 − 500000)/2) |
| Layouts.GridRow | src/prelude.rs:517-523 | row r holds one position per column, x advancing by the cell width and y at r cell heights |
| Layouts.Grid | src/prelude.rs:511-526 | the nested loops return exactly the row-major grid centred on the slide |
| Layouts.GridRowsLength | src/prelude.rs:511-526 | a grid of r rows has r·cols positions |
| Layouts.GridRowsAt | src/prelude.rs:517-523 | cell (r, c) is at index r·cols + c, at x = start + c·width and y = start + r·height |
| Layouts.GridRowsInside | src/prelude.rs:511-526 | when the grid fits, every cell lies inside the slide |
| Layouts.GridMeaning | src/prelude.rs:511-526 | `grid` gives rows·cols positions in row-major order, each cell inside the slide |
| Layouts.GridExample | src/prelude.rs:639-642 | a 2 × 3 grid has 6 positions |
| Layouts.StackHorizontal | src/prelude.rs:529-536 | a horizontal stack has one position per shape |
| Layouts.StackVertical | src/prelude.rs:539-546 | a vertical stack has one position per shape |
| Layouts.SpanEnd | src/prelude.rs:530 | the last shape of a stack ends where the stack's span ends |
| Layouts.StackHorizontalMeaning | src/prelude.rs:529-536 | the stack keeps y, its x values step by width + spacing, and it is centred to within 1 EMU |
| Layouts.StackVerticalMeaning | src/prelude.rs:539-546 | the stack keeps x, its y values step by height + spacing, and it is centred to within 1 EMU |
| Layouts.StackExample | src/prelude.rs:645-654 | four 500000-wide shapes with 100000 spacing are 600000 apart |
| Layouts.DistributeHorizontal | src/prelude.rs:549-563 | one position per shape |
| Layouts.DistributeMeaning | src/prelude.rs:549-563 | 0 shapes give none and 1 a centred one; more start at MARGIN, are spaced equally and end within the right margin |
| Layouts.GapFits | src/prelude.rs:557-558 | the integer gaps fit in the width the shapes leave between the margins |
| Layouts.DistributeExample | src/prelude.rs:657-660 | three shapes give three positions |
| MarkdownSlides.Classify | src/cli/commands.rs:82-97 | a line is a heading exactly when its trimmed form starts with "# ", and a bullet exactly when it is not a heading and starts with "- ", "* " or "+ " |
| MarkdownSlides.ParseMarkdownLoop | src/cli/commands.rs:78-123 | the loop over the lines, followed by pushing the last slide, returns `Ok` of the fold that specifies the parse; it never fails |
| MarkdownSlides.FoldAccounted | src/cli/commands.rs:81-114 | after any prefix of the lines, the pushed slides plus the open one have one title per heading, preceded by "Slide" when a bullet came first, and hold the bullet texts in order; a slide is open exactly when one was started |
| MarkdownSlides.StepAccounted | src/cli/commands.rs:82-113 | one line keeps that account: a heading appends its title, a bullet with text appends its text, anything else changes nothing |
| MarkdownSlides.HeadingHolds | src/cli/commands.rs:86-95 | a heading pushes the open slide and opens one titled with its text, with the bullets unchanged |
| MarkdownSlides.ContentHolds | src/cli/commands.rs:97-112 | a bullet with text goes to the open slide, or to a new slide titled "Slide" when none is open |
| MarkdownSlides.ParseMarkdownMeaning | src/cli/commands.rs:78-123 | the slides are one per heading, in order, preceded by one titled "Slide" exactly when a bullet with text comes before every heading; their bullets are the bullet lines with text, in order |
| MarkdownSlides.HeadingFirst | src/cli/commands.rs:86-112 | when the first line is a heading, no bullet precedes every heading |
| MarkdownSlides.SlidesPerHeading | src/cli/commands.rs:116-121 | a text whose first line is a heading gives exactly one slide per heading, titled in order |
| MarkdownSlides.SkippedLines | src/cli/commands.rs:103-113 | a line that is neither a heading nor a bullet with text leaves the state unchanged |
| MarkdownSlides.HeadingOpensSlide | src/cli/commands.rs:86-95 | a heading pushes the open slide and opens a new one with the trimmed title and default content |
| Flowcharts.ParseDirection | src/cli/markdown/mermaid/flowchart.rs:9-20 | LeftToRight iff the uppercased line contains "LR"; RightToLeft iff it contains "RL" but not "LR"; BottomToTop iff it contains "BT" and neither of the others; TopToBottom otherwise |
| Flowcharts.DirectionIgnoresCase | src/cli/markdown/mermaid/flowchart.rs:9-20 | lowercasing the first line does not change the direction read from it |
| Flowcharts.SplitConnection | src/cli/markdown/mermaid/flowchart.rs:110-119 | None iff none of the five arrows occurs; otherwise the line is the text before the first occurrence of the first arrow in list order followed by the rest, the rest starts with that arrow, and the from part is the text before, trimmed |
| Flowcharts.SplitConnectionLoop | src/cli/markdown/mermaid/flowchart.rs:110-119 | the loop over the arrows returns what the split specifies |
| Flowcharts.ArrowReadBack | src/cli/markdown/mermaid/flowchart.rs:122-136 | a text starting with the k-th arrow is read as that arrow's style (==> Thick, -.-> Dotted, --> Arrow, --- Open, -> Arrow), with the trimmed text after the arrow |
| Flowcharts.SplitThenParse | src/cli/markdown/mermaid/flowchart.rs:55-56 | the rest the split returns is read back as the arrow it was split at |
| Flowcharts.ExtractArrowLabel | src/cli/markdown/mermaid/flowchart.rs:139-148 | with no label the text is unchanged; a found label contains no bar character |
| Flowcharts.LabelShape | src/cli/markdown/mermaid/flowchart.rs:139-148 | for a text made of a, a bar, the caption, a bar and b, with no bar in a or the caption, the label is the caption and the rest is b trimmed |
| Flowcharts.NoLabel | src/cli/markdown/mermaid/flowchart.rs:139-148 | a text with at most one bar character is returned unchanged with no label |
| Flowcharts.ParseNodeDef | src/cli/markdown/mermaid/flowchart.rs:151-183 | a returned node carries the returned id; no node means the result is the trimmed text and it is not a plain id; a plain id of letters, digits and '_' is a Rectangle labelled with itself |
| Flowcharts.ParseNodeDefLoop | src/cli/markdown/mermaid/flowchart.rs:151-183 | the bracket loop computes the node definition |
| Flowcharts.PlainHasNoBracket | src/cli/markdown/mermaid/flowchart.rs:155-174 | a plain id matches none of the six bracket pairs |
| Flowcharts.RectangleNode | src/cli/markdown/mermaid/flowchart.rs:155-168 | id[caption] is a Rectangle with that id and caption |
| Flowcharts.RoundedNode | src/cli/markdown/mermaid/flowchart.rs:155-168 | id(caption) is a RoundedRect with that id and caption |
| Flowcharts.DiamondNode | src/cli/markdown/mermaid/flowchart.rs:155-168 | id{caption} is a Diamond with that id and caption |
| Flowcharts.CircleNode | src/cli/markdown/mermaid/flowchart.rs:155-168 | id((caption)) is a Circle, the "((" pair being tried before "(" |
| Flowcharts.StadiumNode | src/cli/markdown/mermaid/flowchart.rs:155-168 | id([caption]) is a Stadium, the "([" pair being tried before "[" and "(" |
| Flowcharts.HexagonNode | src/cli/markdown/mermaid/flowchart.rs:155-168 | id{{caption}} is a Hexagon, the "{{" pair being tried before "{" |
| Flowcharts.SubgraphColor | src/cli/markdown/mermaid/flowchart.rs:361-364 | every subgraph colour is a six-digit hex colour |
| Flowcharts.SubgraphColorsCycle | src/cli/markdown/mermaid/flowchart.rs:361-364 | colours repeat every 6 indices, and indices with different remainders mod 6 get different colours |
| Flowcharts.RecordNode | src/cli/markdown/mermaid/flowchart.rs:59-66 | a parsed node is inserted unless its id is taken, and listed once in the open subgraph |
| Flowcharts.ApplyLink | src/cli/markdown/mermaid/flowchart.rs:55-86 | both endpoints are recorded, from first, and the connection is appended |
| Flowcharts.ReadConnection | src/cli/markdown/mermaid/flowchart.rs:55-71 | the arrow, both node definitions and the arrow label read from a split connection line |
| Flowcharts.ParseLink | src/cli/markdown/mermaid/flowchart.rs:55-86 | a connection line applied to the parser state |
| Flowcharts.ParseDefine | src/cli/markdown/mermaid/flowchart.rs:87-97 | a standalone node definition applied to the parser state |
| Flowcharts.ParseStatement | src/cli/markdown/mermaid/flowchart.rs:54-98 | a line that is not blank, a comment or a subgraph marker is a connection or a definition, applied to the state |
| Flowcharts.ParseLine | src/cli/markdown/mermaid/flowchart.rs:34-98 | one trimmed body line applied to the state: skipped, opening or closing a subgraph, or a statement |
| Flowcharts.Parse | src/cli/markdown/mermaid/flowchart.rs:23-107 | the loop gives the direction of the first line and the state after folding every later line |
| Flowcharts.BlankLinesIgnored | src/cli/markdown/mermaid/flowchart.rs:35-37 | an empty or "%%" line leaves the whole state unchanged |
| Flowcharts.ApplyKeepsNodes | src/cli/markdown/mermaid/flowchart.rs:61-91 | no line changes or removes a node already recorded |
| Flowcharts.FirstDefinitionKept | src/cli/markdown/mermaid/flowchart.rs:59-97 | a node recorded after some lines keeps its first definition whatever lines follow |
| Flowcharts.OneConnectionPerLink | src/cli/markdown/mermaid/flowchart.rs:55-86 | a connection line appends exactly its one connection; any other line leaves the connections unchanged |
| Flowcharts.ConnectionsCounted | src/cli/markdown/mermaid/flowchart.rs:81-86 | the number of connections is the number of connection lines |
| Flowcharts.RecordWellFormed | src/cli/markdown/mermaid/flowchart.rs:59-66 | recording a node keeps every node keyed by its own id and every subgraph's list distinct and of recorded nodes |
| Flowcharts.ApplyWellFormed | src/cli/markdown/mermaid/flowchart.rs:33-98 | every kind of line keeps that invariant |
| Flowcharts.FoldWellFormed | src/cli/markdown/mermaid/flowchart.rs:33-99 | the invariant holds after any lines |
| Flowcharts.ParsedWellFormed | src/cli/markdown/mermaid/flowchart.rs:23-107 | in the parsed flowchart every node is keyed by its id, and no subgraph lists a node twice or a node that was not recorded |
| Flowcharts.SubgraphLines | src/cli/markdown/mermaid/flowchart.rs:40-52 | "end" with no open subgraph changes nothing; "subgraph name" opens an empty subgraph and keeps the closed ones |
| Flowcharts.StatementKinds | src/cli/markdown/mermaid/flowchart.rs:54-89 | a statement is a connection iff some arrow occurs in it, and a node definition otherwise |
| MermaidTypes.NewShape | src/generator/shapes.rs:86-98 | a shape has the given kind, position and size, and no fill, line or text |
| MermaidTypes.Least | src/cli/markdown/mermaid/types.rs:101-123 | the least coordinate is at most the start value and every element's, and is the start value or some element's |
| MermaidTypes.Most | src/cli/markdown/mermaid/types.rs:101-123 | the greatest coordinate is at least every element's, and is 0 or some element's |
| MermaidTypes.FromElements | src/cli/markdown/mermaid/types.rs:101-124 | None for no elements; otherwise the box from the least left and top edges to the greatest right and bottom edges |
| MermaidTypes.Extremes | src/cli/markdown/mermaid/types.rs:106-118 | the loop keeps the running minima of the left and top edges and maxima of the right and bottom edges |
| MermaidTypes.EdgesStep | src/cli/markdown/mermaid/types.rs:108-117 | one more element folds its edges into each running extreme |
| MermaidTypes.BoundsFromExtremes | src/cli/markdown/mermaid/types.rs:119-123 | the extremes of 32-bit boxes give the box by plain subtraction, the right edge never left of the left edge |
| MermaidTypes.BoundsTight | src/cli/markdown/mermaid/types.rs:101-123 | every element lies within the box, and each of the box's four edges is some element's edge |
| MermaidTypes.RectsOf | src/cli/markdown/mermaid/types.rs:139-145 | each shape gives its own x, y, width and height, in order |
| MermaidTypes.FromShapesAndConnectors | src/cli/markdown/mermaid/types.rs:155-169 | the shapes and connectors are kept, grouped is true, and the bounds are those of the shapes, None for no shapes |
| MermaidTypes.FromShapes | src/cli/markdown/mermaid/types.rs:139-153 | the shapes are kept, there are no connectors, grouped is true, and the bounds are those of the shapes |
| MermaidTypes.Empty | src/cli/markdown/mermaid/types.rs:171-178 | no shapes, no connectors, no bounds, not grouped |
| MermaidDetect.DetectLine | src/cli/markdown/mermaid/mod.rs:35-55 | Flowchart iff the line starts with "graph" or "flowchart"; Unknown iff it starts with none of the ten keywords |
| MermaidDetect.DetectedByFirstLine | src/cli/markdown/mermaid/mod.rs:32-33 | the type depends only on the first line, trimmed and lowercased |
| MermaidDetect.OneLine | src/cli/markdown/mermaid/mod.rs:32-33 | a one-line code block without surrounding blanks is detected by its lowercased text |
| MermaidDetect.BlankFirstLine | src/cli/markdown/mermaid/mod.rs:32-55 | a blank first line gives Unknown, whatever follows |
| MermaidDetect.CommentFirstLine | src/cli/markdown/mermaid/mod.rs:32-55 | a first line starting with "%%" gives Unknown, whatever follows |
| MermaidDetect.DetectsSequence | src/cli/markdown/mermaid/mod.rs:37-38 | a line starting with "sequence" is a Sequence diagram, tested before class and state |
| MermaidDetect.DetectsPie | src/cli/markdown/mermaid/mod.rs:39-40 | a line starting with "pie" is a Pie chart |
| MermaidDetect.DetectsGantt | src/cli/markdown/mermaid/mod.rs:41-42 | a line starting with "gantt" is a Gantt chart |
| MermaidDetect.DetectsClass | src/cli/markdown/mermaid/mod.rs:43-44 | a line starting with "class" is a class diagram |
| MermaidDetect.DetectsState | src/cli/markdown/mermaid/mod.rs:45-46 | a line starting with "state" is a state diagram |
| MermaidDetect.DetectsEr | src/cli/markdown/mermaid/mod.rs:47-48 | a line starting with "er" is an ER diagram |
| MermaidDetect.DetectsMindmap | src/cli/markdown/mermaid/mod.rs:49-50 | a line starting with "mindmap" is a mind map |
| MermaidDetect.DetectsTimeline | src/cli/markdown/mermaid/mod.rs:51-52 | a line starting with "timeline" is a timeline |
| MermaidDetect.PercentUnknown | src/cli/markdown/mermaid/mod.rs:53-54 | a line starting with '%' matches no keyword and is Unknown |
| MermaidDetect.ErrorIsEr | src/cli/markdown/mermaid/mod.rs:47-48 | the "er" prefix test makes "error" an ER diagram |
| MermaidDetect.DiagramStyle | src/cli/markdown/mermaid/mod.rs:128-141 | every type has a hex fill and a hex line colour, a non-empty name and an empty fourth field |
| MermaidDetect.StylesDistinct | src/cli/markdown/mermaid/mod.rs:128-141 | different types have different names and different fill colours |
| XmlAttrs.SlotRead | src/oxml/text.rs:21-32 | when the optional properties have distinct names, reading a property's name back from the pushed attributes gives exactly its value, and nothing when it was not pushed |
| XmlAttrs.SlotAbsent | src/oxml/text.rs:21-32 | a name that no property writes is absent when read back |
| XmlAttrs.PresentEmpty | src/oxml/text.rs:59-63 | nothing is pushed if and only if every optional property is unset |
| XmlAttrs.BareElement | src/oxml/text.rs:59-63 | the element is written as `<tag/>` if and only if every optional property is unset |
| XmlAttrs.Written | src/oxml/text.rs:36-62 | each pushed attribute is written as `name="value"`, one per pushed pair, in push order |
| XmlAttrs.TextsRead | src/oxml/text.rs:25-30 | a u32 or i32 written in decimal parses back to the same number, and a flag written "1" or left out reads back as itself |
| OxmlText.BodySlots | src/oxml/text.rs:34-57 | `a:bodyPr` has seven optional attributes with distinct names |
| OxmlText.BareBodyPr | src/oxml/text.rs:34-63 | the body properties are written `<a:bodyPr/>` if and only if wrap, anchor and the four insets are unset and rtlCol is off |
| OxmlText.BodyPropertiesRoundTrip | src/oxml/text.rs:21-57 | parsing the pushed attribute list gives the body properties back, except `anchor_ctr`, which `to_xml` never writes and which reads back as false |
| OxmlText.ParagraphSlots | src/oxml/text.rs:88-110 | `a:pPr` has five optional attributes with distinct names |
| OxmlText.LevelWrittenAboveZero | src/oxml/text.rs:93-96 | `lvl` is written if and only if the level is above zero, and then reads back as the level |
| OxmlText.ParagraphPropertiesRoundTrip | src/oxml/text.rs:78-110 | parsing the pushed attribute list gives the paragraph properties back unchanged |
| OxmlText.BarePPr | src/oxml/text.rs:88-115 | the paragraph properties are written `<a:pPr/>` if and only if alignment, indent and margin are unset, the level is 0 and rtl is off |
| OxmlText.RunAttrsAlwaysTagged | src/oxml/text.rs:157-164 | `a:rPr` always carries lang="en-US" and the b and i flags as "1" or "0" |
| OxmlText.RPrSelfClosing | src/oxml/text.rs:171-189 | the run properties element is self-closing if and only if neither colour nor font family is set |
| OxmlText.RunPropertiesRoundTrip | src/oxml/text.rs:130-189 | parsing the pushed attribute list, with the colour and typeface found in the children, gives the run properties back with lang set to "en-US" |
| OxmlText.NewRun | src/oxml/text.rs:199-204 | a new run carries the text and the default run properties |
| OxmlText.RunTextEscaped | src/oxml/text.rs:215-221 | a run is `<a:r>`, its properties, and the escaped text in `<a:t>`; the escaped text holds no markup character and unescapes to the run's text |
| OxmlText.ParagraphToXml | src/oxml/text.rs:252-260 | the loop writes `<a:p>`, the properties, every run in order and `</a:p>` |
| OxmlText.EscapedTextsConcat | src/oxml/text.rs:215-221 | escaping the runs one by one gives the escape of their concatenated text |
| OxmlText.ParagraphTextCarried | src/oxml/text.rs:252-264 | unescaping the texts a paragraph writes gives its `text()` |
| OxmlText.TextBodyToXml | src/oxml/text.rs:301-313 | the loop writes `<p:txBody>`, the body properties, `<a:lstStyle/>`, every paragraph in order, `<a:p/>` when there is none, and `</p:txBody>` |
| OxmlText.BodyHoldsParagraph | src/oxml/text.rs:301-313 | a written text body always holds a paragraph: `<a:p/>` when it has none, `<a:p>` otherwise |
| OxmlText.AllTextLines | src/oxml/text.rs:315-320 | when no paragraph text holds a line break and the last is not empty, splitting `all_text` at line breaks gives back each paragraph's text |
| OxmlTable.CellPropertySlots | src/oxml/table.rs:28-46 | `a:tcPr` has five optional attributes with distinct names |
| OxmlTable.BareTcPr | src/oxml/table.rs:28-52 | the cell properties are written `<a:tcPr/>` if and only if they are the default ones |
| OxmlTable.CellPropertiesRoundTrip | src/oxml/table.rs:18-52 | parsing the pushed attribute list gives the cell properties back unchanged |
| OxmlTable.NewCell | src/oxml/table.rs:65-72 | a new cell carries the text, spans of 1 and the default properties |
| OxmlTable.SpansWrittenAboveOne | src/oxml/table.rs:89-96 | `rowSpan` and `gridSpan` are written if and only if the span is above 1 |
| OxmlTable.SpanRead | src/oxml/table.rs:78-79 | a written span reads back as itself when above 1, and is absent otherwise |
| OxmlTable.NewCellXml | src/oxml/table.rs:65-72 | a new cell is written with no span attributes and a bare `<a:tcPr/>` |
| OxmlTable.CellRoundTrip | src/oxml/table.rs:74-106 | parsing a cell's pushed span attributes, given its text and properties, gives the cell back, with a span of 0 read as 1 |
| OxmlTable.CellTextEscaped | src/oxml/table.rs:89-106 | a cell is `<a:tc>` with its spans, a fixed text body holding the escaped text, and its properties; the escaped text unescapes to the cell's text |
| OxmlTable.NewRow | src/oxml/table.rs:117-122 | a new row has no cells and the default height |
| OxmlTable.AddCell | src/oxml/table.rs:143-146 | `add_cell` appends the cell and keeps the height |
| OxmlTable.RowToXml | src/oxml/table.rs:134-141 | the loop writes `<a:tr h="…">`, every cell in order and `</a:tr>` |
| OxmlTable.DefaultRowHeight | src/oxml/table.rs:117-125 | the default row height is 370840 EMU, a new row is written `<a:tr h="370840"></a:tr>`, and a row without a readable `h` parses with that height |
| OxmlTable.RowHeightRoundTrip | src/oxml/table.rs:124-141 | a row's written height parses back to the same height |
| OxmlTable.NewTable | src/oxml/table.rs:179-184 | a new table has no rows and no grid columns |
| OxmlTable.ParseTable | src/oxml/table.rs:186-207 | the grid columns are read from `tblGrid`, one per `gridCol`, in order, and are empty when there is no `tblGrid` |
| OxmlTable.AddRow | src/oxml/table.rs:239-242 | `add_row` appends the row and keeps the grid |
| OxmlTable.AddColumn | src/oxml/table.rs:244-247 | `add_column` appends a grid column of the width and keeps the rows |
| OxmlTable.BuildersCount | src/oxml/table.rs:231-247 | `add_row` adds one to `row_count` and keeps `col_count`; `add_column` adds one to `col_count`, keeps `row_count`, and the new column has the width |
| OxmlTable.TableToXml | src/oxml/table.rs:209-229 | the loops write the table head, every grid column in order, `</a:tblGrid>`, every row in order and `</a:tbl>` |
| OxmlTable.GridRoundTrip | src/oxml/table.rs:166-168 | reading the `a:gridCol` elements of written grid columns gives back their widths, in order, and the text after them |
| OxmlTable.TableGridRead | src/oxml/table.rs:209-235 | a written table's grid reads back as the widths of its columns, as many as `col_count` |
| OxmlSlide.NewRun | src/oxml/slide.rs:19-30 | a new run carries the text, with no bold, italic or underline, and no size or colour |
| OxmlSlide.NewShape | src/oxml/slide.rs:71-82 | a new shape carries the name, no type, no paragraphs, and zero position and size |
| OxmlSlide.ShapeTextLines | src/oxml/slide.rs:84-90 | when no paragraph text holds a line break and the last is not empty, splitting the shape's text at line breaks gives each paragraph's text |
| OxmlSlide.ShapeTextEmpty | src/oxml/slide.rs:84-90 | a shape whose paragraphs all have text has empty text if and only if it has no paragraphs |
| OxmlSlide.ParseParagraph | src/oxml/slide.rs:245-283 | the loop reads the level (0 when absent or unreadable) and keeps, in order, a run for every `a:r` whose text is not empty, with its formatting |
| OxmlSlide.ParseTextBody | src/oxml/slide.rs:242-286 | the loop parses every `a:p` in order and keeps those with at least one run |
| OxmlSlide.KeptRunsNonEmpty | src/oxml/slide.rs:256-259 | every kept run has non-empty text |
| OxmlSlide.KeptRunsText | src/oxml/slide.rs:256-259 | dropping the empty runs does not change the paragraph's text |
| OxmlSlide.ParagraphKept | src/oxml/slide.rs:279-281 | a parsed paragraph has runs if and only if its raw text is not empty, and its text is the raw text |
| OxmlSlide.TextBodyTexts | src/oxml/slide.rs:242-286 | the texts of the parsed paragraphs are the non-empty raw paragraph texts, in order |
| OxmlSlide.TextBodyFilled | src/oxml/slide.rs:242-286 | every parsed paragraph has runs and non-empty text, and every run has non-empty text |
| OxmlSlide.ParseShape | src/oxml/slide.rs:209-240 | a shape takes the `cNvPr` name or "Shape", the offset and extent (0 when absent or unreadable), the preset and the parsed text body |
| OxmlSlide.CoordinateRead | src/oxml/slide.rs:219-226 | a coordinate written in decimal reads back as itself, and a missing `off` or `ext` gives 0 |
| OxmlSlide.ShapeTextOf | src/oxml/slide.rs:84-90 | a parsed shape's text joins the non-empty raw paragraph texts with line breaks, and is empty if and only if every raw paragraph text is empty |
| OxmlSlide.ShapeRoles | src/oxml/slide.rs:288-330 | a "title" or "ctrTitle" placeholder is a title shape; a placeholder without type, with type "body" or with an empty type is a body shape; a placeholder without type or name is no title; a named shape is checked for "title" in its lowercased name |
| OxmlSlide.RowOf | src/oxml/slide.rs:337-353 | a row holds one cell per `a:tc`, in order |
| OxmlSlide.ParseTableFromFrame | src/oxml/slide.rs:332-363 | the loop reads the rows of the frame's table, keeps the non-empty ones, and gives no table when none is kept |
| OxmlSlide.TableRowsKept | src/oxml/slide.rs:337-357 | exactly the non-empty rows are kept, in order; the first kept row is the first non-empty one |
| OxmlSlide.TableCounts | src/oxml/slide.rs:107-118 | a frame gives a table if and only if it holds a table with a non-empty row; then `row_count` is the number of non-empty rows and `col_count` is the length of the first non-empty row, both above 0 |
| OxmlSlide.EmptyTableCounts | src/oxml/slide.rs:107-118 | an empty table has `row_count` and `col_count` 0 |
| OxmlSlide.StepParts | src/oxml/slide.rs:180-196 | one shape step appends the shape, sets the title to its text when it is a title shape, otherwise appends its non-empty paragraph texts to the body text when it is a body shape, and keeps the tables |
| OxmlSlide.ParseSlide | src/oxml/slide.rs:174-207 | the loops parse every shape and every graphic frame of the shape tree in order, and give an empty slide when there is no shape tree |
| OxmlSlide.PushParagraphTexts | src/oxml/slide.rs:186-193 | the loop appends the non-empty paragraph texts, in order |
| OxmlSlide.ParseFrames | src/oxml/slide.rs:198-203 | the loop appends the table of every frame that gives one, in order |
| OxmlSlide.ShapesListed | src/oxml/slide.rs:180-196 | every shape of the tree is listed, in order |
| OxmlSlide.TitleLastWins | src/oxml/slide.rs:183-185 | there is a title if and only if some shape is a title shape, and then it is the text of the last one |
| OxmlSlide.BodyTextComplete | src/oxml/slide.rs:186-193 | the body text is the non-empty paragraph texts of the body shapes that are not title shapes, in order, and none is empty |
| OxmlSlide.TablesHaveRows | src/oxml/slide.rs:198-203 | there are at most as many tables as frames, and every table has at least one row and one column |
| OxmlSlide.AllText | src/oxml/slide.rs:146-161 | the loop lists the title, then the body text, then each non-empty shape text |
| OxmlSlide.AllTextOrder | src/oxml/slide.rs:146-161 | `all_text` starts with the title when there is one, follows with the body text unchanged, and then lists exactly the non-empty shape texts |
| SequenceDiagrams.WordEnd | src/cli/markdown/mermaid/sequence.rs:22 | the first word ends at the first whitespace character, or at the end of the text, and holds no whitespace |
| SequenceDiagrams.ParseSequence | src/cli/markdown/mermaid/sequence.rs:13-52 | the loop reads every line after the first, trimmed, and gives the fold of the lines' statements |
| SequenceDiagrams.ParseLine | src/cli/markdown/mermaid/sequence.rs:14-51 | one line lists a new non-empty participant with its alias or first word as name, or lists a message's unlisted endpoints (named by their ids) and keeps the message |
| SequenceDiagrams.ApplyNames | src/cli/markdown/mermaid/sequence.rs:25-28 | a line keeps exactly the listed ids named and never renames a listed participant |
| SequenceDiagrams.ApplyKeeps | src/cli/markdown/mermaid/sequence.rs:25-48 | a line keeps the ids distinct and every message's endpoints listed, only appends ids, keeps every name, and appends exactly the message of a message line |
| SequenceDiagrams.EndpointKept | src/cli/markdown/mermaid/sequence.rs:39-46 | listing an endpoint keeps the state well formed, keeps the earlier ids, and lists the endpoint |
| SequenceDiagrams.FoldWellFormed | src/cli/markdown/mermaid/sequence.rs:13-52 | after any lines, the participant ids are distinct, exactly they have display names, and every message's endpoints are listed |
| SequenceDiagrams.EndpointsAppended | src/cli/markdown/mermaid/sequence.rs:39-46 | a message appends its sender when not listed, then its receiver when not listed and not the sender |
| SequenceDiagrams.AliasNames | src/cli/markdown/mermaid/sequence.rs:17-20 | `participant X as Y` declares the trimmed id X with display name Y |
| SequenceDiagrams.DashedArrowFirst | src/cli/markdown/mermaid/sequence.rs:31-33 | a line holding "-->>" is split on "-->>", though it also holds "->>" |
| SequenceDiagrams.DashedArrowExample | src/cli/markdown/mermaid/sequence.rs:32-37 | "A-->>B: Hi" is a message from A to B with text "Hi" |
| SequenceDiagrams.PlainArrowExample | src/cli/markdown/mermaid/sequence.rs:32-37 | split on "->>" instead, "A-->>B: Hi" would come from "A-", which is why "-->>" is tested first |
| SequenceDiagrams.FirstNameKept | src/cli/markdown/mermaid/sequence.rs:25-28 | the display name a participant gets when first listed is its name after all later lines |
| SequenceDiagrams.GenerateShapes | src/cli/markdown/mermaid/sequence.rs:7-120 | the shapes are the participants' shapes, in order, followed by the messages' shapes, in order |
| SequenceDiagrams.LayoutParticipants | src/cli/markdown/mermaid/sequence.rs:63-91 | the loop places the i-th participant at x = 500000 + 1800000 i, pushes its three shapes and records its x |
| SequenceDiagrams.LayoutMessages | src/cli/markdown/mermaid/sequence.rs:93-117 | the loop pushes each message's arrow and label, in order, skipping messages whose endpoints have no x |
| SequenceDiagrams.ParticipantsPlaced | src/cli/markdown/mermaid/sequence.rs:65-91 | participant i gets shapes 3i to 3i+2: the top box, the lifeline and the bottom box in its column with its display name |
| SequenceDiagrams.PositionsOfDistinct | src/cli/markdown/mermaid/sequence.rs:63-67 | for distinct ids, exactly the listed ids have an x, and the i-th has the i-th column |
| SequenceDiagrams.MessagesPlaced | src/cli/markdown/mermaid/sequence.rs:96-116 | when every endpoint has an x, each message gives exactly two shapes |
| SequenceDiagrams.ShapeCount | src/cli/markdown/mermaid/sequence.rs:7-120 | a sequence diagram gives three shapes per participant and two per message |
| SequenceDiagrams.MessageArrow | src/cli/markdown/mermaid/sequence.rs:96-116 | a message's arrow points right exactly when the sender's column is left of the receiver's, spans the two centres, sits 450000 lower per message, and its label sits 180000 above it with the message text |
| StateDiagrams.Renamed | src/cli/markdown/mermaid/state_diagram.rs:32-33 | the pseudo-state "[*]" is renamed, so no renamed endpoint is "[*]" |
| StateDiagrams.TransitionOf | src/cli/markdown/mermaid/state_diagram.rs:23-33 | neither endpoint of a transition is "[*]" |
| StateDiagrams.ParseStates | src/cli/markdown/mermaid/state_diagram.rs:16-41 | the loop reads every line after the first, trimmed, and gives the fold of the lines' transitions |
| StateDiagrams.ParseStateLine | src/cli/markdown/mermaid/state_diagram.rs:17-40 | one line lists the transition's source, then its target, when not yet listed, and keeps the transition; other lines change nothing |
| StateDiagrams.EndpointsAre | src/cli/markdown/mermaid/state_diagram.rs:35-38 | a state is an endpoint of the transitions if and only if some transition starts or ends at it |
| StateDiagrams.NoPseudoState | src/cli/markdown/mermaid/state_diagram.rs:32-33 | no transition read from a line starts or ends at "[*]" |
| StateDiagrams.ListedDistinct | src/cli/markdown/mermaid/state_diagram.rs:35-36 | listing a state keeps the states distinct, adds exactly that state, and keeps the earlier ones in place |
| StateDiagrams.ApplyKeeps | src/cli/markdown/mermaid/state_diagram.rs:35-38 | a line keeps the states distinct, the transitions' endpoints listed and no "[*]" state, and only appends states |
| StateDiagrams.FoldWellFormed | src/cli/markdown/mermaid/state_diagram.rs:16-41 | after any lines, the states are distinct, none is "[*]", and every transition's endpoints are listed |
| StateDiagrams.StatesOrder | src/cli/markdown/mermaid/state_diagram.rs:35-36 | the states listed after a prefix of the lines keep their places after all of them |
| StateDiagrams.Skipped | src/cli/markdown/mermaid/state_diagram.rs:18-20 | `%%` comment and `direction` lines give no transition |
| StateDiagrams.NoArrow | src/cli/markdown/mermaid/state_diagram.rs:22 | a line without "-->" gives no transition |
| StateDiagrams.LabelAfterColon | src/cli/markdown/mermaid/state_diagram.rs:23-33 | a transition line runs from the trimmed text before "-->" to the trimmed text before the ':', with the trimmed text after it as label |
| StateDiagrams.StartExample | src/cli/markdown/mermaid/state_diagram.rs:103 | "[*] --> Active" is a transition from Start to Active with no label |
| StateDiagrams.GenerateElements | src/cli/markdown/mermaid/state_diagram.rs:9-95 | the elements are a shape per state, in order, and a connector per transition, in order |
| StateDiagrams.LayoutStates | src/cli/markdown/mermaid/state_diagram.rs:51-73 | the loop places and pushes each state's shape, and records each state's corner |
| StateDiagrams.LayoutTransitions | src/cli/markdown/mermaid/state_diagram.rs:75-92 | the loop pushes the connector of every transition between placed states, in order |
| StateDiagrams.GridDistinct | src/cli/markdown/mermaid/state_diagram.rs:54-55 | no two states share a position in the three-column grid |
| StateDiagrams.ShapesPlaced | src/cli/markdown/mermaid/state_diagram.rs:53-73 | the i-th shape is the i-th state's shape |
| StateDiagrams.StateShapeIs | src/cli/markdown/mermaid/state_diagram.rs:53-72 | a state's shape is an ellipse exactly for Start and End and a rounded rectangle otherwise, carries the state's name, and sits in column i mod 3 and row i div 3 |
| StateDiagrams.PositionsOfDistinct | src/cli/markdown/mermaid/state_diagram.rs:51-56 | for distinct states, exactly the states have a position, the i-th one's grid cell |
| StateDiagrams.ConnectorsAll | src/cli/markdown/mermaid/state_diagram.rs:75-92 | when every endpoint is placed, each transition gives exactly one connector, in order |
| StateDiagrams.ConnectorJoins | src/cli/markdown/mermaid/state_diagram.rs:79-89 | a connector is an elbow with a triangle end, from the middle of the source's right edge to the middle of the target's left edge, labelled exactly when the label is not empty |
| StateDiagrams.ElementCounts | src/cli/markdown/mermaid/state_diagram.rs:9-95 | a state diagram gives one shape per state and one connector per transition |

## Left out

- Reading and writing ZIP archives, files and byte buffers (`open`, `from_bytes`, `save`, `to_bytes`): the package is given as a value.
- Part content is decoded text; `String::from_utf8_lossy` and byte-level encodings are not modelled.
- `crate::opc::Package` is not part of this model; its part order is taken to be insertion order, where the Rust `HashMap` order is unspecified.
- `check_slide_references` collects slides into `HashSet`s; the model keeps first-appearance order, which changes only the order of the reported issues.
- `validate_xml` also scans for '<' and '>' and discards the result; the scan has no effect and is not modelled.
- `find_max_rel_id` and `find_max_slide_id` use the regex crate; the model states their matches as digit runs after the literal prefix, which is what the patterns match.
- The new ids max+1 of the slide-reference repair are unbounded naturals; the u32 overflow of `max + 1` at 4294967295 is not modelled.
- `is_alphanumeric`, `is_whitespace`, `to_lowercase` and `to_uppercase` are modelled on ASCII letters and digits and the Unicode whitespace set; other Unicode letters are not.
- The ten-byte entity cap of `attempt_xml_repair` counts characters; it equals bytes for the ASCII characters the scan collects.
- RepairEdits.RepairOrphanSlide: only relative `Target="…"` lines are removed, as in the source; the lemma covers relative targets only.
- RepairEdits.MissingSlideReferenceRepaired: the added relationship is proved to be contained in the rels text and to read back, not that it sits on a line of its own.
- A broken relationship without an Id gives the pattern `Id=""`, as the source does.
- `Repair.PptxRepair.Validate` assigns the issue list once from the five checks' results instead of pushing in each check; the result is the same list.
- Editor.PresentationEditor.RemoveSlide: does not restate that the invariant is kept; that follows from `Editor.RemovedSlideConsistent` applied to its postconditions.
- `PresentationEditor.add_slide` and `update_slide` generate the slide text with `create_slide_xml_with_content` and `create_slide_rels_xml` (template emitters, not part of this model); the model takes those texts as parameters.
- `PresentationEditor.get_slide` parses the slide with `SlideParser` (not part of this model); the model returns the slide's text.
- `PresentationEditor::open` and `save` read and write files; `Open` takes the package as a value. The getters `slide_count`, `package` and `package_mut` only expose fields.
- `add_slide` and the `update_*` helpers never return `Err` in the source; the model's `AddSlide` returns `Ok` always and the helpers return nothing.
- The ghost `remaining` of `RemoveSlide` names the package between the renumbering loop and the rebuild; it is not a result of `remove_slide`.
- `usize` arithmetic (`slide_count + 1`, `256 + slide_num`) is modelled on unbounded naturals.
- The `rebuild_*` helpers of the editor emit the same texts as the generator's `create_content_types_xml`, `create_presentation_rels_xml` and `create_presentation_xml`; the model builds them once, in `GeneratorXml`.
- `create_rels_xml` and `create_slide_xml_with_content` are fixed templates and are not modelled; `escape_xml` of `src/generator/xml.rs` is `XmlText.EscapeXml`.
- `PresentationPart::from_xml` uses the XML parser (not part of this model) and is not modelled; `slide_count` and `slides` only expose the reference list.
- `PresentationPart` ids, width and height are `u32`; the model uses naturals.
- PresentationParts.PresentationPart.AddSlide: requires the new id to fit in a u32, where the source's `256 + len as u32 + 1` would overflow.
- Relationships.Relationships.Add: requires `next_id + 1` to fit in a u32; at `next_id` = 4294967295 the source's `+= 1` overflows (a panic in debug builds, 0 in release builds), which is not modelled.
- Relationships.Relationships.AddWithId: requires the id's number not to be 4294967295, where the source's `num + 1` overflows; that case is not modelled.
- PresentationParts.CreatableIds: states the same u32 bounds for the calls `create_relationships` makes; the overflowing ids it excludes are not modelled.
- PresentationParts.PresentationPart.CreateRelationships: requires `CreatableIds`, so it does not model the overflow of the `add` and `add_with_id` calls it makes.
- MermaidTypes.FromElements: the right and bottom edges `x + width` and `y + height` are u32 sums in the source, which overflow above 4294967295; the model adds naturals.
- `PresentationReader` takes the XML parser as a function parameter from the rels text to its `<Relationship>` elements (`XmlParser` is not part of this model).
- `PresentationReader::parse_core_properties` and the `PresentationInfo` fields other than `slide_count` depend on the XML parser's descendant search and are not modelled.
- `get_slide` parses the slide with `SlideParser`; the model returns the slide part's text. `get_all_slides` and `extract_all_text` build on that parser and are not modelled.
- The library sorts (`sort_by`, `sort`) are modelled as insertion sorts with the same results: stable by key, and lexicographic by character, which matches byte order for UTF-8.
- PresentationReading.ReadGeneratedRels: holds for fewer than 2^32 - 2 slides; past that the generated ids stop parsing as u32 and sort as 0.
- Table widths and heights, bullet indents, shape coordinates and transparency percentages are `u32` in the source; the model uses naturals, so the `u32` overflow of a very wide table's `width()` sum or of `indent_xml` at large levels is not modelled.
- `src/generator/tables.rs` and `src/generator/table/*` define two table families with the same names; they are the modules `GeneratorTables` and `TableModel`. The second reuses the first's sums and lemmas.
- `Bullets.BulletStyle` keeps the source's constructor name `None`; the module therefore imports the option type unopened.
- `BulletStyle::indent_xml` takes `&self` but does not use it; `Bullets.IndentXml` takes only the level.
- Shapes: `emu_to_inches`, `inches_to_emu` and the other floating-point conversions are not modelled; coordinates stay in EMU.
- `ShapeFill::transparency` is documented as "100000 = fully transparent" but stores the alpha `(100 - p) * 1000`, which is 100000 for an opaque fill; the model follows the code.
- `ImagePart::from_file` reads a file; the model starts from `new`. The getters `image_number`, `format`, `data`, `width` and `height` only expose fields, and `part_type` and `content_type` are constants.
- Image data is a byte sequence that the model only stores.
- Layouts: `center_x`, `center_y`, the stacks and `distribute_horizontal` underflow `u32`/`usize` when the shapes do not fit, or when a stack has no shapes (a panic in debug builds, a wrapped-around value in release builds); the model states those conditions as preconditions and models neither outcome.
- FontSizes.ToEmu: the `u32` overflow of `pt * 100` above 42949672 points is not modelled.
- The prelude's floating-point helpers (`inches`, `cm`, `pt`), the `shapes` constructors taking inches, the colour constants, and `QuickPptx` (which writes through the generator) are not modelled.
- MarkdownSlides: `parse_markdown` returns a `Result` but never an error, so the model's parse is total; the `execute` methods around it read and write files and are not modelled.
- Flowcharts: the parsed nodes are a map from id to node; the source's `nodes.into_values().collect()` lists them in `HashMap` order, which is unspecified, so the model keeps no node order.
- Flowcharts: `generate_elements` and `create_node_shape` (src/cli/markdown/mermaid/flowchart.rs:186-359, 366-390), the layered layout of a parsed flowchart, are not modelled; the layout walks the node list in that unspecified order.
- The Mermaid layouts compute coordinates as `u32` (`start_x + i * h_spacing`, `y + i * message_spacing`); the model uses naturals, so the `u32` overflow of diagrams with tens of thousands of participants, states or messages is not modelled.
- StateDiagrams.StateElements: the source builds `DiagramElements` with only `shapes` and `connectors` (state_diagram.rs:94), which does not match the four-field struct of types.rs; the model fills in `bounds` None and `grouped` false, as `DiagramElements::empty` does.
- The mermaid code draws with `ShapeType::Ellipse` and `RoundedRectangle`, which src/generator/shapes.rs lacks; `MermaidTypes.DiagramShape` is a local record whose kind covers those names and the generator's presets.
- `src/generator/connectors.rs` is not part of this model; a state connector is the record `MermaidTypes.Connector` with the fields `generate_elements` sets: the kind, the two end points, the line, the end arrow and the label.
- The `Journey`, `Quadrant` and `GitGraph` variants of `MermaidType` in types.rs are not produced by `detect_type` and have no style in `get_diagram_style`; the model has only the ten kinds those two functions use.
- The other Mermaid renderers (pie, gantt, class, ER, mindmap, timeline) and the dispatch that calls them are not modelled.
- OxmlText, OxmlTable and OxmlSlide: `XmlElement` and `XmlParser` are not part of this model. The `parse` functions take what the parser finds (the element's attributes, the text of its `a:t` child, its child lists) as parameters, and `SlideParser::parse` starts from the shape tree, so its `Err` for malformed XML is not modelled.
- `TextRun::parse`, `TextParagraph::parse` and `TextBody::parse` (src/oxml/text.rs:206-213, 239-250, 288-299) only walk the element tree with `find` and `find_all`; they are not modelled beyond the property parsers they call.
- OxmlText.RunPropertiesRoundTrip: the colour and typeface come from the `solidFill` and `latin` children, which the parser finds; the lemma takes them as given rather than reading them from the written children.
- OxmlTable.CellRoundTrip: the cell text comes from the first `a:t` descendant, which the parser finds; the lemma takes it as given.
- OxmlText.BodyPropertiesRoundTrip: holds on the pushed attribute list, not on the written text: `to_xml` writes the `wrap` and `anchor` values unescaped (src/oxml/text.rs:38, 41), so a value holding '"' or '&' does not read back from the XML.
- OxmlText.ParagraphPropertiesRoundTrip: holds on the pushed attribute list, not on the written text: the `algn` value is written unescaped (src/oxml/text.rs:89).
- OxmlText.RunPropertiesRoundTrip: holds on the pushed attribute list, not on the written text: the `u` and `strike` values, the colour and the typeface are written unescaped (src/oxml/text.rs:169-180).
- OxmlTable.CellPropertiesRoundTrip: holds on the pushed attribute list, not on the written text: the `anchor` value is written unescaped (src/oxml/table.rs:44).
- OxmlTable.CellRoundTrip: holds on the pushed span attributes and the properties as given; the properties' string values are written unescaped, as for CellPropertiesRoundTrip.
- `repair_missing_namespace` inserts the declaration before the first '>' of the part (src/oxml/repair.rs:745-747); in a part that starts with `<?xml …?>` that is the end of the XML declaration, not of the root element. The model follows the code and states its result in terms of that first tag.

## Findings

| source | as written | input that shows it | evidently intended | confidence | as-written member | corrected member |
|---|---|---|---|---|---|---|
| src/parts/relationships.rs:54-59 | `from_uri` tests "/officeDocument" before "extended-properties" | the ExtendedProperties URI, which lies under the officeDocument namespace, maps to OfficeDocument | ExtendedProperties maps back to itself | high, not executed | Relationships.FromUri | Relationships.FromUriFixed |
| src/oxml/repair.rs:418 | slide lines are chosen by a "slide" substring test | a slideMaster relationship in the presentation rels is reported as an OrphanSlide | only relationships of the Slide type are slide references | high, not executed | RepairChecks.MasterReportedAsOrphan | RepairChecks.SlideReferenceIssuesIff |
| src/oxml/repair.rs:576-580 | an unknown entity name closed by ';' is emitted without the ';' | "&nbsp;" becomes "&amp;nbsp" | "&amp;nbsp;", with only the '&' escaped | high, not executed | RepairText.UnknownEntityLosesSemicolon | RepairText.EscapeAmpsFixedIsInsertAmp |
| src/oxml/repair.rs:714-730 | the "slide" test comes before the layout and master tests | "ppt/slideLayouts/slideLayout1.xml" gets the slide content type | layouts and masters get their own content types | high, not executed | RepairText.LayoutContentType | RepairText.InferContentTypeFixed |
| src/generator/xml.rs:139-195 | `create_slide_xml` places the title into `<a:t>` without escaping it | a title "a<b" yields `<a:t>a<b</a:t>`, which is not well-formed XML | the title is escaped with `escape_xml`, as `TextRun::to_xml` does | high, not executed | GeneratorXml.UnescapedTitleBreaksRun | GeneratorXml.FixedTitleWellFormed |
| src/generator/slide_content/bullet.rs:35 | `Custom(ch)` is written into the `char` attribute without escaping | `Custom('"')` gives `<a:buChar char="""/>`, which is not well-formed XML | the character is escaped, as `escape_xml` does for text | medium, not executed | Bullets.CustomQuoteBreaksAttribute | Bullets.FixedCustomAttribute |

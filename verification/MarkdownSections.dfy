/**
 What a parse finds in a text, whatever the text: the information text is what comes before the first heading,
 every heading line opens a chapter, and every run of lines without a blank one is a paragraph of its chapter.
 */
module MarkdownSections {

  import opened Wrappers
  import opened MarkdownText
  import opened MarkdownDocument
  import opened MarkdownRoundTrip
  import opened MarkdownHeadings
  import opened MarkdownReturns
  import opened MarkdownNormalForm

  /** A heading line and the lines up to the next one. */
  datatype Section = Section(heading: string, lines: seq<string>)

  predicate BlankLine(l: string) { Trim(l) == "" }

  /** The lines before the first heading. */
  function Preamble(lines: seq<string>): seq<string> {
    if lines == [] || IsHeading(lines[0]) then [] else [lines[0]] + Preamble(lines[1..])
  }

  function Sections(lines: seq<string>): seq<Section> {
    if lines == [] then []
    else if IsHeading(lines[0]) then [Section(lines[0], Preamble(lines[1..]))] + Sections(lines[1..])
    else Sections(lines[1..])
  }

  /** The longest runs of lines that are not blank, in order. */
  function Blocks(lines: seq<string>): (r: seq<seq<string>>)
    ensures lines != [] && !BlankLine(lines[0]) ==> r != []
  {
    if lines == [] then []
    else
      var rest := Blocks(lines[1..]);
      if BlankLine(lines[0]) then rest
      else if |lines| > 1 && !BlankLine(lines[1]) then InFront(lines[0], rest)
      else [[lines[0]]] + rest
  }

  /** The blocks with one more line at the start of the first. */
  function InFront(l: string, blocks: seq<seq<string>>): (r: seq<seq<string>>)
    requires blocks != []
    ensures |r| == |blocks|
  {
    [[l] + blocks[0]] + blocks[1..]
  }

  // The parts of a text leave nothing out

  function SectionLines(sections: seq<Section>): seq<string> {
    if sections == [] then [] else [sections[0].heading] + sections[0].lines + SectionLines(sections[1..])
  }

  lemma SectionLinesCons(first: Section, rest: seq<Section>)
    ensures SectionLines([first] + rest) == [first.heading] + first.lines + SectionLines(rest)
  {
    assert ([first] + rest)[1..] == rest;
  }

  /** Preamble and sections, put together, are the text again. */
  lemma {:induction false} SectionsKeepLines(lines: seq<string>)
    ensures Preamble(lines) + SectionLines(Sections(lines)) == lines
  {
    hide IsHeading, SectionLines;
    if lines == [] {
      NoLines();
    } else {
      var l, rest := lines[0], lines[1..];
      SectionsKeepLines(rest);
      assert lines == [l] + rest;
      if IsHeading(l) {
        SectionLinesCons(Section(l, Preamble(rest)), Sections(rest));
        assert [l] + Preamble(rest) + SectionLines(Sections(rest)) == [l] + (Preamble(rest) + SectionLines(Sections(rest)));
      } else {
        assert ([l] + Preamble(rest)) + SectionLines(Sections(rest)) == [l] + (Preamble(rest) + SectionLines(Sections(rest)));
      }
    }
  }

  lemma {:induction false} PreambleHasNoHeading(lines: seq<string>)
    ensures NoHeadings(Preamble(lines))
  {
    hide IsHeading;
    if lines != [] { PreambleHasNoHeading(lines[1..]); }
  }

  /** Of a section, only its first line is a heading. */
  lemma {:induction false} SectionsHaveOneHeading(lines: seq<string>)
    ensures forall k :: 0 <= k < |Sections(lines)| ==> IsHeading(Sections(lines)[k].heading) && NoHeadings(Sections(lines)[k].lines)
  {
    hide IsHeading, NoHeadings;
    if lines != [] {
      SectionsHaveOneHeading(lines[1..]);
      PreambleHasNoHeading(lines[1..]);
    }
  }

  lemma NoLines()
    ensures SectionLines([]) == []
  {
  }

  function Visible(lines: seq<string>): seq<string> {
    if lines == [] then [] else (if BlankLine(lines[0]) then [] else [lines[0]]) + Visible(lines[1..])
  }

  function BlockLines(blocks: seq<seq<string>>): seq<string> {
    if blocks == [] then [] else blocks[0] + BlockLines(blocks[1..])
  }

  /** The blocks, put together, are the lines that are not blank. */
  lemma {:induction false} BlocksKeepLines(lines: seq<string>)
    ensures BlockLines(Blocks(lines)) == Visible(lines)
    ensures forall k :: 0 <= k < |Blocks(lines)| ==> Blocks(lines)[k] != []
  {
    hide BlankLine;
    if lines != [] {
      BlocksKeepLines(lines[1..]);
      var l, rest := lines[0], Blocks(lines[1..]);
      if !BlankLine(l) && |lines| > 1 && !BlankLine(lines[1]) {
        assert InFront(l, rest)[1..] == rest[1..];
        assert ([l] + rest[0]) + BlockLines(rest[1..]) == [l] + (rest[0] + BlockLines(rest[1..]));
      } else if !BlankLine(l) {
        assert ([[l]] + rest)[1..] == rest;
      }
    }
  }

  // Reading one more line

  lemma {:induction false} PreambleSnoc(lines: seq<string>, l: string)
    ensures Preamble(lines + [l]) == if NoHeadings(lines) && !IsHeading(l) then Preamble(lines) + [l] else Preamble(lines)
  {
    hide IsHeading;
    if lines != [] {
      assert (lines + [l])[1..] == lines[1..] + [l];
      PreambleSnoc(lines[1..], l);
      HeadingsFromFront(lines);
    } else {
      assert [l][1..] == [];
    }
  }

  lemma HeadingsFromFront(lines: seq<string>)
    requires lines != []
    ensures NoHeadings(lines) <==> !IsHeading(lines[0]) && NoHeadings(lines[1..])
  {
    hide IsHeading;
    assert forall i :: 0 < i < |lines| ==> lines[i] == lines[1..][i - 1];
  }

  /** The sections with `l` added to the last one. */
  function Continued(sections: seq<Section>, l: string): seq<Section>
    requires sections != []
  {
    var n := |sections| - 1;
    sections[..n] + [Section(sections[n].heading, sections[n].lines + [l])]
  }

  lemma SectionsCons(l: string, rest: seq<string>)
    ensures Sections([l] + rest) == (if IsHeading(l) then [Section(l, Preamble(rest))] else []) + Sections(rest)
  {
    assert ([l] + rest)[1..] == rest;
  }

  lemma NoSections()
    ensures Sections([]) == [] && Preamble([]) == [] && NoHeadings([])
  {
  }

  lemma {:induction false} SectionsSnoc(lines: seq<string>, l: string)
    ensures Sections(lines) == [] <==> NoHeadings(lines)
    ensures Sections(lines + [l]) ==
              if IsHeading(l) then Sections(lines) + [Section(l, [])]
              else if NoHeadings(lines) then [] else Continued(Sections(lines), l)
  {
    hide IsHeading, Sections, Preamble, NoHeadings;
    NoSections();
    if lines == [] {
      SectionsCons(l, []);
      assert [] + [l] == [l] + [] == [l];
    } else {
      var first, rest := lines[0], lines[1..];
      SectionsSnoc(rest, l);
      PreambleSnoc(rest, l);
      HeadingsFromFront(lines);
      SectionsCons(first, rest);
      SectionsCons(first, rest + [l]);
      assert lines == [first] + rest && lines + [l] == [first] + (rest + [l]);
    }
  }

  lemma {:induction false} BlocksSnoc(lines: seq<string>, l: string)
    ensures lines != [] && !BlankLine(Last(lines)) ==> Blocks(lines) != []
    ensures var b := Blocks(lines);
            Blocks(lines + [l]) ==
              if BlankLine(l) then b
              else if lines == [] || BlankLine(Last(lines)) then b + [[l]]
              else b[..|b| - 1] + [Last(b) + [l]]
  {
    hide BlankLine, Blocks;
    BlocksOfOne(l);
    if lines == [] {
      assert [] + [l] == [l];
    } else {
      var rest := lines[1..];
      var r := Blocks(rest);
      assert (lines + [l])[1..] == rest + [l];
      BlocksSnoc(rest, l);
      BlocksCons(lines);
      BlocksCons(lines + [l]);
      if rest == [] {
        BlocksOfOne(lines[0]);
        assert rest + [l] == [l] && lines == [lines[0]];
      } else if !BlankLine(l) && !BlankLine(lines[0]) && !BlankLine(rest[0]) {
        BlocksCons(rest);
        InFrontOfMore(lines[0], r, l);
      }
    }
  }

  lemma InFrontOfMore(x: string, blocks: seq<seq<string>>, l: string)
    requires blocks != []
    ensures var b, n := InFront(x, blocks), |blocks| - 1;
            && InFront(x, blocks + [[l]]) == b + [[l]]
            && InFront(x, blocks[..n] + [blocks[n] + [l]]) == b[..n] + [b[n] + [l]]
  {
    var b, n := InFront(x, blocks), |blocks| - 1;
    var more := blocks[..n] + [blocks[n] + [l]];
    if n == 0 {
      assert [x] + (blocks[0] + [l]) == ([x] + blocks[0]) + [l];
    } else {
      assert more[0] == blocks[0] && more[1..] == blocks[1..][..n - 1] + [blocks[n] + [l]];
    }
  }

  lemma BlocksOfOne(l: string)
    ensures Blocks([]) == [] && Blocks([l]) == if BlankLine(l) then [] else [[l]]
  {
    assert [l][1..] == [];
  }

  lemma BlocksCons(lines: seq<string>)
    requires lines != []
    ensures !BlankLine(lines[0]) ==> Blocks(lines) != []
    ensures |lines| > 1 && !BlankLine(lines[1]) ==> Blocks(lines[1..]) != []
    ensures var rest := Blocks(lines[1..]);
            Blocks(lines) ==
              if BlankLine(lines[0]) then rest
              else if |lines| > 1 && !BlankLine(lines[1]) then InFront(lines[0], rest)
              else [[lines[0]]] + rest
  {
  }

  // What the machine has read

  ghost predicate SameTexts(ps: seq<Paragraph>, blocks: seq<seq<string>>) {
    |ps| == |blocks| && forall i :: 0 <= i < |ps| ==> ps[i].text == Trim(Join(blocks[i]))
  }

  /** An id is the stored one, or generated if none is stored. */
  ghost predicate IdRead(id: string, stored: string, prefix: string, ids: IdSource) {
    if stored != "" then id == stored else exists n :: id == ids(prefix, n)
  }

  ghost predicate IdsRead(structure: seq<ChapterEntry>, ids: IdSource, c: Chapter, k: int) {
    && IdRead(c.id, EntryAt(structure, k).id, "chapter", ids)
    && forall j :: 0 <= j < |c.paragraphs| ==> IdRead(c.paragraphs[j].id, ParagraphIdAt(EntryAt(structure, k), j), "paragraph", ids)
  }

  /** Chapter `k` is what the section says, up to the lines still in the buffer. */
  ghost predicate Opened(structure: seq<ChapterEntry>, ids: IdSource, c: Chapter, k: int, s: Section, buffer: seq<string>) {
    && c.title == Heading(s.heading, 2) && IdsRead(structure, ids, c, k)
    && GoodLines(buffer)
    && (buffer == [] ==> SameTexts(c.paragraphs, Blocks(s.lines)) && (s.lines != [] ==> BlankLine(Last(s.lines))))
    && (buffer != [] ==>
          && s.lines != [] && !BlankLine(Last(s.lines)) && Blocks(s.lines) != [] && Last(Blocks(s.lines)) == buffer
          && SameTexts(c.paragraphs, Blocks(s.lines)[..|Blocks(s.lines)| - 1]))
  }

  /** Chapter `k` is what the section says. */
  ghost predicate Closed(structure: seq<ChapterEntry>, ids: IdSource, c: Chapter, k: int, s: Section) {
    c.title == Heading(s.heading, 2) && IdsRead(structure, ids, c, k) && SameTexts(c.paragraphs, Blocks(s.lines))
  }

  ghost predicate AllClosed(structure: seq<ChapterEntry>, ids: IdSource, cs: seq<Chapter>, sections: seq<Section>) {
    |cs| == |sections| && forall k :: 0 <= k < |cs| ==> Closed(structure, ids, cs[k], k, sections[k])
  }

  ghost predicate Reads(structure: seq<ChapterEntry>, ids: IdSource, st: State, lines: seq<string>) {
    var sections, n := Sections(lines), |st.chapters| - 1;
    && st.title != "" && st.info == Preamble(lines) && |st.chapters| == |sections|
    && (st.chapters == [] ==> st.buffer == [])
    && (st.chapters != [] ==>
          && AllClosed(structure, ids, st.chapters[..n], sections[..n])
          && Opened(structure, ids, st.chapters[n], n, sections[n], st.buffer))
  }

  lemma IdOrIsRead(stored: string, prefix: string, ids: IdSource, next: nat)
    ensures IdRead(IdOr(stored, prefix, ids, next).0, stored, prefix, ids)
  {
  }

  lemma ParagraphClosed(structure: seq<ChapterEntry>, ids: IdSource, c: Chapter, k: int, s: Section, buffer: seq<string>, next: nat)
    requires Opened(structure, ids, c, k, s, buffer) && buffer != []
    ensures var id := IdOr(ParagraphIdAt(EntryAt(structure, k), |c.paragraphs|), "paragraph", ids, next).0;
            Closed(structure, ids, c.(paragraphs := c.paragraphs + [Paragraph(id, Trim(Join(buffer)))]), k, s)
  {
    hide EntryAt, ParagraphIdAt, Trim, Join, Blocks, Heading, BlankLine, IdRead, GoodLines;
    IdOrIsRead(ParagraphIdAt(EntryAt(structure, k), |c.paragraphs|), "paragraph", ids, next);
    var blocks := Blocks(s.lines);
    assert blocks == blocks[..|blocks| - 1] + [buffer];
  }

  lemma FlushCloses(structure: seq<ChapterEntry>, ids: IdSource, st: State, lines: seq<string>)
    requires Reads(structure, ids, st, lines)
    ensures var f := Flush(structure, ids, st);
            AllClosed(structure, ids, f.chapters, Sections(lines)) && f.info == st.info && f.buffer == [] && f.title == st.title
  {
    hide EntryAt, ParagraphIdAt, Trim, Join, Blocks, Heading, BlankLine, IdsRead, SameTexts, IdOr, Sections, Preamble, GoodLine, CleanLine, Closed;
    FlushFacts(structure, ids, st);
    if st.chapters != [] {
      var n, sections := |st.chapters| - 1, Sections(lines);
      var f := Flush(structure, ids, st);
      assert st.chapters[..n] + [st.chapters[n]] == st.chapters;
      if st.buffer != [] {
        BufferIsNotBlank(st.buffer);
        ParagraphClosed(structure, ids, st.chapters[n], n, sections[n], st.buffer, st.next);
        assert f.chapters == st.chapters[..n] + [f.chapters[n]];
        assert Closed(structure, ids, f.chapters[n], n, sections[n]);
      } else {
        OpenedIsClosed(structure, ids, st.chapters[n], n, sections[n]);
      }
      forall k | 0 <= k < |f.chapters| ensures Closed(structure, ids, f.chapters[k], k, sections[k]) {
        if k < n { assert Closed(structure, ids, st.chapters[..n][k], k, sections[..n][k]); }
      }
    }
  }

  lemma OpenedIsClosed(structure: seq<ChapterEntry>, ids: IdSource, c: Chapter, k: int, s: Section)
    ensures Opened(structure, ids, c, k, s, []) ==> Closed(structure, ids, c, k, s)
  {
  }

  lemma BufferIsNotBlank(buffer: seq<string>)
    requires GoodLines(buffer) && buffer != []
    ensures Trim(Join(buffer)) != ""
  {
    hide Trim, Join, IsHeading;
    forall i | 0 <= i < |buffer| ensures CleanLine(buffer[i]) && Trim(buffer[i]) != "" { assert GoodLine(buffer[i]); }
    JoinIsNotBlank(buffer);
  }

  lemma NothingStored(structure: seq<ChapterEntry>, ids: IdSource, c: Chapter, k: int, l: string)
    requires c.paragraphs == [] && c.title == Heading(l, 2) && IdRead(c.id, EntryAt(structure, k).id, "chapter", ids)
    ensures Opened(structure, ids, c, k, Section(l, []), [])
  {
  }

  /** The open section with one more line that is not a heading. */
  lemma LineContinues(structure: seq<ChapterEntry>, ids: IdSource, c: Chapter, k: int, s: Section, buffer: seq<string>, l: string)
    requires Opened(structure, ids, c, k, s, buffer) && CleanLine(l) && !IsHeading(l)
    requires BlankLine(l) ==> buffer == []
    ensures Opened(structure, ids, c, k, Section(s.heading, s.lines + [l]), if BlankLine(l) then [] else buffer + [l])
  {
    hide Heading, IdsRead, Blocks, SameTexts, IsHeading;
    BlocksSnoc(s.lines, l);
    var b := Blocks(s.lines);
    if !BlankLine(l) {
      assert GoodLine(l);
      if buffer != [] {
        assert (b[..|b| - 1] + [Last(b) + [l]])[..|b| - 1] == b[..|b| - 1];
      } else {
        assert (b + [[l]])[..|b|] == b;
      }
    }
  }

  lemma ClosedStaysOpen(structure: seq<ChapterEntry>, ids: IdSource, c: Chapter, k: int, s: Section, l: string)
    requires Closed(structure, ids, c, k, s) && BlankLine(l)
    ensures Opened(structure, ids, c, k, Section(s.heading, s.lines + [l]), [])
  {
    hide Heading, IdsRead, Blocks, SameTexts, BlankLine;
    BlocksSnoc(s.lines, l);
  }

  lemma HeadingReads(structure: seq<ChapterEntry>, ids: IdSource, st: State, lines: seq<string>, l: string)
    requires Reads(structure, ids, st, lines) && IsHeading(l)
    ensures Reads(structure, ids, Step(structure, ids, st, l), lines + [l])
  {
    hide IsTitle, Heading, Trim, EntryAt, Flush, Blocks, Opened, Closed, Sections, Preamble, Join, IsHeading;
    NotBoth(l);
    FlushCloses(structure, ids, st, lines);
    SectionsSnoc(lines, l);
    PreambleSnoc(lines, l);
    var flushed, after := Flush(structure, ids, st), Step(structure, ids, st, l);
    IdOrIsRead(EntryAt(structure, |flushed.chapters|).id, "chapter", ids, flushed.next);
    var n := |flushed.chapters|;
    NothingStored(structure, ids, after.chapters[n], n, l);
    assert after.chapters[..n] == flushed.chapters;
  }

  lemma LineReads(structure: seq<ChapterEntry>, ids: IdSource, st: State, lines: seq<string>, l: string)
    requires Reads(structure, ids, st, lines) && CleanLine(l) && !IsHeading(l)
    ensures Reads(structure, ids, Step(structure, ids, st, l), lines + [l])
  {
    hide IsTitle, Heading, Trim, EntryAt, Flush, Blocks, Opened, Closed, Sections, Preamble, Join, IsHeading, IdOr, CleanLine;
    SectionsSnoc(lines, l);
    PreambleSnoc(lines, l);
    if st.chapters != [] {
      var n, sections := |st.chapters| - 1, Sections(lines);
      var after := Step(structure, ids, st, l);
      if BlankLine(l) && st.buffer != [] {
        FlushCloses(structure, ids, st, lines);
        var f := Flush(structure, ids, st);
        ClosedStaysOpen(structure, ids, f.chapters[n], n, sections[n], l);
        assert after == f;
        assert forall k :: 0 <= k < n ==> f.chapters[..n][k] == f.chapters[k];
      } else {
        LineContinues(structure, ids, st.chapters[n], n, sections[n], st.buffer, l);
        assert after.chapters == st.chapters;
      }
      assert Continued(sections, l)[..n] == sections[..n];
    }
  }

  lemma {:induction false} RunReads(structure: seq<ChapterEntry>, ids: IdSource, st: State, lines: seq<string>)
    requires st.title != "" && st.chapters == [] && st.buffer == [] && st.info == [] && CleanLines(lines)
    ensures Reads(structure, ids, Run(structure, ids, st, lines), lines)
  {
    hide Step, CleanLine, Reads, IsHeading;
    if lines == [] {
      NothingRead(structure, ids, st);
    } else {
      var before, l := lines[..|lines| - 1], lines[|lines| - 1];
      RunReads(structure, ids, st, before);
      var mid := Run(structure, ids, st, before);
      if IsHeading(l) { HeadingReads(structure, ids, mid, before, l); } else { LineReads(structure, ids, mid, before, l); }
      assert before + [l] == lines;
    }
  }

  lemma NothingRead(structure: seq<ChapterEntry>, ids: IdSource, st: State)
    requires st.title != "" && st.chapters == [] && st.buffer == [] && st.info == []
    ensures Reads(structure, ids, st, [])
  {
  }

  // The finished document

  /** The machine's state at the end of a text, and what it has of the text without its title line. */
  lemma TextIsRead(structure: seq<ChapterEntry>, ids: IdSource, next: nat, markdown: string)
    ensures var st := Flush(structure, ids, Run(structure, ids, START.(next := next), SplitLines(markdown)));
            var lines := Body(SplitLines(markdown));
            st.info == Preamble(lines) && AllClosed(structure, ids, st.chapters, Sections(lines))
  {
    hide SplitLines, Run, Flush, Body, Sections, Preamble, IsTitle, Heading, CleanLine, AllClosed;
    var lines, start := SplitLines(markdown), START.(next := next);
    SplitHasNoFeeds(markdown);
    LinesAreClean(lines);
    TitlesAreRead(lines);
    TitleStandsAside(structure, ids, start, "T", lines);
    BodyIsPart(lines);
    var titled := Run(structure, ids, start.(title := "T"), Body(lines));
    RunReads(structure, ids, start.(title := "T"), Body(lines));
    FlushCloses(structure, ids, titled, Body(lines));
    ReadsInfo(structure, ids, titled, Body(lines));
    FlushIgnoresTitle(structure, ids, Run(structure, ids, start, lines), "T");
  }

  lemma ReadsInfo(structure: seq<ChapterEntry>, ids: IdSource, st: State, lines: seq<string>)
    requires Reads(structure, ids, st, lines)
    ensures st.info == Preamble(lines)
  {
  }

  /**
   Without stored information text, a parsed document has the trimmed lines before the first heading; the title
   line counts for neither that nor the chapters.
   */
  lemma InfoIsPreamble(markdown: string, sidecar: Sidecar, path: string, fileName: string, ids: IdSource)
    requires sidecar.infoText.None?
    ensures Parsed(markdown, sidecar, path, fileName, ids).infoText == Trim(Join(Preamble(Body(SplitLines(markdown)))))
  {
    hide SplitLines, Run, Flush, Normalise, Body, Preamble, Trim, Join, AllCompleted, AtLeastOne, FallbackTitle;
    TextIsRead(sidecar.structure, ids, Normalise(sidecar.variables, ids, 0).1, markdown);
  }

  /** A section's chapter in the finished document; one without text has the placeholder. */
  ghost predicate Finishes(c: Chapter, s: Section) {
    && c.title == Heading(s.heading, 2)
    && if Blocks(s.lines) == [] then |c.paragraphs| == 1 && c.paragraphs[0].text == "" else SameTexts(c.paragraphs, Blocks(s.lines))
  }

  lemma {:induction false} CompletionFinishes(structure: seq<ChapterEntry>, ids: IdSource, cs: seq<Chapter>, sections: seq<Section>, next: nat)
    requires AllClosed(structure, ids, cs, sections) && Titled(cs)
    ensures var done := AllCompleted(structure, ids, cs, next).0;
            forall k :: 0 <= k < |cs| ==> Finishes(done[k], sections[k]) && IdsRead(structure, ids, done[k], k)
  {
    hide Closed, Finishes, Completed, IdsRead, GoodTitle;
    if cs != [] {
      var i := |cs| - 1;
      forall k | 0 <= k < i ensures Closed(structure, ids, cs[..i][k], k, sections[..i][k]) {
        assert Closed(structure, ids, cs[k], k, sections[k]);
      }
      CompletionFinishes(structure, ids, cs[..i], sections[..i], next);
      CompletedFinishes(structure, ids, cs[i], i, sections[i], AllCompleted(structure, ids, cs[..i], next).1);
    }
  }

  lemma CompletedFinishes(structure: seq<ChapterEntry>, ids: IdSource, c: Chapter, k: nat, s: Section, next: nat)
    requires Closed(structure, ids, c, k, s) && GoodTitle(c.title)
    ensures var done := Completed(structure, ids, c, k, next).0; Finishes(done, s) && IdsRead(structure, ids, done, k)
  {
    hide Heading, NumberedTitle, EntryAt, ParagraphIdAt, Trim, Join, Blocks;
    EmptyIsNotGood();
    IdOrIsRead(ParagraphIdAt(EntryAt(structure, k), 0), "paragraph", ids, next);
  }

  /** A parsed document has one chapter for every section of a text that has any, with its heading, its blocks and its ids. */
  lemma ChaptersAreSections(markdown: string, sidecar: Sidecar, path: string, fileName: string, ids: IdSource)
    requires Sections(Body(SplitLines(markdown))) != []
    ensures var d, sections := Parsed(markdown, sidecar, path, fileName, ids), Sections(Body(SplitLines(markdown)));
            |d.chapters| == |sections| &&
            forall k :: 0 <= k < |sections| ==> Finishes(d.chapters[k], sections[k]) && IdsRead(sidecar.structure, ids, d.chapters[k], k)
  {
    hide SplitLines, Run, Flush, Normalise, Body, Sections, Trim, Join, AllCompleted, FallbackTitle, Closed, Finishes, IdsRead, Heading,
         IsHeading, GoodTitle;
    var structure, next := sidecar.structure, Normalise(sidecar.variables, ids, 0).1;
    var lines := SplitLines(markdown);
    TextIsRead(structure, ids, next, markdown);
    SplitHasNoFeeds(markdown);
    LinesAreClean(lines);
    BodyIsPart(lines);
    var st := Flush(structure, ids, Run(structure, ids, START.(next := next), lines));
    SectionTitles(Body(lines));
    ClosedAreTitled(structure, ids, st.chapters, Sections(Body(lines)));
    CompletionFinishes(structure, ids, st.chapters, Sections(Body(lines)), st.next);
  }

  lemma {:induction false} SectionTitles(lines: seq<string>)
    requires CleanLines(lines)
    ensures forall k :: 0 <= k < |Sections(lines)| ==> GoodTitle(Heading(Sections(lines)[k].heading, 2))
  {
    hide IsHeading, Heading, GoodTitle, Preamble;
    if lines != [] {
      SectionTitles(lines[1..]);
      if IsHeading(lines[0]) { HeadingIsGood(lines[0]); }
    }
  }

  lemma ClosedAreTitled(structure: seq<ChapterEntry>, ids: IdSource, cs: seq<Chapter>, sections: seq<Section>)
    requires AllClosed(structure, ids, cs, sections)
    requires forall k :: 0 <= k < |sections| ==> GoodTitle(Heading(sections[k].heading, 2))
    ensures Titled(cs)
  {
    hide GoodTitle, Heading, IdsRead, SameTexts;
    forall k | 0 <= k < |cs| ensures GoodTitle(cs[k].title) { assert Closed(structure, ids, cs[k], k, sections[k]); }
  }

  /** Without any heading there is one chapter, with the stored title or else "Chapter 1", and nothing in it. */
  lemma NoSectionsOneChapter(markdown: string, sidecar: Sidecar, path: string, fileName: string, ids: IdSource)
    requires Sections(Body(SplitLines(markdown))) == []
    ensures var d, entry := Parsed(markdown, sidecar, path, fileName, ids), EntryAt(sidecar.structure, 0);
            && |d.chapters| == 1 && |d.chapters[0].paragraphs| == 1 && d.chapters[0].paragraphs[0].text == ""
            && d.chapters[0].title == (if entry.title != "" then entry.title else "Chapter 1")
            && IdsRead(sidecar.structure, ids, d.chapters[0], 0)
  {
    FirstNumber();
    hide SplitLines, Run, Flush, Normalise, Body, Sections, Preamble, Trim, Join, FallbackTitle, NumberedTitle, EntryAt, ParagraphIdAt, IdOr,
         IdRead, AllClosed;
    var structure, next := sidecar.structure, Normalise(sidecar.variables, ids, 0).1;
    TextIsRead(structure, ids, next, markdown);
    NothingClosed(structure, ids, Flush(structure, ids, Run(structure, ids, START.(next := next), SplitLines(markdown))).chapters);
    var st := Flush(structure, ids, Run(structure, ids, START.(next := next), SplitLines(markdown)));
    var (some, n) := AtLeastOne(structure, ids, st.chapters, st.next);
    IdOrIsRead(EntryAt(structure, 0).id, "chapter", ids, st.next);
    IdOrIsRead(ParagraphIdAt(EntryAt(structure, 0), 0), "paragraph", ids, n);
    assert some[..0] == [] && AllCompleted(structure, ids, some[..0], n) == ([], n);
    var c := Completed(structure, ids, some[0], 0, n).0;
    assert |c.paragraphs| == 1 && IdRead(c.paragraphs[0].id, ParagraphIdAt(EntryAt(structure, 0), 0), "paragraph", ids);
    assert AllCompleted(structure, ids, some, n).0 == [c];
  }

  lemma NothingClosed(structure: seq<ChapterEntry>, ids: IdSource, cs: seq<Chapter>)
    ensures AllClosed(structure, ids, cs, []) ==> cs == []
  {
  }

  lemma FirstNumber()
    ensures NumberedTitle(0) == "Chapter 1" && NumberedTitle(0) != ""
  {
    assert Decimal(1) == "1";
  }

  /** The title is the text of the first title line. */
  lemma {:induction false} TitleIsFirst(structure: seq<ChapterEntry>, ids: IdSource, st: State, lines: seq<string>, i: nat)
    requires st.title == "" && CleanLines(lines)
    requires i < |lines| && IsTitle(lines[i]) && NoTitles(lines[..i])
    ensures Run(structure, ids, st, lines).title == Heading(lines[i], 1)
  {
    hide Step, IsTitle, Heading, CleanLine;
    var n := |lines| - 1;
    var before := lines[..n];
    TitlesAreRead(lines);
    TitleStandsAside(structure, ids, st, "T", before);
    StepTitle(structure, ids, Run(structure, ids, st, before), lines[n]);
    if i < n {
      assert before[..i] == lines[..i];
      TitleIsFirst(structure, ids, st, before, i);
      assert IsTitle(before[i]);
    }
  }

  /** Without a title line, the title is the stored one, trimmed, or else the file name's stem, or else a fixed text. */
  lemma TitleFallsBack(markdown: string, sidecar: Sidecar, path: string, fileName: string, ids: IdSource)
    requires NoTitles(SplitLines(markdown))
    ensures Parsed(markdown, sidecar, path, fileName, ids).title ==
              if sidecar.title.Some? && !Blank(sidecar.title.value) then Trim(sidecar.title.value)
              else if fileName != "" then StripExtension(fileName) else "Untitled document"
  {
    hide SplitLines, Run, Flush, Normalise, Trim, IsSpace, AllCompleted, AtLeastOne, StripExtension, IsTitle;
    var start := START.(next := Normalise(sidecar.variables, ids, 0).1);
    NoTitleYet(sidecar.structure, ids, start, SplitLines(markdown));
    FlushFacts(sidecar.structure, ids, Run(sidecar.structure, ids, start, SplitLines(markdown)));
    if sidecar.title.Some? { BlankIffTrimEmpty(sidecar.title.value); }
  }

  /** Every stored variable is kept, in order, with its id, its name or old name, and empty texts for what is missing. */
  lemma {:induction false} VariablesAreKept(vs: seq<Variable>, ids: IdSource, next: nat)
    ensures var r := Normalise(vs, ids, next).0;
            |r| == |vs| && forall i :: 0 <= i < |vs| ==>
              && IdRead(r[i].id, vs[i].id, "var", ids)
              && r[i].name == (if vs[i].name.Some? then vs[i].name else if vs[i].varName.Some? then vs[i].varName else Some(""))
              && r[i].content == Some(if vs[i].content.Some? then vs[i].content.value else "")
              && r[i].description == Some(if vs[i].description.Some? then vs[i].description.value else "")
              && r[i].varName == None && r[i].kind == vs[i].kind && r[i].metadata == vs[i].metadata
  {
    hide IdRead, IdOr;
    if vs != [] {
      var n := |vs| - 1;
      VariablesAreKept(vs[..n], ids, next);
      IdOrIsRead(vs[n].id, "var", ids, Normalise(vs[..n], ids, next).1);
    }
  }

  // What the printed sidecar says

  /** An entry has the chapter's title, and the ids of the chapter and its paragraphs, generated where they are missing. */
  ghost predicate Describes(entry: ChapterEntry, c: Chapter, ids: IdSource) {
    && entry.title == c.title && IdRead(entry.id, c.id, "chapter", ids) && |entry.paragraphs| == |c.paragraphs|
    && forall j :: 0 <= j < |c.paragraphs| ==> IdRead(entry.paragraphs[j], c.paragraphs[j].id, "paragraph", ids)
  }

  lemma {:induction false} ParagraphIdsAre(ps: seq<Paragraph>, ids: IdSource, next: nat)
    ensures var r := ParagraphIds(ps, ids, next).0;
            |r| == |ps| && forall j :: 0 <= j < |ps| ==> IdRead(r[j], ps[j].id, "paragraph", ids)
  {
    hide IdRead, IdOr;
    if ps != [] {
      var n := |ps| - 1;
      ParagraphIdsAre(ps[..n], ids, next);
      IdOrIsRead(ps[n].id, "paragraph", ids, ParagraphIds(ps[..n], ids, next).1);
    }
  }

  lemma {:induction false} EntriesDescribe(cs: seq<Chapter>, ids: IdSource, next: nat)
    ensures var r := Entries(cs, ids, next).0; |r| == |cs| && forall k :: 0 <= k < |cs| ==> Describes(r[k], cs[k], ids)
  {
    hide IdRead, IdOr, ParagraphIds;
    if cs != [] {
      var n := |cs| - 1;
      EntriesDescribe(cs[..n], ids, next);
      var m := Entries(cs[..n], ids, next).1;
      IdOrIsRead(cs[n].id, "chapter", ids, m);
      ParagraphIdsAre(cs[n].paragraphs, ids, IdOr(cs[n].id, "chapter", ids, m).1);
    }
  }

  /** Whatever the document, its sidecar has version 1, the printed title, the trimmed information text, all comments and all entries. */
  lemma SidecarIsComplete(d: Document, ids: IdSource)
    ensures var s := SidecarOf(d, ids);
            && s.version == Some(1) && s.infoText == Some(Trim(d.infoText)) && s.comments == d.comments
            && s.title == Some(if Blank(d.title) then "Untitled document" else Trim(d.title))
            && |s.structure| == |d.chapters| && forall k :: 0 <= k < |d.chapters| ==> Describes(s.structure[k], d.chapters[k], ids)
  {
    hide Trim, IsSpace, Normalise, Entries, Describes;
    BlankIffTrimEmpty(d.title);
    EntriesDescribe(d.chapters, ids, Normalise(d.variables, ids, 0).1);
  }

  lemma {:induction false} NothingBlankAtEnd(pieces: seq<string>)
    requires pieces != [] && Trim(pieces[0]) != ""
    ensures var kept := DropBlankEnd(pieces); kept != [] && kept <= pieces && Trim(Last(kept)) != ""
  {
    hide Trim;
    if |pieces| > 1 && Trim(pieces[|pieces| - 1]) == "" { NothingBlankAtEnd(pieces[..|pieces| - 1]); }
  }

  lemma JoinEndsWithLast(lines: seq<string>)
    requires lines != [] && Last(lines) != ""
    ensures Join(lines) != "" && Join(lines)[|Join(lines)| - 1] == Last(lines)[|Last(lines)| - 1]
  {
    var n := |lines| - 1;
    if n > 0 {
      assert lines[..n] + [lines[n]] == lines;
      JoinSnoc(lines[..n], lines[n]);
    }
  }

  /** Printed text ends with one line feed after a visible character, whatever the document. */
  lemma PrintedEndsOnce(d: Document)
    ensures var p := Printed(d); |p| > 1 && p[|p| - 1] == '\n' && !IsSpace(p[|p| - 2])
  {
    HeadHeadings(d);
    BodyHeadings(d.chapters);
    hide IsSpace, Trim, Join, HeadPieces, BodyPieces, DropBlankEnd;
    var pieces := Pieces(d);
    assert pieces[0] == HeadPieces(d)[0];
    NothingBlankAtEnd(pieces);
    var kept := DropBlankEnd(pieces);
    assert kept[|kept| - 1] == pieces[|kept| - 1];
    TrimmedIsFixed(Last(kept));
    JoinEndsWithLast(kept);
  }

  function NumberRead(s: string): int {
    if s == "" then 0 else 10 * NumberRead(s[..|s| - 1]) + (s[|s| - 1] as int - '0' as int)
  }

  /** Chapter numbers are written in decimal digits. */
  lemma {:induction false} DecimalReadsBack(n: nat)
    ensures NumberRead(Decimal(n)) == n
  {
    var digit := [('0' as int + n % 10) as char];
    if n < 10 {
      assert Decimal(n) == digit && digit[..0] == "";
    } else {
      DecimalReadsBack(n / 10);
      assert (Decimal(n / 10) + digit)[..|Decimal(n / 10)|] == Decimal(n / 10);
    }
  }

  lemma {:induction false} LastDotIsLast(name: string)
    ensures LastDot(name) >= 0 ==> name[LastDot(name)] == '.'
    ensures forall i :: LastDot(name) < i < |name| ==> name[i] != '.'
  {
    if name != "" && name[|name| - 1] != '.' { LastDotIsLast(name[..|name| - 1]); }
  }

  /** A file name's stem is what comes before its last dot; without one, or with one in front only, it is all of the name. */
  lemma StemOfName(stem: string, extension: string)
    requires '.' !in extension
    ensures stem != "" ==> StripExtension(stem + "." + extension) == stem
    ensures StripExtension("." + extension) == "." + extension
    ensures extension != "" ==> StripExtension(extension) == extension
  {
    var name := stem + "." + extension;
    LastDotIsLast(name);
    LastDotIsLast("." + extension);
    LastDotIsLast(extension);
    assert name[|stem|] == '.';
    assert forall i :: |stem| < i < |name| ==> name[i] == extension[i - |stem| - 1];
    assert forall i :: 0 < i < |extension| + 1 ==> ("." + extension)[i] == extension[i - 1];
    assert LastDot(name) == |stem|;
  }

  // Generated ids

  function ParagraphIdBag(ps: seq<Paragraph>): multiset<string> {
    if ps == [] then multiset{} else ParagraphIdBag(ps[..|ps| - 1]) + multiset{ps[|ps| - 1].id}
  }

  function IdBag(cs: seq<Chapter>): multiset<string> {
    if cs == [] then multiset{}
    else IdBag(cs[..|cs| - 1]) + multiset{cs[|cs| - 1].id} + ParagraphIdBag(cs[|cs| - 1].paragraphs)
  }

  /** No two requests for an id give the same one. */
  ghost predicate Injective(ids: IdSource) {
    forall p, q, m, n {:trigger ids(p, m), ids(q, n)} :: ids(p, m) == ids(q, n) ==> p == q && m == n
  }

  ghost predicate Requested(ids: IdSource, next: nat, id: string) { exists p, n: nat :: n < next && id == ids(p, n) }

  /** Every id comes from a request made so far, and occurs once. */
  ghost predicate Fresh(ids: IdSource, bag: multiset<string>, next: nat) {
    forall id :: id in bag ==> bag[id] == 1 && Requested(ids, next, id)
  }

  lemma FreshId(ids: IdSource, bag: multiset<string>, prefix: string, next: nat)
    requires Injective(ids) && Fresh(ids, bag, next)
    ensures Fresh(ids, bag + multiset{ids(prefix, next)}, next + 1)
  {
    var added := ids(prefix, next);
    assert Requested(ids, next + 1, added);
    forall id | id in bag ensures Requested(ids, next + 1, id) && id != added {
      assert Requested(ids, next, id);
      var p, n: nat :| n < next && id == ids(p, n);
      assert id == ids(p, n) && n < next + 1;
    }
  }

  lemma ParagraphBagSnoc(ps: seq<Paragraph>, p: Paragraph)
    ensures ParagraphIdBag(ps + [p]) == ParagraphIdBag(ps) + multiset{p.id}
  {
    assert (ps + [p])[..|ps|] == ps;
  }

  lemma BagSnoc(cs: seq<Chapter>, c: Chapter)
    ensures IdBag(cs + [c]) == IdBag(cs) + multiset{c.id} + ParagraphIdBag(c.paragraphs)
  {
    assert (cs + [c])[..|cs|] == cs;
  }

  lemma EmptyBags()
    ensures IdBag([]) == multiset{} && ParagraphIdBag([]) == multiset{}
  {
  }

  lemma NothingIsStored(k: int, j: int)
    ensures EntryAt([], k).id == "" && ParagraphIdAt(EntryAt([], k), j) == ""
  {
  }

  lemma FlushKeepsFresh(ids: IdSource, st: State)
    requires Injective(ids) && Fresh(ids, IdBag(st.chapters), st.next)
    ensures var f := Flush([], ids, st); Fresh(ids, IdBag(f.chapters), f.next)
  {
    hide Trim, Join, Injective, Fresh, EntryAt, ParagraphIdAt, IdBag, ParagraphIdBag;
    if st.chapters != [] && Trim(Join(st.buffer)) != "" {
      var last := |st.chapters| - 1;
      var c, f := st.chapters[last], Flush([], ids, st);
      NothingIsStored(last, |c.paragraphs|);
      var p := Paragraph(ids("paragraph", st.next), Trim(Join(st.buffer)));
      FreshId(ids, IdBag(st.chapters), "paragraph", st.next);
      ParagraphBagSnoc(c.paragraphs, p);
      BagSnoc(st.chapters[..last], c);
      BagSnoc(st.chapters[..last], c.(paragraphs := c.paragraphs + [p]));
      assert st.chapters == st.chapters[..last] + [c];
      assert f.chapters == st.chapters[..last] + [c.(paragraphs := c.paragraphs + [p])];
      assert IdBag(f.chapters) == IdBag(st.chapters) + multiset{p.id};
    }
  }

  lemma StepKeepsFresh(ids: IdSource, st: State, l: string)
    requires Injective(ids) && Fresh(ids, IdBag(st.chapters), st.next)
    ensures var t := Step([], ids, st, l); Fresh(ids, IdBag(t.chapters), t.next)
  {
    hide IsTitle, IsHeading, Trim, Heading, Flush, Injective, Fresh, EntryAt, IdBag, ParagraphIdBag;
    EmptyBags();
    FlushKeepsFresh(ids, st);
    if IsHeading(l) && !(IsTitle(l) && st.title == "") {
      var f := Flush([], ids, st);
      NothingIsStored(|f.chapters|, 0);
      FreshId(ids, IdBag(f.chapters), "chapter", f.next);
      var id := ids("chapter", f.next);
      BagSnoc(f.chapters, Chapter(id, Heading(l, 2), []));
      assert IdBag(f.chapters) + multiset{id} + multiset{} == IdBag(f.chapters) + multiset{id};
    }
  }

  lemma {:induction false} RunKeepsFresh(ids: IdSource, st: State, lines: seq<string>)
    requires Injective(ids) && Fresh(ids, IdBag(st.chapters), st.next)
    ensures var t := Run([], ids, st, lines); Fresh(ids, IdBag(t.chapters), t.next)
  {
    hide Step, Injective, Fresh;
    if lines != [] {
      RunKeepsFresh(ids, st, lines[..|lines| - 1]);
      StepKeepsFresh(ids, Run([], ids, st, lines[..|lines| - 1]), lines[|lines| - 1]);
    }
  }

  /** Completing chapters adds their placeholders' ids; `rest` is whatever else has been given out. */
  lemma {:induction false} CompletionKeepsFresh(ids: IdSource, cs: seq<Chapter>, next: nat, rest: multiset<string>)
    requires Injective(ids) && Fresh(ids, rest + IdBag(cs), next)
    ensures var (done, n) := AllCompleted([], ids, cs, next); Fresh(ids, rest + IdBag(done), n)
  {
    hide Injective, Fresh, Completed;
    if cs != [] {
      var i := |cs| - 1;
      var c := cs[i];
      var own := multiset{c.id} + ParagraphIdBag(c.paragraphs);
      assert rest + IdBag(cs) == (rest + own) + IdBag(cs[..i]);
      CompletionKeepsFresh(ids, cs[..i], next, rest + own);
      var (before, n) := AllCompleted([], ids, cs[..i], next);
      assert (rest + own) + IdBag(before) == (rest + IdBag(before)) + own;
      CompletedKeepsFresh(ids, c, i, n, rest + IdBag(before));
      var done := Completed([], ids, c, i, n).0;
      BagSnoc(before, done);
      assert (rest + IdBag(before)) + (multiset{done.id} + ParagraphIdBag(done.paragraphs)) == rest + IdBag(before + [done]);
    }
  }

  lemma CompletedKeepsFresh(ids: IdSource, c: Chapter, k: nat, next: nat, rest: multiset<string>)
    requires Injective(ids) && Fresh(ids, rest + (multiset{c.id} + ParagraphIdBag(c.paragraphs)), next)
    ensures var (done, n) := Completed([], ids, c, k, next);
            Fresh(ids, rest + (multiset{done.id} + ParagraphIdBag(done.paragraphs)), n)
  {
    hide Injective, Fresh, NumberedTitle, EntryAt, ParagraphIdAt;
    if c.paragraphs == [] {
      NothingIsStored(k, 0);
      var bag := rest + (multiset{c.id} + ParagraphIdBag(c.paragraphs));
      FreshId(ids, bag, "paragraph", next);
      var p := Paragraph(ids("paragraph", next), "");
      assert [p][..0] == [] && ParagraphIdBag([]) == multiset{} && ParagraphIdBag([p]) == multiset{p.id};
      assert bag + multiset{p.id} == rest + (multiset{c.id} + ParagraphIdBag([p]));
    }
  }

  /** In a file that is opened for the first time, all chapter and paragraph ids are different if generated ones are. */
  lemma IdsAreDistinct(markdown: string, path: string, fileName: string, ids: IdSource)
    requires Injective(ids)
    ensures var bag := IdBag(Parsed(markdown, EMPTY_SIDECAR, path, fileName, ids).chapters);
            forall id :: id in bag ==> bag[id] == 1
  {
    hide SplitLines, Run, Flush, Trim, Join, FallbackTitle, AllCompleted, Injective, NumberedTitle, EntryAt, IdBag, ParagraphIdBag, Fresh;
    EmptyBags();
    NoneFresh(ids);
    var lines := SplitLines(markdown);
    assert Normalise([], ids, 0) == ([], 0);
    RunKeepsFresh(ids, START, lines);
    var read := Run([], ids, START, lines);
    FlushKeepsFresh(ids, read);
    var st := Flush([], ids, read);
    var (some, n) := AtLeastOne([], ids, st.chapters, st.next);
    if st.chapters == [] {
      NothingIsStored(0, 0);
      FreshId(ids, IdBag([]), "chapter", st.next);
      BagSnoc([], some[0]);
      assert some == [] + [some[0]];
      assert IdBag(some) == IdBag([]) + multiset{some[0].id};
    }
    assert multiset{} + IdBag(some) == IdBag(some);
    CompletionKeepsFresh(ids, some, n, multiset{});
    var (done, m) := AllCompleted([], ids, some, n);
    assert multiset{} + IdBag(done) == IdBag(done);
    FreshIsDistinct(ids, IdBag(done), m);
  }

  lemma NoneFresh(ids: IdSource)
    ensures Fresh(ids, multiset{}, 0)
  {
  }

  lemma FreshIsDistinct(ids: IdSource, bag: multiset<string>, next: nat)
    requires Fresh(ids, bag, next)
    ensures forall id :: id in bag ==> bag[id] == 1
  {
  }
}

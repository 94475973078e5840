/**
 Carriage returns that stay in a paragraph. The splitter takes one carriage return off in front of a line feed;
 a line that had two keeps one, and inside a paragraph it is lost when the document is printed and read again.
 */
module MarkdownReturns {

  import opened MarkdownText
  import opened MarkdownDocument
  import opened MarkdownRoundTrip
  import opened MarkdownHeadings

  ghost predicate NoTitles(lines: seq<string>) {
    forall i :: 0 <= i < |lines| ==> !IsTitle(lines[i])
  }

  /** The lines without the one that gives the document its title. */
  ghost function Body(lines: seq<string>): seq<string> {
    if lines == [] then []
    else
      var before, l := lines[..|lines| - 1], lines[|lines| - 1];
      if IsTitle(l) && NoTitles(before) then Body(before) else Body(before) + [l]
  }

  predicate TextLine(l: string) { Trim(l) != "" && !IsHeading(l) }

  ghost predicate HeadingBefore(lines: seq<string>, i: int) {
    exists h :: 0 <= h < i && h < |lines| && IsHeading(lines[h])
  }

  ghost predicate StrayAt(lines: seq<string>, i: int) {
    && 0 <= i < |lines| - 1 && HeadingBefore(lines, i)
    && TextLine(lines[i]) && TextLine(lines[i + 1]) && ReturnAtEnd(lines[i])
  }

  /** Below a heading, some line ends with a carriage return and the next one continues its paragraph. */
  ghost predicate StrayReturn(lines: seq<string>) { exists i :: StrayAt(lines, i) }

  // The title line stands aside

  lemma FlushIgnoresTitle(structure: seq<ChapterEntry>, ids: IdSource, st: State, title: string)
    ensures Flush(structure, ids, st.(title := title)) == Flush(structure, ids, st).(title := title)
  {
    hide Trim, Join, IdOr, EntryAt, ParagraphIdAt;
  }

  lemma StepIgnoresTitle(structure: seq<ChapterEntry>, ids: IdSource, st: State, title: string, l: string)
    requires title != "" && !(IsTitle(l) && st.title == "")
    ensures Step(structure, ids, st.(title := title), l) == Step(structure, ids, st, l).(title := title)
  {
    hide IsTitle, IsHeading, Heading, Trim, IdOr, EntryAt, Flush;
    FlushIgnoresTitle(structure, ids, st, title);
  }

  /** Reading a text is, but for the title, reading it without its title line. */
  lemma {:induction false} TitleStandsAside(structure: seq<ChapterEntry>, ids: IdSource, st: State, title: string, lines: seq<string>)
    requires st.title == "" && title != ""
    requires forall i :: 0 <= i < |lines| && IsTitle(lines[i]) ==> Heading(lines[i], 1) != ""
    ensures Run(structure, ids, st.(title := title), Body(lines)) == Run(structure, ids, st, lines).(title := title)
    ensures Run(structure, ids, st, lines).title == "" <==> NoTitles(lines)
  {
    hide Step, IsTitle, Heading;
    if lines != [] {
      var before, l := lines[..|lines| - 1], lines[|lines| - 1];
      TitleStandsAside(structure, ids, st, title, before);
      var mid := Run(structure, ids, st, before);
      StepTitle(structure, ids, mid, l);
      if !(IsTitle(l) && NoTitles(before)) {
        StepIgnoresTitle(structure, ids, mid, title, l);
        assert (Body(before) + [l])[..|Body(before)|] == Body(before);
      }
    }
  }

  lemma StepTitle(structure: seq<ChapterEntry>, ids: IdSource, st: State, l: string)
    ensures IsTitle(l) && st.title == "" ==> Step(structure, ids, st, l) == st.(title := Heading(l, 1))
    ensures !(IsTitle(l) && st.title == "") ==> Step(structure, ids, st, l).title == st.title
  {
    hide IsTitle, IsHeading, Heading, Trim, IdOr, EntryAt, Flush;
    FlushFacts(structure, ids, st);
  }

  // What the machine has collected

  ghost predicate Unreturned(st: State) { SteadyChapters(st.chapters) && !ReturnBetween(st.buffer) }

  lemma FlushKeepsReturns(structure: seq<ChapterEntry>, ids: IdSource, st: State)
    requires GoodLines(st.buffer) && st.chapters != []
    ensures Unreturned(Flush(structure, ids, st)) <==> Unreturned(st)
  {
    hide Trim, Join, IdOr, EntryAt, ParagraphIdAt, ReturnInside, ReturnBetween, IsHeading, CleanLine, SteadyParagraphs;
    EmptyBetween();
    if st.buffer == [] {
      FlushFacts(structure, ids, st);
    } else {
      forall i | 0 <= i < |st.buffer| ensures CleanLine(st.buffer[i]) && Trim(st.buffer[i]) != "" { assert GoodLine(st.buffer[i]); }
      TrimmedJoinHasReturn(st.buffer);
      JoinIsNotBlank(st.buffer);
      var last := |st.chapters| - 1;
      var chapter, flushed := st.chapters[last], Flush(structure, ids, st);
      var p := Last(flushed.chapters[last].paragraphs);
      assert flushed.chapters[last].paragraphs == chapter.paragraphs + [p] && p.text == Trim(Join(st.buffer));
      SteadySnoc(chapter.paragraphs, p);
      assert st.chapters == st.chapters[..last] + [chapter];
      assert flushed.chapters == st.chapters[..last] + [flushed.chapters[last]];
      SteadyChaptersSnoc(st.chapters[..last], chapter);
      SteadyChaptersSnoc(st.chapters[..last], flushed.chapters[last]);
    }
  }

  lemma EmptyBetween()
    ensures !ReturnBetween([])
  {
  }

  lemma JoinIsNotBlank(lines: seq<string>)
    requires lines != [] && CleanLines(lines) && Trim(lines[0]) != ""
    ensures Trim(Join(lines)) != ""
  {
    hide IsSpace, TrimStart, TrimEnd, Trim;
    BlankIffTrimEmpty(Join(lines));
    BlankIffTrimEmpty(lines[0]);
    assert lines[0] <= Join(lines);
  }

  function Last<T>(s: seq<T>): T
    requires s != []
  {
    s[|s| - 1]
  }

  lemma SteadySnoc(ps: seq<Paragraph>, p: Paragraph)
    ensures SteadyParagraphs(ps + [p]) <==> SteadyParagraphs(ps) && !ReturnInside(p.text)
  {
    hide ReturnInside;
    var more := ps + [p];
    assert more[|ps|] == p && forall i :: 0 <= i < |ps| ==> more[i] == ps[i];
  }

  lemma SteadyChaptersSnoc(cs: seq<Chapter>, c: Chapter)
    ensures SteadyChapters(cs + [c]) <==> SteadyChapters(cs) && SteadyParagraphs(c.paragraphs)
  {
    hide SteadyParagraphs;
    var more := cs + [c];
    assert more[|cs|] == c && forall i :: 0 <= i < |cs| ==> more[i] == cs[i];
  }

  lemma BetweenSnoc(lines: seq<string>, l: string)
    ensures ReturnBetween(lines + [l]) <==> ReturnBetween(lines) || (lines != [] && ReturnAtEnd(Last(lines)))
  {
    hide ReturnAtEnd;
    var more := lines + [l];
    assert forall i :: 0 <= i < |lines| ==> more[i] == lines[i];
    if ReturnBetween(lines) {
      var i :| 0 <= i < |lines| - 1 && ReturnAtEnd(lines[i]);
      assert ReturnAtEnd(more[i]);
    }
  }

  lemma StraySnoc(lines: seq<string>, l: string)
    ensures StrayReturn(lines + [l]) <==>
              || StrayReturn(lines)
              || (TextLine(l) && lines != [] && TextLine(Last(lines)) && HeadingBefore(lines, |lines| - 1) && ReturnAtEnd(Last(lines)))
  {
    hide TextLine, ReturnAtEnd, IsHeading;
    var more, n := lines + [l], |lines|;
    forall i | 0 <= i <= n ensures HeadingBefore(more, i) <==> HeadingBefore(lines, i) {
      if HeadingBefore(lines, i) {
        var h :| 0 <= h < i && h < n && IsHeading(lines[h]);
        assert IsHeading(more[h]);
      }
    }
    forall i | 0 <= i < n - 1 ensures StrayAt(more, i) <==> StrayAt(lines, i) {
      assert more[i] == lines[i] && more[i + 1] == lines[i + 1];
    }
    if StrayReturn(lines) {
      var i :| StrayAt(lines, i);
      assert StrayAt(more, i);
    }
    assert StrayAt(more, n - 1) <==>
      TextLine(l) && lines != [] && TextLine(Last(lines)) && HeadingBefore(lines, n - 1) && ReturnAtEnd(Last(lines));
    if StrayReturn(more) {
      var i :| StrayAt(more, i);
      assert i == n - 1 || StrayAt(lines, i);
    }
  }

  lemma HeadingSnoc(lines: seq<string>, l: string)
    ensures HeadingBefore(lines + [l], |lines|) <==> !NoHeadings(lines)
    ensures NoHeadings(lines + [l]) <==> NoHeadings(lines) && !IsHeading(l)
  {
    hide IsHeading;
    var more := lines + [l];
    assert more[|lines|] == l && forall i :: 0 <= i < |lines| ==> more[i] == lines[i];
    if !NoHeadings(lines) {
      var h :| 0 <= h < |lines| && IsHeading(lines[h]);
      assert IsHeading(more[h]);
    }
  }

  /** The state after reading `lines` in order, below a title: what is collected, and whether a carriage return stayed. */
  ghost predicate Tracks(st: State, lines: seq<string>) {
    && st.title != "" && GoodLines(st.buffer)
    && (st.chapters == [] <==> NoHeadings(lines))
    && (st.buffer != [] <==> lines != [] && TextLine(Last(lines)) && HeadingBefore(lines, |lines| - 1))
    && (st.buffer != [] ==> Last(st.buffer) == Last(lines))
    && (Unreturned(st) <==> !StrayReturn(lines))
  }

  lemma StepTracks(structure: seq<ChapterEntry>, ids: IdSource, st: State, lines: seq<string>, l: string)
    requires Tracks(st, lines) && CleanLine(l)
    ensures Tracks(Step(structure, ids, st, l), lines + [l])
  {
    hide IsTitle, IsHeading, Heading, Trim, IdOr, EntryAt, Flush, CleanLine, ReturnAtEnd, ReturnBetween, SteadyChapters, StrayReturn,
         HeadingBefore, NoHeadings;
    StraySnoc(lines, l);
    HeadingSnoc(lines, l);
    FlushFacts(structure, ids, st);
    EmptyBetween();
    if st.chapters != [] { FlushKeepsReturns(structure, ids, st); }
    var flushed := Flush(structure, ids, st);
    if IsHeading(l) {
      var added := Last(Step(structure, ids, st, l).chapters);
      assert added.paragraphs == [];
      SteadyChaptersSnoc(flushed.chapters, added);
      assert SteadyParagraphs(added.paragraphs);
      BufferEmptyBeforeHeading(st, lines);
    } else if st.chapters == [] {
      BufferEmptyBeforeHeading(st, lines);
    } else if Trim(l) != "" {
      BetweenSnoc(st.buffer, l);
      assert GoodLine(l);
    }
  }

  lemma BufferEmptyBeforeHeading(st: State, lines: seq<string>)
    requires Tracks(st, lines)
    ensures st.chapters == [] ==> st.buffer == []
  {
    hide IsHeading, TextLine, StrayReturn, Unreturned, GoodLines;
  }

  lemma {:induction false} RunTracks(structure: seq<ChapterEntry>, ids: IdSource, st: State, lines: seq<string>)
    requires st.title != "" && st.chapters == [] && st.buffer == [] && CleanLines(lines)
    ensures Tracks(Run(structure, ids, st, lines), lines)
  {
    hide Step, CleanLine, Tracks;
    if lines == [] {
      NothingTracked(st);
    } else {
      var before, l := lines[..|lines| - 1], lines[|lines| - 1];
      RunTracks(structure, ids, st, before);
      StepTracks(structure, ids, Run(structure, ids, st, before), before, l);
      assert before + [l] == lines;
    }
  }

  lemma NothingTracked(st: State)
    requires st.title != "" && st.chapters == [] && st.buffer == []
    ensures Tracks(st, [])
  {
  }

  // The finished document

  lemma {:induction false} CompletionKeepsReturns(structure: seq<ChapterEntry>, ids: IdSource, cs: seq<Chapter>, next: nat)
    ensures SteadyChapters(AllCompleted(structure, ids, cs, next).0) <==> SteadyChapters(cs)
  {
    hide Completed, SteadyParagraphs;
    if cs != [] {
      var i := |cs| - 1;
      CompletionKeepsReturns(structure, ids, cs[..i], next);
      var (before, n) := AllCompleted(structure, ids, cs[..i], next);
      var c := Completed(structure, ids, cs[i], i, n).0;
      CompletedKeepsReturns(structure, ids, cs[i], i, n);
      SteadyChaptersSnoc(cs[..i], cs[i]);
      SteadyChaptersSnoc(before, c);
      assert cs == cs[..i] + [cs[i]];
    }
  }

  lemma CompletedKeepsReturns(structure: seq<ChapterEntry>, ids: IdSource, c: Chapter, i: nat, next: nat)
    ensures SteadyParagraphs(Completed(structure, ids, c, i, next).0.paragraphs) <==> SteadyParagraphs(c.paragraphs)
  {
    hide NumberedTitle, IdOr, EntryAt, ParagraphIdAt;
    assert !ReturnInside("");
  }

  lemma TitlesAreRead(lines: seq<string>)
    requires CleanLines(lines)
    ensures forall i :: 0 <= i < |lines| && IsTitle(lines[i]) ==> Heading(lines[i], 1) != ""
  {
    hide IsTitle, IsHeading, Heading;
    forall i | 0 <= i < |lines| && IsTitle(lines[i]) ensures Heading(lines[i], 1) != "" {
      TitleTextIsThere(lines[i]);
    }
  }

  lemma TitleTextIsThere(l: string)
    requires IsTitle(l)
    ensures Heading(l, 1) != ""
  {
    hide IsSpace, TrimStart, TrimEnd;
    var t := Trim(l);
    TrimIsTrimmed(l);
    BlankIffTrimEmpty(t[1..]);
    TrimAfterTrimStart(t[1..]);
    MarkIsNotAll(l);
    assert t[1..][|t| - 2] == t[|t| - 1];
  }

  lemma MarkIsNotAll(l: string)
    requires IsTitle(l)
    ensures |Trim(l)| > 2 && !IsSpace(Trim(l)[|Trim(l)| - 1])
  {
    TrimIsTrimmed(l);
    assert IsSpace(' ');
  }

  /** A parsed document keeps a carriage return inside a paragraph exactly when its text has a stray one. */
  lemma ParsedIsSteady(markdown: string, sidecar: Sidecar, path: string, fileName: string, ids: IdSource)
    ensures Steady(Parsed(markdown, sidecar, path, fileName, ids)) <==> !StrayReturn(Body(SplitLines(markdown)))
  {
    hide SplitLines, Run, Flush, Normalise, Trim, Join, AllCompleted, FallbackTitle, Body, StrayReturn, IsTitle, Heading, SteadyParagraphs,
         NumberedTitle, IdOr, EntryAt, CleanLine;
    var structure, lines := sidecar.structure, SplitLines(markdown);
    var start := START.(next := Normalise(sidecar.variables, ids, 0).1);
    SplitHasNoFeeds(markdown);
    LinesAreClean(lines);
    TitlesAreRead(lines);
    TitleStandsAside(structure, ids, start, "T", lines);
    BodyIsPart(lines);
    var titled := Run(structure, ids, start.(title := "T"), Body(lines));
    RunTracks(structure, ids, start.(title := "T"), Body(lines));
    var read := Run(structure, ids, start, lines);
    ReadIsSteady(structure, ids, read, titled, Body(lines));
    var st := Flush(structure, ids, read);
    var (some, n) := AtLeastOne(structure, ids, st.chapters, st.next);
    CompletionKeepsReturns(structure, ids, some, n);
    AtLeastOneIsSteady(structure, ids, st.chapters, st.next);
  }

  lemma LinesAreClean(lines: seq<string>)
    requires forall i :: 0 <= i < |lines| ==> '\n' !in lines[i]
    ensures CleanLines(lines)
  {
  }

  lemma AtLeastOneIsSteady(structure: seq<ChapterEntry>, ids: IdSource, cs: seq<Chapter>, next: nat)
    ensures SteadyChapters(AtLeastOne(structure, ids, cs, next).0) <==> SteadyChapters(cs)
  {
    hide NumberedTitle, IdOr, EntryAt, ReturnInside;
  }

  lemma ReadIsSteady(structure: seq<ChapterEntry>, ids: IdSource, read: State, titled: State, lines: seq<string>)
    requires Tracks(titled, lines) && titled == read.(title := titled.title)
    ensures SteadyChapters(Flush(structure, ids, read).chapters) <==> !StrayReturn(lines)
  {
    hide Flush, SteadyParagraphs, StrayReturn, NoHeadings, HeadingBefore, TextLine, ReturnBetween, GoodLines;
    EmptyBetween();
    BufferEmptyBeforeHeading(titled, lines);
    FlushFacts(structure, ids, read);
    if read.chapters != [] { FlushKeepsReturns(structure, ids, read); }
  }

  lemma {:induction false} BodyIsPart(lines: seq<string>)
    requires CleanLines(lines)
    ensures CleanLines(Body(lines))
  {
    hide IsTitle, CleanLine, NoTitles;
    if lines != [] { BodyIsPart(lines[..|lines| - 1]); }
  }
}

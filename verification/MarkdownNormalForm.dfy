/** One parse reaches the normal form, and exactly which documents survive printing and parsing. */
module MarkdownNormalForm {

  import opened MarkdownText
  import opened MarkdownDocument
  import opened MarkdownRoundTrip
  import opened MarkdownHeadings
  import opened MarkdownReturns

  /** Generated ids are never empty. */
  ghost predicate NonemptyIds(ids: IdSource) { forall prefix, n :: ids(prefix, n) != "" }

  // What holds of the machine's state while it reads clean lines

  ghost predicate GrowingChapter(c: Chapter) {
    c.id != "" && GoodTitle(c.title) && GoodParagraphs(c.paragraphs)
  }

  ghost predicate GrowingChapters(cs: seq<Chapter>) {
    forall i :: 0 <= i < |cs| ==> GrowingChapter(cs[i])
  }

  ghost predicate StateOk(st: State) {
    && (st.title != "" ==> GoodTitle(st.title))
    && GrowingChapters(st.chapters)
    && GoodLines(st.buffer) && (st.chapters == [] ==> st.buffer == [])
    && CleanLines(st.info) && NoHeadings(st.info)
  }

  lemma IdOrIsNotEmpty(stored: string, prefix: string, ids: IdSource, next: nat)
    requires NonemptyIds(ids)
    ensures IdOr(stored, prefix, ids, next).0 != ""
  {
  }

  lemma {:induction false} JoinOfGoodLines(lines: seq<string>)
    requires lines != [] && GoodLines(lines)
    ensures CleanLines(lines) && GoodText(Trim(Join(lines)))
  {
    hide IsSpace, TrimStart, TrimEnd, SplitLines, CleanLine, Join, LinesFromStart, LinesToEnd;
    forall i | 0 <= i < |lines| ensures CleanLine(lines[i]) { assert GoodLine(lines[i]); }
    TrimJoin(lines);
    TrimIsTrimmed(Join(lines));
    var t := Trim(Join(lines));
    var r := SplitLines(t);
    forall i | 0 <= i < |r| ensures GoodLine(r[i]) {
      assert TrimOccurs(r[i], lines);
      var j :| 0 <= j < |lines| && Trim(lines[j]) == Trim(r[i]);
      assert GoodLine(lines[j]);
    }
    assert t != "" by {
      assert GoodLine(r[0]);
      FirstLineOfEmpty();
    }
  }

  lemma FirstLineOfEmpty()
    ensures SplitLines("") == [""] && Trim("") == ""
  {
  }

  lemma FlushKeepsOk(structure: seq<ChapterEntry>, ids: IdSource, st: State)
    requires NonemptyIds(ids) && StateOk(st)
    ensures StateOk(Flush(structure, ids, st))
    ensures Flush(structure, ids, st).buffer == []
  {
    hide Trim, Join, GoodLine, CleanLine, GoodTitle, IdOr, EntryAt, ParagraphIdAt, GoodText;
    FlushFacts(structure, ids, st);
    if st.chapters != [] && st.buffer != [] {
      JoinOfGoodLines(st.buffer);
      var last := |st.chapters| - 1;
      var chapter := st.chapters[last];
      assert GrowingChapter(chapter);
      var stored := ParagraphIdAt(EntryAt(structure, last), |chapter.paragraphs|);
      IdOrIsNotEmpty(stored, "paragraph", ids, st.next);
      if Trim(Join(st.buffer)) != "" {
        var p := Paragraph(IdOr(stored, "paragraph", ids, st.next).0, Trim(Join(st.buffer)));
        assert GoodParagraph(p);
        assert GoodParagraphs(chapter.paragraphs + [p]);
      }
    }
  }

  /** The text of a title or heading line is a proper title. */
  lemma HeadingIsGood(l: string)
    requires '\n' !in l
    ensures IsTitle(l) ==> GoodTitle(Heading(l, 1))
    ensures IsHeading(l) ==> GoodTitle(Heading(l, 2))
  {
    if IsTitle(l) { HeadingTextIsGood(l, 1); }
    if IsHeading(l) { HeadingTextIsGood(l, 2); }
  }

  lemma HeadingTextIsGood(l: string, hashes: nat)
    requires '\n' !in l && 1 <= hashes <= 2
    requires hashes < |Trim(l)| && Trim(l)[hashes] == ' '
    ensures GoodTitle(Heading(l, hashes))
  {
    var t := Trim(l);
    TrimIsTrimmed(l);
    TrimIsPart(l);
    var rest := t[hashes..];
    var k := TrimStartSuffix(rest);
    assert rest[|rest| - 1] == t[|t| - 1];
    assert k < |rest|;
    var text := TrimStart(rest);
    TrimmedIsFixed(text);
  }

  lemma TrimIsPart(l: string)
    ensures forall c :: c in Trim(l) ==> c in l
  {
    var j := TrimStartSuffix(l);
    var k := TrimEndPrefix(TrimStart(l));
  }

  lemma StepKeepsOk(structure: seq<ChapterEntry>, ids: IdSource, st: State, line: string)
    requires NonemptyIds(ids) && StateOk(st) && CleanLine(line)
    ensures StateOk(Step(structure, ids, st, line))
  {
    hide Trim, Join, IdOr, EntryAt, ParagraphIdAt, Flush, Heading, IsTitle, IsHeading, GoodTitle;
    HeadingIsGood(line);
    FlushKeepsOk(structure, ids, st);
    if IsTitle(line) && st.title == "" {
    } else if IsHeading(line) {
      var flushed := Flush(structure, ids, st);
      IdOrIsNotEmpty(EntryAt(structure, |flushed.chapters|).id, "chapter", ids, flushed.next);
      var c := Chapter(IdOr(EntryAt(structure, |flushed.chapters|).id, "chapter", ids, flushed.next).0, Heading(line, 2), []);
      assert GrowingChapter(c);
    } else if st.chapters != [] && Trim(line) != "" {
      assert GoodLine(line);
    }
  }

  lemma {:induction false} RunKeepsOk(structure: seq<ChapterEntry>, ids: IdSource, st: State, lines: seq<string>)
    requires NonemptyIds(ids) && StateOk(st) && CleanLines(lines)
    ensures StateOk(Run(structure, ids, st, lines))
  {
    hide Step, StateOk;
    if lines != [] {
      RunKeepsOk(structure, ids, st, lines[..|lines| - 1]);
      StepKeepsOk(structure, ids, Run(structure, ids, st, lines[..|lines| - 1]), lines[|lines| - 1]);
    }
  }

  lemma StartIsOk(next: nat)
    ensures StateOk(START.(next := next))
  {
  }

  // The finished document

  lemma {:induction false} NormaliseIsNormal(vs: seq<Variable>, ids: IdSource, next: nat)
    requires NonemptyIds(ids)
    ensures NormalVariables(Normalise(vs, ids, next).0)
  {
    if vs != [] {
      NormaliseIsNormal(vs[..|vs| - 1], ids, next);
      var n := Normalise(vs[..|vs| - 1], ids, next).1;
      IdOrIsNotEmpty(vs[|vs| - 1].id, "var", ids, n);
    }
  }

  lemma {:induction false} DecimalDigits(n: nat)
    ensures Decimal(n) != "" && forall i :: 0 <= i < |Decimal(n)| ==> '0' <= Decimal(n)[i] <= '9'
  {
    if n >= 10 { DecimalDigits(n / 10); }
  }

  lemma NumberedTitleIsGood(i: nat)
    ensures GoodTitle(NumberedTitle(i))
  {
    DecimalDigits(i + 1);
    var t := NumberedTitle(i);
    assert t[|t| - 1] == Decimal(i + 1)[|Decimal(i + 1)| - 1];
    assert t[0] == 'C';
    assert forall j :: 0 <= j < |"Chapter "| ==> "Chapter "[j] != '\n';
  }

  /** A title stored for the first chapter is used only when the text has no chapter. */
  ghost predicate StoredTitleOk(structure: seq<ChapterEntry>) {
    EntryAt(structure, 0).title != "" ==> GoodTitle(EntryAt(structure, 0).title)
  }

  lemma AtLeastOneIsOk(structure: seq<ChapterEntry>, ids: IdSource, cs: seq<Chapter>, next: nat)
    requires NonemptyIds(ids) && GrowingChapters(cs) && (cs != [] || StoredTitleOk(structure))
    ensures AtLeastOne(structure, ids, cs, next).0 != [] && GrowingChapters(AtLeastOne(structure, ids, cs, next).0)
  {
    hide GoodTitle, NumberedTitle;
    NumberedTitleIsGood(0);
    IdOrIsNotEmpty(EntryAt(structure, 0).id, "chapter", ids, next);
    EmptyIsNotGood();
  }

  /** An improper stored title stays with the chapter that it is used for. */
  lemma StoredTitleStays(structure: seq<ChapterEntry>, ids: IdSource, next: nat)
    requires !StoredTitleOk(structure)
    ensures var (some, n) := AtLeastOne(structure, ids, [], next);
            var all := AllCompleted(structure, ids, some, n).0;
            |all| == 1 && !GoodTitle(all[0].title)
  {
    hide GoodTitle;
    var (some, n) := AtLeastOne(structure, ids, [], next);
    assert some[..0] == [];
  }

  lemma EmptyIsNotGood()
    ensures !GoodTitle("")
  {
  }

  lemma CompletedIsNormal(structure: seq<ChapterEntry>, ids: IdSource, c: Chapter, i: nat, next: nat)
    requires NonemptyIds(ids) && GrowingChapter(c)
    ensures NormalChapter(Completed(structure, ids, c, i, next).0)
  {
    hide GoodTitle, NumberedTitle, IdOr, EntryAt, ParagraphIdAt;
    EmptyIsNotGood();
    IdOrIsNotEmpty(ParagraphIdAt(EntryAt(structure, i), 0), "paragraph", ids, next);
  }

  lemma {:induction false} AllCompletedIsNormal(structure: seq<ChapterEntry>, ids: IdSource, cs: seq<Chapter>, next: nat)
    requires NonemptyIds(ids) && GrowingChapters(cs)
    ensures NormalChapters(AllCompleted(structure, ids, cs, next).0)
  {
    hide GrowingChapter, NormalChapter, Completed;
    if cs != [] {
      var i := |cs| - 1;
      AllCompletedIsNormal(structure, ids, cs[..i], next);
      CompletedIsNormal(structure, ids, cs[i], i, AllCompleted(structure, ids, cs[..i], next).1);
    }
  }

  lemma InfoIsGood(info: seq<string>)
    requires CleanLines(info) && NoHeadings(info)
    ensures GoodInfo(Trim(Join(info)))
  {
    hide IsSpace, TrimStart, TrimEnd, SplitLines, CleanLine, Join, LinesFromStart, LinesToEnd;
    TrimIsTrimmed(Join(info));
    if info == [] {
      EmptyInfoIsGood();
    } else {
      TrimJoin(info);
      var r := SplitLines(Trim(Join(info)));
      forall i | 0 <= i < |r| ensures !IsHeading(r[i]) {
        assert TrimOccurs(r[i], info);
        var j :| 0 <= j < |info| && Trim(info[j]) == Trim(r[i]);
        assert !IsHeading(info[j]);
      }
    }
  }

  lemma EmptyInfoIsGood()
    ensures GoodInfo(Trim(Join([])))
  {
    TrimmedIsFixed("");
    FirstLineOfEmpty();
    assert Join([]) == "";
  }

  /** The title the machine ends with, before any fallback. */
  function MachineTitle(markdown: string, sidecar: Sidecar, ids: IdSource): string {
    Run(sidecar.structure, ids, START.(next := Normalise(sidecar.variables, ids, 0).1), SplitLines(markdown)).title
  }

  /**
   What a sidecar must not bring in: information text with blank edges or a heading line, another version, and,
   for a text without headings, an improper title for its first chapter.
   */
  ghost predicate Survives(sidecar: Sidecar, lines: seq<string>) {
    && (sidecar.infoText.Some? ==> Trimmed(sidecar.infoText.value) && NoHeadings(SplitLines(sidecar.infoText.value)))
    && (sidecar.version.Some? ==> sidecar.version.value == 1)
    && (NoHeadings(lines) ==> StoredTitleOk(sidecar.structure))
  }

  /** The chapters as the machine leaves them, before they are completed. */
  ghost function ReadState(markdown: string, sidecar: Sidecar, ids: IdSource): State {
    var next := Normalise(sidecar.variables, ids, 0).1;
    Flush(sidecar.structure, ids, Run(sidecar.structure, ids, START.(next := next), SplitLines(markdown)))
  }

  lemma ReadFacts(markdown: string, sidecar: Sidecar, ids: IdSource)
    requires NonemptyIds(ids)
    ensures StateOk(ReadState(markdown, sidecar, ids))
    ensures ReadState(markdown, sidecar, ids).chapters == [] <==> NoHeadings(SplitLines(markdown))
    ensures ReadState(markdown, sidecar, ids).title == MachineTitle(markdown, sidecar, ids)
  {
    hide SplitLines, Run, Flush, Normalise, StateOk, HeadingCount, NoHeadings;
    var start, lines := START.(next := Normalise(sidecar.variables, ids, 0).1), SplitLines(markdown);
    SplitHasNoFeeds(markdown);
    LinesAreClean(lines);
    StartIsOk(start.next);
    var read := Run(sidecar.structure, ids, start, lines);
    RunKeepsOk(sidecar.structure, ids, start, lines);
    FlushKeepsOk(sidecar.structure, ids, read);
    FlushFacts(sidecar.structure, ids, read);
    RunCounts(sidecar.structure, ids, start, lines);
    NoneCounted(lines);
  }

  /** The chapters of a parsed document are normal unless the only one has an improper stored title. */
  lemma ChaptersAreNormal(markdown: string, sidecar: Sidecar, path: string, fileName: string, ids: IdSource)
    requires NonemptyIds(ids)
    ensures var d := Parsed(markdown, sidecar, path, fileName, ids);
            && d.chapters != []
            && (NormalChapters(d.chapters) <==> (NoHeadings(SplitLines(markdown)) ==> StoredTitleOk(sidecar.structure)))
            && (Titled(d.chapters) ==> NormalChapters(d.chapters))
  {
    hide SplitLines, Run, Flush, Normalise, GoodTitle, Trim, Join, AllCompleted, AtLeastOne, FallbackTitle, StoredTitleOk, NoHeadings,
         NormalChapter, GrowingChapter;
    ReadFacts(markdown, sidecar, ids);
    var st, structure := ReadState(markdown, sidecar, ids), sidecar.structure;
    if st.chapters != [] || StoredTitleOk(structure) {
      AtLeastOneIsOk(structure, ids, st.chapters, st.next);
      var (some, n) := AtLeastOne(structure, ids, st.chapters, st.next);
      AllCompletedIsNormal(structure, ids, some, n);
    } else {
      StoredTitleStays(structure, ids, st.next);
      UntitledIsNotNormal(Parsed(markdown, sidecar, path, fileName, ids).chapters);
    }
  }

  lemma UntitledIsNotNormal(cs: seq<Chapter>)
    ensures cs != [] && !GoodTitle(cs[0].title) ==> !NormalChapters(cs) && !Titled(cs)
  {
    if cs != [] && NormalChapters(cs) { assert NormalChapter(cs[0]); }
  }

  /** For every sidecar, exactly when one parse gives a normal document; a title found in the text is always proper. */
  lemma ParsedIsNormal(markdown: string, sidecar: Sidecar, path: string, fileName: string, ids: IdSource)
    requires NonemptyIds(ids)
    ensures var d := Parsed(markdown, sidecar, path, fileName, ids);
            Normal(d) <==> GoodTitle(d.title) && Survives(sidecar, SplitLines(markdown))
    ensures MachineTitle(markdown, sidecar, ids) != "" ==> GoodTitle(Parsed(markdown, sidecar, path, fileName, ids).title)
  {
    ReadFacts(markdown, sidecar, ids);
    ChaptersAreNormal(markdown, sidecar, path, fileName, ids);
    InfoIsGood(ReadState(markdown, sidecar, ids).info);
    NormaliseIsNormal(sidecar.variables, ids, 0);
    hide SplitLines, Run, Flush, Normalise, GoodTitle, Trim, Trimmed, Join, AllCompleted, AtLeastOne, FallbackTitle, StoredTitleOk, NoHeadings,
         NormalChapters;
  }

  // The first line of printed text is always a title line

  lemma {:induction false} MachineTitleStays(structure: seq<ChapterEntry>, ids: IdSource, st: State, lines: seq<string>)
    requires (exists i :: 0 <= i < |lines| && IsTitle(lines[i])) || st.title != ""
    requires forall i :: 0 <= i < |lines| ==> '\n' !in lines[i]
    requires st.title != "" ==> GoodTitle(st.title)
    ensures GoodTitle(Run(structure, ids, st, lines).title)
    decreases |lines|
  {
    hide IsTitle, IsHeading, Heading, GoodTitle, Flush, Trim;
    if lines != [] {
      var before, l := lines[..|lines| - 1], lines[|lines| - 1];
      var mid := Run(structure, ids, st, before);
      FlushFacts(structure, ids, mid);
      HeadingIsGood(l);
      EmptyIsNotGood();
      if st.title != "" || exists i :: 0 <= i < |before| && IsTitle(before[i]) {
        MachineTitleStays(structure, ids, st, before);
      } else {
        NoTitleYet(structure, ids, st, before);
        assert IsTitle(l);
      }
    }
  }

  lemma {:induction false} NoTitleYet(structure: seq<ChapterEntry>, ids: IdSource, st: State, lines: seq<string>)
    requires forall i :: 0 <= i < |lines| ==> !IsTitle(lines[i])
    ensures Run(structure, ids, st, lines).title == st.title
  {
    hide IsTitle, IsHeading, Heading, Flush, Trim;
    if lines != [] {
      NoTitleYet(structure, ids, st, lines[..|lines| - 1]);
      FlushFacts(structure, ids, Run(structure, ids, st, lines[..|lines| - 1]));
    }
  }

  lemma PrintedStartsWithTitle(d: Document)
    ensures IsTitle(SplitLines(Printed(d))[0])
  {
    var t := TitleOf(d);
    TrimIsTrimmed(d.title);
    assert Trimmed(t) && t != "" by { TrimmedDefault(); }
    var s := Printed(d);
    PrintedPrefix(d);
    assert s[0] == '#' && s[1] == ' ' && s[2] == t[0] by { assert s[..3] == ("# " + t)[..3]; }
    assert !IsSpace(s[2]) && !IsSpace(s[0]);
    FirstLine(s, 3);
    var l := SplitLines(s)[0];
    assert l[0] == s[0] && l[1] == s[1] && l[2] == s[2] by { assert l[..3] == s[..3]; }
    var k := TrimEndPrefix(l);
    assert k >= 3;
    assert TrimStart(l) == l;
  }

  lemma TrimmedDefault()
    ensures Trimmed(DEFAULT_TITLE) && DEFAULT_TITLE != ""
  {
  }

  lemma {:induction false} DropBlankEndKeepsFirst(pieces: seq<string>)
    requires pieces != []
    ensures DropBlankEnd(pieces) != [] && DropBlankEnd(pieces)[0] == pieces[0]
  {
    hide Trim;
    if |pieces| > 1 && Trim(pieces[|pieces| - 1]) == "" { DropBlankEndKeepsFirst(pieces[..|pieces| - 1]); }
  }

  lemma PrintedPrefix(d: Document)
    ensures "# " + TitleOf(d) <= Printed(d)
  {
    hide DropBlankEnd, BodyPieces, TitleOf;
    DropBlankEndKeepsFirst(Pieces(d));
    var kept := DropBlankEnd(Pieces(d));
    assert kept[0] == "# " + TitleOf(d);
    if |kept| > 1 { assert kept == [kept[0]] + kept[1..]; JoinCons(kept[0], kept[1..]); }
  }

  lemma PrintedTitleIsGood(d: Document, sidecar: Sidecar, path: string, fileName: string, ids: IdSource)
    ensures GoodTitle(Parsed(Printed(d), sidecar, path, fileName, ids).title)
  {
    hide SplitLines, Run, Flush, Normalise, GoodTitle, AllCompleted, AtLeastOne, FallbackTitle, Printed, IsTitle, Trim;
    var start := START.(next := Normalise(sidecar.variables, ids, 0).1);
    PrintedStartsWithTitle(d);
    SplitHasNoFeeds(Printed(d));
    MachineTitleStays(sidecar.structure, ids, start, SplitLines(Printed(d)));
    FlushFacts(sidecar.structure, ids, Run(sidecar.structure, ids, start, SplitLines(Printed(d))));
    EmptyIsNotGood();
  }

  /** The print-then-parse round trip of a parsed text, with the sidecar that was printed. */
  ghost function Again(d: Document, fileName: string, printIds: IdSource, parseIds: IdSource): Document {
    Parsed(Printed(d), SidecarOf(d, printIds), d.path, fileName, parseIds)
  }

  /** What the second parse has for certain, whatever was printed. */
  lemma AgainIsTidy(d: Document, fileName: string, printIds: IdSource, parseIds: IdSource)
    requires d.chapters != []
    ensures var a := Again(d, fileName, printIds, parseIds);
            && a.version == 1 && Trimmed(a.infoText) && GoodTitle(a.title) && Titled(a.chapters)
            && |a.chapters| >= |d.chapters| + HeadingCount(SplitLines(Trim(d.infoText)))
  {
    hide SplitLines, Run, Flush, Normalise, GoodTitle, Trim, Trimmed, Join, AllCompleted, FallbackTitle, HeadingCount, Printed, Titled, Entries;
    var sidecar := SidecarOf(d, printIds);
    PrintedTitleIsGood(d, sidecar, d.path, fileName, parseIds);
    TrimIsTrimmed(d.infoText);
    var start := START.(next := Normalise(sidecar.variables, parseIds, 0).1);
    PrintedChapters(sidecar.structure, parseIds, start, d);
    MachineChaptersAreTitled(sidecar.structure, parseIds, start, Printed(d));
    var st := ReadState(Printed(d), sidecar, parseIds);
    CompletionKeepsTitles(sidecar.structure, parseIds, st.chapters, st.next);
  }

  lemma MachineChaptersAreTitled(structure: seq<ChapterEntry>, ids: IdSource, st: State, text: string)
    requires st.chapters == []
    ensures Titled(Flush(structure, ids, Run(structure, ids, st, SplitLines(text))).chapters)
  {
    hide SplitLines, Run, Flush, IsHeading, Heading, GoodTitle;
    var lines := SplitLines(text);
    SplitHasNoFeeds(text);
    forall i | 0 <= i < |lines| && IsHeading(lines[i]) ensures GoodTitle(Heading(lines[i], 2)) { HeadingIsGood(lines[i]); }
    RunTitles(structure, ids, st, lines);
    FlushKeepsTitles(structure, ids, Run(structure, ids, st, lines));
  }

  lemma {:induction false} CompletionKeepsTitles(structure: seq<ChapterEntry>, ids: IdSource, cs: seq<Chapter>, next: nat)
    requires Titled(cs)
    ensures Titled(AllCompleted(structure, ids, cs, next).0)
  {
    hide GoodTitle, IdOr, EntryAt, ParagraphIdAt, NumberedTitle;
    EmptyIsNotGood();
    if cs != [] { CompletionKeepsTitles(structure, ids, cs[..|cs| - 1], next); }
  }

  /** The title comes from a title line of the text, or else the fallback for it is proper. */
  ghost predicate TitleSurvives(sidecar: Sidecar, fileName: string, lines: seq<string>) {
    !NoTitles(lines) || GoodTitle(FallbackTitle(sidecar, fileName))
  }

  /**
   For every text and every sidecar, printing what was parsed and parsing it again gives the same document, ids
   included, exactly when the text has a title line or a proper fallback, the sidecar brings in nothing that the
   printed form cannot carry, and no line inside a paragraph keeps a carriage return at its end.
   */
  lemma RoundTripExactly(markdown: string, sidecar: Sidecar, path: string, fileName: string,
                         ids: IdSource, printIds: IdSource, parseIds: IdSource)
    requires NonemptyIds(ids)
    ensures var d, lines := Parsed(markdown, sidecar, path, fileName, ids), SplitLines(markdown);
            && (Again(d, fileName, printIds, parseIds) == d <==> Normal(d) && Steady(d))
            && (Normal(d) <==> TitleSurvives(sidecar, fileName, lines) && Survives(sidecar, lines))
            && (Steady(d) <==> !StrayReturn(Body(lines)))
  {
    var d := Parsed(markdown, sidecar, path, fileName, ids);
    ParsedPath(markdown, sidecar, path, fileName, ids);
    ParsedIsNormal(markdown, sidecar, path, fileName, ids);
    ParsedIsSteady(markdown, sidecar, path, fileName, ids);
    ParsedTitle(markdown, sidecar, path, fileName, ids);
    ChaptersAreNormal(markdown, sidecar, path, fileName, ids);
    VariablesAreNormal(markdown, sidecar, path, fileName, ids);
    hide Parsed, GoodTitle, Survives, TitleSurvives, NormalChapters, NormalVariables, Again, Trim, NoHeadings, Titled, HeadingCount, SplitLines,
         Steady, StrayReturn, RelinedDocument;
    RelinedIsSame(d);
    AgainIs(d, fileName, printIds, parseIds);
    if Normal(d) { PrintThenParse(d, printIds, parseIds, fileName); }
    if Again(d, fileName, printIds, parseIds) == d {
      AgainIsTidy(d, fileName, printIds, parseIds);
      TrimmedIsFixed(d.infoText);
      NoneCounted(SplitLines(d.infoText));
    }
  }

  /** The parsed title is proper exactly when a title line gives it or the fallback is. */
  lemma ParsedTitle(markdown: string, sidecar: Sidecar, path: string, fileName: string, ids: IdSource)
    requires NonemptyIds(ids)
    ensures GoodTitle(Parsed(markdown, sidecar, path, fileName, ids).title) <==> TitleSurvives(sidecar, fileName, SplitLines(markdown))
  {
    ParsedIsNormal(markdown, sidecar, path, fileName, ids);
    hide SplitLines, Run, Flush, Normalise, GoodTitle, Trim, Join, AllCompleted, AtLeastOne, FallbackTitle, IsTitle, Survives, Normal;
    var start := START.(next := Normalise(sidecar.variables, ids, 0).1);
    SplitHasNoFeeds(markdown);
    HasTitleLine(sidecar.structure, ids, start, SplitLines(markdown));
    FlushFacts(sidecar.structure, ids, Run(sidecar.structure, ids, start, SplitLines(markdown)));
  }

  lemma AgainIs(d: Document, fileName: string, printIds: IdSource, parseIds: IdSource)
    ensures Again(d, fileName, printIds, parseIds) == Parsed(Printed(d), SidecarOf(d, printIds), d.path, fileName, parseIds)
  {
  }

  lemma VariablesAreNormal(markdown: string, sidecar: Sidecar, path: string, fileName: string, ids: IdSource)
    requires NonemptyIds(ids)
    ensures NormalVariables(Parsed(markdown, sidecar, path, fileName, ids).variables)
  {
    NormaliseIsNormal(sidecar.variables, ids, 0);
  }

  lemma ParsedPath(markdown: string, sidecar: Sidecar, path: string, fileName: string, ids: IdSource)
    ensures Parsed(markdown, sidecar, path, fileName, ids).path == path
  {
  }

  lemma HasTitleLine(structure: seq<ChapterEntry>, ids: IdSource, st: State, lines: seq<string>)
    requires st.title == "" && forall i :: 0 <= i < |lines| ==> '\n' !in lines[i]
    ensures Run(structure, ids, st, lines).title != "" <==> exists i :: 0 <= i < |lines| && IsTitle(lines[i])
  {
    hide IsTitle, Run, GoodTitle;
    EmptyIsNotGood();
    if exists i :: 0 <= i < |lines| && IsTitle(lines[i]) {
      MachineTitleStays(structure, ids, st, lines);
    } else {
      NoTitleYet(structure, ids, st, lines);
    }
  }

  /**
   With an empty sidecar, as when a markdown file is opened for the first time, the round trip is exact unless the
   text has no title line and the file name's stem is not a proper title, or a carriage return is stray.
   */
  lemma FirstOpenRoundTrip(markdown: string, path: string, fileName: string, ids: IdSource, printIds: IdSource, parseIds: IdSource)
    requires NonemptyIds(ids)
    ensures var d := Parsed(markdown, EMPTY_SIDECAR, path, fileName, ids);
            var lines := SplitLines(markdown);
            Again(d, fileName, printIds, parseIds) == d <==>
              && (!NoTitles(lines) || fileName == "" || GoodTitle(StripExtension(fileName)))
              && !StrayReturn(Body(lines))
  {
    hide IsTitle, GoodTitle, SplitLines, Parsed, Again, StripExtension, Normal, Steady, NoTitles, StrayReturn;
    EmptySurvives(SplitLines(markdown));
    RoundTripExactly(markdown, EMPTY_SIDECAR, path, fileName, ids, printIds, parseIds);
    DefaultIsGood();
  }

  lemma {:induction false} SplitAddsNothing(s: string, c: char)
    requires c !in s
    ensures forall i :: 0 <= i < |SplitLines(s)| ==> c !in SplitLines(s)[i]
    decreases |s|
  {
    if s != "" {
      var rest := if s[0] == '\r' && |s| > 1 && s[1] == '\n' then s[2..] else s[1..];
      SplitAddsNothing(rest, c);
    }
  }

  /** Texts without carriage returns have no stray one. */
  lemma NoReturnsNoneStray(markdown: string)
    requires '\r' !in markdown
    ensures !StrayReturn(Body(SplitLines(markdown)))
  {
    hide SplitLines, IsHeading, TextLine;
    SplitAddsNothing(markdown, '\r');
    BodyAddsNothing(SplitLines(markdown), '\r');
  }

  lemma {:induction false} BodyAddsNothing(lines: seq<string>, c: char)
    requires forall i :: 0 <= i < |lines| ==> c !in lines[i]
    ensures forall i :: 0 <= i < |Body(lines)| ==> c !in Body(lines)[i]
  {
    hide IsTitle, NoTitles;
    if lines != [] { BodyAddsNothing(lines[..|lines| - 1], c); }
  }

  /** A paragraph of two lines, the first of which ends with two carriage returns: one of them is lost on the way. */
  lemma StrayReturnIsLost(path: string, ids: IdSource, printIds: IdSource, parseIds: IdSource)
    requires NonemptyIds(ids)
    ensures var d := Parsed("# T\n## A\na\r\r\nb", EMPTY_SIDECAR, path, "", ids);
            Again(d, "", printIds, parseIds) != d
  {
    StrayText();
    hide Parsed, Again, SplitLines, StrayReturn, Body;
    FirstOpenRoundTrip("# T\n## A\na\r\r\nb", path, "", ids, printIds, parseIds);
  }

  lemma StrayText()
    ensures StrayReturn(Body(SplitLines("# T\n## A\na\r\r\nb")))
  {
    hide IsTitle, IsHeading, TextLine, SplitLines, Trim, StrayReturn, Body, ReturnAtEnd;
    StrayLines();
    HashesAreRead("T");
    HashesAreRead("A");
    StrayTextLine();
    assert "# " + "T" == "# T" && "## " + "A" == "## A";
    StrayBody("# T", "## A", "a\r", "b");
  }

  lemma StrayBody(title: string, heading: string, a: string, b: string)
    requires IsTitle(title) && IsHeading(heading) && TextLine(a) && TextLine(b) && ReturnAtEnd(a)
    ensures StrayReturn(Body([title, heading, a, b]))
  {
    hide IsTitle, IsHeading, TextLine, ReturnAtEnd, Body;
    var rest := [heading, a, b];
    TitledBody(title, rest);
    assert [title] + rest == [title, heading, a, b];
    assert IsHeading(rest[0]);
    assert StrayAt(rest, 1);
  }

  lemma StrayTextLine()
    ensures TextLine("a\r") && TextLine("b") && ReturnAtEnd("a\r")
  {
    TrimmedIsFixed("b");
    TrimmedIsFixed("a");
    DropReturnKeepsTrim("a\r");
    assert DropReturn("a\r") == "a";
  }

  lemma FourLines(a: string, b: string, c: string, d: string)
    requires CleanLine(a) && CleanLine(b) && CleanLine(c) && CleanLine(d)
    ensures SplitLines(a + "\n" + (b + "\n" + (c + "\n" + d))) == [DropReturn(a), DropReturn(b), DropReturn(c), d]
  {
    hide SplitLines;
    SplitFirstLine(a, b + "\n" + (c + "\n" + d));
    SplitFirstLine(b, c + "\n" + d);
    SplitFirstLine(c, d);
    SplitCleanLine(d);
  }

  lemma StrayLines()
    ensures SplitLines("# T\n## A\na\r\r\nb") == ["# T", "## A", "a\r", "b"]
  {
    hide SplitLines;
    FourLines("# T", "## A", "a\r\r", "b");
    assert "# T" + "\n" + ("## A" + "\n" + ("a\r\r" + "\n" + "b")) == "# T\n## A\na\r\r\nb";
    assert DropReturn("a\r\r") == "a\r";
  }

  lemma {:induction false} TitledBody(title: string, rest: seq<string>)
    requires IsTitle(title)
    ensures Body([title] + rest) == rest
  {
    hide IsTitle;
    var lines := [title] + rest;
    if rest == [] {
      assert lines[..0] == [];
    } else {
      var n := |rest| - 1;
      TitledBody(title, rest[..n]);
      assert lines[..n + 1] == [title] + rest[..n];
      assert IsTitle(lines[..n + 1][0]);
      assert rest[..n] + [rest[n]] == rest;
    }
  }

  /** Opening " a.md" with nothing in it: the stem keeps its blank as a title, and the printed title line loses it. */
  lemma BlankStemIsLost(path: string, ids: IdSource, printIds: IdSource, parseIds: IdSource)
    requires NonemptyIds(ids)
    ensures var d := Parsed("", EMPTY_SIDECAR, path, " a.md", ids);
            d.title == " a" && Again(d, " a.md", printIds, parseIds) != d
  {
    assert SplitLines("") == [""];
    EmptyLine();
    assert [""][..0] == [];
    hide Again;
    FirstOpenRoundTrip("", path, " a.md", ids, printIds, parseIds);
    BlankStem();
    hide SplitLines, Trim, AllCompleted, AtLeastOne, IsTitle;
  }

  lemma BlankStem()
    ensures StripExtension(" a.md") == " a" && !GoodTitle(" a")
  {
    var name := " a.md";
    assert name[..4] == " a.m" && " a.m"[..3] == " a." && " a."[..2] == " a";
    assert LastDot(" a.") == 2;
    assert LastDot(" a.m") == 2;
  }

  /** Every heading line in stored information text becomes one more chapter when the document is saved and read again. */
  lemma StoredHeadingsAddChapters(markdown: string, sidecar: Sidecar, path: string, fileName: string,
                                  ids: IdSource, printIds: IdSource, parseIds: IdSource)
    requires NonemptyIds(ids)
    requires sidecar.infoText.Some? && Trimmed(sidecar.infoText.value) && !NoHeadings(SplitLines(sidecar.infoText.value))
    ensures var d := Parsed(markdown, sidecar, path, fileName, ids);
            |Again(d, fileName, printIds, parseIds).chapters| > |d.chapters|
  {
    var d := Parsed(markdown, sidecar, path, fileName, ids);
    ChaptersAreNormal(markdown, sidecar, path, fileName, ids);
    InfoIsStored(markdown, sidecar, path, fileName, ids);
    hide Parsed, Again, Trim, NoHeadings, HeadingCount, SplitLines;
    AgainIsTidy(d, fileName, printIds, parseIds);
    TrimmedIsFixed(d.infoText);
    NoneCounted(SplitLines(d.infoText));
  }

  lemma InfoIsStored(markdown: string, sidecar: Sidecar, path: string, fileName: string, ids: IdSource)
    ensures sidecar.infoText.Some? ==> Parsed(markdown, sidecar, path, fileName, ids).infoText == sidecar.infoText.value
  {
  }

  lemma EmptySurvives(lines: seq<string>)
    ensures Survives(EMPTY_SIDECAR, lines)
  {
  }

  lemma DefaultIsGood()
    ensures GoodTitle(DEFAULT_TITLE)
  {
    assert forall j :: 0 <= j < |DEFAULT_TITLE| ==> DEFAULT_TITLE[j] != '\n';
  }
}

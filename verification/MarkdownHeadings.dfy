/** Counting headings: the chapters that a text has when it is parsed are its heading lines. */
module MarkdownHeadings {

  import opened MarkdownText
  import opened MarkdownDocument
  import opened MarkdownRoundTrip

  function HeadingCount(lines: seq<string>): nat {
    if lines == [] then 0 else HeadingCount(lines[..|lines| - 1]) + if IsHeading(lines[|lines| - 1]) then 1 else 0
  }

  lemma {:induction false} CountConcat(a: seq<string>, b: seq<string>)
    ensures HeadingCount(a + b) == HeadingCount(a) + HeadingCount(b)
  {
    hide IsHeading;
    if b == [] {
      assert a + b == a;
    } else {
      CountConcat(a, b[..|b| - 1]);
      assert (a + b)[..|a + b| - 1] == a + b[..|b| - 1];
    }
  }

  lemma {:induction false} NoneCounted(lines: seq<string>)
    ensures HeadingCount(lines) == 0 <==> NoHeadings(lines)
  {
    hide IsHeading;
    if lines != [] { NoneCounted(lines[..|lines| - 1]); }
  }

  lemma NotBoth(l: string)
    ensures !(IsTitle(l) && IsHeading(l))
  {
    if IsTitle(l) { assert Trim(l)[1] == ' '; }
  }

  ghost predicate Titled(cs: seq<Chapter>) {
    forall i :: 0 <= i < |cs| ==> GoodTitle(cs[i].title)
  }

  lemma FlushKeepsTitles(structure: seq<ChapterEntry>, ids: IdSource, st: State)
    requires Titled(st.chapters)
    ensures Titled(Flush(structure, ids, st).chapters)
  {
    hide GoodTitle, Trim, IdOr, EntryAt, ParagraphIdAt;
  }

  /** A heading line adds a chapter with a proper title, and no other line does. */
  lemma StepCounts(structure: seq<ChapterEntry>, ids: IdSource, st: State, line: string)
    ensures |Step(structure, ids, st, line).chapters| == |st.chapters| + if IsHeading(line) then 1 else 0
    ensures Titled(st.chapters) && (IsHeading(line) ==> GoodTitle(Heading(line, 2))) ==> Titled(Step(structure, ids, st, line).chapters)
  {
    hide IsTitle, IsHeading, Flush, Heading, Trim, IdOr, EntryAt, GoodTitle;
    NotBoth(line);
    FlushFacts(structure, ids, st);
    if Titled(st.chapters) { FlushKeepsTitles(structure, ids, st); }
  }

  lemma {:induction false} RunCounts(structure: seq<ChapterEntry>, ids: IdSource, st: State, lines: seq<string>)
    ensures |Run(structure, ids, st, lines).chapters| == |st.chapters| + HeadingCount(lines)
  {
    hide Step, IsHeading;
    if lines != [] {
      RunCounts(structure, ids, st, lines[..|lines| - 1]);
      StepCounts(structure, ids, Run(structure, ids, st, lines[..|lines| - 1]), lines[|lines| - 1]);
    }
  }

  lemma {:induction false} RunTitles(structure: seq<ChapterEntry>, ids: IdSource, st: State, lines: seq<string>)
    requires Titled(st.chapters)
    requires forall i :: 0 <= i < |lines| && IsHeading(lines[i]) ==> GoodTitle(Heading(lines[i], 2))
    ensures Titled(Run(structure, ids, st, lines).chapters)
  {
    hide Step, IsHeading, Titled, GoodTitle, Heading;
    if lines != [] {
      RunTitles(structure, ids, st, lines[..|lines| - 1]);
      StepCounts(structure, ids, Run(structure, ids, st, lines[..|lines| - 1]), lines[|lines| - 1]);
    }
  }

  // Headings of printed text, whatever the document

  lemma {:induction false} FirstLine(s: string, k: nat)
    requires k <= |s| && forall i :: 0 <= i < k ==> s[i] != '\n' && s[i] != '\r'
    ensures |SplitLines(s)[0]| >= k && SplitLines(s)[0][..k] == s[..k]
  {
    if k > 0 {
      FirstLine(s[1..], k - 1);
      assert s[..k] == [s[0]] + s[1..][..k - 1];
    }
  }

  /** A line that starts with hashes, a space and a visible character keeps them when it is trimmed. */
  lemma MarkedLine(mark: string, l: string)
    requires mark == "# " || mark == "## "
    requires |l| > |mark| && l[..|mark|] == mark && !IsSpace(l[|mark|])
    ensures mark <= Trim(l)
  {
    assert l[0] == mark[0] == '#';
    assert TrimStart(l) == l;
    var k := TrimEndPrefix(l);
    assert k > |mark|;
    assert l[..k][..|mark|] == mark;
  }

  lemma HashedText(t: string)
    requires t != "" && Trimmed(t)
    ensures Trimmed("## " + t) && Trimmed("# " + t)
    ensures HeadingCount(SplitLines("## " + t)) >= 1
  {
    var s := "## " + t;
    assert s[3] == t[0] && s[|s| - 1] == t[|t| - 1];
    assert ("# " + t)[|t| + 1] == t[|t| - 1];
    FirstLine(s, 4);
    var lines := SplitLines(s);
    assert lines[0][..3] == lines[0][..4][..3] == s[..4][..3] == "## ";
    assert lines[0][3] == lines[0][..4][3] == s[..4][3] == t[0];
    MarkedLine("## ", lines[0]);
    assert IsHeading(lines[0]);
    if HeadingCount(lines) == 0 { NoneCounted(lines); }
  }

  lemma ChapterHeadings(c: Chapter)
    ensures HeadingCount(AllLines(ChapterPieces(c))) >= 1 && TrimmedPieces(ChapterPieces(c))
  {
    hide Trim, SplitLines, HeadingCount, IsHeading;
    var heading := "## " + ChapterTitleOf(c);
    ChapterTitleIsTrimmed(c);
    HashedText(ChapterTitleOf(c));
    TrimmedEmpty();
    ParagraphPiecesAreTrimmed(c.paragraphs);
    TwoPieces("", heading);
    AllLinesConcat(["", heading], ParagraphPieces(c.paragraphs));
    CountConcat(SplitLines(""), SplitLines(heading));
    CountConcat(AllLines(["", heading]), AllLines(ParagraphPieces(c.paragraphs)));
  }

  lemma ChapterTitleIsTrimmed(c: Chapter)
    ensures ChapterTitleOf(c) != "" && Trimmed(ChapterTitleOf(c))
  {
    TrimIsTrimmed(c.title);
    assert DEFAULT_CHAPTER_TITLE[0] == 'C' && DEFAULT_CHAPTER_TITLE[6] == 'r';
    hide Trim;
  }

  lemma {:induction false} BodyHeadings(cs: seq<Chapter>)
    ensures HeadingCount(AllLines(BodyPieces(cs))) >= |cs| && TrimmedPieces(BodyPieces(cs))
  {
    hide Trim, SplitLines, AllLines, ChapterPieces, HeadingCount;
    if cs != [] {
      var before, c := cs[..|cs| - 1], cs[|cs| - 1];
      BodyHeadings(before);
      ChapterHeadings(c);
      AllLinesConcat(BodyPieces(before), ChapterPieces(c));
      CountConcat(AllLines(BodyPieces(before)), AllLines(ChapterPieces(c)));
    }
  }

  lemma TitleIsTrimmed(d: Document)
    ensures TitleOf(d) != "" && Trimmed(TitleOf(d))
  {
    TrimIsTrimmed(d.title);
    assert DEFAULT_TITLE[0] == 'U' && DEFAULT_TITLE[16] == 't';
    hide Trim;
  }

  lemma HeadHeadings(d: Document)
    ensures HeadingCount(AllLines(HeadPieces(d))) >= HeadingCount(SplitLines(Trim(d.infoText)))
    ensures TrimmedPieces(HeadPieces(d)) && HeadPieces(d) != [] && Trim(HeadPieces(d)[0]) != ""
  {
    hide Trim, SplitLines, HeadingCount, IsHeading;
    var title, info := "# " + TitleOf(d), Trim(d.infoText);
    TitleIsTrimmed(d);
    HashedText(TitleOf(d));
    TrimmedIsFixed(title);
    TrimIsTrimmed(d.infoText);
    TrimmedEmpty();
    if info == "" {
      assert HeadPieces(d) == [title];
      NothingInEmpty();
    } else {
      assert HeadPieces(d) == [title] + ["", info];
      AllLinesConcat([title], ["", info]);
      TwoPieces("", info);
      CountConcat(AllLines([title]), AllLines(["", info]));
      CountConcat(SplitLines(""), SplitLines(info));
    }
  }

  lemma NothingInEmpty()
    ensures HeadingCount(SplitLines("")) == 0
  {
    EmptyLine();
    NoneCounted([""]);
  }

  /** Parsing printed text finds a chapter for every chapter and for every heading line in the information text. */
  lemma PrintedChapters(structure: seq<ChapterEntry>, ids: IdSource, st: State, d: Document)
    requires st.chapters == [] && d.chapters != []
    ensures |Flush(structure, ids, Run(structure, ids, st, SplitLines(Printed(d)))).chapters| >=
              |d.chapters| + HeadingCount(SplitLines(Trim(d.infoText)))
  {
    hide Trim, SplitLines, HeadingCount, Run, Flush, AllLines, HeadPieces, BodyPieces, Join, DropBlankEnd;
    var pieces := Pieces(d);
    HeadHeadings(d);
    BodyHeadings(d.chapters);
    assert pieces[0] == HeadPieces(d)[0];
    AllLinesConcat(HeadPieces(d), BodyPieces(d.chapters));
    CountConcat(AllLines(HeadPieces(d)), AllLines(BodyPieces(d.chapters)));
    RunCounts(structure, ids, st, AllLines(pieces));
    EndDoesNotMatter(structure, ids, st, pieces);
    FlushFacts(structure, ids, Run(structure, ids, st, AllLines(pieces)));
  }
}

/**
 Printing a parsed document and parsing what was printed gives the document back, ids included, with every
 paragraph split into lines once more. The documents for which this holds are described by `Normal`, those for
 which the further split changes nothing by `Steady`; what one parse reaches is the next module but one.
 */
module MarkdownRoundTrip {

  import opened Wrappers
  import opened MarkdownText
  import opened MarkdownDocument

  // Documents that survive

  ghost predicate GoodTitle(t: string) { t != "" && Trimmed(t) && '\n' !in t }

  /** A line that can only be part of a paragraph. */
  ghost predicate GoodLine(l: string) { CleanLine(l) && Trim(l) != "" && !IsHeading(l) }

  ghost predicate GoodLines(lines: seq<string>) {
    forall i :: 0 <= i < |lines| ==> GoodLine(lines[i])
  }

  ghost predicate GoodText(t: string) {
    t != "" && Trimmed(t) && GoodLines(SplitLines(t))
  }

  ghost predicate NoHeadings(lines: seq<string>) {
    forall i :: 0 <= i < |lines| ==> !IsHeading(lines[i])
  }

  ghost predicate GoodInfo(t: string) { Trimmed(t) && NoHeadings(SplitLines(t)) }

  ghost predicate GoodParagraph(p: Paragraph) { p.id != "" && GoodText(p.text) }

  ghost predicate GoodParagraphs(ps: seq<Paragraph>) {
    forall i :: 0 <= i < |ps| ==> GoodParagraph(ps[i])
  }

  /** The placeholder that a chapter without text carries. */
  ghost predicate Placeholder(ps: seq<Paragraph>) { |ps| == 1 && ps[0].text == "" && ps[0].id != "" }

  ghost predicate NormalChapter(c: Chapter) {
    c.id != "" && GoodTitle(c.title) && c.paragraphs != [] && (Placeholder(c.paragraphs) || GoodParagraphs(c.paragraphs))
  }

  ghost predicate NormalVariable(v: Variable) {
    v.id != "" && v.name.Some? && v.varName.None? && v.content.Some? && v.description.Some?
  }

  ghost predicate NormalVariables(vs: seq<Variable>) {
    forall i :: 0 <= i < |vs| ==> NormalVariable(vs[i])
  }

  ghost predicate NormalChapters(cs: seq<Chapter>) {
    forall i :: 0 <= i < |cs| ==> NormalChapter(cs[i])
  }

  ghost predicate Normal(d: Document) {
    && GoodTitle(d.title) && GoodInfo(d.infoText) && d.chapters != [] && NormalChapters(d.chapters)
    && NormalVariables(d.variables) && d.version == 1
  }

  /** No paragraph keeps a carriage return in front of a line feed. */
  ghost predicate SteadyParagraphs(ps: seq<Paragraph>) {
    forall i :: 0 <= i < |ps| ==> !ReturnInside(ps[i].text)
  }

  ghost predicate SteadyChapters(cs: seq<Chapter>) {
    forall i :: 0 <= i < |cs| ==> SteadyParagraphs(cs[i].paragraphs)
  }

  ghost predicate Steady(d: Document) { SteadyChapters(d.chapters) }

  function RelinedParagraphs(ps: seq<Paragraph>): (r: seq<Paragraph>)
    ensures |r| == |ps|
  {
    seq(|ps|, i requires 0 <= i < |ps| => ps[i].(text := Relined(ps[i].text)))
  }

  function RelinedChapter(c: Chapter): Chapter { c.(paragraphs := RelinedParagraphs(c.paragraphs)) }

  function RelinedChapters(cs: seq<Chapter>): (r: seq<Chapter>)
    ensures |r| == |cs| && forall i :: 0 <= i < |cs| ==> r[i] == RelinedChapter(cs[i])
  {
    seq(|cs|, i requires 0 <= i < |cs| => RelinedChapter(cs[i]))
  }

  /** The document with every paragraph split into lines and joined once more. */
  function RelinedDocument(d: Document): Document { d.(chapters := RelinedChapters(d.chapters)) }

  lemma RelinedParagraphsAreFixed(ps: seq<Paragraph>)
    ensures RelinedParagraphs(ps) == ps <==> SteadyParagraphs(ps)
  {
    hide Relined, ReturnInside;
    forall i | 0 <= i < |ps| ensures Relined(ps[i].text) == ps[i].text <==> !ReturnInside(ps[i].text) {
      RelinedIsFixed(ps[i].text);
    }
    assert forall i :: 0 <= i < |ps| ==> RelinedParagraphs(ps)[i] == ps[i].(text := Relined(ps[i].text));
    if RelinedParagraphs(ps) == ps {
      assert forall i :: 0 <= i < |ps| ==> RelinedParagraphs(ps)[i].text == ps[i].text;
    }
  }

  /** That changes nothing exactly when the document is steady. */
  lemma RelinedIsSame(d: Document)
    ensures RelinedDocument(d) == d <==> Steady(d)
  {
    hide RelinedParagraphs, SteadyParagraphs;
    forall i | 0 <= i < |d.chapters|
      ensures RelinedChapter(d.chapters[i]) == d.chapters[i] <==> SteadyParagraphs(d.chapters[i].paragraphs)
    {
      RelinedParagraphsAreFixed(d.chapters[i].paragraphs);
    }
    if RelinedDocument(d) == d {
      assert forall i :: 0 <= i < |d.chapters| ==> RelinedChapters(d.chapters)[i] == d.chapters[i];
    }
  }

  // The sidecar remembers every id

  ghost predicate Remembers(entry: ChapterEntry, c: Chapter) {
    && entry.id == c.id && |entry.paragraphs| == |c.paragraphs|
    && forall j :: 0 <= j < |c.paragraphs| ==> entry.paragraphs[j] == c.paragraphs[j].id
  }

  ghost predicate RemembersAll(structure: seq<ChapterEntry>, cs: seq<Chapter>) {
    |structure| == |cs| && forall i :: 0 <= i < |cs| ==> Remembers(structure[i], cs[i])
  }

  lemma {:induction false} IdsAreKept(ps: seq<Paragraph>, ids: IdSource, next: nat)
    requires forall j :: 0 <= j < |ps| ==> ps[j].id != ""
    ensures var r := ParagraphIds(ps, ids, next).0; |r| == |ps| && forall j :: 0 <= j < |ps| ==> r[j] == ps[j].id
  {
    if ps != [] { IdsAreKept(ps[..|ps| - 1], ids, next); }
  }

  lemma {:induction false} EntriesRemember(cs: seq<Chapter>, ids: IdSource, next: nat)
    requires NormalChapters(cs)
    ensures RemembersAll(Entries(cs, ids, next).0, cs)
  {
    hide GoodTitle, GoodText;
    if cs != [] {
      var c := cs[|cs| - 1];
      assert NormalChapter(c);
      assert forall j :: 0 <= j < |c.paragraphs| ==> c.paragraphs[j].id != "" by {
        if !Placeholder(c.paragraphs) { assert forall j :: 0 <= j < |c.paragraphs| ==> GoodParagraph(c.paragraphs[j]); }
      }
      EntriesRemember(cs[..|cs| - 1], ids, next);
      var (before, n) := Entries(cs[..|cs| - 1], ids, next);
      var (id, m) := IdOr(c.id, "chapter", ids, n);
      IdsAreKept(c.paragraphs, ids, m);
    }
  }

  lemma {:induction false} NormalVariablesAreFixed(vs: seq<Variable>, ids: IdSource, next: nat)
    requires NormalVariables(vs)
    ensures Normalise(vs, ids, next) == (vs, next)
  {
    if vs != [] {
      NormalVariablesAreFixed(vs[..|vs| - 1], ids, next);
      assert NormalVariable(vs[|vs| - 1]);
      assert vs[..|vs| - 1] + [vs[|vs| - 1]] == vs;
    }
  }

  // How the line machine reads the pieces

  lemma {:induction false} RunConcat(structure: seq<ChapterEntry>, ids: IdSource, st: State, a: seq<string>, b: seq<string>)
    ensures Run(structure, ids, st, a + b) == Run(structure, ids, Run(structure, ids, st, a), b)
  {
    hide Step;
    if b == [] {
      assert a + b == a;
    } else {
      RunConcat(structure, ids, st, a, b[..|b| - 1]);
      assert (a + b)[..|a + b| - 1] == a + b[..|b| - 1];
    }
  }

  lemma RunOne(structure: seq<ChapterEntry>, ids: IdSource, st: State, l: string)
    ensures Run(structure, ids, st, [l]) == Step(structure, ids, st, l)
  {
    hide Step;
    assert [l][..0] == [];
  }

  lemma EmptyLine()
    ensures Trim("") == "" && !IsTitle("") && !IsHeading("") && SplitLines("") == [""]
  {
  }

  lemma FlushFacts(structure: seq<ChapterEntry>, ids: IdSource, st: State)
    ensures var f := Flush(structure, ids, st);
            && f.title == st.title && f.info == st.info && |f.chapters| == |st.chapters|
            && (st.chapters != [] ==> f.buffer == [])
            && (st.chapters == [] ==> f == st)
            && (st.buffer == [] ==> f == st)
            && Flush(structure, ids, f) == f
  {
    hide IdOr, EntryAt, ParagraphIdAt, TrimStart, TrimEnd;
    TrimmedIsFixed("");
    assert Join([]) == "";
  }

  /** Inside a chapter an empty line ends the paragraph; before the first chapter it is information text. */
  lemma EmptyLineFlushes(structure: seq<ChapterEntry>, ids: IdSource, st: State)
    ensures st.chapters != [] ==> Step(structure, ids, st, "") == Flush(structure, ids, st)
    ensures st.chapters == [] ==> Step(structure, ids, st, "") == st.(info := st.info + [""])
  {
    hide Flush, Trim, IsTitle, IsHeading;
    EmptyLine();
    FlushFacts(structure, ids, st);
  }

  ghost predicate Empties(lines: seq<string>) { forall i :: 0 <= i < |lines| ==> lines[i] == "" }

  /** Further empty lines change nothing that counts. */
  lemma {:induction false} EmptiesKeepFlush(structure: seq<ChapterEntry>, ids: IdSource, st: State, lines: seq<string>)
    requires Empties(lines)
    ensures st.chapters != [] ==> Flush(structure, ids, Run(structure, ids, st, lines)) == Flush(structure, ids, st)
    ensures (Run(structure, ids, st, lines).chapters == []) <==> (st.chapters == [])
  {
    hide Flush, Step;
    if lines != [] {
      EmptiesKeepFlush(structure, ids, st, lines[..|lines| - 1]);
      var before := Run(structure, ids, st, lines[..|lines| - 1]);
      EmptyLineFlushes(structure, ids, before);
      FlushFacts(structure, ids, before);
    }
  }

  /** Lines before the first heading are collected as information text. */
  lemma {:induction false} InfoRuns(structure: seq<ChapterEntry>, ids: IdSource, st: State, lines: seq<string>)
    requires st.title != "" && st.chapters == [] && NoHeadings(lines)
    ensures Run(structure, ids, st, lines) == st.(info := st.info + lines)
  {
    hide IsTitle, IsHeading, Trim;
    if lines != [] {
      InfoRuns(structure, ids, st, lines[..|lines| - 1]);
      assert st.info + lines[..|lines| - 1] + [lines[|lines| - 1]] == st.info + lines;
    } else {
      assert st.info + [] == st.info;
    }
  }

  /** Paragraph lines are collected as they are. */
  lemma {:induction false} TextRuns(structure: seq<ChapterEntry>, ids: IdSource, st: State, lines: seq<string>)
    requires st.title != "" && st.chapters != [] && GoodLines(lines)
    ensures Run(structure, ids, st, lines) == st.(buffer := st.buffer + lines)
  {
    hide IsTitle, IsHeading, Trim, CleanLine;
    if lines != [] {
      TextRuns(structure, ids, st, lines[..|lines| - 1]);
      assert GoodLine(lines[|lines| - 1]);
      assert st.buffer + lines[..|lines| - 1] + [lines[|lines| - 1]] == st.buffer + lines;
    } else {
      assert st.buffer + [] == st.buffer;
    }
  }

  function WithParagraphs(st: State, ps: seq<Paragraph>): State
    requires st.chapters != []
  {
    var last := |st.chapters| - 1;
    st.(chapters := st.chapters[last := st.chapters[last].(paragraphs := ps)])
  }

  /** Reading one printed paragraph inside a chapter. */
  lemma ParagraphRuns(structure: seq<ChapterEntry>, ids: IdSource, st: State, base: State, before: seq<Paragraph>, p: Paragraph)
    requires base.chapters != [] && base.title != "" && base.buffer == []
    requires Flush(structure, ids, st) == WithParagraphs(base, before) && st.chapters != []
    requires GoodParagraph(p) && ParagraphIdAt(EntryAt(structure, |base.chapters| - 1), |before|) == p.id
    ensures Run(structure, ids, st, AllLines(["", Trim(p.text)])).chapters != []
    ensures Flush(structure, ids, Run(structure, ids, st, AllLines(["", Trim(p.text)]))) == WithParagraphs(base, before + [p.(text := Relined(p.text))])
  {
    hide SplitLines, EntryAt, ParagraphIdAt, Trim, Trimmed, Join, Step, GoodLines, Flush, WithParagraphs;
    TrimmedIsFixed(p.text);
    RelinedIsTrimmed(p.text);
    EmptyLine();
    var lines := SplitLines(p.text);
    TwoPieces("", p.text);
    assert AllLines(["", p.text]) == [""] + lines;
    RunConcat(structure, ids, st, [""], lines);
    RunOne(structure, ids, st, "");
    EmptyLineFlushes(structure, ids, st);
    var flushed := WithParagraphs(base, before);
    WithParagraphsFacts(base, before);
    TextRuns(structure, ids, flushed, lines);
    assert flushed.buffer + lines == lines;
    FlushedParagraph(structure, ids, base, before, lines, p.id);
  }

  lemma WithParagraphsFacts(base: State, ps: seq<Paragraph>)
    requires base.chapters != []
    ensures var st := WithParagraphs(base, ps); |st.chapters| == |base.chapters| && st.title == base.title && st.buffer == base.buffer
  {
  }

  lemma FlushedParagraph(structure: seq<ChapterEntry>, ids: IdSource, base: State, before: seq<Paragraph>, lines: seq<string>, id: string)
    requires base.chapters != [] && base.buffer == [] && id != ""
    requires Join(lines) != "" && Trimmed(Join(lines))
    requires ParagraphIdAt(EntryAt(structure, |base.chapters| - 1), |before|) == id
    ensures Flush(structure, ids, WithParagraphs(base, before).(buffer := lines)) == WithParagraphs(base, before + [Paragraph(id, Join(lines))])
  {
    TrimmedIsFixed(Join(lines));
    hide EntryAt, ParagraphIdAt, Trim, Trimmed, Join;
  }

  lemma TwoPieces(a: string, b: string)
    ensures AllLines([a, b]) == SplitLines(a) + SplitLines(b)
    ensures AllLines([a]) == SplitLines(a)
  {
    hide SplitLines;
    OnePiece(a);
    OnePiece(b);
    AllLinesConcat([a], [b]);
    assert [a] + [b] == [a, b];
  }

  lemma OnePiece(a: string)
    ensures AllLines([a]) == SplitLines(a)
  {
    hide SplitLines;
    assert [a][1..] == [];
    assert SplitLines(a) + [] == SplitLines(a);
  }

  lemma {:induction false} ParagraphsRun(structure: seq<ChapterEntry>, ids: IdSource, base: State, ps: seq<Paragraph>)
    requires base.chapters != [] && base.title != "" && base.buffer == []
    requires base.chapters[|base.chapters| - 1].paragraphs == [] && GoodParagraphs(ps)
    requires forall j :: 0 <= j < |ps| ==> ParagraphIdAt(EntryAt(structure, |base.chapters| - 1), j) == ps[j].id
    ensures Run(structure, ids, base, AllLines(ParagraphPieces(ps))).chapters != []
    ensures Flush(structure, ids, Run(structure, ids, base, AllLines(ParagraphPieces(ps)))) == WithParagraphs(base, RelinedParagraphs(ps))
  {
    hide EntryAt, ParagraphIdAt, Trim, Flush, Step, GoodParagraph, Relined;
    if ps == [] {
      FlushFacts(structure, ids, base);
    } else {
      var before, p := ps[..|ps| - 1], ps[|ps| - 1];
      ParagraphsRun(structure, ids, base, before);
      var earlier := AllLines(ParagraphPieces(before));
      AllLinesConcat(ParagraphPieces(before), ["", Trim(p.text)]);
      RunConcat(structure, ids, base, earlier, AllLines(["", Trim(p.text)]));
      ParagraphRuns(structure, ids, Run(structure, ids, base, earlier), base, RelinedParagraphs(before), p);
      assert RelinedParagraphs(before) + [p.(text := Relined(p.text))] == RelinedParagraphs(ps);
    }
  }

  /** What the machine has of a chapter once its lines are read: a placeholder is added only at the end. */
  function Read(c: Chapter): Chapter {
    if |c.paragraphs| == 1 && c.paragraphs[0].text == "" then c.(paragraphs := []) else RelinedChapter(c)
  }

  function ReadAll(cs: seq<Chapter>): (r: seq<Chapter>)
    ensures |r| == |cs| && forall i :: 0 <= i < |cs| ==> r[i] == Read(cs[i])
  {
    seq(|cs|, i requires 0 <= i < |cs| => Read(cs[i]))
  }

  /** A printed heading or title line is recognised and gives its text back. */
  lemma HashesAreRead(t: string)
    requires GoodTitle(t)
    ensures !IsTitle("## " + t) && IsHeading("## " + t) && Heading("## " + t, 2) == t
    ensures IsTitle("# " + t) && Heading("# " + t, 1) == t
    ensures SplitLines("## " + t) == ["## " + t] && SplitLines("# " + t) == ["# " + t]
    ensures Trimmed("## " + t) && Trimmed("# " + t)
  {
    var two, one := "## " + t, "# " + t;
    TrimmedIsFixed(two);
    TrimmedIsFixed(one);
    TrimmedIsFixed(t);
    assert two[2..] == " " + t && one[1..] == " " + t;
    TrimStartSpaces(" ", t);
    SplitCleanLine(two);
    SplitCleanLine(one);
  }

  /** Reading the paragraphs of a chapter, placeholder or not. */
  lemma NormalParagraphsRun(structure: seq<ChapterEntry>, ids: IdSource, base: State, c: Chapter)
    requires base.chapters != [] && base.title != "" && base.buffer == []
    requires base.chapters[|base.chapters| - 1] == c.(paragraphs := [])
    requires NormalChapter(c) && Remembers(EntryAt(structure, |base.chapters| - 1), c)
    ensures Run(structure, ids, base, AllLines(ParagraphPieces(c.paragraphs))).chapters != []
    ensures Flush(structure, ids, Run(structure, ids, base, AllLines(ParagraphPieces(c.paragraphs)))) ==
              base.(chapters := base.chapters[|base.chapters| - 1 := Read(c)])
  {
    hide EntryAt, Trim, Flush, Step, GoodText, SplitLines, Relined;
    if Placeholder(c.paragraphs) {
      EmptyLine();
      assert ParagraphPieces(c.paragraphs) == ["", ""] by { assert c.paragraphs[..0] == []; assert ParagraphPieces([]) == []; }
      TwoPieces("", "");
      EmptiesKeepFlush(structure, ids, base, ["", ""]);
      FlushFacts(structure, ids, base);
    } else {
      forall j | 0 <= j < |c.paragraphs|
        ensures ParagraphIdAt(EntryAt(structure, |base.chapters| - 1), j) == c.paragraphs[j].id
      {
      }
      ParagraphsRun(structure, ids, base, c.paragraphs);
      assert |c.paragraphs| == 1 ==> GoodParagraph(c.paragraphs[0]) && GoodText(c.paragraphs[0].text);
      NotEmptyText(c.paragraphs);
    }
  }

  lemma NotEmptyText(ps: seq<Paragraph>)
    requires GoodParagraphs(ps)
    ensures |ps| == 1 ==> ps[0].text != ""
  {
    if |ps| == 1 { assert GoodParagraph(ps[0]); }
  }

  /** Reading one printed chapter. */
  lemma ChapterRuns(structure: seq<ChapterEntry>, ids: IdSource, st: State, c: Chapter)
    requires st.title != "" && (st.chapters == [] ==> st.buffer == [])
    requires NormalChapter(c) && Remembers(EntryAt(structure, |st.chapters|), c)
    ensures var after := Run(structure, ids, st, AllLines(ChapterPieces(c)));
            var flushed := Flush(structure, ids, st);
            && after.chapters != []
            && Flush(structure, ids, after) ==
                 flushed.(chapters := flushed.chapters + [Read(c)],
                          info := st.info + if st.chapters == [] then [""] else [])
  {
    hide EntryAt, Trim, Flush, SplitLines, IsTitle, IsHeading, Heading, Remembers, Read;
    var flushed, heading := Flush(structure, ids, st), "## " + c.title;
    FlushFacts(structure, ids, st);
    EmptyLine();
    TrimmedTitle(c);
    HashesAreRead(c.title);
    TwoPieces("", heading);
    var rest := AllLines(ParagraphPieces(c.paragraphs));
    AllLinesConcat(["", heading], ParagraphPieces(c.paragraphs));
    RunConcat(structure, ids, st, ["", heading], rest);
    RunConcat(structure, ids, st, [""], [heading]);
    assert [""] + [heading] == ["", heading];
    RunOne(structure, ids, st, "");
    EmptyLineFlushes(structure, ids, st);
    var blank := Step(structure, ids, st, "");
    RunOne(structure, ids, blank, heading);
    FlushFacts(structure, ids, blank);
    assert EntryAt(structure, |st.chapters|).id == c.id by { RememberedId(EntryAt(structure, |st.chapters|), c); }
    var base := Step(structure, ids, blank, heading);
    assert base.chapters == flushed.chapters + [c.(paragraphs := [])];
    NormalParagraphsRun(structure, ids, base, c);
    assert st.info + [] == st.info;
  }

  lemma RememberedId(entry: ChapterEntry, c: Chapter)
    requires Remembers(entry, c)
    ensures entry.id == c.id
  {
  }

  lemma TrimmedTitle(c: Chapter)
    requires NormalChapter(c)
    ensures ChapterTitleOf(c) == c.title && c.id != "" && GoodTitle(c.title)
  {
    TrimmedIsFixed(c.title);
  }

  /** Reading all printed chapters. */
  lemma {:induction false} BodyRuns(structure: seq<ChapterEntry>, ids: IdSource, st: State, cs: seq<Chapter>)
    requires st.title != "" && st.chapters == [] && st.buffer == []
    requires NormalChapters(cs) && |cs| <= |structure|
    requires forall i :: 0 <= i < |cs| ==> Remembers(structure[i], cs[i])
    ensures var after := Run(structure, ids, st, AllLines(BodyPieces(cs)));
            && (after.chapters == [] <==> cs == [])
            && (cs == [] ==> after == st)
            && Flush(structure, ids, after) ==
                 st.(chapters := ReadAll(cs), info := st.info + if cs == [] then [] else [""])
  {
    hide Flush, Step, Remembers, Read, NormalChapter, ChapterPieces;
    if cs == [] {
      FlushFacts(structure, ids, st);
      assert st.info + [] == st.info;
    } else {
      var before, c := cs[..|cs| - 1], cs[|cs| - 1];
      BodyRuns(structure, ids, st, before);
      var earlier := AllLines(BodyPieces(before));
      var mid := Run(structure, ids, st, earlier);
      AllLinesConcat(BodyPieces(before), ChapterPieces(c));
      RunConcat(structure, ids, st, earlier, AllLines(ChapterPieces(c)));
      FlushFacts(structure, ids, mid);
      ChapterRuns(structure, ids, mid, c);
      assert ReadAll(before) + [Read(c)] == ReadAll(cs);
      assert st.info + [] == st.info && st.info + [""] + [] == st.info + [""];
    }
  }

  // The end of the printed text

  lemma {:induction false} DropBlankSplits(pieces: seq<string>) returns (k: nat)
    requires pieces != [] && Trim(pieces[0]) != ""
    ensures 0 < k <= |pieces| && DropBlankEnd(pieces) == pieces[..k]
    ensures forall i :: k <= i < |pieces| ==> Trim(pieces[i]) == ""
  {
    hide Trim;
    k := |pieces|;
    if |pieces| > 1 && Trim(pieces[|pieces| - 1]) == "" {
      k := DropBlankSplits(pieces[..|pieces| - 1]);
    }
  }

  ghost predicate TrimmedPieces(pieces: seq<string>) {
    forall i :: 0 <= i < |pieces| ==> Trimmed(pieces[i])
  }

  lemma {:induction false} ParagraphPiecesAreTrimmed(ps: seq<Paragraph>)
    ensures TrimmedPieces(ParagraphPieces(ps))
  {
    hide Trim;
    if ps != [] {
      ParagraphPiecesAreTrimmed(ps[..|ps| - 1]);
      TrimIsTrimmed(ps[|ps| - 1].text);
    }
  }

  lemma {:induction false} BodyPiecesAreTrimmed(cs: seq<Chapter>)
    requires NormalChapters(cs)
    ensures TrimmedPieces(BodyPieces(cs))
  {
    hide Trim, Trimmed, NormalChapter;
    if cs != [] {
      var c := cs[|cs| - 1];
      BodyPiecesAreTrimmed(cs[..|cs| - 1]);
      ParagraphPiecesAreTrimmed(c.paragraphs);
      TrimmedTitle(c);
      HashesAreRead(c.title);
      TrimIsTrimmed("");
      TrimmedEmpty();
    }
  }

  lemma TrimmedEmpty()
    ensures Trimmed("")
  {
  }

  lemma {:induction false} EmptyPieces(pieces: seq<string>)
    requires Empties(pieces)
    ensures AllLines(pieces) == pieces
  {
    if pieces != [] { EmptyPieces(pieces[1..]); }
  }

  lemma TrimmedHasNoReturn(pieces: seq<string>)
    requires TrimmedPieces(pieces)
    ensures NoReturnAtEnd(pieces + [""])
  {
    var more := pieces + [""];
    forall i | 0 <= i < |more| ensures !ReturnAtEnd(more[i]) {
      if i < |pieces| { assert Trimmed(pieces[i]); }
    }
  }

  /** Leaving out blank pieces at the end, and ending with a line feed, makes no difference to the machine. */
  lemma EndDoesNotMatter(structure: seq<ChapterEntry>, ids: IdSource, st: State, pieces: seq<string>)
    requires pieces != [] && Trim(pieces[0]) != "" && TrimmedPieces(pieces)
    requires Run(structure, ids, st, AllLines(pieces)).chapters != []
    ensures Flush(structure, ids, Run(structure, ids, st, SplitLines(Join(DropBlankEnd(pieces)) + "\n"))) ==
              Flush(structure, ids, Run(structure, ids, st, AllLines(pieces)))
  {
    hide Trim, Flush, Step, SplitLines, Join, AllLines, NoReturnAtEnd, Run, Trimmed, DropBlankEnd;
    var k := DropBlankSplits(pieces);
    var kept, dropped := pieces[..k], pieces[k..];
    assert pieces == kept + dropped;
    forall i | 0 <= i < |dropped| ensures dropped[i] == "" {
      assert Trimmed(pieces[k + i]);
      TrimmedIsFixed(pieces[k + i]);
    }
    AllLinesConcat(kept, dropped);
    EmptyPieces(dropped);
    var r := Run(structure, ids, st, AllLines(kept));
    RunConcat(structure, ids, st, AllLines(kept), dropped);
    EmptiesKeepFlush(structure, ids, r, dropped);
    // the printed text is the kept pieces and one empty line
    JoinSnoc(kept, "");
    assert Join(kept) + "\n" + "" == Join(kept) + "\n";
    TrimmedHasNoReturn(kept);
    SplitJoinTexts(kept + [""]);
    AllLinesConcat(kept, [""]);
    OnePiece("");
    EmptyLine();
    RunConcat(structure, ids, st, AllLines(kept), [""]);
    EmptiesKeepFlush(structure, ids, r, [""]);
  }

  // Normal documents survive

  lemma HeadRuns(structure: seq<ChapterEntry>, ids: IdSource, next: nat, d: Document)
    requires GoodTitle(d.title) && GoodInfo(d.infoText)
    ensures var after := Run(structure, ids, START.(next := next), AllLines(HeadPieces(d)));
            && after.title == d.title && after.chapters == [] && after.buffer == [] && after.next == next
            && after.info == (if d.infoText == "" then [] else [""] + SplitLines(d.infoText))
    ensures TrimmedPieces(HeadPieces(d)) && Trim(HeadPieces(d)[0]) != ""
  {
    hide Trim, SplitLines, IsTitle, IsHeading, Heading, Flush;
    TrimmedIsFixed(d.title);
    TrimmedIsFixed(d.infoText);
    HashesAreRead(d.title);
    var title, start := "# " + d.title, START.(next := next);
    TrimmedIsFixed(title);
    TrimmedEmpty();
    OnePiece(title);
    RunOne(structure, ids, start, title);
    var titled := start.(title := d.title);
    assert Step(structure, ids, start, title) == titled;
    if d.infoText != "" {
      assert HeadPieces(d) == [title] + ["", d.infoText];
      AllLinesConcat([title], ["", d.infoText]);
      TwoPieces("", d.infoText);
      EmptyLine();
      var more := [""] + SplitLines(d.infoText);
      RunConcat(structure, ids, start, [title], more);
      assert NoHeadings(more);
      InfoRuns(structure, ids, titled, more);
    } else {
      assert HeadPieces(d) == [title];
    }
  }

  lemma {:induction false} ReadChaptersComplete(structure: seq<ChapterEntry>, ids: IdSource, cs: seq<Chapter>, next: nat)
    requires NormalChapters(cs) && |cs| <= |structure|
    requires forall i :: 0 <= i < |cs| ==> Remembers(structure[i], cs[i])
    ensures AllCompleted(structure, ids, ReadAll(cs), next) == (RelinedChapters(cs), next)
  {
    hide Remembers, Read, NormalChapter, Completed, RelinedChapter;
    if cs != [] {
      var i := |cs| - 1;
      assert ReadAll(cs)[..i] == ReadAll(cs[..i]);
      ReadChaptersComplete(structure, ids, cs[..i], next);
      ReadChapterCompletes(structure, ids, cs[i], i, next);
      assert RelinedChapters(cs[..i]) + [RelinedChapter(cs[i])] == RelinedChapters(cs);
    }
  }

  lemma ReadChapterCompletes(structure: seq<ChapterEntry>, ids: IdSource, c: Chapter, i: nat, next: nat)
    requires NormalChapter(c) && i < |structure| && Remembers(structure[i], c)
    ensures Completed(structure, ids, Read(c), i, next) == (RelinedChapter(c), next)
  {
    RelinedEmpty();
    hide Relined;
    NotEmptyTextUnlessPlaceholder(c);
    if |c.paragraphs| == 1 && c.paragraphs[0].text == "" {
      assert c.paragraphs == RelinedParagraphs(c.paragraphs) == [Paragraph(c.paragraphs[0].id, "")];
    }
  }

  lemma NotEmptyTextUnlessPlaceholder(c: Chapter)
    requires NormalChapter(c)
    ensures |c.paragraphs| == 1 && c.paragraphs[0].text == "" ==> Placeholder(c.paragraphs)
  {
    if !Placeholder(c.paragraphs) { NotEmptyText(c.paragraphs); }
  }

  /** What the machine has when it has read a printed normal document. */
  lemma PrintedRuns(d: Document, structure: seq<ChapterEntry>, ids: IdSource)
    requires Normal(d) && RemembersAll(structure, d.chapters)
    ensures var st := Flush(structure, ids, Run(structure, ids, START, SplitLines(Printed(d))));
            && st.title == d.title && st.chapters == ReadAll(d.chapters) && st.next == 0
            && st.info == (if d.infoText == "" then [] else [""] + SplitLines(d.infoText)) + [""]
  {
    hide Trim, SplitLines, Flush, Step, GoodTitle, GoodInfo, BodyPieces, HeadPieces, Join, DropBlankEnd, RelinedChapter;
    var head, body, start := AllLines(HeadPieces(d)), AllLines(BodyPieces(d.chapters)), START;
    HeadRuns(structure, ids, 0, d);
    var headed := Run(structure, ids, start, head);
    BodyRuns(structure, ids, headed, d.chapters) by { TitleIsThere(d); }
    BodyPiecesAreTrimmed(d.chapters);
    AllLinesConcat(HeadPieces(d), BodyPieces(d.chapters));
    RunConcat(structure, ids, start, head, body);
    HeadIsNotEmpty(d);
    EndDoesNotMatter(structure, ids, start, Pieces(d));
  }

  lemma PrintedStructure(d: Document, printIds: IdSource)
    requires Normal(d)
    ensures RemembersAll(SidecarOf(d, printIds).structure, d.chapters)
    ensures SidecarOf(d, printIds).variables == d.variables && SidecarOf(d, printIds).infoText == Some(d.infoText)
  {
    hide Trim, Normalise, Entries, GoodTitle;
    NormalVariablesAreFixed(d.variables, printIds, 0);
    EntriesRemember(d.chapters, printIds, 0);
    InfoIsKept(d);
  }

  /** Parsing what was printed of a normal document gives that document, relined; no id is generated anew. */
  lemma PrintThenParse(d: Document, printIds: IdSource, parseIds: IdSource, fileName: string)
    requires Normal(d)
    ensures Parsed(Printed(d), SidecarOf(d, printIds), d.path, fileName, parseIds) == RelinedDocument(d)
  {
    hide Trim, SplitLines, Flush, Run, AllCompleted, Normalise, Entries, GoodTitle, GoodInfo, Printed, RelinedChapter;
    var sidecar := SidecarOf(d, printIds);
    PrintedStructure(d, printIds);
    NormalVariablesAreFixed(d.variables, parseIds, 0);
    PrintedRuns(d, sidecar.structure, parseIds);
    ReadChaptersComplete(sidecar.structure, parseIds, d.chapters, 0);
    TitleIsThere(d);
  }

  lemma InfoLinesTrimmed(info: string)
    requires Trimmed(info)
    ensures Trim(Join((if info == "" then [] else [""] + SplitLines(info)) + [""])) == Relined(info)
  {
    hide IsSpace, TrimStart, TrimEnd, SplitLines;
    FeedIsSpace();
    var text := Join(SplitLines(info));
    if info == "" {
      assert [] + [""] == [""];
      TrimmedIsFixed("");
      RelinedEmpty();
    } else {
      RelinedIsTrimmed(info);
      JoinCons("", SplitLines(info));
      JoinSnoc([""] + SplitLines(info), "");
      assert Join([""] + SplitLines(info) + [""]) == "" + "\n" + text + "\n" + "" == "\n" + text + "\n";
      TrimEndSpaces("\n" + text, "\n");
      TrimAfterTrimEnd("\n" + text + "\n");
      TrimAfterTrimEnd("\n" + text);
      TrimStartSpaces("\n", text);
      TrimAfterTrimStart("\n" + text);
      TrimAfterTrimStart(text);
      TrimmedIsFixed(text);
    }
  }

  /** The text carries the information text by itself: without the sidecar's copy, parsing gives it back, relined. */
  lemma PrintThenParseText(d: Document, printIds: IdSource, parseIds: IdSource, fileName: string)
    requires Normal(d)
    ensures Parsed(Printed(d), SidecarOf(d, printIds).(infoText := None), d.path, fileName, parseIds) ==
              RelinedDocument(d).(infoText := Relined(d.infoText))
  {
    InfoLinesTrimmed(d.infoText);
    hide Trim, SplitLines, Flush, Run, AllCompleted, Normalise, Entries, GoodTitle, Printed, RelinedChapter, Join, Relined;
    var sidecar := SidecarOf(d, printIds);
    PrintedStructure(d, printIds);
    NormalVariablesAreFixed(d.variables, parseIds, 0);
    PrintedRuns(d, sidecar.structure, parseIds);
    ReadChaptersComplete(sidecar.structure, parseIds, d.chapters, 0);
    TitleIsThere(d);
  }

  lemma TitleIsThere(d: Document)
    requires GoodTitle(d.title)
    ensures d.title != ""
  {
  }

  lemma HeadIsNotEmpty(d: Document)
    ensures HeadPieces(d) != [] && Pieces(d)[0] == HeadPieces(d)[0]
  {
  }

  lemma InfoIsKept(d: Document)
    requires GoodInfo(d.infoText)
    ensures Trim(d.infoText) == d.infoText
  {
    TrimmedIsFixed(d.infoText);
  }
}

/** The markdown document service: parsing text with its sidecar, and printing both. */
module MarkdownDocument {

  import opened Wrappers
  import opened MarkdownText

  const DEFAULT_TITLE := "Untitled document"
  const DEFAULT_CHAPTER_TITLE := "Chapter"

  /** A stored value that the service only copies. */
  type Json = string

  /** A document variable, before or after normalisation. */
  datatype Variable = Variable(id: string, name: Option<string>, varName: Option<string>, content: Option<string>,
                               description: Option<string>, kind: Option<string>, metadata: Option<Json>)

  datatype Paragraph = Paragraph(id: string, text: string)
  datatype Chapter = Chapter(id: string, title: string, paragraphs: seq<Paragraph>)
  datatype Document = Document(path: string, title: string, infoText: string, chapters: seq<Chapter>,
                               variables: seq<Variable>, comments: seq<Json>, version: int)

  /** What the sidecar remembers of a chapter; an absent id is the empty string. */
  datatype ChapterEntry = ChapterEntry(id: string, title: string, paragraphs: seq<string>)
  datatype Sidecar = Sidecar(version: Option<int>, title: Option<string>, infoText: Option<string>,
                             variables: seq<Variable>, comments: seq<Json>, structure: seq<ChapterEntry>)

  const EMPTY_SIDECAR := Sidecar(None, None, None, [], [], [])

  /** The supply of generated ids: the id of the n-th request, by prefix. */
  type IdSource = (string, nat) -> string

  function EntryAt(structure: seq<ChapterEntry>, i: int): ChapterEntry {
    if 0 <= i < |structure| then structure[i] else ChapterEntry("", "", [])
  }

  function ParagraphIdAt(entry: ChapterEntry, i: int): string {
    if 0 <= i < |entry.paragraphs| then entry.paragraphs[i] else ""
  }

  /** `stored || generateId(prefix)`, with the number of the next request. */
  function IdOr(stored: string, prefix: string, ids: IdSource, next: nat): (string, nat) {
    if stored != "" then (stored, next) else (ids(prefix, next), next + 1)
  }

  // Variables

  function NormaliseOne(v: Variable, ids: IdSource, next: nat): (Variable, nat) {
    var (id, n) := IdOr(v.id, "var", ids, next);
    (Variable(id,
              if v.name.Some? then v.name else if v.varName.Some? then v.varName else Some(""),
              None,
              if v.content.Some? then v.content else Some(""),
              if v.description.Some? then v.description else Some(""),
              v.kind, v.metadata), n)
  }

  function Normalise(vs: seq<Variable>, ids: IdSource, next: nat): (seq<Variable>, nat) {
    if vs == [] then ([], next)
    else
      var (before, n) := Normalise(vs[..|vs| - 1], ids, next);
      var (v, m) := NormaliseOne(vs[|vs| - 1], ids, n);
      (before + [v], m)
  }

  // The line machine

  datatype State = State(title: string, chapters: seq<Chapter>, buffer: seq<string>, info: seq<string>, next: nat)

  /** The paragraph collected so far joins the current chapter, unless it is blank. */
  function Flush(structure: seq<ChapterEntry>, ids: IdSource, st: State): State {
    if st.chapters == [] then st
    else
      var text := Trim(Join(st.buffer));
      if text == "" then st.(buffer := [])
      else
        var last := |st.chapters| - 1;
        var chapter := st.chapters[last];
        var (id, n) := IdOr(ParagraphIdAt(EntryAt(structure, last), |chapter.paragraphs|), "paragraph", ids, st.next);
        var longer := chapter.(paragraphs := chapter.paragraphs + [Paragraph(id, text)]);
        st.(buffer := [], chapters := st.chapters[last := longer], next := n)
  }

  predicate IsTitle(l: string) { "# " <= Trim(l) }
  predicate IsHeading(l: string) { "## " <= Trim(l) }

  /** The text behind the hashes of a title or heading line. */
  function Heading(l: string, hashes: nat): string {
    var t := Trim(l);
    if hashes <= |t| then Trim(TrimStart(t[hashes..])) else ""
  }

  function Step(structure: seq<ChapterEntry>, ids: IdSource, st: State, line: string): State {
    if IsTitle(line) && st.title == "" then st.(title := Heading(line, 1))
    else if IsHeading(line) then
      var flushed := Flush(structure, ids, st);
      var (id, n) := IdOr(EntryAt(structure, |flushed.chapters|).id, "chapter", ids, flushed.next);
      flushed.(chapters := flushed.chapters + [Chapter(id, Heading(line, 2), [])], next := n)
    else if st.chapters == [] then st.(info := st.info + [line])
    else if Trim(line) == "" then (if st.buffer != [] then Flush(structure, ids, st) else st)
    else st.(buffer := st.buffer + [line])
  }

  function Run(structure: seq<ChapterEntry>, ids: IdSource, st: State, lines: seq<string>): State {
    if lines == [] then st
    else Step(structure, ids, Run(structure, ids, st, lines[..|lines| - 1]), lines[|lines| - 1])
  }

  // Completing the document

  function LastDot(name: string): (i: int)
    ensures -1 <= i < |name|
  {
    if name == "" then -1 else if name[|name| - 1] == '.' then |name| - 1 else LastDot(name[..|name| - 1])
  }

  function StripExtension(name: string): string {
    if LastDot(name) <= 0 then (if name != "" then name else DEFAULT_TITLE) else name[..LastDot(name)]
  }

  function FallbackTitle(sidecar: Sidecar, fileName: string): string {
    if sidecar.title.Some? && Trim(sidecar.title.value) != "" then Trim(sidecar.title.value)
    else if fileName != "" then StripExtension(fileName)
    else DEFAULT_TITLE
  }

  function Decimal(n: nat): string {
    if n < 10 then [('0' as int + n) as char] else Decimal(n / 10) + [('0' as int + n % 10) as char]
  }

  function NumberedTitle(i: nat): string { DEFAULT_CHAPTER_TITLE + " " + Decimal(i + 1) }

  /** A document without chapters gets one. */
  function AtLeastOne(structure: seq<ChapterEntry>, ids: IdSource, chapters: seq<Chapter>, next: nat): (seq<Chapter>, nat) {
    if chapters != [] then (chapters, next)
    else
      var entry := EntryAt(structure, 0);
      var (id, n) := IdOr(entry.id, "chapter", ids, next);
      ([Chapter(id, if entry.title != "" then entry.title else NumberedTitle(0), [])], n)
  }

  /** A chapter without a title or without paragraphs gets one. */
  function Completed(structure: seq<ChapterEntry>, ids: IdSource, c: Chapter, i: nat, next: nat): (Chapter, nat) {
    var titled := if c.title == "" then c.(title := NumberedTitle(i)) else c;
    if titled.paragraphs != [] then (titled, next)
    else
      var (id, n) := IdOr(ParagraphIdAt(EntryAt(structure, i), 0), "paragraph", ids, next);
      (titled.(paragraphs := [Paragraph(id, "")]), n)
  }

  function AllCompleted(structure: seq<ChapterEntry>, ids: IdSource, chapters: seq<Chapter>, next: nat): (r: (seq<Chapter>, nat))
    ensures |r.0| == |chapters|
  {
    if chapters == [] then ([], next)
    else
      var i := |chapters| - 1;
      var (before, n) := AllCompleted(structure, ids, chapters[..i], next);
      var (c, m) := Completed(structure, ids, chapters[i], i, n);
      (before + [c], m)
  }

  const START := State("", [], [], [], 0)

  function Parsed(markdown: string, sidecar: Sidecar, path: string, fileName: string, ids: IdSource): Document {
    var (variables, n) := Normalise(sidecar.variables, ids, 0);
    var st := Flush(sidecar.structure, ids, Run(sidecar.structure, ids, START.(next := n), SplitLines(markdown)));
    Finished(st, variables, sidecar, path, fileName, ids)
  }

  function Finished(st: State, variables: seq<Variable>, sidecar: Sidecar, path: string, fileName: string, ids: IdSource): Document {
    var (some, n) := AtLeastOne(sidecar.structure, ids, st.chapters, st.next);
    Document(path,
             if st.title != "" then st.title else FallbackTitle(sidecar, fileName),
             if sidecar.infoText.Some? then sidecar.infoText.value else Trim(Join(st.info)),
             AllCompleted(sidecar.structure, ids, some, n).0,
             variables, sidecar.comments,
             if sidecar.version.Some? then sidecar.version.value else 1)
  }

  method Parse(markdown: string, sidecar: Sidecar, path: string, fileName: string, ids: IdSource) returns (document: Document)
    ensures document == Parsed(markdown, sidecar, path, fileName, ids)
  {
    hide Flush, SplitLines, Completed, Trim, Join, IdOr, EntryAt, Heading, IsTitle, IsHeading;
    var structure := sidecar.structure;
    var lines := SplitLines(markdown);
    var (variables, next) := Normalise(sidecar.variables, ids, 0);
    var st := START.(next := next);
    ghost var start := st;
    for i := 0 to |lines|
      invariant st == Run(structure, ids, start, lines[..i])
    {
      var line := lines[i];
      assert lines[..i + 1][..i] == lines[..i];
      if IsTitle(line) && st.title == "" {
        st := st.(title := Heading(line, 1));
        continue;
      }
      if IsHeading(line) {
        st := Flush(structure, ids, st);
        var (id, n) := IdOr(EntryAt(structure, |st.chapters|).id, "chapter", ids, st.next);
        st := st.(chapters := st.chapters + [Chapter(id, Heading(line, 2), [])], next := n);
        continue;
      }
      if st.chapters == [] {
        st := st.(info := st.info + [line]);
        continue;
      }
      if Trim(line) == "" {
        if st.buffer != [] { st := Flush(structure, ids, st); }
        continue;
      }
      st := st.(buffer := st.buffer + [line]);
    }
    assert lines[..|lines|] == lines;
    st := Flush(structure, ids, st);
    var infoText := if sidecar.infoText.Some? then sidecar.infoText.value else Trim(Join(st.info));
    var title := if st.title != "" then st.title else FallbackTitle(sidecar, fileName);
    var (chapters, n) := AtLeastOne(structure, ids, st.chapters, st.next);
    ghost var incomplete := chapters;
    ghost var m := n;
    for i := 0 to |chapters|
      invariant |chapters| == |incomplete|
      invariant chapters[..i] == AllCompleted(structure, ids, incomplete[..i], m).0
      invariant n == AllCompleted(structure, ids, incomplete[..i], m).1
      invariant chapters[i..] == incomplete[i..]
    {
      assert incomplete[..i + 1][..i] == incomplete[..i] && chapters[i] == incomplete[i];
      var (c, k) := Completed(structure, ids, chapters[i], i, n);
      chapters := chapters[i := c];
      n := k;
    }
    assert incomplete[..|incomplete|] == incomplete && chapters[..|chapters|] == chapters;
    document := Document(path, title, infoText, chapters, variables, sidecar.comments,
                         if sidecar.version.Some? then sidecar.version.value else 1);
  }

  // Printing

  function TitleOf(d: Document): string { if Trim(d.title) != "" then Trim(d.title) else DEFAULT_TITLE }
  function ChapterTitleOf(c: Chapter): string { if Trim(c.title) != "" then Trim(c.title) else DEFAULT_CHAPTER_TITLE }

  function HeadPieces(d: Document): seq<string> {
    ["# " + TitleOf(d)] + if Trim(d.infoText) != "" then ["", Trim(d.infoText)] else []
  }

  function ParagraphPieces(ps: seq<Paragraph>): seq<string> {
    if ps == [] then [] else ParagraphPieces(ps[..|ps| - 1]) + ["", Trim(ps[|ps| - 1].text)]
  }

  function ChapterPieces(c: Chapter): seq<string> {
    ["", "## " + ChapterTitleOf(c)] + ParagraphPieces(c.paragraphs)
  }

  function BodyPieces(cs: seq<Chapter>): seq<string> {
    if cs == [] then [] else BodyPieces(cs[..|cs| - 1]) + ChapterPieces(cs[|cs| - 1])
  }

  function DropBlankEnd(pieces: seq<string>): seq<string> {
    if |pieces| > 1 && Trim(pieces[|pieces| - 1]) == "" then DropBlankEnd(pieces[..|pieces| - 1]) else pieces
  }

  function Pieces(d: Document): seq<string> { HeadPieces(d) + BodyPieces(d.chapters) }

  function Printed(d: Document): string { Join(DropBlankEnd(Pieces(d))) + "\n" }

  function ParagraphIds(ps: seq<Paragraph>, ids: IdSource, next: nat): (seq<string>, nat) {
    if ps == [] then ([], next)
    else
      var (before, n) := ParagraphIds(ps[..|ps| - 1], ids, next);
      var (id, m) := IdOr(ps[|ps| - 1].id, "paragraph", ids, n);
      (before + [id], m)
  }

  function Entries(cs: seq<Chapter>, ids: IdSource, next: nat): (seq<ChapterEntry>, nat) {
    if cs == [] then ([], next)
    else
      var c := cs[|cs| - 1];
      var (before, n) := Entries(cs[..|cs| - 1], ids, next);
      var (id, m) := IdOr(c.id, "chapter", ids, n);
      var (ps, k) := ParagraphIds(c.paragraphs, ids, m);
      (before + [ChapterEntry(id, c.title, ps)], k)
  }

  function SidecarOf(d: Document, ids: IdSource): Sidecar {
    var (variables, n) := Normalise(d.variables, ids, 0);
    Sidecar(Some(1), Some(TitleOf(d)), Some(Trim(d.infoText)), variables, d.comments, Entries(d.chapters, ids, n).0)
  }

  method PrintChapter(before: seq<string>, chapter: Chapter) returns (lines: seq<string>)
    ensures lines == before + ChapterPieces(chapter)
  {
    hide Trim, ChapterTitleOf;
    lines := before + [""];
    lines := lines + ["## " + ChapterTitleOf(chapter)];
    ghost var start := lines;
    for j := 0 to |chapter.paragraphs|
      invariant lines == start + ParagraphPieces(chapter.paragraphs[..j])
    {
      assert chapter.paragraphs[..j + 1][..j] == chapter.paragraphs[..j];
      lines := lines + [""];
      lines := lines + [Trim(chapter.paragraphs[j].text)];
    }
    assert chapter.paragraphs[..|chapter.paragraphs|] == chapter.paragraphs;
  }

  method Serialize(d: Document, ids: IdSource) returns (markdown: string, sidecar: Sidecar)
    ensures markdown == Printed(d) && sidecar == SidecarOf(d, ids)
  {
    hide Trim, Join, TitleOf, ChapterPieces, IdOr, Normalise;
    var title, infoText := TitleOf(d), Trim(d.infoText);
    var lines := ["# " + title];
    if infoText != "" {
      lines := lines + [""];
      lines := lines + [infoText];
    }
    assert lines == HeadPieces(d);
    for i := 0 to |d.chapters|
      invariant lines == HeadPieces(d) + BodyPieces(d.chapters[..i])
    {
      lines := PrintChapter(lines, d.chapters[i]);
      assert d.chapters[..i + 1][..i] == d.chapters[..i];
    }
    assert d.chapters[..|d.chapters|] == d.chapters;
    ghost var pieces := lines;
    while |lines| > 1 && Trim(lines[|lines| - 1]) == ""
      invariant DropBlankEnd(lines) == DropBlankEnd(pieces)
    {
      lines := lines[..|lines| - 1];
    }
    markdown := Join(lines) + "\n";
    sidecar := SidecarOf(d, ids);
  }
}

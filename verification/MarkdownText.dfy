/** Trimming, splitting and joining text the way the document service does. */
module MarkdownText {

  /** The characters that trim() removes and that the pattern \s matches. */
  predicate IsSpace(c: char) {
    || '\t' <= c <= '\r' || c == ' ' || c == '\U{00a0}' || c == '\U{1680}' || '\U{2000}' <= c <= '\U{200a}'
    || c == '\U{2028}' || c == '\U{2029}' || c == '\U{202f}' || c == '\U{205f}' || c == '\U{3000}' || c == '\U{feff}'
  }

  function TrimStart(s: string): string {
    if s != "" && IsSpace(s[0]) then TrimStart(s[1..]) else s
  }

  function TrimEnd(s: string): string {
    if s != "" && IsSpace(s[|s| - 1]) then TrimEnd(s[..|s| - 1]) else s
  }

  function Trim(s: string): string { TrimEnd(TrimStart(s)) }

  ghost predicate Trimmed(s: string) {
    s != "" ==> !IsSpace(s[0]) && !IsSpace(s[|s| - 1])
  }

  /** Splits at every line feed; a carriage return right before it goes with it. */
  function SplitLines(s: string): (lines: seq<string>)
    ensures |lines| > 0
  {
    if s == "" then [""]
    else if s[0] == '\n' then [""] + SplitLines(s[1..])
    else if s[0] == '\r' && |s| > 1 && s[1] == '\n' then [""] + SplitLines(s[2..])
    else
      var rest := SplitLines(s[1..]);
      [[s[0]] + rest[0]] + rest[1..]
  }

  function Join(lines: seq<string>): string {
    if lines == [] then "" else if |lines| == 1 then lines[0] else lines[0] + "\n" + Join(lines[1..])
  }

  /** A line as the splitter leaves it; of several carriage returns at its end, only the last is gone. */
  ghost predicate CleanLine(l: string) { '\n' !in l }

  predicate ReturnAtEnd(l: string) { l != "" && l[|l| - 1] == '\r' }

  ghost predicate CleanLines(lines: seq<string>) {
    forall i :: 0 <= i < |lines| ==> CleanLine(lines[i])
  }

  // Trimming

  lemma {:induction false} TrimStartSuffix(s: string) returns (k: nat)
    ensures k <= |s| && TrimStart(s) == s[k..] && forall i :: 0 <= i < k ==> IsSpace(s[i])
    ensures k < |s| ==> !IsSpace(s[k])
  {
    hide IsSpace;
    if s != "" && IsSpace(s[0]) {
      var j := TrimStartSuffix(s[1..]);
      k := j + 1;
      forall i | 0 <= i < k ensures IsSpace(s[i]) {
        if i > 0 { assert s[1..][i - 1] == s[i]; }
      }
      assert s[1..][j..] == s[k..];
    } else {
      k := 0;
    }
  }

  lemma {:induction false} TrimEndPrefix(s: string) returns (k: nat)
    ensures k <= |s| && TrimEnd(s) == s[..k] && forall i :: k <= i < |s| ==> IsSpace(s[i])
    ensures k > 0 ==> !IsSpace(s[k - 1])
  {
    hide IsSpace;
    if s != "" && IsSpace(s[|s| - 1]) {
      k := TrimEndPrefix(s[..|s| - 1]);
    } else {
      k := |s|;
    }
  }

  lemma TrimIsTrimmed(s: string)
    ensures Trimmed(Trim(s)) && |Trim(s)| <= |s|
  {
    hide IsSpace;
    var j := TrimStartSuffix(s);
    var k := TrimEndPrefix(TrimStart(s));
  }

  lemma TrimmedIsFixed(s: string)
    requires Trimmed(s)
    ensures Trim(s) == s && TrimStart(s) == s && TrimEnd(s) == s
  {
  }

  ghost predicate Blank(s: string) { forall i :: 0 <= i < |s| ==> IsSpace(s[i]) }

  lemma {:induction false} BlankIffTrimEmpty(s: string)
    ensures Blank(s) <==> TrimStart(s) == ""
    ensures Blank(s) <==> TrimEnd(s) == ""
    ensures Blank(s) <==> Trim(s) == ""
  {
    hide IsSpace;
    var j := TrimStartSuffix(s);
    var k := TrimEndPrefix(s);
    var n := TrimEndPrefix(TrimStart(s));
    if j < |s| { assert !IsSpace(s[j]) && s[j] == TrimStart(s)[0]; }
    if k > 0 { assert !IsSpace(s[k - 1]); }
  }

  /** Dropping the spaces in front of, or after, a string drops them from its trim. */
  lemma {:induction false} TrimStartSpaces(a: string, b: string)
    requires Blank(a)
    ensures TrimStart(a + b) == TrimStart(b)
  {
    hide IsSpace;
    if a == "" {
      assert a + b == b;
    } else {
      TrimStartSpaces(a[1..], b);
      assert (a + b)[1..] == a[1..] + b;
    }
  }

  lemma {:induction false} TrimEndSpaces(a: string, b: string)
    requires Blank(b)
    ensures TrimEnd(a + b) == TrimEnd(a)
  {
    hide IsSpace;
    if b == "" {
      assert a + b == a;
    } else {
      TrimEndSpaces(a, b[..|b| - 1]);
      assert (a + b)[..|a + b| - 1] == a + b[..|b| - 1];
    }
  }

  /** Trimming one end of a string that is not blank leaves everything at the other end. */
  lemma {:induction false} TrimStartThenMore(a: string, b: string)
    requires !Blank(a)
    ensures TrimStart(a + b) == TrimStart(a) + b
  {
    hide IsSpace;
    if IsSpace(a[0]) {
      TrimStartThenMore(a[1..], b);
      assert (a + b)[1..] == a[1..] + b;
    }
  }

  lemma {:induction false} TrimEndAfterMore(a: string, b: string)
    requires !Blank(b)
    ensures TrimEnd(a + b) == a + TrimEnd(b)
  {
    hide IsSpace;
    if IsSpace(b[|b| - 1]) {
      TrimEndAfterMore(a, b[..|b| - 1]);
      assert (a + b)[..|a + b| - 1] == a + b[..|b| - 1];
    }
  }

  lemma {:induction false} TrimAfterTrimStart(s: string)
    ensures Trim(TrimStart(s)) == Trim(s)
  {
    hide IsSpace;
    if s != "" && IsSpace(s[0]) { TrimAfterTrimStart(s[1..]); }
  }

  lemma TrimAfterTrimEnd(s: string)
    ensures Trim(TrimEnd(s)) == Trim(s)
  {
    hide IsSpace;
    BlankIffTrimEmpty(s);
    var k := TrimEndPrefix(s);
    if !Blank(s) {
      var a, b := s[..k], s[k..];
      assert s == a + b;
      assert !Blank(a) by { assert !IsSpace(a[k - 1]); }
      TrimStartThenMore(a, b);
      TrimEndSpaces(TrimStart(a), b);
    } else {
      TrimmedIsFixed("");
    }
  }

  // Splitting and joining

  lemma {:induction false} SplitCleanLine(l: string)
    requires CleanLine(l)
    ensures SplitLines(l) == [l]
  {
    if l != "" {
      assert l[0] == '\r' && |l| > 1 ==> l[1] in l;
      SplitCleanLine(l[1..]);
      assert l == [l[0]] + l[1..];
    }
  }

  lemma SplitIs(s: string)
    requires s != ""
    ensures s[0] == '\n' ==> SplitLines(s) == [""] + SplitLines(s[1..])
    ensures s[0] == '\r' && |s| > 1 && s[1] == '\n' ==> SplitLines(s) == [""] + SplitLines(s[2..])
    ensures s[0] != '\n' && !(s[0] == '\r' && |s| > 1 && s[1] == '\n') ==>
              SplitLines(s) == [[s[0]] + SplitLines(s[1..])[0]] + SplitLines(s[1..])[1..]
  {
  }

  /** A line feed after a text that does not end in a carriage return splits the rest off. */
  lemma {:induction false} SplitAtFeed(a: string, b: string)
    requires !ReturnAtEnd(a)
    ensures SplitLines(a + "\n" + b) == SplitLines(a) + SplitLines(b)
    decreases |a|
  {
    hide SplitLines;
    var s := a + "\n" + b;
    SplitIs(s);
    if a == "" {
      assert s[1..] == b;
      SplitCleanLine("");
    } else {
      SplitIs(a);
      if a[0] == '\r' && |a| > 1 && a[1] == '\n' {
        assert s[2..] == a[2..] + "\n" + b;
        SplitAtFeed(a[2..], b);
      } else {
        assert s[1..] == a[1..] + "\n" + b;
        assert |a| > 1 ==> s[1] == a[1];
        SplitAtFeed(a[1..], b);
        var rest := SplitLines(a[1..]);
        assert (rest + SplitLines(b))[1..] == rest[1..] + SplitLines(b);
      }
    }
  }

  lemma JoinCons(l: string, lines: seq<string>)
    requires lines != []
    ensures Join([l] + lines) == l + "\n" + Join(lines)
  {
    assert ([l] + lines)[1..] == lines;
  }

  function DropReturn(l: string): string { if ReturnAtEnd(l) then l[..|l| - 1] else l }

  /** The lines without a carriage return before each line feed. */
  function DropReturns(lines: seq<string>): (r: seq<string>)
    ensures |r| == |lines|
  {
    if |lines| <= 1 then lines else [DropReturn(lines[0])] + DropReturns(lines[1..])
  }

  lemma {:induction false} SplitFirstLine(l: string, b: string)
    requires CleanLine(l)
    ensures SplitLines(l + "\n" + b) == [DropReturn(l)] + SplitLines(b)
    decreases |l|
  {
    var s := l + "\n" + b;
    if l == "" {
      assert s[1..] == b;
    } else if l == "\r" {
      assert s[2..] == b;
    } else {
      assert s[1..] == l[1..] + "\n" + b;
      assert |l| > 1 ==> s[1] == l[1] && l[1] in l;
      SplitFirstLine(l[1..], b);
      assert DropReturn(l) == [l[0]] + DropReturn(l[1..]);
    }
  }

  /** Splitting undoes joining clean lines, but for the carriage returns in front of the line feeds. */
  lemma {:induction false} SplitJoin(lines: seq<string>)
    requires lines != [] && CleanLines(lines)
    ensures SplitLines(Join(lines)) == DropReturns(lines)
  {
    SplitCleanLine(lines[0]);
    if |lines| > 1 {
      SplitJoin(lines[1..]);
      SplitFirstLine(lines[0], Join(lines[1..]));
    }
  }

  lemma {:induction false} DropReturnsAt(lines: seq<string>, i: nat)
    requires i < |lines|
    ensures DropReturns(lines)[i] == if i < |lines| - 1 then DropReturn(lines[i]) else lines[i]
  {
    if i > 0 { DropReturnsAt(lines[1..], i - 1); }
  }

  lemma DropReturnKeepsTrim(l: string)
    ensures Trim(DropReturn(l)) == Trim(l)
  {
    hide TrimStart, TrimEnd, Trim;
    if ReturnAtEnd(l) {
      var front := l[..|l| - 1];
      assert l == front + "\r";
      assert Blank("\r");
      TrimEndSpaces(front, "\r");
      TrimAfterTrimEnd(l);
      TrimAfterTrimEnd(front);
    }
  }

  // Texts that keep a carriage return in front of a line feed

  ghost predicate ReturnInside(s: string) {
    exists i :: 0 <= i < |s| - 1 && s[i] == '\r' && s[i + 1] == '\n'
  }

  /** Some line other than the last ends with a carriage return. */
  ghost predicate ReturnBetween(lines: seq<string>) {
    exists i :: 0 <= i < |lines| - 1 && ReturnAtEnd(lines[i])
  }

  lemma ReturnInsideSplits(l: string, b: string)
    requires CleanLine(l)
    ensures ReturnInside(l + "\n" + b) <==> ReturnAtEnd(l) || ReturnInside(b)
  {
    var s, n := l + "\n" + b, |l| + 1;
    if ReturnAtEnd(l) { assert s[|l| - 1] == '\r' && s[|l| - 1 + 1] == '\n'; }
    if ReturnInside(b) {
      var i :| 0 <= i < |b| - 1 && b[i] == '\r' && b[i + 1] == '\n';
      assert s[n + i] == '\r' && s[n + i + 1] == '\n';
    }
    if ReturnInside(s) {
      var i :| 0 <= i < |s| - 1 && s[i] == '\r' && s[i + 1] == '\n';
      if i + 1 < |l| { assert l[i + 1] in l; }
      if i >= n { assert b[i - n] == '\r' && b[i - n + 1] == '\n'; }
    }
  }

  lemma {:induction false} JoinHasReturn(lines: seq<string>)
    requires CleanLines(lines)
    ensures ReturnInside(Join(lines)) <==> ReturnBetween(lines)
  {
    if |lines| == 1 {
      assert forall i :: 0 <= i < |lines[0]| ==> lines[0][i] in lines[0];
    } else if |lines| > 1 {
      JoinHasReturn(lines[1..]);
      ReturnInsideSplits(lines[0], Join(lines[1..]));
      if ReturnBetween(lines[1..]) {
        var i :| 0 <= i < |lines[1..]| - 1 && ReturnAtEnd(lines[1..][i]);
        assert ReturnAtEnd(lines[i + 1]);
      }
    }
  }

  /** A text after one more split and join. */
  function Relined(s: string): string { Join(SplitLines(s)) }

  lemma RelinedIs(s: string)
    requires s != ""
    ensures s[0] == '\n' ==> Relined(s) == "\n" + Relined(s[1..])
    ensures s[0] == '\r' && |s| > 1 && s[1] == '\n' ==> Relined(s) == "\n" + Relined(s[2..])
    ensures s[0] != '\n' && !(s[0] == '\r' && |s| > 1 && s[1] == '\n') ==> Relined(s) == [s[0]] + Relined(s[1..])
  {
    if s[0] == '\n' {
      JoinCons("", SplitLines(s[1..]));
    } else if s[0] == '\r' && |s| > 1 && s[1] == '\n' {
      JoinCons("", SplitLines(s[2..]));
    } else {
      var rest := SplitLines(s[1..]);
      if |rest| > 1 { assert ([[s[0]] + rest[0]] + rest[1..])[1..] == rest[1..]; }
    }
  }

  /** Splitting and joining once more changes a text exactly when it has a carriage return in front of a line feed. */
  lemma {:induction false} RelinedIsFixed(s: string)
    ensures |Relined(s)| <= |s|
    ensures Relined(s) == s <==> !ReturnInside(s)
    decreases |s|
  {
    hide Relined;
    if s == "" {
      RelinedEmpty();
    } else {
      RelinedIs(s);
      var rest := s[1..];
      if s[0] == '\r' && |s| > 1 && s[1] == '\n' {
        RelinedIsFixed(s[2..]);
      } else {
        RelinedIsFixed(rest);
        assert s == [s[0]] + rest;
        if ReturnInside(rest) {
          var i :| 0 <= i < |rest| - 1 && rest[i] == '\r' && rest[i + 1] == '\n';
          assert s[i + 1] == '\r' && s[i + 1 + 1] == '\n';
        }
        if ReturnInside(s) {
          var i :| 0 <= i < |s| - 1 && s[i] == '\r' && s[i + 1] == '\n';
          assert i > 0 && rest[i - 1] == '\r' && rest[i - 1 + 1] == '\n';
        }
      }
    }
  }

  lemma RelinedEmpty()
    ensures Relined("") == ""
  {
  }

  lemma {:induction false} RelinedKeepsEnd(s: string)
    requires s != "" && s[|s| - 1] != '\n'
    ensures Relined(s) != "" && Relined(s)[|Relined(s)| - 1] == s[|s| - 1]
    decreases |s|
  {
    hide Relined;
    RelinedIs(s);
    RelinedEmpty();
    if s[0] == '\r' && |s| > 1 && s[1] == '\n' {
      RelinedKeepsEnd(s[2..]);
    } else if |s| > 1 {
      RelinedKeepsEnd(s[1..]);
    }
  }

  lemma RelinedIsTrimmed(s: string)
    requires s != "" && Trimmed(s)
    ensures Relined(s) != "" && Trimmed(Relined(s))
  {
    hide Relined;
    RelinedKeepsEnd(s);
    RelinedIs(s);
  }

  /** The lines of every element, in order. */
  function AllLines(texts: seq<string>): seq<string> {
    if texts == [] then [] else SplitLines(texts[0]) + AllLines(texts[1..])
  }

  ghost predicate NoReturnAtEnd(texts: seq<string>) {
    forall i :: 0 <= i < |texts| ==> !ReturnAtEnd(texts[i])
  }

  /** Splitting a join of texts, each possibly of several lines, gives all their lines. */
  lemma {:induction false} SplitJoinTexts(texts: seq<string>)
    requires texts != [] && NoReturnAtEnd(texts)
    ensures SplitLines(Join(texts)) == AllLines(texts)
  {
    if |texts| > 1 {
      SplitJoinTexts(texts[1..]);
      SplitAtFeed(texts[0], Join(texts[1..]));
    } else {
      assert AllLines(texts[1..]) == [];
    }
  }

  lemma {:induction false} AllLinesConcat(a: seq<string>, b: seq<string>)
    ensures AllLines(a + b) == AllLines(a) + AllLines(b)
  {
    if a == [] {
      assert a + b == b;
    } else {
      AllLinesConcat(a[1..], b);
      assert (a + b)[1..] == a[1..] + b;
    }
  }

  lemma {:induction false} SplitHasNoFeeds(s: string)
    ensures forall i :: 0 <= i < |SplitLines(s)| ==> '\n' !in SplitLines(s)[i]
    decreases |s|
  {
    if s != "" {
      if s[0] == '\r' && |s| > 1 && s[1] == '\n' {
        SplitHasNoFeeds(s[2..]);
      } else {
        SplitHasNoFeeds(s[1..]);
      }
    }
  }

  // Trimming a join of lines

  /** The lines left when the start of their join is trimmed. */
  function LinesFromStart(lines: seq<string>): (r: seq<string>)
    requires lines != []
    ensures r != [] && |r| <= |lines|
  {
    if TrimStart(lines[0]) == "" && |lines| > 1 then LinesFromStart(lines[1..])
    else [TrimStart(lines[0])] + lines[1..]
  }

  function LinesToEnd(lines: seq<string>): (r: seq<string>)
    requires lines != []
    ensures r != [] && |r| <= |lines|
  {
    var n := |lines| - 1;
    if TrimEnd(lines[n]) == "" && n > 0 then LinesToEnd(lines[..n])
    else lines[..n] + [TrimEnd(lines[n])]
  }

  lemma FeedIsSpace()
    ensures IsSpace('\n') && Blank("\n")
  {
  }

  lemma {:induction false} TrimStartJoin(lines: seq<string>)
    requires lines != []
    ensures TrimStart(Join(lines)) == Join(LinesFromStart(lines))
  {
    hide IsSpace, TrimStart;
    BlankIffTrimEmpty(lines[0]);
    FeedIsSpace();
    if |lines| == 1 {
    } else if TrimStart(lines[0]) == "" {
      assert Blank(lines[0] + "\n");
      TrimStartSpaces(lines[0] + "\n", Join(lines[1..]));
      TrimStartJoin(lines[1..]);
    } else {
      TrimStartThenMore(lines[0], "\n" + Join(lines[1..]));
      assert lines[0] + "\n" + Join(lines[1..]) == lines[0] + ("\n" + Join(lines[1..]));
      JoinCons(TrimStart(lines[0]), lines[1..]);
    }
  }

  lemma {:induction false} JoinSnoc(lines: seq<string>, l: string)
    requires lines != []
    ensures Join(lines + [l]) == Join(lines) + "\n" + l
  {
    if |lines| == 1 {
      assert (lines + [l])[1..] == [l];
    } else {
      JoinSnoc(lines[1..], l);
      assert (lines + [l])[1..] == lines[1..] + [l];
    }
  }

  lemma {:induction false} TrimEndJoin(lines: seq<string>)
    requires lines != []
    ensures TrimEnd(Join(lines)) == Join(LinesToEnd(lines))
  {
    hide IsSpace, TrimEnd;
    var n := |lines| - 1;
    BlankIffTrimEmpty(lines[n]);
    FeedIsSpace();
    if n > 0 {
      assert lines == lines[..n] + [lines[n]];
      JoinSnoc(lines[..n], lines[n]);
      var before := Join(lines[..n]);
      if TrimEnd(lines[n]) == "" {
        assert Blank("\n" + lines[n]);
        assert before + "\n" + lines[n] == before + ("\n" + lines[n]);
        TrimEndSpaces(before, "\n" + lines[n]);
        TrimEndJoin(lines[..n]);
      } else {
        TrimEndAfterMore(before + "\n", lines[n]);
        JoinSnoc(lines[..n], TrimEnd(lines[n]));
      }
    } else {
      assert lines[..n] == [];
    }
  }

  /** The lines of the trimmed join of some lines. */
  function TrimmedLines(lines: seq<string>): (r: seq<string>)
    requires lines != []
    ensures r != []
  {
    LinesToEnd(LinesFromStart(lines))
  }

  /** Every line of `r` is clean and, up to spaces at its ends, one of `lines`. */
  ghost predicate DrawnFrom(r: seq<string>, lines: seq<string>) {
    forall i :: 0 <= i < |r| ==> CleanLine(r[i]) && TrimOccurs(r[i], lines)
  }

  ghost predicate TrimOccurs(l: string, lines: seq<string>) {
    exists j :: 0 <= j < |lines| && Trim(lines[j]) == Trim(l)
  }

  lemma CleanPart(l: string, i: nat, j: nat)
    requires i <= j <= |l| && CleanLine(l)
    ensures CleanLine(l[i..j])
  {
  }

  lemma {:induction false} DrawnFromStart(lines: seq<string>)
    requires lines != [] && CleanLines(lines)
    ensures DrawnFrom(LinesFromStart(lines), lines)
  {
    hide IsSpace, TrimStart, Trim;
    if TrimStart(lines[0]) == "" && |lines| > 1 {
      DrawnFromStart(lines[1..]);
      var r := LinesFromStart(lines);
      forall i | 0 <= i < |r| ensures TrimOccurs(r[i], lines) {
        assert TrimOccurs(r[i], lines[1..]);
        var j :| 0 <= j < |lines[1..]| && Trim(lines[1..][j]) == Trim(r[i]);
        assert Trim(lines[j + 1]) == Trim(r[i]);
      }
    } else {
      var k := TrimStartSuffix(lines[0]);
      CleanPart(lines[0], k, |lines[0]|);
      assert lines[0][k..] == lines[0][k..|lines[0]|];
      TrimAfterTrimStart(lines[0]);
      var r := LinesFromStart(lines);
      forall i | 0 <= i < |r| ensures CleanLine(r[i]) && TrimOccurs(r[i], lines) {
        assert Trim(lines[i]) == Trim(r[i]);
      }
    }
  }

  lemma {:induction false} DrawnFromEnd(lines: seq<string>)
    requires lines != [] && CleanLines(lines)
    ensures DrawnFrom(LinesToEnd(lines), lines)
  {
    hide TrimEnd, Trim;
    var n := |lines| - 1;
    if TrimEnd(lines[n]) == "" && n > 0 {
      DrawnFromEnd(lines[..n]);
      var r := LinesToEnd(lines);
      forall i | 0 <= i < |r| ensures TrimOccurs(r[i], lines) {
        assert TrimOccurs(r[i], lines[..n]);
        var j :| 0 <= j < |lines[..n]| && Trim(lines[..n][j]) == Trim(r[i]);
        assert Trim(lines[j]) == Trim(r[i]);
      }
    } else {
      var k := TrimEndPrefix(lines[n]);
      CleanPart(lines[n], 0, k);
      assert lines[n][..k] == lines[n][0..k];
      TrimAfterTrimEnd(lines[n]);
      var r := LinesToEnd(lines);
      forall i | 0 <= i < |r| ensures CleanLine(r[i]) && TrimOccurs(r[i], lines) {
        assert Trim(lines[i]) == Trim(r[i]);
      }
    }
  }

  lemma DrawnFromTrimmed(lines: seq<string>)
    requires lines != [] && CleanLines(lines)
    ensures DrawnFrom(TrimmedLines(lines), lines)
  {
    hide TrimStart, TrimEnd, LinesFromStart, LinesToEnd, CleanLine;
    var front := LinesFromStart(lines);
    DrawnFromStart(lines);
    DrawnFromEnd(front);
    var r := TrimmedLines(lines);
    forall i | 0 <= i < |r| ensures CleanLine(r[i]) && TrimOccurs(r[i], lines) {
      assert TrimOccurs(r[i], front);
      var j :| 0 <= j < |front| && Trim(front[j]) == Trim(r[i]);
      assert TrimOccurs(front[j], lines);
    }
  }

  lemma DropReturnsDrawn(r: seq<string>, lines: seq<string>)
    requires DrawnFrom(r, lines)
    ensures DrawnFrom(DropReturns(r), lines)
  {
    hide Trim;
    forall i | 0 <= i < |r| ensures CleanLine(DropReturns(r)[i]) && TrimOccurs(DropReturns(r)[i], lines) {
      assert CleanLine(r[i]) && TrimOccurs(r[i], lines);
      DropReturnsAt(r, i);
      DropReturnKeepsTrim(r[i]);
    }
  }

  /** The trimmed join of clean lines is the join of clean lines drawn from them, and so are the lines it splits into. */
  lemma TrimJoin(lines: seq<string>)
    requires lines != [] && CleanLines(lines)
    ensures Trim(Join(lines)) == Join(TrimmedLines(lines)) && CleanLines(TrimmedLines(lines))
    ensures SplitLines(Trim(Join(lines))) == DropReturns(TrimmedLines(lines))
    ensures DrawnFrom(SplitLines(Trim(Join(lines))), lines)
  {
    hide TrimStart, TrimEnd, LinesFromStart, LinesToEnd, SplitLines, Join, CleanLine, DropReturns, TrimOccurs;
    var front := LinesFromStart(lines);
    TrimStartJoin(lines);
    TrimEndJoin(front);
    DrawnFromTrimmed(lines);
    DropReturnsDrawn(TrimmedLines(lines), lines);
    SplitJoin(TrimmedLines(lines));
  }

  /** Lines that are not blank stay lines when their join is trimmed, and those before the last keep their ends. */
  lemma TrimmedLinesKeepEnds(lines: seq<string>)
    requires lines != [] && forall i :: 0 <= i < |lines| ==> Trim(lines[i]) != ""
    ensures |TrimmedLines(lines)| == |lines|
    ensures forall i :: 0 <= i < |lines| - 1 ==> ReturnAtEnd(TrimmedLines(lines)[i]) == ReturnAtEnd(lines[i])
  {
    hide IsSpace, TrimStart, TrimEnd, Trim;
    var n := |lines| - 1;
    BlankIffTrimEmpty(lines[0]);
    BlankIffTrimEmpty(lines[n]);
    var front := LinesFromStart(lines);
    assert front == [TrimStart(lines[0])] + lines[1..];
    BlankIffTrimEmpty(front[n]);
    TrimAfterTrimStart(lines[0]);
    assert TrimmedLines(lines) == front[..n] + [TrimEnd(front[n])];
    var k := TrimStartSuffix(lines[0]);
  }

  /** Joining such lines and trimming leaves a carriage return inside exactly when a line before the last ends with one. */
  lemma TrimmedJoinHasReturn(lines: seq<string>)
    requires lines != [] && CleanLines(lines) && forall i :: 0 <= i < |lines| ==> Trim(lines[i]) != ""
    ensures ReturnInside(Trim(Join(lines))) <==> ReturnBetween(lines)
  {
    hide Trim, Join, TrimmedLines, CleanLine, ReturnAtEnd, DropReturns, SplitLines;
    TrimJoin(lines);
    TrimmedLinesKeepEnds(lines);
    JoinHasReturn(TrimmedLines(lines));
  }
}

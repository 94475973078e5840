/** The text delta that the collaborative markdown editor sends: one replaced range between two texts. */
module TextDelta {

  import opened Wrappers

  type CodeUnit = bv16
  type Text = seq<CodeUnit>

  datatype Delta = Delta(from: nat, deleteCount: nat, insertText: Text)

  predicate Fits(text: Text, d: Delta) {
    d.from + d.deleteCount <= |text|
  }

  /** What the receiver of `replaceTextRange` does. */
  function Apply(text: Text, d: Delta): Text
    requires Fits(text, d)
  {
    text[..d.from] + d.insertText + text[d.from + d.deleteCount..]
  }

  predicate Turns(previous: Text, next: Text, d: Delta) {
    Fits(previous, d) && Apply(previous, d) == next
  }

  /** The delta does the job, and every delta that does it deletes and inserts as much and starts no later. */
  ghost predicate Best(previous: Text, next: Text, d: Delta) {
    && Turns(previous, next, d)
    && forall other :: Turns(previous, next, other) ==>
         && d.deleteCount <= other.deleteCount
         && |d.insertText| <= |other.insertText|
         && other.from <= d.from
  }

  method ComputeTextDelta(previous: Text, next: Text) returns (delta: Option<Delta>)
    ensures delta == None <==> previous == next
    ensures delta.Some? ==> Best(previous, next, delta.value)
  {
    if previous == next { return None; }
    var start := 0;
    while start < |previous| && start < |next| && previous[start] == next[start]
      invariant start <= |previous| && start <= |next| && previous[..start] == next[..start]
    {
      start := start + 1;
    }
    var previousEnd, nextEnd := |previous|, |next|;
    while previousEnd > start && nextEnd > start && previous[previousEnd - 1] == next[nextEnd - 1]
      invariant start <= previousEnd <= |previous| && start <= nextEnd <= |next|
      invariant previous[previousEnd..] == next[nextEnd..]
    {
      assert previous[previousEnd - 1..] == [previous[previousEnd - 1]] + previous[previousEnd..];
      assert next[nextEnd - 1..] == [next[nextEnd - 1]] + next[nextEnd..];
      previousEnd, nextEnd := previousEnd - 1, nextEnd - 1;
    }
    ScansGiveBest(previous, next, start, previousEnd, nextEnd);
    return Some(Delta(start, previousEnd - start, next[start..nextEnd]));
  }

  ghost predicate SameStart(previous: Text, next: Text, n: nat) {
    n <= |previous| && n <= |next| && previous[..n] == next[..n]
  }

  ghost predicate SameEnd(previous: Text, next: Text, n: nat) {
    n <= |previous| && n <= |next| && previous[|previous| - n..] == next[|next| - n..]
  }

  /** What a delta leaves alone is a common prefix and a common suffix. */
  lemma KeptParts(previous: Text, next: Text, d: Delta)
    requires Turns(previous, next, d)
    ensures var kept := |previous| - d.from - d.deleteCount;
            && d.from + |d.insertText| + kept == |next|
            && SameStart(previous, next, d.from) && SameEnd(previous, next, kept)
  {
  }

  lemma StartElement(previous: Text, next: Text, n: nat, i: nat)
    ensures SameStart(previous, next, n) && i < n ==> i < |previous| && i < |next| && previous[i] == next[i]
  {
    if SameStart(previous, next, n) && i < n { assert previous[..n][i] == next[..n][i]; }
  }

  lemma EndElement(previous: Text, next: Text, n: nat, i: nat)
    ensures SameEnd(previous, next, n) && i < n ==>
              i < |previous| && i < |next| && previous[|previous| - 1 - i] == next[|next| - 1 - i]
  {
    if SameEnd(previous, next, n) && i < n {
      assert previous[|previous| - n..][n - 1 - i] == next[|next| - n..][n - 1 - i];
    }
  }

  /** Neither scan can be beaten: a kept prefix is no longer, and nothing keeps more in all. */
  lemma ScansKeepMost(previous: Text, next: Text, start: nat, end: nat, from: nat, kept: nat)
    requires start + end <= |previous| && start + end <= |next|
    requires start < |previous| && start < |next| ==> previous[start] != next[start]
    requires start + end < |previous| && start + end < |next| ==>
               previous[|previous| - 1 - end] != next[|next| - 1 - end]
    requires SameStart(previous, next, from) && SameEnd(previous, next, kept)
    requires from + kept <= |previous| && from + kept <= |next|
    ensures from <= start && from + kept <= start + end
  {
    StartElement(previous, next, from, start);
    EndElement(previous, next, kept, end);
    hide SameStart, SameEnd;
  }

  lemma ScansTurn(previous: Text, next: Text, start: nat, previousEnd: nat, nextEnd: nat)
    requires start <= previousEnd <= |previous| && start <= nextEnd <= |next|
    requires previous[..start] == next[..start] && previous[previousEnd..] == next[nextEnd..]
    ensures Turns(previous, next, Delta(start, previousEnd - start, next[start..nextEnd]))
    ensures |previous| - previousEnd == |next| - nextEnd
  {
    assert |previous[previousEnd..]| == |next[nextEnd..]|;
    assert next == next[..start] + next[start..nextEnd] + next[nextEnd..];
  }

  lemma ScansGiveBest(previous: Text, next: Text, start: nat, previousEnd: nat, nextEnd: nat)
    requires start <= previousEnd <= |previous| && start <= nextEnd <= |next|
    requires previous[..start] == next[..start] && previous[previousEnd..] == next[nextEnd..]
    requires start < |previous| && start < |next| ==> previous[start] != next[start]
    requires previousEnd > start && nextEnd > start ==> previous[previousEnd - 1] != next[nextEnd - 1]
    ensures Best(previous, next, Delta(start, previousEnd - start, next[start..nextEnd]))
  {
    hide Turns, SameStart, SameEnd;
    ScansTurn(previous, next, start, previousEnd, nextEnd);
    forall other | Turns(previous, next, other)
      ensures previousEnd - start <= other.deleteCount && nextEnd - start <= |other.insertText| && other.from <= start
    {
      TurnsFits(previous, next, other);
      KeptParts(previous, next, other);
      var kept := |previous| - other.from - other.deleteCount;
      ScansKeepMost(previous, next, start, |previous| - previousEnd, other.from, kept);
    }
  }

  lemma TurnsFits(previous: Text, next: Text, d: Delta)
    requires Turns(previous, next, d)
    ensures Fits(previous, d)
  {
  }

  /** There is only one best delta. */
  lemma BestIsUnique(previous: Text, next: Text, d: Delta, e: Delta)
    requires Best(previous, next, d) && Best(previous, next, e)
    ensures d == e
  {
    KeptParts(previous, next, d);
    KeptParts(previous, next, e);
    assert d.insertText == next[d.from..d.from + |d.insertText|];
    assert e.insertText == next[e.from..e.from + |e.insertText|];
  }

  function Inverse(previous: Text, d: Delta): Delta
    requires Fits(previous, d)
  {
    Delta(d.from, |d.insertText|, previous[d.from..d.from + d.deleteCount])
  }

  lemma InverseTurnsBack(previous: Text, next: Text, d: Delta)
    requires Turns(previous, next, d)
    ensures Turns(next, previous, Inverse(previous, d)) && Inverse(next, Inverse(previous, d)) == d
  {
    assert next[..d.from] == previous[..d.from];
    assert next[d.from + |d.insertText|..] == previous[d.from + d.deleteCount..];
    assert next[d.from..d.from + |d.insertText|] == d.insertText;
  }

  /** Going back, the code computes exactly the inverse: same place, deleted and inserted text exchanged. */
  lemma InverseIsBest(previous: Text, next: Text, d: Delta)
    requires Best(previous, next, d)
    ensures Best(next, previous, Inverse(previous, d))
  {
    InverseTurnsBack(previous, next, d);
    forall other | Turns(next, previous, other)
      ensures |d.insertText| <= other.deleteCount && d.deleteCount <= |other.insertText| && other.from <= d.from
    {
      InverseTurnsBack(next, previous, other);
      assert Turns(previous, next, Inverse(next, other));
    }
  }
}

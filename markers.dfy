/** Removal of the calibration markers that the question generator is told
    not to emit but sometimes does: an opening bracket `(`, `（` or `[`,
    optional space, one of the five Likert labels 強く左 / やや左 / 中立 /
    やや右 / 強く右 (space allowed between the two halves of the four
    two-part labels), optional space, and a closing bracket `)`, `）` or `]`.
    The server (`_strip_markers`) and the quiz page (`cleanLabel`) use the
    same pattern; both delete every match found in one left-to-right scan and
    then trim the result.

    The pattern is deterministic: each label starts with a non-space
    character, so each optional space run is consumed whole, and the model
    states the match as the function MarkerEnd instead of a regular
    expression. */
module Markers {
  import opened Wrappers
  import opened Text

  predicate IsOpen(c: char) { c == '(' || c == '（' || c == '[' }
  predicate IsClose(c: char) { c == ')' || c == '）' || c == ']' }

  /** Where the Likert label starting at `j` ends, if one starts there. */
  function LabelEnd(s: string, j: nat): (r: Option<nat>)
    requires j <= |s|
    ensures r.Some? ==> j < r.value <= |s|
  {
    if j + 2 <= |s| && s[j] == '中' && s[j + 1] == '立' then Some(j + 2)
    else if j + 2 <= |s| && ((s[j] == '強' && s[j + 1] == 'く') || (s[j] == 'や' && s[j + 1] == 'や')) then
      var k := SpaceEnd(s, j + 2);
      if k < |s| && (s[k] == '左' || s[k] == '右') then Some(k + 1) else None
    else None
  }

  /** Where the marker starting at `i` ends, if one starts there. */
  function MarkerEnd(s: string, i: nat): (r: Option<nat>)
    requires i <= |s|
    ensures r.Some? ==> i < r.value <= |s|
  {
    if i < |s| && IsOpen(s[i]) then
      match LabelEnd(s, SpaceEnd(s, i + 1))
      case None => None
      case Some(e) =>
        var k := SpaceEnd(s, e);
        if k < |s| && IsClose(s[k]) then Some(k + 1) else None
    else None
  }

  /** The rest of one left-to-right pass from position `i` that deletes each
      marker it meets (`re.sub` with an empty replacement, `String.replace`
      with a global pattern). */
  function RemoveFrom(s: string, i: nat): (r: string)
    requires i <= |s|
    ensures |r| <= |s| - i
    decreases |s| - i
  {
    if i == |s| then []
    else match MarkerEnd(s, i)
      case Some(e) => RemoveFrom(s, e)
      case None => [s[i]] + RemoveFrom(s, i + 1)
  }

  /** `_strip_markers(text)` and `cleanLabel(s)`: markers removed, then the
      ends trimmed. */
  function StripMarkers(s: string): (r: string)
    ensures |r| <= |s|
    ensures r == [] || (!IsSpace(r[0]) && !IsSpace(r[|r| - 1]))
  {
    Trim(RemoveFrom(s, 0))
  }

  /** No marker starts at a position in [i, j). */
  predicate NoMarkerIn(s: string, i: nat, j: nat)
    requires i <= j <= |s|
  {
    forall k :: i <= k < j ==> MarkerEnd(s, k).None?
  }

  /** What the pass does between markers: characters where no marker starts
      are copied, and a marker the pass reaches is skipped whole. */
  lemma {:induction false} RemoveFromSpan(s: string, i: nat, j: nat)
    requires i <= j <= |s| && NoMarkerIn(s, i, j)
    ensures RemoveFrom(s, i) == s[i..j] + RemoveFrom(s, j)
    ensures j < |s| && MarkerEnd(s, j).Some? ==>
              RemoveFrom(s, i) == s[i..j] + RemoveFrom(s, MarkerEnd(s, j).value)
    decreases j - i
  {
    if i < j {
      assert MarkerEnd(s, i).None?;
      RemoveFromSpan(s, i + 1, j);
      assert s[i..j] == [s[i]] + s[i + 1..j];
    }
  }

  /** Text in which no marker starts passes through the removal pass
      unchanged, so stripping it only trims it. */
  lemma StripMarkerFree(s: string)
    requires NoMarkerIn(s, 0, |s|)
    ensures RemoveFrom(s, 0) == s
    ensures StripMarkers(s) == Trim(s)
  {
    RemoveFromSpan(s, 0, |s|);
    assert s[0..|s|] == s;
  }

  // ---- The language of the pattern, written out independently.

  datatype Label = StrongLeft | SlightLeft | Neutral | SlightRight | StrongRight

  /** The first half of a two-part label: 強く ("strongly") or やや ("somewhat"). */
  function Degree(l: Label): string {
    if l == StrongLeft || l == StrongRight then "強く" else "やや"
  }

  /** The second half of a two-part label: 左 (left) or 右 (right). */
  function Direction(l: Label): char {
    if l == StrongLeft || l == SlightLeft then '左' else '右'
  }

  /** The text of a label; `inner` is the space allowed between the two
      halves of a two-part label (中立, "neutral", has none). */
  function LabelText(l: Label, inner: string): string {
    if l == Neutral then "中立" else Degree(l) + inner + [Direction(l)]
  }

  predicate AllSpace(s: string) { forall k :: 0 <= k < |s| ==> IsSpace(s[k]) }

  /** Every string the pattern matches: bracket, space, label, space, bracket. */
  function MarkerText(open: char, lead: string, l: Label, inner: string, trail: string, close: char): string {
    [open] + lead + LabelText(l, inner) + trail + [close]
  }

  /** SpaceEnd stops where a run of whitespace ends. */
  lemma SpaceEndAt(s: string, j: nat, k: nat)
    requires j <= k < |s|
    requires AllSpace(s[j..k])
    requires !IsSpace(s[k])
    ensures SpaceEnd(s, j) == k
  {
    assert forall x :: j <= x < k ==> s[x] == s[j..k][x - j];
  }

  /** A slice that equals a concatenation splits into two slices. */
  lemma SliceSplit(s: string, i: nat, j: nat, p: string, q: string)
    requires i <= j <= |s| && s[i..j] == p + q
    ensures s[i..i + |p|] == p && s[i + |p|..j] == q
  {
    assert s[i..i + |p|] == s[i..j][..|p|];
    assert s[i + |p|..j] == s[i..j][|p|..];
  }

  lemma LabelEndOf(s: string, j: nat, l: Label, inner: string)
    requires AllSpace(inner)
    requires j + |LabelText(l, inner)| <= |s|
    requires s[j..j + |LabelText(l, inner)|] == LabelText(l, inner)
    ensures LabelEnd(s, j) == Some(j + |LabelText(l, inner)|)
  {
    var lab := LabelText(l, inner);
    var e := j + |lab|;
    if l == Neutral {
      assert s[j] == s[j..e][0] && s[j + 1] == s[j..e][1];
    } else {
      var d := Degree(l);
      assert lab == d + (inner + [Direction(l)]);
      SliceSplit(s, j, e, d, inner + [Direction(l)]);
      SliceSplit(s, j + 2, e, inner, [Direction(l)]);
      assert s[j] == s[j..j + 2][0] && s[j + 1] == s[j..j + 2][1];
      assert s[e - 1] == s[e - 1..e][0];
      SpaceEndAt(s, j + 2, e - 1);
    }
  }

  /** MarkerEnd, unfolded at known boundaries. */
  lemma MarkerEndFrom(s: string, i: nat, a: nat, b: nat, c: nat)
    requires i < |s| && IsOpen(s[i])
    requires i + 1 <= |s| && SpaceEnd(s, i + 1) == a
    requires LabelEnd(s, a) == Some(b)
    requires SpaceEnd(s, b) == c && c < |s| && IsClose(s[c])
    ensures MarkerEnd(s, i) == Some(c + 1)
  {
  }

  /** Where the pieces of a marker sit once it is found at `i`. */
  lemma MarkerPieces(s: string, i: nat, open: char, lead: string, lab: string, trail: string, close: char)
    requires var m := [open] + lead + lab + trail + [close];
      i + |m| <= |s| && s[i..i + |m|] == m
    ensures var a := i + 1 + |lead|; var b := a + |lab|; var c := b + |trail|;
      && s[i] == open && s[i + 1..a] == lead && s[a..b] == lab && s[b..c] == trail && s[c] == close
  {
    var m := [open] + lead + lab + trail + [close];
    var end := i + |m|;
    var a := i + 1 + |lead|;
    var b := a + |lab|;
    var c := b + |trail|;
    assert m == [open] + (lead + (lab + (trail + [close])));
    SliceSplit(s, i, end, [open], lead + (lab + (trail + [close])));
    SliceSplit(s, i + 1, end, lead, lab + (trail + [close]));
    SliceSplit(s, a, end, lab, trail + [close]);
    SliceSplit(s, b, end, trail, [close]);
    assert s[i] == s[i..i + 1][0];
    assert s[c] == s[c..end][0];
  }

  /** Each string of the pattern's language is recognised by MarkerEnd as
      one whole marker, whatever surrounds it. */
  lemma MarkerEndOf(s: string, i: nat, open: char, lead: string, l: Label, inner: string, trail: string, close: char)
    requires IsOpen(open) && IsClose(close)
    requires AllSpace(lead) && AllSpace(inner) && AllSpace(trail)
    requires var m := MarkerText(open, lead, l, inner, trail, close);
      i + |m| <= |s| && s[i..i + |m|] == m
    ensures MarkerEnd(s, i) == Some(i + |MarkerText(open, lead, l, inner, trail, close)|)
  {
    var lab := LabelText(l, inner);
    var a := i + 1 + |lead|;
    var c := a + |lab| + |trail|;
    MarkerPieces(s, i, open, lead, lab, trail, close);
    MarkerEndAtPieces(s, i, a, a + |lab|, c, l, inner);
    assert |MarkerText(open, lead, l, inner, trail, close)| == c + 1 - i;
  }

  /** Conversely, whatever MarkerEnd recognises is a string of the pattern's
      language: the scan never deletes text outside the pattern. */
  lemma MarkerEndSound(s: string, i: nat, e: nat)
    requires i <= |s| && MarkerEnd(s, i) == Some(e)
    ensures exists open: char, lead: string, l: Label, inner: string, trail: string, close: char ::
      IsOpen(open) && IsClose(close) && AllSpace(lead) && AllSpace(inner) && AllSpace(trail)
      && s[i..e] == MarkerText(open, lead, l, inner, trail, close)
  {
    var open, lead, l, inner, trail, close := MarkerPiecesOf(s, i);
  }

  /** The pieces of the marker MarkerEnd recognises at `i`. */
  lemma MarkerPiecesOf(s: string, i: nat)
    returns (open: char, lead: string, l: Label, inner: string, trail: string, close: char)
    requires i <= |s| && MarkerEnd(s, i).Some?
    ensures IsOpen(open) && IsClose(close) && AllSpace(lead) && AllSpace(inner) && AllSpace(trail)
    ensures s[i..MarkerEnd(s, i).value] == MarkerText(open, lead, l, inner, trail, close)
  {
    var e := MarkerEnd(s, i).value;
    open := s[i];
    var a := SpaceEnd(s, i + 1);
    lead := s[i + 1..a];
    var b := LabelEnd(s, a).value;
    l, inner := LabelPiecesOf(s, a);
    var c := SpaceEnd(s, b);
    trail := s[b..c];
    close := s[c];
    assert e == c + 1;
    assert s[i..e] == [open] + lead + s[a..b] + trail + [close];
  }

  /** The label LabelEnd recognises at `j`, and the space inside it. */
  lemma LabelPiecesOf(s: string, j: nat) returns (l: Label, inner: string)
    requires j <= |s| && LabelEnd(s, j).Some?
    ensures AllSpace(inner)
    ensures s[j..LabelEnd(s, j).value] == LabelText(l, inner)
  {
    var b := LabelEnd(s, j).value;
    if s[j] == '中' && s[j + 1] == '立' {
      l, inner := Neutral, "";
      assert s[j..b] == [s[j], s[j + 1]];
    } else {
      var k := SpaceEnd(s, j + 2);
      inner := s[j + 2..k];
      l := if s[j] == '強' then (if s[k] == '左' then StrongLeft else StrongRight)
           else (if s[k] == '左' then SlightLeft else SlightRight);
      assert s[j..b] == [s[j], s[j + 1]] + inner + [s[k]];
    }
  }

  /** MarkerEnd once the pieces of a marker are known to sit at `i`. */
  lemma MarkerEndAtPieces(s: string, i: nat, a: nat, b: nat, c: nat, l: Label, inner: string)
    requires AllSpace(inner)
    requires i < a <= b <= c < |s|
    requires IsOpen(s[i]) && AllSpace(s[i + 1..a])
    requires b == a + |LabelText(l, inner)| && s[a..b] == LabelText(l, inner)
    requires AllSpace(s[b..c]) && IsClose(s[c])
    ensures MarkerEnd(s, i) == Some(c + 1)
  {
    LabelStart(s, a, l, inner);
    SpaceEndAt(s, i + 1, a);
    LabelEndOf(s, a, l, inner);
    assert !IsSpace(s[c]);
    SpaceEndAt(s, b, c);
    MarkerEndFrom(s, i, a, b, c);
  }

  /** A label starts with a character that is not whitespace. */
  lemma LabelStart(s: string, a: nat, l: Label, inner: string)
    requires a + |LabelText(l, inner)| <= |s|
    requires s[a..a + |LabelText(l, inner)|] == LabelText(l, inner)
    ensures a < |s| && !IsSpace(s[a])
  {
    var lab := LabelText(l, inner);
    if l != Neutral { assert lab[0] == Degree(l)[0]; }
    assert s[a] == s[a..a + |lab|][0] == lab[0];
  }

  /** The scan does not look again at what it has produced: deleting the
      inner marker of `(（中立）中立)` joins the outer brackets into a new
      marker, which is left in place. */
  lemma OnePassLeavesAssembledMarker()
    ensures StripMarkers("(（中立）中立)") == "(中立)"
    ensures MarkerEnd("(中立)", 0) == Some(4)
  {
    NestedRemoval("(（中立）中立)");
    TrimOfTrimmed("(中立)");
    AssembledMarker("(中立)");
  }

  lemma AssembledMarker(out: string)
    requires out == "(中立)"
    ensures MarkerEnd(out, 0) == Some(4)
  {
    assert out[0..4] == MarkerText('(', "", Neutral, "", "", ')');
    MarkerEndOf(out, 0, '(', "", Neutral, "", "", ')');
  }

  lemma NestedRemoval(s: string)
    requires s == "(（中立）中立)"
    ensures RemoveFrom(s, 0) == "(中立)"
  {
    assert s[1] == '（';
    assert SpaceEnd(s, 1) == 1;
    assert MarkerEnd(s, 0).None?;
    assert s[1..5] == MarkerText('（', "", Neutral, "", "", '）');
    MarkerEndOf(s, 1, '（', "", Neutral, "", "", '）');
    RemoveFromSpan(s, 0, 1);
    assert !IsOpen(s[5]) && !IsOpen(s[6]) && !IsOpen(s[7]);
    RemoveFromSpan(s, 5, 8);
  }

}

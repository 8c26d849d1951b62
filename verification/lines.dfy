/**
 * `getLinesFromText(text)` (src/utils/getLinesFromText.js): the non-empty
 * trimmed lines of a text.
 */
module Lines {
  import Text

  function TrimAll(xs: seq<string>): (r: seq<string>)
    ensures |r| == |xs| && forall i :: 0 <= i < |xs| ==> r[i] == Text.Trim(xs[i])
  {
    if |xs| == 0 then [] else [Text.Trim(xs[0])] + TrimAll(xs[1..])
  }

  /** `filter(Boolean)` over strings: drops the empty ones, keeping the order. */
  function DropEmpty(xs: seq<string>): (r: seq<string>)
    ensures |r| <= |xs|
    ensures forall i :: 0 <= i < |r| ==> |r[i]| > 0 && r[i] in xs
    ensures forall i :: 0 <= i < |xs| && |xs[i]| > 0 ==> xs[i] in r
  {
    if |xs| == 0 then []
    else
      var rest := DropEmpty(xs[1..]);
      assert forall i :: 1 <= i < |xs| ==> xs[i] == xs[1..][i - 1];
      if |xs[0]| > 0 then [xs[0]] + rest else rest
  }

  /** Filtering works element by element, so it keeps the order of what it keeps. */
  lemma {:induction false} DropEmptyAppend(a: seq<string>, b: seq<string>)
    ensures DropEmpty(a + b) == DropEmpty(a) + DropEmpty(b)
  {
    if |a| == 0 {
      assert a + b == b;
    } else {
      assert (a + b)[0] == a[0];
      assert (a + b)[1..] == a[1..] + b;
      DropEmptyAppend(a[1..], b);
    }
  }

  lemma {:induction false} DropEmptyOfNonEmpty(xs: seq<string>)
    requires forall i :: 0 <= i < |xs| ==> |xs[i]| > 0
    ensures DropEmpty(xs) == xs
  {
    if |xs| > 0 {
      DropEmptyOfNonEmpty(xs[1..]);
    }
  }

  lemma TrimAllOfTrimmed(xs: seq<string>)
    requires forall i :: 0 <= i < |xs| ==> Text.IsTrimmed(xs[i])
    ensures TrimAll(xs) == xs
  {
    forall i | 0 <= i < |xs|
      ensures Text.Trim(xs[i]) == xs[i]
    {
      Text.TrimOfTrimmed(xs[i]);
    }
  }

  /** `text.split('\n').map((line) => line.trim()).filter(Boolean)`. */
  function GetLinesFromText(text: string): (r: seq<string>)
    ensures |r| <= Text.Count(text, '\n') + 1
    ensures forall i :: 0 <= i < |r| ==> |r[i]| > 0 && Text.IsTrimmed(r[i]) && '\n' !in r[i]
  {
    var pieces := Text.Split(text, '\n');
    var r := DropEmpty(TrimAll(pieces));
    assert forall i :: 0 <= i < |r| ==> r[i] in TrimAll(pieces);
    r
  }

  /**
   * `r` is `xs` without its empty strings, in order: `idx` gives, increasing,
   * the position in `xs` each member of `r` came from, and every non-empty
   * string of `xs` is among those positions.
   */
  predicate Picks(xs: seq<string>, r: seq<string>, idx: seq<nat>) {
    && |idx| == |r|
    && (forall k :: 0 <= k < |idx| ==> idx[k] < |xs| && r[k] == xs[idx[k]] && r[k] != "")
    && (forall k, l :: 0 <= k < l < |idx| ==> idx[k] < idx[l])
    && (forall i :: 0 <= i < |xs| && xs[i] != "" ==> i in idx)
  }

  function Shift(idx: seq<nat>): (r: seq<nat>)
    ensures |r| == |idx| && forall k :: 0 <= k < |idx| ==> r[k] == idx[k] + 1
  {
    seq(|idx|, k requires 0 <= k < |idx| => idx[k] + 1)
  }

  /** The positions of the non-empty strings of `xs`, in order. */
  function NonEmptyAt(xs: seq<string>): seq<nat> {
    if |xs| == 0 then [] else (if xs[0] != "" then [0] else []) + Shift(NonEmptyAt(xs[1..]))
  }

  /** Consing `xs[0]`, when it is non-empty, onto a pick of `xs[1..]` gives a pick of `xs`. */
  lemma PicksCons(xs: seq<string>, r: seq<string>, idx: seq<nat>)
    requires |xs| > 0 && Picks(xs[1..], r, idx)
    ensures Picks(xs, (if xs[0] != "" then [xs[0]] else []) + r, (if xs[0] != "" then [0] else []) + Shift(idx))
  {
    var r' := (if xs[0] != "" then [xs[0]] else []) + r;
    var idx' := (if xs[0] != "" then [0] else []) + Shift(idx);
    var d := if xs[0] != "" then 1 else 0;
    ConsElements(xs, r, idx, d, r', idx');
    ConsIncreasing(idx, d, idx');
    ConsCovers(xs, idx, d, idx');
  }

  lemma ConsElements(xs: seq<string>, r: seq<string>, idx: seq<nat>, d: nat, r': seq<string>, idx': seq<nat>)
    requires |xs| > 0 && Picks(xs[1..], r, idx)
    requires d == (if xs[0] != "" then 1 else 0)
    requires r' == (if xs[0] != "" then [xs[0]] else []) + r
    requires idx' == (if xs[0] != "" then [0] else []) + Shift(idx)
    ensures |idx'| == |r'|
    ensures forall k :: 0 <= k < |idx'| ==> idx'[k] < |xs| && r'[k] == xs[idx'[k]] && r'[k] != ""
  {
    forall k | 0 <= k < |idx'|
      ensures idx'[k] < |xs| && r'[k] == xs[idx'[k]] && r'[k] != ""
    {
      if k >= d {
        assert idx'[k] == idx[k - d] + 1 && r'[k] == r[k - d];
        assert xs[1..][idx[k - d]] == xs[idx[k - d] + 1];
      }
    }
  }

  lemma ConsIncreasing(idx: seq<nat>, d: nat, idx': seq<nat>)
    requires forall k, l :: 0 <= k < l < |idx| ==> idx[k] < idx[l]
    requires d <= 1 && idx' == (if d == 1 then [0] else []) + Shift(idx)
    ensures forall k, l :: 0 <= k < l < |idx'| ==> idx'[k] < idx'[l]
  {
    forall k, l | 0 <= k < l < |idx'| ensures idx'[k] < idx'[l] {
      assert idx'[l] == idx[l - d] + 1;
      if k >= d {
        assert idx'[k] == idx[k - d] + 1;
      }
    }
  }

  lemma ConsCovers(xs: seq<string>, idx: seq<nat>, d: nat, idx': seq<nat>)
    requires |xs| > 0
    requires forall i :: 0 <= i < |xs[1..]| && xs[1..][i] != "" ==> i in idx
    requires d == (if xs[0] != "" then 1 else 0)
    requires idx' == (if xs[0] != "" then [0] else []) + Shift(idx)
    ensures forall i :: 0 <= i < |xs| && xs[i] != "" ==> i in idx'
  {
    forall i | 0 <= i < |xs| && xs[i] != "" ensures i in idx' {
      if i > 0 {
        assert xs[1..][i - 1] == xs[i];
        var k :| 0 <= k < |idx| && idx[k] == i - 1;
        assert idx'[k + d] == i;
      } else {
        assert idx'[0] == 0;
      }
    }
  }

  lemma {:induction false} DropEmptyPicks(xs: seq<string>)
    ensures Picks(xs, DropEmpty(xs), NonEmptyAt(xs))
  {
    if |xs| > 0 {
      DropEmptyPicks(xs[1..]);
      PicksCons(xs, DropEmpty(xs[1..]), NonEmptyAt(xs[1..]));
    }
  }

  /**
   * Line `k` is the trim of segment `idx[k]`, the segments used are
   * increasing, no line is empty, and every segment whose trim is not empty is
   * used.
   */
  predicate LinesOf(segments: seq<string>, r: seq<string>, idx: seq<nat>) {
    && |idx| == |r|
    && (forall k :: 0 <= k < |idx| ==> idx[k] < |segments| && r[k] == Text.Trim(segments[idx[k]]) && r[k] != "")
    && (forall k, l :: 0 <= k < l < |idx| ==> idx[k] < idx[l])
    && (forall i :: 0 <= i < |segments| && Text.Trim(segments[i]) != "" ==> i in idx)
  }

  lemma PicksOfTrimmed(segments: seq<string>, r: seq<string>, idx: seq<nat>)
    requires Picks(TrimAll(segments), r, idx)
    ensures LinesOf(segments, r, idx)
  {
  }

  /**
   * The lines are the trims of the `'\n'`-separated segments, in order, with
   * the empty ones left out; the segments they come from are those whose
   * trims are not empty.
   */
  lemma LinesAreTrimmedPieces(text: string)
    ensures var segments := Text.Split(text, '\n');
      LinesOf(segments, GetLinesFromText(text), NonEmptyAt(TrimAll(segments)))
  {
    var segments := Text.Split(text, '\n');
    var trimmed := TrimAll(segments);
    var lines := GetLinesFromText(text);
    assert lines == DropEmpty(trimmed);
    DropEmptyPicks(trimmed);
    PicksOfTrimmed(segments, lines, NonEmptyAt(trimmed));
  }

  /** Joining the lines with `'\n'` and taking the lines again gives the same lines. */
  lemma LinesIdempotent(text: string)
    ensures GetLinesFromText(Text.Join(GetLinesFromText(text), "\n")) == GetLinesFromText(text)
  {
    var r := GetLinesFromText(text);
    if |r| == 0 {
      assert Text.Join(r, "\n") == "";
      assert TrimAll(Text.Split("", '\n')) == [""];
    } else {
      Text.SplitJoin(r, '\n');
      TrimAllOfTrimmed(r);
      DropEmptyOfNonEmpty(r);
    }
  }
}

/**
 Breaking a receipt line into pieces that fit the paper (the `wrap` lambda of `render` in
 platform.cpp).  Text is UTF-16; the width of a piece is whatever the measuring function says.
 */
module Wrap {
  import opened Prelude

  type Units = seq<int>

  const SPACE := 32

  ghost predicate PairedAt(s: Units, i: int)
    requires 0 <= i < |s|
  {
    && (High(s[i]) ==> i + 1 < |s| && Low(s[i + 1]))
    && (Low(s[i]) ==> i > 0 && High(s[i - 1]))
  }

  /** Every surrogate is half of a pair. */
  ghost predicate WellFormed(s: Units) {
    forall i :: 0 <= i < |s| ==> PairedAt(s, i)
  }

  /** A cut at `k` does not fall inside a pair. */
  predicate Boundary(s: Units, k: int) { 0 <= k <= |s| && (k < |s| ==> !Low(s[k])) }

  lemma CutWellFormed(s: Units, k: int)
    requires WellFormed(s) && Boundary(s, k)
    ensures WellFormed(s[..k]) && WellFormed(s[k..])
  {
    var a, b := s[..k], s[k..];
    forall i | 0 <= i < |a|
      ensures PairedAt(a, i)
    {
      assert PairedAt(s, i) && a[i] == s[i];
      assert i + 1 < k ==> a[i + 1] == s[i + 1];
      assert i > 0 ==> a[i - 1] == s[i - 1];
    }
    forall i | 0 <= i < |b|
      ensures PairedAt(b, i)
    {
      assert PairedAt(s, k + i) && b[i] == s[k + i];
      assert k + i + 1 < |s| ==> b[i + 1] == s[k + i + 1];
      assert i > 0 ==> b[i - 1] == s[k + i - 1];
    }
  }

  lemma LowsFollow(s: Units)
    requires WellFormed(s)
    ensures forall i :: 0 <= i < |s| && Low(s[i]) ==> i > 0 && !Low(s[i - 1])
  {
    forall i | 0 <= i < |s| && Low(s[i])
      ensures i > 0 && !Low(s[i - 1])
    {
      assert PairedAt(s, i);
    }
  }

  /** A longer prefix is never narrower. */
  ghost predicate Monotone(measure: Units -> int) {
    forall s: Units, i, j :: 0 <= i <= j <= |s| ==> measure(s[..i]) <= measure(s[..j])
  }

  predicate Fits(measure: Units -> int, s: Units, k: int, width: int)
    requires 0 <= k <= |s|
  {
    measure(s[..k]) <= width
  }

  /** The end of the first character. */
  function FirstEnd(s: Units): int
    requires |s| > 0
  {
    if |s| > 1 && Low(s[1]) then 2 else 1
  }

  /** `best` is the longest cut that fits, or 0 when no cut fits. */
  ghost predicate Longest(measure: Units -> int, s: Units, width: int, best: int) {
    && 0 <= best <= |s|
    && (best > 0 ==> Boundary(s, best) && Fits(measure, s, best, width))
    && (forall k :: best < k <= |s| && Boundary(s, k) ==> !Fits(measure, s, k, width))
  }

  /** The binary search over cuts, stepping back from the middle of a pair. */
  method LongestFit(measure: Units -> int, s: Units, width: int) returns (best: nat)
    requires |s| > 0 && WellFormed(s) && Monotone(measure)
    ensures Longest(measure, s, width, best)
  {
    LowsFollow(s);
    var low, high := 1, |s|;
    best := 0;
    while low <= high
      invariant 1 <= low <= |s| + 1 && 0 <= high <= |s|
      invariant low == 1 || Boundary(s, low) || low == |s| + 1
      invariant best == 0 || (Boundary(s, best) && best < low && Fits(measure, s, best, width))
      invariant best <= |s|
      invariant forall k :: 1 <= k < low && k <= |s| && Boundary(s, k) ==> k <= best
      invariant forall k :: high < k <= |s| && Boundary(s, k) ==> !Fits(measure, s, k, width)
      decreases high - low + 1
    {
      var mid := (low + high) / 2;
      if mid < |s| && Low(s[mid]) { mid := mid - 1; }
      if mid == 0 {
        low := 2;
        continue;
      }
      if Fits(measure, s, mid, width) {
        best := mid;
        low := mid + 1;
        if low < |s| && Low(s[low]) { low := low + 1; }
      } else {
        forall k | mid < k <= |s| && Boundary(s, k)
          ensures !Fits(measure, s, k, width)
        {
          assert measure(s[..mid]) <= measure(s[..k]);
        }
        high := mid - 1;
      }
    }
  }

  /** The last space at or before `from`, or -1. */
  function LastSpace(s: Units, from: int): (r: int)
    requires -1 <= from < |s|
    ensures -1 <= r <= from && (r >= 0 ==> s[r] == SPACE)
    ensures forall i :: r < i <= from ==> s[i] != SPACE
    decreases from + 1
  {
    if from < 0 then -1 else if s[from] == SPACE then from else LastSpace(s, from - 1)
  }

  /** Where the line really ends: at the last space inside the fitting cut, if there is one. */
  function BreakAt(s: Units, best: nat): (r: nat)
    requires 0 < best <= |s|
    ensures 0 < r <= best
    ensures r == best || s[r] == SPACE
  {
    var space := LastSpace(s, best - 1);
    if space > 0 then space else best
  }

  function LeadingSpaces(s: Units): (n: nat)
    ensures n <= |s| && (n < |s| ==> s[n] != SPACE)
    ensures forall i :: 0 <= i < n ==> s[i] == SPACE
  {
    if |s| > 0 && s[0] == SPACE then 1 + LeadingSpaces(s[1..]) else 0
  }

  method DropSpaces(s: Units) returns (rest: Units)
    ensures rest == s[LeadingSpaces(s)..]
  {
    rest := s;
    ghost var n := 0;
    while rest != [] && rest[0] == SPACE
      invariant n <= |s| && rest == s[n..]
      invariant n + LeadingSpaces(rest) == LeadingSpaces(s)
      decreases |rest|
    {
      rest, n := rest[1..], n + 1;
    }
  }

  function Spaces(n: nat): (s: Units)
    ensures |s| == n && forall i :: 0 <= i < n ==> s[i] == SPACE
  {
    if n == 0 then [] else [SPACE] + Spaces(n - 1)
  }

  /** The pieces put back together, with `gaps[i]` spaces after piece `i`. */
  function Rejoin(pieces: seq<Units>, gaps: seq<nat>): Units
    requires |pieces| == |gaps|
  {
    if |pieces| == 0 then []
    else
      var n := |pieces| - 1;
      Rejoin(pieces[..n], gaps[..n]) + pieces[n] + Spaces(gaps[n])
  }

  ghost predicate GoodPiece(measure: Units -> int, piece: Units, width: int) {
    |piece| > 0 && WellFormed(piece) && measure(piece) <= width
  }

  lemma RejoinAppend(pieces: seq<Units>, gaps: seq<nat>, piece: Units, gap: nat)
    requires |pieces| == |gaps|
    ensures Rejoin(pieces + [piece], gaps + [gap]) == Rejoin(pieces, gaps) + piece + Spaces(gap)
  {
    assert (pieces + [piece])[..|pieces|] == pieces && (gaps + [gap])[..|gaps|] == gaps;
  }

  /** One line: the piece, the spaces dropped after it, and what is left. */
  lemma TakeLine(part: Units, cut: nat)
    requires WellFormed(part) && 0 < cut <= |part| && Boundary(part, cut)
    ensures var rest := part[cut..]; var gap := LeadingSpaces(rest);
      && WellFormed(part[..cut]) && WellFormed(rest[gap..])
      && part == part[..cut] + Spaces(gap) + rest[gap..]
  {
    CutWellFormed(part, cut);
    var rest := part[cut..];
    var gap := LeadingSpaces(rest);
    assert gap < |rest| ==> PairedAt(rest, gap);
    assert gap > 0 ==> rest[gap - 1] == SPACE;
    CutWellFormed(rest, gap);
    assert rest[..gap] == Spaces(gap);
  }

  /** A character that does not fit, at the start of what was left when it was reached. */
  ghost predicate TooWide(measure: Units -> int, text: Units, width: int) {
    exists i :: 0 <= i < |text| && Boundary(text, i) && measure(text[i..][..FirstEnd(text[i..])]) > width
  }

  function AfterCut(s: Units, cut: nat): Units
    requires cut <= |s|
  {
    s[cut..][LeadingSpaces(s[cut..])..]
  }

  /** One line is taken off a text that does not fit: the longest fitting cut, moved back to a space. */
  ghost predicate TakesLine(measure: Units -> int, s: Units, width: int, piece: Units, rest: Units) {
    exists best :: 0 < best <= |s| && Longest(measure, s, width, best)
                   && piece == s[..BreakAt(s, best)] && rest == AfterCut(s, BreakAt(s, best))
  }

  /** The lines of a text, one after the other. */
  ghost predicate Wraps(measure: Units -> int, s: Units, width: int, pieces: seq<Units>)
    decreases |pieces|
  {
    if s == [] then pieces == []
    else if measure(s) <= width then pieces == [s]
    else
      && |pieces| > 0
      && exists rest :: TakesLine(measure, s, width, pieces[0], rest) && Wraps(measure, rest, width, pieces[1..])
  }

  /** Wrapping the part that is left completes the wrapping of the text. */
  ghost predicate Continues(measure: Units -> int, text: Units, width: int, out: seq<Units>, part: Units) {
    forall tail :: Wraps(measure, part, width, tail) ==> Wraps(measure, text, width, out + tail)
  }

  lemma StartContinues(measure: Units -> int, text: Units, width: int)
    ensures Continues(measure, text, width, [], text)
  {
    forall tail | Wraps(measure, text, width, tail)
      ensures Wraps(measure, text, width, [] + tail)
    {
      assert [] + tail == tail;
    }
  }

  lemma LineContinues(measure: Units -> int, text: Units, width: int, out: seq<Units>, part: Units, piece: Units,
                      rest: Units)
    requires Continues(measure, text, width, out, part) && part != [] && measure(part) > width
    requires TakesLine(measure, part, width, piece, rest)
    ensures Continues(measure, text, width, out + [piece], rest)
  {
    hide TakesLine;
    forall tail | Wraps(measure, rest, width, tail)
      ensures Wraps(measure, text, width, out + [piece] + tail)
    {
      var more := [piece] + tail;
      assert more[1..] == tail;
      assert Wraps(measure, part, width, more);
      assert out + more == out + [piece] + tail;
    }
  }

  lemma EndContinues(measure: Units -> int, text: Units, width: int, out: seq<Units>, part: Units)
    requires Continues(measure, text, width, out, part) && (part == [] || measure(part) <= width)
    ensures Wraps(measure, text, width, if part == [] then out else out + [part])
  {
    var tail := if part == [] then [] else [part];
    assert Wraps(measure, part, width, tail);
    assert part == [] ==> out + tail == out;
  }

  /**
   Wrapping terminates; every piece fits and splits no pair; the pieces with the dropped spaces
   give the text back; and it fails only over a character that does not fit by itself.
   */
  method Wrap(measure: Units -> int, text: Units, maxWidth: int)
    returns (r: Reply<seq<Units>>, ghost gaps: seq<nat>)
    requires WellFormed(text) && Monotone(measure)
    ensures text == [] ==> r == Ok([[]])
    ensures r.Ok? && text != [] ==> |gaps| == |r.value| && Rejoin(r.value, gaps) == text
    ensures r.Ok? && text != [] ==>
              forall i :: 0 <= i < |r.value| ==> GoodPiece(measure, r.value[i], if maxWidth < 1 then 1 else maxWidth)
    ensures r.Ok? && text != [] ==> Wraps(measure, text, if maxWidth < 1 then 1 else maxWidth, r.value)
    ensures r.Err? ==> TooWide(measure, text, if maxWidth < 1 then 1 else maxWidth)
  {
    hide Wraps, TakesLine, Continues, Rejoin, WellFormed, LeadingSpaces, BreakAt, GoodPiece, Monotone, Longest;
    var width := if maxWidth < 1 then 1 else maxWidth;
    var out: seq<Units> := [];
    gaps := [];
    if text == [] { return Ok([[]]), []; }
    var part := text;
    StartWrap(measure, text, width);
    StartContinues(measure, text, width);
    while part != []
      invariant Wrapping(measure, text, width, out, gaps, part)
      invariant Continues(measure, text, width, out, part)
      decreases |part|
    {
      if measure(part) <= width {
        LastPiece(measure, text, width, out, gaps, part);
        EndContinues(measure, text, width, out, part);
        return Ok(out + [part]), gaps + [0];
      }
      var best := LongestFit(measure, part, width);
      if best == 0 {
        Stuck(measure, text, width, out, gaps, part);
        return Err("ESC_POS_ERROR"), gaps;
      }
      var cut := BreakAt(part, best);
      NextPiece(measure, text, width, out, gaps, part, best);
      CutTakesLine(measure, part, width, best);
      LineContinues(measure, text, width, out, part, part[..cut], AfterCut(part, cut));
      out, gaps := out + [part[..cut]], gaps + [LeadingSpaces(part[cut..])];
      part := DropSpaces(part[cut..]);
    }
    WrapDone(measure, text, width, out, gaps);
    EndContinues(measure, text, width, out, part);
    r := Ok(out);
  }

  lemma CutTakesLine(measure: Units -> int, s: Units, width: int, best: nat)
    requires 0 < best <= |s| && Longest(measure, s, width, best)
    ensures TakesLine(measure, s, width, s[..BreakAt(s, best)], AfterCut(s, BreakAt(s, best)))
  {
    hide Longest, BreakAt, AfterCut;
  }

  /** The pieces so far and the part still to wrap make up the text. */
  ghost predicate Wrapping(measure: Units -> int, text: Units, width: int, out: seq<Units>, gaps: seq<nat>,
                           part: Units) {
    && WellFormed(part) && |out| == |gaps| && text == Rejoin(out, gaps) + part
    && forall i :: 0 <= i < |out| ==> GoodPiece(measure, out[i], width)
  }

  lemma StartWrap(measure: Units -> int, text: Units, width: int)
    requires WellFormed(text)
    ensures Wrapping(measure, text, width, [], [], text)
  {
  }

  lemma WrapDone(measure: Units -> int, text: Units, width: int, out: seq<Units>, gaps: seq<nat>)
    requires Wrapping(measure, text, width, out, gaps, [])
    ensures Rejoin(out, gaps) == text && forall i :: 0 <= i < |out| ==> GoodPiece(measure, out[i], width)
  {
  }

  lemma LastPiece(measure: Units -> int, text: Units, width: int, out: seq<Units>, gaps: seq<nat>, part: Units)
    requires Wrapping(measure, text, width, out, gaps, part) && part != [] && measure(part) <= width
    ensures Rejoin(out + [part], gaps + [0]) == text
    ensures forall i :: 0 <= i < |out + [part]| ==> GoodPiece(measure, (out + [part])[i], width)
  {
    RejoinAppend(out, gaps, part, 0);
  }

  lemma NextPiece(measure: Units -> int, text: Units, width: int, out: seq<Units>, gaps: seq<nat>, part: Units,
                  best: nat)
    requires Wrapping(measure, text, width, out, gaps, part) && part != []
    requires Monotone(measure) && Longest(measure, part, width, best) && best > 0
    ensures var cut := BreakAt(part, best); var rest := part[cut..]; var gap := LeadingSpaces(rest);
            Wrapping(measure, text, width, out + [part[..cut]], gaps + [gap], rest[gap..])
  {
    var cut := BreakAt(part, best);
    assert Boundary(part, cut);
    TakeLine(part, cut);
    assert measure(part[..cut]) <= measure(part[..best]);
    assert GoodPiece(measure, part[..cut], width);
    AddPiece(measure, text, width, out, gaps, part, part[..cut], LeadingSpaces(part[cut..]),
             part[cut..][LeadingSpaces(part[cut..])..]);
  }

  lemma AddPiece(measure: Units -> int, text: Units, width: int, out: seq<Units>, gaps: seq<nat>, part: Units,
                 piece: Units, gap: nat, rest: Units)
    requires Wrapping(measure, text, width, out, gaps, part) && GoodPiece(measure, piece, width)
    requires WellFormed(rest) && part == piece + Spaces(gap) + rest
    ensures Wrapping(measure, text, width, out + [piece], gaps + [gap], rest)
  {
    hide Rejoin, GoodPiece, WellFormed, Spaces;
    RejoinAppend(out, gaps, piece, gap);
    assert text == Rejoin(out, gaps) + piece + Spaces(gap) + rest;
  }

  lemma Stuck(measure: Units -> int, text: Units, width: int, out: seq<Units>, gaps: seq<nat>, part: Units)
    requires Wrapping(measure, text, width, out, gaps, part) && part != [] && Longest(measure, part, width, 0)
    ensures TooWide(measure, text, width)
  {
    var at := |Rejoin(out, gaps)|;
    assert text[at..] == part && text[at] == part[0];
    LowsFollow(part);
    NothingFits(measure, part, width);
  }

  lemma NothingFits(measure: Units -> int, part: Units, width: int)
    requires |part| > 0 && WellFormed(part) && Longest(measure, part, width, 0)
    ensures measure(part[..FirstEnd(part)]) > width
  {
    LowsFollow(part);
    assert Boundary(part, FirstEnd(part));
  }

  // ----- where lines are broken -----

  /** A line may end here: before a space, or at the end of the text. */
  predicate BreakPoint(s: Units, k: int) { 0 < k <= |s| && (k == |s| || s[k] == SPACE) }

  /** `r` is the last break point of the fitting cut, or the cut itself when it has none. */
  ghost predicate LastBreak(s: Units, best: nat, r: nat) {
    if exists k :: k <= best && BreakPoint(s, k)
    then BreakPoint(s, r) && r <= best && forall k :: r < k <= best ==> !BreakPoint(s, k)
    else r == best
  }

  /** There is a space inside the cut, not at its start. */
  ghost predicate InnerSpace(s: Units, best: nat) { exists i :: 0 < i < best && i < |s| && s[i] == SPACE }

  /**
   The search for a space starts one before the fitting cut, so it finds the last break point if and
   only if the cut is not one itself or has no space inside.
   */
  lemma BreakAtIff(s: Units, best: nat)
    requires 0 < best <= |s|
    ensures LastBreak(s, best, BreakAt(s, best)) <==> !(BreakPoint(s, best) && InnerSpace(s, best))
  {
    var space := LastSpace(s, best - 1);
    if BreakPoint(s, best) {
      assert InnerSpace(s, best) <==> space > 0;
    } else if space > 0 {
      assert BreakPoint(s, space);
    } else {
      forall k | k <= best
        ensures !BreakPoint(s, k)
      {
      }
    }
  }

  /** One column per unit. */
  function Columns(s: Units): int { |s| }

  const SAMPLE: Units := [97, 97, SPACE, 98, 98, SPACE, 99, 99, SPACE, 100, 100]

  lemma SampleFits(s: Units, best: nat)
    requires |s| > 5 && 0 < best <= |s| && Longest(Columns, s, 5, best) && !Low(s[5])
    ensures best == 5
  {
    assert Boundary(s, 5) && Fits(Columns, s, 5, 5);
  }

  /**
   At five columns "aa bb cc dd" always becomes the three lines "aa", "bb" and "cc dd", although
   "aa bb" and "cc dd" fit.
   */
  lemma BreaksEarly(pieces: seq<Units>)
    ensures Wraps(Columns, SAMPLE, 5, pieces) <==> pieces == [SAMPLE[..2], SAMPLE[3..5], SAMPLE[6..]]
    ensures Columns(SAMPLE[..5]) <= 5 && Columns(SAMPLE[6..]) <= 5
  {
    hide Wraps;
    var rest := SAMPLE[3..];
    assert rest[3..] == SAMPLE[6..] && rest[..2] == SAMPLE[3..5];
    if Wraps(Columns, SAMPLE, 5, pieces) {
      FirstWord(SAMPLE, pieces);
      FirstWord(rest, pieces[1..]);
      WholeLine(SAMPLE[6..], pieces[1..][1..]);
      assert pieces[1..][1..] == pieces[2..] && pieces == [pieces[0], pieces[1]] + pieces[2..];
    }
    WholeLine(SAMPLE[6..], [SAMPLE[6..]]);
    FirstWordTaken(rest, [SAMPLE[6..]]);
    var lines := [rest[..2]] + [SAMPLE[6..]];
    FirstWordTaken(SAMPLE, lines);
    assert [SAMPLE[..2]] + lines == [SAMPLE[..2], SAMPLE[3..5], SAMPLE[6..]];
  }

  lemma WholeLine(s: Units, pieces: seq<Units>)
    requires 0 < |s| <= 5
    ensures Wraps(Columns, s, 5, pieces) <==> pieces == [s]
  {
  }

  lemma FirstWordTaken(s: Units, tail: seq<Units>)
    requires |s| > 5 && s[2] == s[5] == SPACE && s[0] != SPACE && s[1] != SPACE && s[3] != SPACE && s[4] != SPACE
    requires Wraps(Columns, s[3..], 5, tail)
    ensures Wraps(Columns, s, 5, [s[..2]] + tail)
  {
    assert Longest(Columns, s, 5, 5);
    assert LastSpace(s, 4) == 2;
    assert s[2..][1..] == s[3..];
    assert LeadingSpaces(s[3..]) == 0;
    assert LeadingSpaces(s[2..]) == 1;
    CutTakesLine(Columns, s, 5, 5);
    var pieces := [s[..2]] + tail;
    assert pieces[1..] == tail && pieces[0] == s[..2];
    assert TakesLine(Columns, s, 5, pieces[0], s[3..]);
  }

  lemma FirstWord(s: Units, pieces: seq<Units>)
    requires |s| > 5 && s[2] == s[5] == SPACE && s[0] != SPACE && s[1] != SPACE && s[3] != SPACE && s[4] != SPACE
    requires Wraps(Columns, s, 5, pieces)
    ensures |pieces| > 0 && pieces[0] == s[..2] && Wraps(Columns, s[3..], 5, pieces[1..])
  {
    var rest :| TakesLine(Columns, s, 5, pieces[0], rest) && Wraps(Columns, rest, 5, pieces[1..]);
    SampleLine(s, pieces[0], rest);
  }

  /** A word of two letters, a space, another word and a space: only the first word is taken. */
  lemma SampleLine(s: Units, piece: Units, rest: Units)
    requires |s| > 5 && s[2] == s[5] == SPACE && s[0] != SPACE && s[1] != SPACE && s[3] != SPACE && s[4] != SPACE
    requires TakesLine(Columns, s, 5, piece, rest)
    ensures piece == s[..2] && rest == s[3..]
  {
    var best :| 0 < best <= |s| && Longest(Columns, s, 5, best)
                && piece == s[..BreakAt(s, best)] && rest == AfterCut(s, BreakAt(s, best));
    SampleFits(s, best);
    assert LastSpace(s, 4) == 2;
    assert s[2..][1..] == s[3..];
    assert LeadingSpaces(s[3..]) == 0;
    assert LeadingSpaces(s[2..]) == 1;
  }
}

/** ASCII text helpers with the meaning of Go's `strings` functions. */
module Text {
  predicate IsSpace(c: char) { c in " \t\n\r" || c == 11 as char || c == 12 as char }

  function LowerChar(c: char): char {
    if 'A' <= c <= 'Z' then (c as int + 32) as char else c
  }

  function Lower(s: string): (r: string)
    ensures |r| == |s|
    ensures forall i :: 0 <= i < |s| ==> r[i] == LowerChar(s[i])
  {
    seq(|s|, i requires 0 <= i < |s| => LowerChar(s[i]))
  }

  function TrimLeft(s: string): (r: string)
    ensures |r| <= |s| && (|r| > 0 ==> !IsSpace(r[0]))
  {
    if |s| > 0 && IsSpace(s[0]) then TrimLeft(s[1..]) else s
  }

  function TrimRight(s: string): (r: string)
    ensures |r| <= |s| && (|r| > 0 ==> r[0] == s[0] && !IsSpace(r[|r| - 1]))
  {
    if |s| > 0 && IsSpace(s[|s| - 1]) then TrimRight(s[..|s| - 1]) else s
  }

  function Trim(s: string): (r: string)
    ensures |r| > 0 ==> !IsSpace(r[0]) && !IsSpace(r[|r| - 1])
  {
    TrimRight(TrimLeft(s))
  }

  lemma TrimIdle(s: string)
    requires s != "" && !IsSpace(s[0]) && !IsSpace(s[|s| - 1])
    ensures Trim(s) == s
  {
  }

  ghost predicate Blank(s: string) { forall i :: 0 <= i < |s| ==> IsSpace(s[i]) }

  /** Trimming takes nothing but blanks, from the two ends. */
  lemma TrimTakesBlanks(s: string) returns (before: string, after: string)
    ensures Blank(before) && Blank(after) && s == before + Trim(s) + after
  {
    var left := TrimLeft(s);
    before := LeftBlanks(s);
    after := RightBlanks(left);
  }

  lemma {:induction false} LeftBlanks(s: string) returns (before: string)
    ensures Blank(before) && s == before + TrimLeft(s)
  {
    before := "";
    if |s| > 0 && IsSpace(s[0]) {
      var rest := LeftBlanks(s[1..]);
      before := [s[0]] + rest;
    }
  }

  lemma {:induction false} RightBlanks(s: string) returns (after: string)
    ensures Blank(after) && s == TrimRight(s) + after
  {
    after := "";
    if |s| > 0 && IsSpace(s[|s| - 1]) {
      var n := |s| - 1;
      var rest := RightBlanks(s[..n]);
      after := rest + [s[n]];
      assert s == s[..n] + [s[n]];
    }
  }

  predicate EqualFold(a: string, b: string) { Lower(a) == Lower(b) }
}

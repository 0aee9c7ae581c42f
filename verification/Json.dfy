/** JSON values, their text as `JSON.stringify` writes it, and that the text determines the value. */
module Json {
  import opened Prelude

  /** Text is UTF-16 code units, as in JavaScript. */
  type Text = seq<int>

  /** Numbers are given by the text JavaScript prints for them. */
  datatype Json =
    | Null
    | Bool(b: bool)
    | Num(repr: Text)
    | Str(s: Text)
    | Arr(items: seq<Json>)
    | Obj(entries: seq<Entry>)

  datatype Entry = Entry(key: Text, value: Json)

  const QUOTE := 34
  const COMMA := 44
  const COLON := 58
  const OPEN := 91
  const BACKSLASH := 92
  const CLOSE := 93
  const BEGIN := 123
  const END := 125

  predicate NumberUnit(u: int) { 48 <= u <= 57 || u in {43, 45, 46, 101} }

  predicate NumberText(t: Text) { |t| > 0 && forall i :: 0 <= i < |t| ==> NumberUnit(t[i]) }

  predicate Unit(u: int) { 0 <= u < 0x1_0000 }

  predicate UnitText(t: Text) { forall i :: 0 <= i < |t| ==> Unit(t[i]) }

  // ----- strings -----

  function Hex(d: int): int
    requires 0 <= d < 16
  {
    if d < 10 then 48 + d else 87 + d
  }

  function Unhex(u: int): int {
    if 48 <= u <= 57 then u - 48 else u - 87
  }

  function Escaped(u: int): Text
    requires Unit(u)
  {
    [BACKSLASH, 117, Hex(u / 4096), Hex(u / 256 % 16), Hex(u / 16 % 16), Hex(u % 16)]
  }

  function UnescapedUnit(a: int, b: int, c: int, d: int): int {
    4096 * Unhex(a) + 256 * Unhex(b) + 16 * Unhex(c) + Unhex(d)
  }

  lemma EscapedBack(u: int)
    requires Unit(u)
    ensures var e := Escaped(u); UnescapedUnit(e[2], e[3], e[4], e[5]) == u
  {
    var a, b, c := u / 16, u / 256, u / 4096;
    assert u == 16 * a + u % 16 && a == u / 16;
    assert b == a / 16 && c == b / 16;
  }

  /** The short escapes; 0 where there is none. */
  function Short(u: int): int {
    if u == 34 then 34 else if u == 92 then 92 else if u == 8 then 98 else if u == 12 then 102
    else if u == 10 then 110 else if u == 13 then 114 else if u == 9 then 116 else 0
  }

  function Unshort(c: int): int {
    if c == 98 then 8 else if c == 102 then 12 else if c == 110 then 10 else if c == 114 then 13
    else if c == 116 then 9 else c
  }

  function EscapeUnit(u: int): Text
    requires Unit(u)
  {
    if Short(u) != 0 then [BACKSLASH, Short(u)]
    else if u < 32 || High(u) || Low(u) then Escaped(u)
    else [u]
  }

  /** A surrogate pair is written as it is, a lone surrogate as an escape. */
  function Escape(s: Text): Text
    requires UnitText(s)
  {
    if |s| == 0 then []
    else if |s| >= 2 && High(s[0]) && Low(s[1]) then [s[0], s[1]] + Escape(s[2..])
    else EscapeUnit(s[0]) + Escape(s[1..])
  }

  function Quote(s: Text): Text
    requires UnitText(s)
  {
    [QUOTE] + Escape(s) + [QUOTE]
  }

  /** Reads a string up to its closing quote. */
  function Scan(t: Text): (Text, Text)
    decreases |t|
  {
    if |t| == 0 then ([], [])
    else if t[0] == QUOTE then ([], t[1..])
    else if t[0] == BACKSLASH && |t| >= 6 && t[1] == 117 then
      var (s, rest) := Scan(t[6..]);
      ([UnescapedUnit(t[2], t[3], t[4], t[5])] + s, rest)
    else if t[0] == BACKSLASH && |t| >= 2 then
      var (s, rest) := Scan(t[2..]);
      ([Unshort(t[1])] + s, rest)
    else
      var (s, rest) := Scan(t[1..]);
      ([t[0]] + s, rest)
  }

  lemma ScanUnit(u: int, t: Text)
    requires Unit(u)
    ensures Scan(EscapeUnit(u) + t) == ([u] + Scan(t).0, Scan(t).1)
  {
    var e := EscapeUnit(u);
    assert (e + t)[|e|..] == t;
    if Short(u) == 0 && |e| == 6 { EscapedBack(u); }
  }

  lemma ScanRaw(u: int, t: Text)
    requires u != QUOTE && u != BACKSLASH
    ensures Scan([u] + t) == ([u] + Scan(t).0, Scan(t).1)
  {
    assert ([u] + t)[1..] == t;
  }

  predicate StartsPair(s: Text) { |s| >= 2 && High(s[0]) && Low(s[1]) }

  lemma EscapeUnfold(s: Text, rest: Text)
    requires UnitText(s)
    ensures s == [] ==> Escape(s) + [QUOTE] + rest == [QUOTE] + rest
    ensures StartsPair(s) ==>
              Escape(s) + [QUOTE] + rest == [s[0]] + ([s[1]] + (Escape(s[2..]) + [QUOTE] + rest))
    ensures s != [] && !StartsPair(s) ==>
              Escape(s) + [QUOTE] + rest == EscapeUnit(s[0]) + (Escape(s[1..]) + [QUOTE] + rest)
  {
    hide EscapeUnit;
  }

  /** A string can be read back from its quoted text, whatever follows. */
  lemma {:induction false} ScanEscape(s: Text, rest: Text)
    requires UnitText(s)
    ensures Scan(Escape(s) + [QUOTE] + rest) == (s, rest)
    decreases |s|
  {
    hide Escape, EscapeUnit;
    EscapeUnfold(s, rest);
    if |s| == 0 {
      assert ([QUOTE] + rest)[1..] == rest;
    } else if StartsPair(s) {
      hide Scan;
      ScanEscape(s[2..], rest);
      var t := Escape(s[2..]) + [QUOTE] + rest;
      ScanRaw(s[1], t);
      ScanRaw(s[0], [s[1]] + t);
      assert [s[0]] + ([s[1]] + s[2..]) == s;
    } else {
      hide Scan;
      ScanEscape(s[1..], rest);
      ScanUnit(s[0], Escape(s[1..]) + [QUOTE] + rest);
      assert [s[0]] + s[1..] == s;
    }
  }

  lemma QuotePrefix(x: Text, y: Text, s: Text, t: Text)
    requires UnitText(x) && UnitText(y) && Quote(x) + s == Quote(y) + t
    ensures x == y && s == t
  {
    hide Escape, Scan, UnitText;
    ScanEscape(x, s);
    ScanEscape(y, t);
    assert (Quote(x) + s)[1..] == Escape(x) + [QUOTE] + s;
    assert (Quote(y) + t)[1..] == Escape(y) + [QUOTE] + t;
  }

  // ----- values -----

  /** Printable: numbers are number texts and strings are 16-bit units. */
  predicate Printable(j: Json) {
    match j
    case Num(r) => NumberText(r)
    case Str(s) => UnitText(s)
    case Arr(items) => forall i :: 0 <= i < |items| ==> Printable(items[i])
    case Obj(es) => forall i :: 0 <= i < |es| ==> UnitText(es[i].key) && Printable(es[i].value)
    case _ => true
  }

  predicate PrintableItems(items: seq<Json>) { forall i :: 0 <= i < |items| ==> Printable(items[i]) }

  predicate PrintableEntries(es: seq<Entry>) {
    forall i :: 0 <= i < |es| ==> UnitText(es[i].key) && Printable(es[i].value)
  }

  const NULL_TEXT := [110, 117, 108, 108]
  const TRUE_TEXT := [116, 114, 117, 101]
  const FALSE_TEXT := [102, 97, 108, 115, 101]

  function Render(j: Json): Text
    requires Printable(j)
    decreases j, 2
  {
    match j
    case Null => NULL_TEXT
    case Bool(b) => if b then TRUE_TEXT else FALSE_TEXT
    case Num(r) => r
    case Str(s) => Quote(s)
    case Arr(items) => [OPEN] + (if items == [] then [CLOSE] else Render(items[0]) + MoreItems(items[1..]))
    case Obj(es) => [BEGIN] + (if es == [] then [END] else RenderEntry(es[0]) + MoreEntries(es[1..]))
  }

  /** The items after the first, each behind a comma, and the closing bracket. */
  function MoreItems(items: seq<Json>): Text
    requires PrintableItems(items)
    decreases items, 3
  {
    if |items| == 0 then [CLOSE] else [COMMA] + Render(items[0]) + MoreItems(items[1..])
  }

  function RenderEntry(e: Entry): Text
    requires UnitText(e.key) && Printable(e.value)
    decreases e, 1
  {
    Quote(e.key) + [COLON] + Render(e.value)
  }

  function MoreEntries(es: seq<Entry>): Text
    requires PrintableEntries(es)
    decreases es, 3
  {
    if |es| == 0 then [END] else [COMMA] + RenderEntry(es[0]) + MoreEntries(es[1..])
  }

  // ----- the text determines the value -----

  /** What may follow a value: nothing, or something that cannot prolong a number. */
  predicate Delimited(t: Text) { |t| == 0 || !NumberUnit(t[0]) }

  lemma NotLonger(x: Text, y: Text, s: Text, t: Text)
    requires NumberText(y) && Delimited(s) && x + s == y + t
    ensures |y| <= |x|
  {
    assert forall i :: 0 <= i < |y| ==> NumberUnit((x + s)[i]) by {
      assert forall i :: 0 <= i < |y| ==> (y + t)[i] == y[i];
    }
    assert s == (x + s)[|x|..];
  }

  lemma NumberPrefix(x: Text, y: Text, s: Text, t: Text)
    requires NumberText(x) && NumberText(y) && Delimited(s) && Delimited(t) && x + s == y + t
    ensures x == y && s == t
  {
    NotLonger(x, y, s, t);
    NotLonger(y, x, t, s);
    assert x == (x + s)[..|x|] && y == (y + t)[..|y|];
    assert s == (x + s)[|x|..] && t == (y + t)[|y|..];
  }

  /** The kind of value a first unit announces. */
  function Kind(u: int): int {
    if u == 110 then 0 else if u == 116 then 1 else if u == 102 then 2 else if u == QUOTE then 3
    else if u == OPEN then 4 else if u == BEGIN then 5 else if NumberUnit(u) then 6 else 7
  }

  function KindOf(j: Json): int {
    match j
    case Null => 0
    case Bool(b) => if b then 1 else 2
    case Str(_) => 3
    case Arr(_) => 4
    case Obj(_) => 5
    case Num(_) => 6
  }

  lemma RenderStart(j: Json)
    requires Printable(j)
    ensures |Render(j)| > 0 && Kind(Render(j)[0]) == KindOf(j)
  {
  }

  lemma SameKind(a: Json, b: Json, s: Text, t: Text)
    requires Printable(a) && Printable(b) && Render(a) + s == Render(b) + t
    ensures KindOf(a) == KindOf(b)
  {
    RenderStart(a);
    RenderStart(b);
    hide Render, Kind, KindOf;
    assert (Render(a) + s)[0] == Render(a)[0] && (Render(b) + t)[0] == Render(b)[0];
  }

  lemma FixedPrefix(x: Text, s: Text, t: Text)
    requires x + s == x + t
    ensures s == t
  {
    assert s == (x + s)[|x|..] && t == (x + t)[|x|..];
  }

  /** Two texts that agree, with anything after them, come from the same value. */
  lemma {:induction false} RenderPrefix(a: Json, b: Json, s: Text, t: Text)
    requires Printable(a) && Printable(b) && Delimited(s) && Delimited(t) && Render(a) + s == Render(b) + t
    ensures a == b && s == t
    decreases a, 2
  {
    SameKind(a, b, s, t);
    match a
    case Null => FixedPrefix(NULL_TEXT, s, t);
    case Bool(v) => FixedPrefix(Render(a), s, t);
    case Num(r) => NumberPrefix(r, b.repr, s, t);
    case Str(r) => QuotePrefix(r, b.s, s, t);
    case Arr(items) => ArrayPrefix(a, b, s, t);
    case Obj(es) => ObjectPrefix(a, b, s, t);
  }

  lemma Assoc(a: Text, b: Text, c: Text, d: Text)
    ensures a + b + c + d == a + (b + (c + d))
    ensures (a + b + c + d)[|a|..] == b + (c + d)
  {
  }

  /** The text after the opening bracket of an array, cut at its first item. */
  lemma ArrayUnfold(a: Json, s: Text)
    requires a.Arr? && Printable(a)
    ensures |Render(a) + s| > 1
    ensures a.items == [] ==> (Render(a) + s)[1..] == [CLOSE] + s
    ensures a.items != [] ==> (Render(a) + s)[1..] == Render(a.items[0]) + (MoreItems(a.items[1..]) + s)
                              && (Render(a) + s)[1] != CLOSE
  {
    if a.items != [] {
      RenderStart(a.items[0]);
      var r, m := Render(a.items[0]), MoreItems(a.items[1..]);
      assert Render(a) == [OPEN] + (r + m);
      hide Render, MoreItems;
      assert Render(a) + s == [OPEN] + (r + (m + s));
    }
  }

  lemma MoreUnfold(xs: seq<Json>, s: Text)
    requires PrintableItems(xs)
    ensures Delimited(MoreItems(xs) + s) && |MoreItems(xs) + s| > 0
    ensures xs == [] ==> MoreItems(xs) + s == [CLOSE] + s
    ensures xs != [] ==> (MoreItems(xs) + s)[0] == COMMA
                         && (MoreItems(xs) + s)[1..] == Render(xs[0]) + (MoreItems(xs[1..]) + s)
  {
    hide Render, Printable;
    if xs != [] {
      var r, m := Render(xs[0]), MoreItems(xs[1..]);
      assert MoreItems(xs) == [COMMA] + r + m;
      hide MoreItems, NumberUnit;
      Assoc([COMMA], r, m, s);
    }
  }

  lemma ArrayPrefix(a: Json, b: Json, s: Text, t: Text)
    requires a.Arr? && b.Arr? && Printable(a) && Printable(b) && Render(a) + s == Render(b) + t
    ensures a == b && s == t
    decreases a, 1
  {
    ArrayUnfold(a, s);
    ArrayUnfold(b, t);
    assert ([CLOSE] + s)[0] == CLOSE && ([CLOSE] + t)[0] == CLOSE;
    if a.items == [] {
      FixedPrefix([CLOSE], s, t);
    } else {
      var xs, ys := a.items[1..], b.items[1..];
      assert a.items == [a.items[0]] + xs && b.items == [b.items[0]] + ys;
      hide Render, MoreItems;
      MoreUnfold(xs, s);
      MoreUnfold(ys, t);
      RenderPrefix(a.items[0], b.items[0], MoreItems(xs) + s, MoreItems(ys) + t);
      MorePrefix(xs, ys, s, t);
    }
  }

  lemma {:induction false} MorePrefix(xs: seq<Json>, ys: seq<Json>, s: Text, t: Text)
    requires PrintableItems(xs) && PrintableItems(ys) && MoreItems(xs) + s == MoreItems(ys) + t
    ensures xs == ys && s == t
    decreases xs, 3
  {
    hide Render, MoreItems, Printable;
    MoreUnfold(xs, s);
    MoreUnfold(ys, t);
    assert ([CLOSE] + s)[0] == CLOSE && ([CLOSE] + t)[0] == CLOSE;
    if xs == [] {
      FixedPrefix([CLOSE], s, t);
    } else {
      assert xs == [xs[0]] + xs[1..] && ys == [ys[0]] + ys[1..];
      MoreUnfold(xs[1..], s);
      MoreUnfold(ys[1..], t);
      RenderPrefix(xs[0], ys[0], MoreItems(xs[1..]) + s, MoreItems(ys[1..]) + t);
      MorePrefix(xs[1..], ys[1..], s, t);
    }
  }

  lemma EntryUnfold(e: Entry, s: Text)
    requires UnitText(e.key) && Printable(e.value)
    ensures RenderEntry(e) + s == Quote(e.key) + ([COLON] + (Render(e.value) + s))
    ensures (RenderEntry(e) + s)[0] == QUOTE
  {
  }

  lemma EntryPrefix(e: Entry, f: Entry, s: Text, t: Text)
    requires UnitText(e.key) && Printable(e.value) && UnitText(f.key) && Printable(f.value)
    requires Delimited(s) && Delimited(t) && RenderEntry(e) + s == RenderEntry(f) + t
    ensures e == f && s == t
    decreases e, 3
  {
    hide RenderEntry, Render, Quote, UnitText, Printable;
    EntryUnfold(e, s);
    EntryUnfold(f, t);
    QuotePrefix(e.key, f.key, [COLON] + (Render(e.value) + s), [COLON] + (Render(f.value) + t));
    FixedPrefix([COLON], Render(e.value) + s, Render(f.value) + t);
    RenderPrefix(e.value, f.value, s, t);
  }

  lemma ObjectUnfold(a: Json, s: Text)
    requires a.Obj? && Printable(a)
    ensures |Render(a) + s| > 1
    ensures a.entries == [] ==> (Render(a) + s)[1..] == [END] + s
    ensures a.entries != [] ==> (Render(a) + s)[1..] == RenderEntry(a.entries[0]) + (MoreEntries(a.entries[1..]) + s)
                                && (Render(a) + s)[1] != END
  {
    if a.entries != [] {
      var r, m := RenderEntry(a.entries[0]), MoreEntries(a.entries[1..]);
      EntryUnfold(a.entries[0], []);
      assert r + [] == r;
      assert Render(a) == [BEGIN] + (r + m);
      hide Render, MoreEntries, RenderEntry, Quote, Escape;
      assert Render(a) + s == [BEGIN] + (r + (m + s));
    }
  }

  lemma MoreEntriesUnfold(xs: seq<Entry>, s: Text)
    requires PrintableEntries(xs)
    ensures Delimited(MoreEntries(xs) + s) && |MoreEntries(xs) + s| > 0
    ensures xs == [] ==> MoreEntries(xs) + s == [END] + s
    ensures xs != [] ==> (MoreEntries(xs) + s)[0] == COMMA
                         && (MoreEntries(xs) + s)[1..] == RenderEntry(xs[0]) + (MoreEntries(xs[1..]) + s)
  {
    hide RenderEntry, Printable, UnitText;
    if xs != [] {
      var r, m := RenderEntry(xs[0]), MoreEntries(xs[1..]);
      assert MoreEntries(xs) == [COMMA] + r + m;
      hide MoreEntries, NumberUnit;
      Assoc([COMMA], r, m, s);
    }
  }

  lemma ObjectPrefix(a: Json, b: Json, s: Text, t: Text)
    requires a.Obj? && b.Obj? && Printable(a) && Printable(b) && Render(a) + s == Render(b) + t
    ensures a == b && s == t
    decreases a, 1
  {
    ObjectUnfold(a, s);
    ObjectUnfold(b, t);
    assert ([END] + s)[0] == END && ([END] + t)[0] == END;
    if a.entries == [] {
      FixedPrefix([END], s, t);
    } else {
      var xs, ys := a.entries[1..], b.entries[1..];
      assert a.entries == [a.entries[0]] + xs && b.entries == [b.entries[0]] + ys;
      hide Render, RenderEntry, MoreEntries, UnitText;
      MoreEntriesUnfold(xs, s);
      MoreEntriesUnfold(ys, t);
      EntryPrefix(a.entries[0], b.entries[0], MoreEntries(xs) + s, MoreEntries(ys) + t);
      MoreEntriesPrefix(xs, ys, s, t);
    }
  }

  lemma {:induction false} MoreEntriesPrefix(xs: seq<Entry>, ys: seq<Entry>, s: Text, t: Text)
    requires PrintableEntries(xs) && PrintableEntries(ys) && MoreEntries(xs) + s == MoreEntries(ys) + t
    ensures xs == ys && s == t
    decreases xs, 4
  {
    hide RenderEntry, MoreEntries, Printable, UnitText;
    MoreEntriesUnfold(xs, s);
    MoreEntriesUnfold(ys, t);
    assert ([END] + s)[0] == END && ([END] + t)[0] == END;
    if xs == [] {
      FixedPrefix([END], s, t);
    } else {
      assert xs == [xs[0]] + xs[1..] && ys == [ys[0]] + ys[1..];
      MoreEntriesUnfold(xs[1..], s);
      MoreEntriesUnfold(ys[1..], t);
      EntryPrefix(xs[0], ys[0], MoreEntries(xs[1..]) + s, MoreEntries(ys[1..]) + t);
      MoreEntriesPrefix(xs[1..], ys[1..], s, t);
    }
  }

  // ----- a sample, letter for letter -----

  function Units(s: string): Text { seq(|s|, i requires 0 <= i < |s| => s[i] as int) }

  lemma QuoteSample()
    ensures Quote([97]) == Units("\"a\"") && Quote([10]) == Units("\"\\n\"")
  {
    assert Escape([]) == [];
    assert [97][1..] == [] && [10][1..] == [];
  }

  lemma ListSample()
    ensures Render(Arr([Null, Bool(true)])) == Units("[null,true]")
  {
    var rest := [Bool(true)];
    assert [Null, Bool(true)][1..] == rest && rest[1..] == [];
    assert MoreItems(rest) == [COMMA] + TRUE_TEXT + [CLOSE];
    assert Render(Arr([Null, Bool(true)])) == [OPEN] + (NULL_TEXT + ([COMMA] + TRUE_TEXT + [CLOSE]));
  }

  /** The escapes of `JSON.stringify`, one of each kind. */
  lemma EscapesAre()
    ensures EscapeUnit(8) == Units("\\b") && EscapeUnit(9) == Units("\\t") && EscapeUnit(10) == Units("\\n")
    ensures EscapeUnit(12) == Units("\\f") && EscapeUnit(13) == Units("\\r")
    ensures EscapeUnit(34) == Units("\\\"") && EscapeUnit(92) == Units("\\\\") && EscapeUnit(47) == Units("/")
    ensures EscapeUnit(31) == Units("\\u001f") && EscapeUnit(0xDABC) == Units("\\udabc")
  {
  }

  /** An object of a list, in the text that `JSON.stringify` gives it. */
  lemma RenderSample()
    ensures Render(Obj([Entry([97], Arr([Null, Bool(true)]))])) == Units("{\"a\":[null,true]}")
  {
    hide Quote;
    QuoteSample();
    ListSample();
    var e := Entry([97], Arr([Null, Bool(true)]));
    var list := Units("[null,true]");
    assert RenderEntry(e) == Units("\"a\"") + [COLON] + list by {
      hide Units;
    }
    hide Render, RenderEntry;
    OneEntry(e);
  }

  lemma OneEntry(e: Entry)
    requires UnitText(e.key) && Printable(e.value)
    ensures Printable(Obj([e])) && Render(Obj([e])) == [BEGIN] + (RenderEntry(e) + [END])
  {
    assert [e][1..] == [];
  }
}

/**
 Which printer prints which part of an order (the routing half of `EnqueueOrderPrintJobsDocs` in
 printing.go): categories go to printers by the stored routes, tickets are merged per printer, and
 what has no route goes to the kitchen station.  Go maps iterate in no fixed order, so the loops
 here pick the next key arbitrarily.
 */
module KitchenRouting {
  import opened Prelude
  import opened Text

  datatype Printer = Printer(id: string, title: string, station: string)

  /** `copies` is `None` when its text is not a number. */
  datatype Route = Route(enabled: bool, category: string, categoryName: string,
                         printer: string, printerName: string, copies: Option<int>)

  datatype Target = Target(printer: string, copies: int)

  /** `cats == None` stands for the whole order. */
  datatype Ticket = Ticket(printer: string, copies: int, cats: Option<set<string>>)

  // ----- printers -----

  predicate PartAt(text: string, part: string, i: nat) {
    i + |part| <= |text| && text[i..i + |part|] == part
  }

  predicate Contains(text: string, part: string) {
    exists i :: 0 <= i <= |text| && PartAt(text, part, i)
  }

  predicate NameMatches(p: Printer, printerName: string) {
    var name := Trim(printerName);
    name != "" && (p.title == name || Contains(p.title, name) || Contains(name, p.title))
  }

  predicate IsCashier(p: Printer) {
    Contains(p.station + p.title, "صندوق") || Contains(Lower(p.station + p.title), "cashier")
  }

  predicate IsKitchen(p: Printer) {
    || Contains(p.station + p.title, "بار")
    || Contains(p.station + p.title, "آشپزخانه")
    || Contains(Lower(p.station + p.title), "kitchen")
  }

  ghost predicate HasWord(text: string, word: string) { exists a, b :: text == a + word + b }

  lemma ContainsIff(text: string, part: string)
    ensures Contains(text, part) <==> HasWord(text, part)
  {
    if Contains(text, part) {
      var i :| 0 <= i <= |text| && PartAt(text, part, i);
      assert text == text[..i] + part + text[i + |part|..];
    }
    if HasWord(text, part) {
      var a, b :| text == a + part + b;
      assert PartAt(text, part, |a|);
    }
  }

  /** A printer's place is told by words in its station or title. */
  lemma PlaceWords(p: Printer)
    ensures IsCashier(p) <==>
            (HasWord(p.station + p.title, "صندوق") || HasWord(Lower(p.station + p.title), "cashier"))
    ensures IsKitchen(p) <==>
            (HasWord(p.station + p.title, "بار") || HasWord(p.station + p.title, "آشپزخانه")
             || HasWord(Lower(p.station + p.title), "kitchen"))
  {
    var text := p.station + p.title;
    ContainsIff(text, "صندوق");
    ContainsIff(Lower(text), "cashier");
    ContainsIff(text, "بار");
    ContainsIff(text, "آشپزخانه");
    ContainsIff(Lower(text), "kitchen");
  }

  /** The first printer that matches. */
  function First(printers: seq<Printer>, wanted: Printer -> bool): (r: Option<Printer>)
    ensures r.None? ==> forall i :: 0 <= i < |printers| ==> !wanted(printers[i])
    ensures r.Some? ==> exists i :: 0 <= i < |printers| && printers[i] == r.value && wanted(r.value)
                                    && forall k :: 0 <= k < i ==> !wanted(printers[k])
  {
    if |printers| == 0 then None
    else if wanted(printers[0]) then assert printers[0] == printers[0]; Some(printers[0])
    else
      var rest := First(printers[1..], wanted);
      assert rest.None? ==> forall i :: 0 <= i < |printers| ==> !wanted(printers[i]) by {
        assert forall i :: 1 <= i < |printers| ==> printers[i] == printers[1..][i - 1];
      }
      assert rest.Some? ==> exists i :: 0 <= i < |printers| && printers[i] == rest.value && wanted(rest.value)
                                        && forall k :: 0 <= k < i ==> !wanted(printers[k]) by {
        if rest.Some? {
          var j :| 0 <= j < |printers[1..]| && printers[1..][j] == rest.value && wanted(rest.value)
                   && forall k :: 0 <= k < j ==> !wanted(printers[1..][k]);
          assert printers[j + 1] == rest.value;
          assert forall k :: 1 <= k < j + 1 ==> printers[k] == printers[1..][k - 1];
        }
      }
      rest
  }

  /** A route names its printer by identifier, else by title. */
  function PrinterOf(active: seq<Printer>, r: Route): Option<Printer> {
    var id := Trim(r.printer);
    var named := if id == "" then None else First(active, (p: Printer) => p.id == id);
    if named.Some? then named else First(active, (p: Printer) => NameMatches(p, r.printerName))
  }

  /** The first printer of the list with a property. */
  ghost predicate IsFirst(printers: seq<Printer>, p: Printer, wanted: Printer -> bool) {
    exists i :: 0 <= i < |printers| && printers[i] == p && wanted(p) && forall k :: 0 <= k < i ==> !wanted(printers[k])
  }

  predicate GoesBy(p: Printer, name: string) {
    name != "" && (p.title == name || Contains(p.title, name) || Contains(name, p.title))
  }

  /**
   A route's printer is the first active one with the identifier it gives, or else the first whose
   title and the name it gives contain one another; without either there is none.
   */
  lemma PrinterOfSays(active: seq<Printer>, r: Route)
    ensures var id, p := Trim(r.printer), PrinterOf(active, r);
      if id != "" && exists q :: q in active && q.id == id
      then p.Some? && IsFirst(active, p.value, (q: Printer) => q.id == id)
      else
        && (p.Some? <==> exists q :: q in active && GoesBy(q, Trim(r.printerName)))
        && (p.Some? ==> IsFirst(active, p.value, (q: Printer) => GoesBy(q, Trim(r.printerName))))
  {
    hide Contains, Trim, First;
    var id := Trim(r.printer);
    FirstIs(active, (q: Printer) => q.id == id);
    FirstIs(active, (q: Printer) => NameMatches(q, r.printerName));
    SameFirst(active, (q: Printer) => NameMatches(q, r.printerName), (q: Printer) => GoesBy(q, Trim(r.printerName)));
  }

  lemma FirstIs(printers: seq<Printer>, wanted: Printer -> bool)
    ensures First(printers, wanted).Some? <==> exists q :: q in printers && wanted(q)
    ensures First(printers, wanted).Some? ==> IsFirst(printers, First(printers, wanted).value, wanted)
  {
    if q :| q in printers && wanted(q) {
      var i :| 0 <= i < |printers| && printers[i] == q;
    }
  }

  lemma SameFirst(printers: seq<Printer>, f: Printer -> bool, g: Printer -> bool)
    requires forall q :: f(q) == g(q)
    ensures forall p :: IsFirst(printers, p, f) <==> IsFirst(printers, p, g)
    ensures (exists q :: q in printers && f(q)) <==> (exists q :: q in printers && g(q))
  {
  }

  // ----- the routing table -----

  /** `n` is the number of copies nearest to what is asked for. */
  ghost predicate Nearest(n: int, asked: int) {
    1 <= n <= 5 && forall m :: 1 <= m <= 5 ==> Distance(n, asked) <= Distance(m, asked)
  }

  function Distance(a: int, b: int): int { if a <= b then b - a else a - b }

  function Clamp(n: int): (r: int)
    ensures 1 <= r <= 5 && Nearest(r, n)
  {
    if n < 1 then 1 else if n > 5 then 5 else n
  }

  /** The categories that bear the title a route asks for. */
  function Named(titles: map<string, string>, name: string): set<string> {
    set c | c in titles && titles[c] != "" && titles[c] == name
  }

  /** What a route's category can resolve to; the empty identifier stands for nothing. */
  function Candidates(r: Route, titles: map<string, string>): (cs: set<string>)
    ensures cs != {}
  {
    if Trim(r.category) != "" then {Trim(r.category)}
    else if Named(titles, Trim(r.categoryName)) == {} then {""}
    else Named(titles, Trim(r.categoryName))
  }

  ghost predicate Choice(routes: seq<Route>, titles: map<string, string>, choice: seq<string>) {
    |choice| == |routes| && forall i :: 0 <= i < |routes| ==> choice[i] in Candidates(routes[i], titles)
  }

  predicate Serves(r: Route, active: seq<Printer>) { r.enabled && PrinterOf(active, r).Some? }

  function TargetOf(r: Route, active: seq<Printer>): Target
    requires Serves(r, active)
  {
    Target(PrinterOf(active, r).value.id, Clamp(if r.copies.Some? then r.copies.value else 1))
  }

  /** The table when route `i` resolved to `choice[i]`: later routes win. */
  function Table(routes: seq<Route>, active: seq<Printer>, choice: seq<string>): map<string, Target>
    requires |choice| == |routes|
  {
    if |routes| == 0 then map[]
    else
      var n := |routes| - 1;
      var before := Table(routes[..n], active, choice[..n]);
      if Serves(routes[n], active) && choice[n] != "" then before[choice[n] := TargetOf(routes[n], active)]
      else before
  }

  /** A route asks for its copies, one if it gives no number, within one and five. */
  lemma TargetSays(r: Route, active: seq<Printer>)
    requires Serves(r, active)
    ensures TargetOf(r, active).printer == PrinterOf(active, r).value.id
    ensures Nearest(TargetOf(r, active).copies, if r.copies.Some? then r.copies.value else 1)
  {
  }

  method ResolveName(titles: map<string, string>, name: string) returns (c: string)
    ensures Named(titles, name) == {} ==> c == ""
    ensures Named(titles, name) != {} ==> c in Named(titles, name)
  {
    c := "";
    var todo := titles.Keys;
    while todo != {}
      invariant todo <= titles.Keys
      invariant Named(titles, name) <= todo ==> c == ""
      invariant !(Named(titles, name) <= todo) ==> c in Named(titles, name)
    {
      var id :| id in todo;
      if titles[id] != "" && titles[id] == name { c := id; }
      todo := todo - {id};
    }
  }

  method ResolveCategory(r: Route, titles: map<string, string>) returns (cat: string)
    ensures cat in Candidates(r, titles)
  {
    cat := Trim(r.category);
    if cat == "" {
      cat := ResolveName(titles, Trim(r.categoryName));
    }
  }

  /** `choice` records how each route's category was resolved. */
  method BuildTable(routes: seq<Route>, active: seq<Printer>, titles: map<string, string>)
    returns (table: map<string, Target>, anyRoute: bool, ghost choice: seq<string>)
    ensures Choice(routes, titles, choice)
    ensures table == Table(routes, active, choice)
    ensures anyRoute <==> table != map[]
  {
    hide PrinterOf, Candidates;
    table, anyRoute, choice := map[], false, [];
    for i := 0 to |routes|
      invariant Choice(routes[..i], titles, choice)
      invariant table == Table(routes[..i], active, choice)
      invariant anyRoute <==> table != map[]
    {
      var r := routes[i];
      assert routes[..i + 1][..i] == routes[..i];
      var cat := ResolveCategory(r, titles);
      TableExtended(routes[..i + 1], active, titles, choice, cat);
      choice := Extended(choice, cat);
      if r.enabled {
        var printer := PrinterOf(active, r);
        if cat != "" && printer.Some? {
          anyRoute := true;
          var copies := if r.copies.None? || r.copies.value < 1 then 1 else r.copies.value;
          if copies > 5 { copies := 5; }
          table := table[cat := Target(printer.value.id, copies)];
          assert cat in table;
        }
      }
    }
    assert routes[..|routes|] == routes;
  }

  function Lookup(table: map<string, Target>, c: string): Option<Target> {
    if c in table then Some(table[c]) else None
  }

  // ----- when the table is determined -----

  /** The target of the last route that can only mean `c`. */
  function SureTarget(routes: seq<Route>, active: seq<Printer>, titles: map<string, string>,
                      c: string): Option<Target> {
    if |routes| == 0 then None
    else
      var n := |routes| - 1;
      if Serves(routes[n], active) && Candidates(routes[n], titles) == {c} then Some(TargetOf(routes[n], active))
      else SureTarget(routes[..n], active, titles, c)
  }

  /**
   No route whose title several categories share can change what `view` sees of where `c` goes:
   after the last route that can only mean `c`, every one that could mean `c` looks the same.
   */
  predicate Settled<T(==)>(routes: seq<Route>, active: seq<Printer>, titles: map<string, string>, c: string,
                           view: Option<Target> -> T) {
    if |routes| == 0 then true
    else
      var n := |routes| - 1;
      if !Serves(routes[n], active) || c !in Candidates(routes[n], titles)
      then Settled(routes[..n], active, titles, c, view)
      else if Candidates(routes[n], titles) == {c} then true
      else
        && Settled(routes[..n], active, titles, c, view)
        && view(SureTarget(routes[..n], active, titles, c)) == view(Some(TargetOf(routes[n], active)))
  }

  lemma ChoicePrefix(routes: seq<Route>, titles: map<string, string>, choice: seq<string>)
    requires Choice(routes, titles, choice) && |routes| > 0
    ensures Choice(routes[..|routes| - 1], titles, choice[..|routes| - 1])
  {
  }

  lemma {:induction false} SettledLookup<T>(routes: seq<Route>, active: seq<Printer>, titles: map<string, string>,
                                            c: string, view: Option<Target> -> T, choice: seq<string>)
    requires Choice(routes, titles, choice) && c != ""
    requires Settled(routes, active, titles, c, view)
    ensures view(Lookup(Table(routes, active, choice), c)) == view(SureTarget(routes, active, titles, c))
  {
    if |routes| > 0 {
      var n := |routes| - 1;
      ChoicePrefix(routes, titles, choice);
      if Settled(routes[..n], active, titles, c, view) {
        SettledLookup(routes[..n], active, titles, c, view, choice[..n]);
      }
    }
  }

  function Extended(choice: seq<string>, c: string): seq<string> { choice + [c] }

  lemma TableExtended(routes: seq<Route>, active: seq<Printer>, titles: map<string, string>, prefix: seq<string>,
                      last: string)
    requires |routes| > 0 && Choice(routes[..|routes| - 1], titles, prefix)
    requires last in Candidates(routes[|routes| - 1], titles)
    ensures Choice(routes, titles, Extended(prefix, last))
    ensures Table(routes, active, Extended(prefix, last)) ==
            var before := Table(routes[..|routes| - 1], active, prefix);
            if Serves(routes[|routes| - 1], active) && last != ""
            then before[last := TargetOf(routes[|routes| - 1], active)] else before
  {
    assert Extended(prefix, last)[..|routes| - 1] == prefix;
  }

  lemma AnotherCandidate(cs: set<string>, c: string) returns (d: string)
    requires cs != {} && cs != {c}
    ensures d in cs && d != c
  {
    assert cs - {c} != {} by {
      assert cs - {c} == {} ==> cs == {c};
    }
    d :| d in cs - {c};
  }

  /** Some resolution leaves `c` to the routes that can only mean `c`. */
  lemma {:induction false} Avoiding(routes: seq<Route>, active: seq<Printer>, titles: map<string, string>, c: string)
    returns (choice: seq<string>)
    requires c != ""
    ensures Choice(routes, titles, choice)
    ensures Lookup(Table(routes, active, choice), c) == SureTarget(routes, active, titles, c)
  {
    choice := [];
    if |routes| > 0 {
      var n := |routes| - 1;
      var prefix := Avoiding(routes[..n], active, titles, c);
      var last := c;
      if Candidates(routes[n], titles) != {c} {
        last := AnotherCandidate(Candidates(routes[n], titles), c);
      }
      TableExtended(routes, active, titles, prefix, last);
      choice := Extended(prefix, last);
    }
  }

  lemma {:induction false} Unsettling<T>(routes: seq<Route>, active: seq<Printer>, titles: map<string, string>,
                                         c: string, view: Option<Target> -> T)
    returns (choice: seq<string>)
    requires c != "" && !Settled(routes, active, titles, c, view)
    ensures Choice(routes, titles, choice)
    ensures view(Lookup(Table(routes, active, choice), c)) != view(SureTarget(routes, active, titles, c))
  {
    var n := |routes| - 1;
    var cs := Candidates(routes[n], titles);
    var prefix, last;
    if Settled(routes[..n], active, titles, c, view) {
      prefix := Avoiding(routes[..n], active, titles, c);
      last := c;
    } else {
      prefix := Unsettling(routes[..n], active, titles, c, view);
      if cs == {c} { last := c; } else { last := AnotherCandidate(cs, c); }
    }
    TableExtended(routes, active, titles, prefix, last);
    choice := Extended(prefix, last);
  }

  ghost predicate SameViews<T(!new)>(routes: seq<Route>, active: seq<Printer>, titles: map<string, string>, c: string,
                                     view: Option<Target> -> T) {
    forall a, b :: Choice(routes, titles, a) && Choice(routes, titles, b) ==>
      view(Lookup(Table(routes, active, a), c)) == view(Lookup(Table(routes, active, b), c))
  }

  /** What is seen of a category's route is independent of iteration order exactly when it is settled. */
  lemma SettledIff<T(!new)>(routes: seq<Route>, active: seq<Printer>, titles: map<string, string>, c: string,
                            view: Option<Target> -> T)
    requires c != ""
    ensures SameViews(routes, active, titles, c, view) <==> Settled(routes, active, titles, c, view)
  {
    if Settled(routes, active, titles, c, view) {
      forall a, b | Choice(routes, titles, a) && Choice(routes, titles, b)
        ensures view(Lookup(Table(routes, active, a), c)) == view(Lookup(Table(routes, active, b), c))
      {
        SettledLookup(routes, active, titles, c, view, a);
        SettledLookup(routes, active, titles, c, view, b);
      }
    } else {
      var a := Avoiding(routes, active, titles, c);
      var b := Unsettling(routes, active, titles, c, view);
    }
  }

  ghost predicate Unambiguous(routes: seq<Route>, titles: map<string, string>) {
    forall i, a, b :: 0 <= i < |routes| && {a, b} <= Candidates(routes[i], titles) ==> a == b
  }

  /** Distinct titles settle every category. */
  lemma {:induction false} DistinctTitlesSettle<T>(routes: seq<Route>, active: seq<Printer>,
                                                   titles: map<string, string>, c: string, view: Option<Target> -> T)
    requires Unambiguous(routes, titles)
    ensures Settled(routes, active, titles, c, view)
  {
    if |routes| > 0 {
      var n := |routes| - 1;
      var cs := Candidates(routes[n], titles);
      if c in cs {
        forall d | d in cs
          ensures d == c
        {
          assert {c, d} <= Candidates(routes[n], titles);
        }
        assert cs == {c};
      }
      assert Unambiguous(routes[..n], titles) by {
        forall i, a, b | 0 <= i < n && {a, b} <= Candidates(routes[..n][i], titles)
          ensures a == b
        {
          assert routes[..n][i] == routes[i];
        }
      }
      DistinctTitlesSettle(routes[..n], active, titles, c, view);
    }
  }

  /** Whether any route is in force does not depend on the resolution. */
  lemma {:induction false} SameEmptiness(routes: seq<Route>, active: seq<Printer>, titles: map<string, string>,
                                         a: seq<string>, b: seq<string>)
    requires Choice(routes, titles, a) && Choice(routes, titles, b) && "" !in titles
    ensures Table(routes, active, a) == map[] <==> Table(routes, active, b) == map[]
  {
    if |routes| > 0 {
      var n := |routes| - 1;
      ChoicePrefix(routes, titles, a);
      ChoicePrefix(routes, titles, b);
      SameEmptiness(routes[..n], active, titles, a[..n], b[..n]);
      assert a[n] == "" <==> b[n] == "";
      if Serves(routes[n], active) && a[n] != "" {
        assert a[n] in Table(routes, active, a) && b[n] in Table(routes, active, b);
      }
    }
  }
}

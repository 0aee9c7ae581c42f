/**
 The kitchen tickets of an order (`addKitchen` and the loop over the order's categories in
 printing.go).  What a ticket has to be is stated from the routing table alone; the loop, which
 merges tickets as categories come up in no fixed order, is proved to arrive there.
 */
module KitchenTickets {
  import opened Prelude
  import opened Text
  import opened KitchenRouting

  /** What the tickets of one call depend on. */
  datatype Plan = Plan(table: map<string, Target>, station: Option<string>, cashier: string, cats: set<string>,
                       want: int)

  function CopiesFor(j: Plan, c: string): int {
    Clamp(if c in j.table then j.want * j.table[c].copies else j.want)
  }

  /** Its route's printer, else the kitchen station. */
  function Destination(j: Plan, c: string): Option<string> {
    if c in j.table then Some(j.table[c].printer) else j.station
  }

  function CatsAt(j: Plan, p: string): set<string> {
    set c | c in j.cats && Destination(j, c) == Some(p)
  }

  /** As many copies as the most demanding of the categories wants. */
  ghost predicate MostCopies(j: Plan, cats: set<string>, copies: int) {
    && (forall c :: c in cats ==> CopiesFor(j, c) <= copies)
    && (exists c :: c in cats && CopiesFor(j, c) == copies)
  }

  /** The tickets of a call: one full ticket without routes, else one per destination. */
  ghost predicate IsTicket(j: Plan, t: Ticket) {
    if j.table == map[] then
      j.station == Some(t.printer) && t.printer != j.cashier && t.cats == None && t.copies == Clamp(j.want)
    else
      t.cats == Some(CatsAt(j, t.printer)) && MostCopies(j, CatsAt(j, t.printer), t.copies)
  }

  /** The copies a category asks for where it goes, before they are brought within one and five. */
  function Asked(j: Plan, c: string): int { if c in j.table then j.want * j.table[c].copies else j.want }

  /** A ticket, said in full. */
  ghost predicate TicketSays(j: Plan, t: Ticket) {
    if j.table == map[] then
      && j.station == Some(t.printer) && t.printer != j.cashier
      && t.cats == None && Nearest(t.copies, j.want)
    else
      && t.cats.Some? && t.cats.value != {}
      && (forall c :: c in t.cats.value <==>
            c in j.cats && (if c in j.table then j.table[c].printer == t.printer else j.station == Some(t.printer)))
      && (forall c, n :: c in t.cats.value && Nearest(n, Asked(j, c)) ==> n <= t.copies)
      && (exists c :: c in t.cats.value && Nearest(t.copies, Asked(j, c)))
  }

  lemma OneNearest(n: int, m: int, asked: int)
    requires Nearest(n, asked) && Nearest(m, asked)
    ensures n == m
  {
    assert Distance(n, asked) == Distance(m, asked);
    assert Nearest(Clamp(asked), asked) && Distance(Clamp(asked), asked) == Distance(n, asked);
  }

  lemma IsTicketSays(j: Plan, t: Ticket)
    ensures IsTicket(j, t) <==> TicketSays(j, t)
  {
    hide Nearest;
    if j.table == map[] {
      if Nearest(t.copies, j.want) { OneNearest(t.copies, Clamp(j.want), j.want); }
    } else {
      forall c, n | Nearest(n, Asked(j, c))
        ensures n == CopiesFor(j, c)
      {
        OneNearest(n, CopiesFor(j, c), Asked(j, c));
      }
      assert forall c :: Nearest(CopiesFor(j, c), Asked(j, c));
      TicketContents(j, t);
    }
  }

  lemma TicketContents(j: Plan, t: Ticket)
    requires j.table != map[] && forall c, n :: Nearest(n, Asked(j, c)) <==> n == CopiesFor(j, c)
    ensures IsTicket(j, t) <==> TicketSays(j, t)
  {
    hide Nearest, CopiesFor, Asked;
    if t.cats.Some? && (forall c :: c in t.cats.value <==> c in CatsAt(j, t.printer)) {
      assert t.cats.value == CatsAt(j, t.printer);
    }
    assert forall c :: c in CatsAt(j, t.printer) ==> Nearest(CopiesFor(j, c), Asked(j, c));
  }

  // ----- what the tickets guarantee -----

  lemma OnePerPrinter(j: Plan, t: Ticket, u: Ticket)
    requires IsTicket(j, t) && IsTicket(j, u) && t.printer == u.printer
    ensures t == u
  {
    if j.table != map[] {
      var c :| c in CatsAt(j, t.printer) && CopiesFor(j, c) == t.copies;
      var d :| d in CatsAt(j, t.printer) && CopiesFor(j, d) == u.copies;
    }
  }

  lemma {:induction false} MostExists(j: Plan, cats: set<string>) returns (copies: int)
    requires cats != {}
    ensures MostCopies(j, cats, copies)
    decreases cats
  {
    var c :| c in cats;
    copies := CopiesFor(j, c);
    var rest := cats - {c};
    if rest == {} {
      assert cats == {c};
    } else {
      var most := MostExists(j, rest);
      if most > copies { copies := most; }
      var d :| d in rest && CopiesFor(j, d) == most;
      assert c in cats && d in cats;
    }
  }

  ghost predicate Carries(t: Ticket, c: string) { t.cats.Some? && c in t.cats.value }

  /**
   With a route in force, a category of the order is on exactly one ticket if it is routed or a
   kitchen station exists, and on none otherwise; nothing else is on any ticket.
   */
  lemma ExactlyOneTicket(j: Plan, c: string)
    requires j.table != map[]
    ensures (c in j.cats && Destination(j, c).Some?) <==> (exists t :: IsTicket(j, t) && Carries(t, c))
    ensures forall t, u :: IsTicket(j, t) && Carries(t, c) && IsTicket(j, u) && Carries(u, c) ==> t == u
  {
    if c in j.cats && Destination(j, c).Some? {
      var p := Destination(j, c).value;
      assert c in CatsAt(j, p);
      var copies := MostExists(j, CatsAt(j, p));
      var t := Ticket(p, copies, Some(CatsAt(j, p)));
      assert IsTicket(j, t) && Carries(t, c);
    }
    forall t, u | IsTicket(j, t) && Carries(t, c) && IsTicket(j, u) && Carries(u, c)
      ensures t == u
    {
      OnePerPrinter(j, t, u);
    }
  }

  /** Same destinations, and the same copies for what is printed at all. */
  ghost predicate SameRouting(a: Plan, b: Plan) {
    && a.station == b.station && a.cashier == b.cashier && a.cats == b.cats && a.want == b.want
    && (a.table == map[] <==> b.table == map[])
    && forall c :: c in a.cats ==> SameDelivery(a, b, c)
  }

  ghost predicate SameDelivery(a: Plan, b: Plan, c: string) {
    Destination(a, c) == Destination(b, c) && (Destination(a, c).Some? ==> CopiesFor(a, c) == CopiesFor(b, c))
  }

  /** Tickets depend on the table only through where the order's own categories go. */
  lemma SameTickets(a: Plan, b: Plan, t: Ticket)
    requires SameRouting(a, b)
    ensures IsTicket(a, t) <==> IsTicket(b, t)
  {
    hide CopiesFor, Destination, MostCopies;
    assert CatsAt(a, t.printer) == CatsAt(b, t.printer) by {
      assert forall c :: c in a.cats ==> SameDelivery(a, b, c);
    }
    forall c | c in CatsAt(a, t.printer)
      ensures CopiesFor(a, c) == CopiesFor(b, c)
    {
      assert SameDelivery(a, b, c);
    }
    SameMost(a, b, CatsAt(a, t.printer), t.copies);
  }

  lemma SameMost(a: Plan, b: Plan, cats: set<string>, copies: int)
    requires forall c :: c in cats ==> CopiesFor(a, c) == CopiesFor(b, c)
    ensures MostCopies(a, cats, copies) <==> MostCopies(b, cats, copies)
  {
    hide CopiesFor;
    if MostCopies(a, cats, copies) {
      var c :| c in cats && CopiesFor(a, c) == copies;
      assert CopiesFor(b, c) == copies;
    }
    if MostCopies(b, cats, copies) {
      var c :| c in cats && CopiesFor(b, c) == copies;
      assert CopiesFor(a, c) == copies;
    }
  }

  function PlanFor(active: seq<Printer>, table: map<string, Target>, cats: set<string>, want: int): Plan
    requires |active| > 0
  {
    Plan(table, StationOf(active), CashierOf(active), cats, want)
  }

  function CashierOf(active: seq<Printer>): string
    requires |active| > 0
  {
    var p := First(active, IsCashier);
    if p.Some? then p.value.id else active[0].id
  }

  function StationOf(active: seq<Printer>): Option<string> {
    var p := First(active, IsKitchen);
    if p.Some? then Some(p.value.id) else None
  }

  // ----- what iteration order can change -----

  /** A category's printer: that of its route, else the station. */
  function PrinterSeen(station: Option<string>): Option<Target> -> Option<string> {
    (t: Option<Target>) => if t.Some? then Some(t.value.printer) else station
  }

  /** Its printer with the copies asked for there. */
  function DeliverySeen(station: Option<string>, want: int): Option<Target> -> Option<(string, int)> {
    (t: Option<Target>) =>
      if t.Some? then Some((t.value.printer, Clamp(want * t.value.copies)))
      else if station.Some? then Some((station.value, Clamp(want))) else None
  }

  ghost predicate PrinterSettled(routes: seq<Route>, active: seq<Printer>, titles: map<string, string>, c: string) {
    Settled(routes, active, titles, c, PrinterSeen(StationOf(active)))
  }

  ghost predicate DeliverySettled(routes: seq<Route>, active: seq<Printer>, titles: map<string, string>, c: string,
                                  want: int) {
    Settled(routes, active, titles, c, DeliverySeen(StationOf(active), want))
  }

  lemma SeenIsPlanned(p: Plan, c: string)
    ensures PrinterSeen(p.station)(Lookup(p.table, c)) == Destination(p, c)
    ensures DeliverySeen(p.station, p.want)(Lookup(p.table, c)) ==
            if Destination(p, c).Some? then Some((Destination(p, c).value, CopiesFor(p, c))) else None
  {
  }

  /** If every category's delivery is settled, the tickets do not depend on iteration order, copies included. */
  lemma TicketsDetermined(routes: seq<Route>, active: seq<Printer>, titles: map<string, string>, cats: set<string>,
                          want: int, a: seq<string>, b: seq<string>, t: Ticket)
    requires |active| > 0 && "" !in titles && "" !in cats
    requires Choice(routes, titles, a) && Choice(routes, titles, b)
    requires forall c :: c in cats ==> DeliverySettled(routes, active, titles, c, want)
    ensures IsTicket(PlanFor(active, Table(routes, active, a), cats, want), t) <==>
            IsTicket(PlanFor(active, Table(routes, active, b), cats, want), t)
  {
    hide Settled, Table, IsTicket, StationOf, CashierOf, Destination, CopiesFor, DeliverySeen, Lookup;
    var p := PlanFor(active, Table(routes, active, a), cats, want);
    var q := PlanFor(active, Table(routes, active, b), cats, want);
    SameEmptiness(routes, active, titles, a, b);
    forall c | c in cats
      ensures SameDelivery(p, q, c)
    {
      SettledLookup(routes, active, titles, c, DeliverySeen(StationOf(active), want), a);
      SettledLookup(routes, active, titles, c, DeliverySeen(StationOf(active), want), b);
      SeenIsPlanned(p, c);
      SeenIsPlanned(q, c);
    }
    SameTickets(p, q, t);
  }

  ghost predicate PrintedAt(p: Plan, c: string, printer: string) {
    exists t :: IsTicket(p, t) && t.printer == printer && Carries(t, c)
  }

  lemma PrintedAtDestination(p: Plan, c: string, printer: string)
    requires p.table != map[]
    ensures PrintedAt(p, c, printer) <==> (c in p.cats && Destination(p, c) == Some(printer))
  {
    hide MostCopies, Destination;
    if c in p.cats && Destination(p, c) == Some(printer) {
      assert c in CatsAt(p, printer);
      var copies := MostExists(p, CatsAt(p, printer));
      var t := Ticket(printer, copies, Some(CatsAt(p, printer)));
      assert IsTicket(p, t) && t.printer == printer && Carries(t, c);
    }
  }

  /** Which categories go on which printer's ticket is the same however the routes were resolved. */
  ghost predicate SameContents(routes: seq<Route>, active: seq<Printer>, titles: map<string, string>, cats: set<string>,
                               want: int)
    requires |active| > 0
  {
    forall a, b, c, printer :: Choice(routes, titles, a) && Choice(routes, titles, b) ==>
      (PrintedAt(PlanFor(active, Table(routes, active, a), cats, want), c, printer) <==>
       PrintedAt(PlanFor(active, Table(routes, active, b), cats, want), c, printer))
  }

  /**
   With a route in force, which categories are on which tickets is independent of iteration order if
   and only if the printer of each category of the order is settled.
   */
  lemma ContentsIff(routes: seq<Route>, active: seq<Printer>, titles: map<string, string>, cats: set<string>, want: int,
                    some: seq<string>)
    requires |active| > 0 && "" !in titles && "" !in cats
    requires Choice(routes, titles, some) && Table(routes, active, some) != map[]
    ensures SameContents(routes, active, titles, cats, want) <==>
            forall c :: c in cats ==> PrinterSettled(routes, active, titles, c)
  {
    if forall c :: c in cats ==> PrinterSettled(routes, active, titles, c) {
      forall a, b, c, printer | Choice(routes, titles, a) && Choice(routes, titles, b)
        ensures PrintedAt(PlanFor(active, Table(routes, active, a), cats, want), c, printer) <==>
                PrintedAt(PlanFor(active, Table(routes, active, b), cats, want), c, printer)
      {
        SettledContents(routes, active, titles, cats, want, some, a, b, c, printer);
      }
    }
    if SameContents(routes, active, titles, cats, want) {
      forall c | c in cats
        ensures PrinterSettled(routes, active, titles, c)
      {
        if !PrinterSettled(routes, active, titles, c) {
          UnsettledContents(routes, active, titles, cats, want, some, c);
        }
      }
    }
  }

  lemma SettledContents(routes: seq<Route>, active: seq<Printer>, titles: map<string, string>, cats: set<string>,
                        want: int, some: seq<string>, a: seq<string>, b: seq<string>, c: string, printer: string)
    requires |active| > 0 && "" !in titles && "" !in cats
    requires Choice(routes, titles, some) && Table(routes, active, some) != map[]
    requires Choice(routes, titles, a) && Choice(routes, titles, b)
    requires c in cats ==> PrinterSettled(routes, active, titles, c)
    ensures PrintedAt(PlanFor(active, Table(routes, active, a), cats, want), c, printer) <==>
            PrintedAt(PlanFor(active, Table(routes, active, b), cats, want), c, printer)
  {
    hide Table, Settled, Destination, PrinterSeen, StationOf, CashierOf, PrintedAt;
    SameEmptiness(routes, active, titles, some, a);
    SameEmptiness(routes, active, titles, some, b);
    var p := PlanFor(active, Table(routes, active, a), cats, want);
    var q := PlanFor(active, Table(routes, active, b), cats, want);
    PrintedAtDestination(p, c, printer);
    PrintedAtDestination(q, c, printer);
    if c in cats {
      SettledLookup(routes, active, titles, c, PrinterSeen(StationOf(active)), a);
      SettledLookup(routes, active, titles, c, PrinterSeen(StationOf(active)), b);
      SeenIsPlanned(p, c);
      SeenIsPlanned(q, c);
    }
  }

  lemma UnsettledContents(routes: seq<Route>, active: seq<Printer>, titles: map<string, string>, cats: set<string>,
                          want: int, some: seq<string>, c: string)
    requires |active| > 0 && "" !in titles && "" !in cats
    requires Choice(routes, titles, some) && Table(routes, active, some) != map[]
    requires c in cats && !PrinterSettled(routes, active, titles, c)
    ensures !SameContents(routes, active, titles, cats, want)
  {
    hide Table, Settled, Destination, PrinterSeen, StationOf, CashierOf, PrintedAt, SureTarget;
    var view := PrinterSeen(StationOf(active));
    var a := Avoiding(routes, active, titles, c);
    var b := Unsettling(routes, active, titles, c, view);
    SameEmptiness(routes, active, titles, some, a);
    SameEmptiness(routes, active, titles, some, b);
    var p := PlanFor(active, Table(routes, active, a), cats, want);
    var q := PlanFor(active, Table(routes, active, b), cats, want);
    SeenIsPlanned(p, c);
    SeenIsPlanned(q, c);
    assert Destination(p, c) != Destination(q, c);
    var printer := if Destination(p, c).Some? then Destination(p, c).value else Destination(q, c).value;
    PrintedAtDestination(p, c, printer);
    PrintedAtDestination(q, c, printer);
    assert PrintedAt(p, c, printer) != PrintedAt(q, c, printer);
  }

  ghost predicate SameTicketSets(routes: seq<Route>, active: seq<Printer>, titles: map<string, string>,
                                 cats: set<string>, want: int)
    requires |active| > 0
  {
    forall a, b, t :: Choice(routes, titles, a) && Choice(routes, titles, b) ==>
      (IsTicket(PlanFor(active, Table(routes, active, a), cats, want), t) <==>
       IsTicket(PlanFor(active, Table(routes, active, b), cats, want), t))
  }

  /** For an order of one category the ticket with its copies is fixed if and only if its delivery is settled. */
  lemma OneCategoryIff(routes: seq<Route>, active: seq<Printer>, titles: map<string, string>, c: string, want: int,
                       some: seq<string>)
    requires |active| > 0 && "" !in titles && c != ""
    requires Choice(routes, titles, some) && Table(routes, active, some) != map[]
    ensures SameTicketSets(routes, active, titles, {c}, want) <==> DeliverySettled(routes, active, titles, c, want)
  {
    if DeliverySettled(routes, active, titles, c, want) {
      forall a, b, t | Choice(routes, titles, a) && Choice(routes, titles, b)
        ensures IsTicket(PlanFor(active, Table(routes, active, a), {c}, want), t) <==>
                IsTicket(PlanFor(active, Table(routes, active, b), {c}, want), t)
      {
        TicketsDetermined(routes, active, titles, {c}, want, a, b, t);
      }
    } else {
      UnsettledTicket(routes, active, titles, c, want, some);
    }
  }

  lemma UnsettledTicket(routes: seq<Route>, active: seq<Printer>, titles: map<string, string>, c: string, want: int,
                        some: seq<string>)
    requires |active| > 0 && "" !in titles && c != "" && !DeliverySettled(routes, active, titles, c, want)
    requires Choice(routes, titles, some) && Table(routes, active, some) != map[]
    ensures !SameTicketSets(routes, active, titles, {c}, want)
  {
    hide Table, Settled, Destination, CopiesFor, DeliverySeen, StationOf, CashierOf, SureTarget, IsTicket;
    var a := Avoiding(routes, active, titles, c);
    var b := Unsettling(routes, active, titles, c, DeliverySeen(StationOf(active), want));
    SameEmptiness(routes, active, titles, some, a);
    SameEmptiness(routes, active, titles, some, b);
    var p := PlanFor(active, Table(routes, active, a), {c}, want);
    var q := PlanFor(active, Table(routes, active, b), {c}, want);
    SeenIsPlanned(p, c);
    SeenIsPlanned(q, c);
    OnlyTicket(p, c);
    OnlyTicket(q, c);
    var t := if Destination(p, c).Some? then SoleTicket(p, c) else SoleTicket(q, c);
    assert IsTicket(p, t) != IsTicket(q, t);
  }

  /** The only ticket of an order of one category. */
  lemma OnlyTicket(p: Plan, c: string)
    requires p.table != map[] && p.cats == {c}
    ensures forall t :: IsTicket(p, t) <==> (Destination(p, c).Some? && t == SoleTicket(p, c))
  {
    hide CopiesFor, Destination;
    forall t
      ensures IsTicket(p, t) <==> (Destination(p, c).Some? && t == SoleTicket(p, c))
    {
      if Destination(p, c) == Some(t.printer) {
        assert CatsAt(p, t.printer) == {c};
      } else {
        assert CatsAt(p, t.printer) == {};
      }
    }
  }

  function SoleTicket(p: Plan, c: string): Ticket {
    Ticket(if Destination(p, c).Some? then Destination(p, c).value else "", CopiesFor(p, c), Some({c}))
  }

  /**
   Two categories with the title a route asks for, and no kitchen station: one iteration order
   prints the first category, the other prints nothing for it.
   */
  lemma {:induction false} SharedTitleSplits(r: Route, active: seq<Printer>, titles: map<string, string>, c: string,
                                             d: string, want: int)
    requires |active| > 0 && StationOf(active) == None && Serves(r, active) && Trim(r.category) == ""
    requires c != d && c != "" && d != "" && {c, d} <= Named(titles, Trim(r.categoryName))
    ensures Choice([r], titles, [c]) && Choice([r], titles, [d])
    ensures exists t :: IsTicket(PlanFor(active, Table([r], active, [c]), {c}, want), t) && Carries(t, c)
    ensures !exists t :: IsTicket(PlanFor(active, Table([r], active, [d]), {c}, want), t) && Carries(t, c)
  {
    assert Table([], active, []) == map[];
    assert [r][..0] == [] && [c][..0] == [] && [d][..0] == [];
    var yes := Table([r], active, [c]);
    var no := Table([r], active, [d]);
    assert yes == map[c := TargetOf(r, active)] && no == map[d := TargetOf(r, active)];
    assert c in yes && d in no;
    ExactlyOneTicket(PlanFor(active, yes, {c}, want), c);
    ExactlyOneTicket(PlanFor(active, no, {c}, want), c);
  }

  // ----- the loop -----

  ghost predicate Gathered(j: Plan, t: Ticket, p: string, cats: set<string>) {
    t.printer == p && t.cats == Some(cats) && MostCopies(j, cats, t.copies)
  }

  function Max(a: int, b: int): int { if a >= b then a else b }

  function Merged(t: Ticket, cats: Option<set<string>>, copies: int): Ticket {
    Ticket(t.printer, Max(t.copies, copies),
           if cats == None || t.cats == None then None else Some(t.cats.value + cats.value))
  }

  lemma GatherMore(j: Plan, t: Ticket, p: string, cats: set<string>, more: set<string>, copies: int)
    requires Gathered(j, t, p, cats) && more != {}
    requires forall c :: c in more ==> CopiesFor(j, c) == copies
    ensures Gathered(j, Merged(t, Some(more), copies), p, cats + more)
  {
    var c :| c in cats && CopiesFor(j, c) == t.copies;
    var d :| d in more;
    assert c in cats + more && d in cats + more;
  }

  lemma GatherFirst(j: Plan, p: string, more: set<string>, copies: int)
    requires more != {} && forall c :: c in more ==> CopiesFor(j, c) == copies
    ensures Gathered(j, Ticket(p, copies, Some(more)), p, more)
  {
    var d :| d in more;
  }

  /** Of the categories handled so far, those routed to `p`. */
  function RoutedAt(j: Plan, done: set<string>, p: string): set<string> {
    set c | c in done && c in j.table && j.table[c].printer == p
  }

  class Tickets {
    var byPrinter: map<string, Ticket>
    var printers: seq<string>

    constructor ()
      ensures byPrinter == map[] && printers == []
    {
      byPrinter, printers := map[], [];
    }

    /** Every printer with a ticket is listed once, in order of its first ticket. */
    ghost predicate Valid()
      reads this
    {
      && (forall i, k :: 0 <= i < k < |printers| ==> printers[i] != printers[k])
      && (forall i :: 0 <= i < |printers| ==> printers[i] in byPrinter)
      && (forall p :: p in byPrinter ==> p in printers)
    }

    method Add(p: string, cats: Option<set<string>>, wanted: int)
      requires Valid()
      modifies this
      ensures Valid()
      ensures byPrinter == old(byPrinter)[p :=
                if p in old(byPrinter) then Merged(old(byPrinter)[p], cats, Clamp(wanted))
                else Ticket(p, Clamp(wanted), cats)]
      ensures printers == old(printers) + (if p in old(byPrinter) then [] else [p])
    {
      var copies := wanted;
      if copies < 1 { copies := 1; }
      if copies > 5 { copies := 5; }
      if p in byPrinter {
        var t := byPrinter[p];
        if cats == None {
          t := t.(cats := None);
        } else if t.cats != None {
          t := t.(cats := Some(t.cats.value + cats.value));
        }
        if copies > t.copies { t := t.(copies := copies); }
        byPrinter := byPrinter[p := t];
      } else {
        byPrinter := byPrinter[p := Ticket(p, copies, cats)];
        printers := printers + [p];
      }
    }
  }

  /** The tickets hold exactly the routed part of `done`. */
  ghost predicate Holds(j: Plan, held: map<string, Ticket>, done: set<string>) {
    && (forall p :: p in held <==> RoutedAt(j, done, p) != {})
    && (forall p :: p in held ==> Gathered(j, held[p], p, RoutedAt(j, done, p)))
  }

  lemma HoldsMore(j: Plan, held: map<string, Ticket>, done: set<string>, c: string, after: map<string, Ticket>)
    requires Holds(j, held, done) && c in j.table && c !in done
    requires var p := j.table[c].printer;
             after == held[p := if p in held then Merged(held[p], Some({c}), CopiesFor(j, c))
                              else Ticket(p, CopiesFor(j, c), Some({c}))]
    ensures Holds(j, after, done + {c})
  {
    hide CopiesFor, MostCopies;
    var p := j.table[c].printer;
    assert RoutedAt(j, done + {c}, p) == RoutedAt(j, done, p) + {c};
    forall q | q != p
      ensures RoutedAt(j, done + {c}, q) == RoutedAt(j, done, q)
    {
    }
    if p in held {
      GatherMore(j, held[p], p, RoutedAt(j, done, p), {c}, CopiesFor(j, c));
    } else {
      assert RoutedAt(j, done + {c}, p) == {c};
      GatherFirst(j, p, {c}, CopiesFor(j, c));
    }
  }

  lemma HoldsSkip(j: Plan, held: map<string, Ticket>, done: set<string>, c: string)
    requires Holds(j, held, done) && c !in j.table
    ensures Holds(j, held, done + {c})
  {
    forall p
      ensures RoutedAt(j, done + {c}, p) == RoutedAt(j, done, p)
    {
    }
  }

  function Unrouted(j: Plan, done: set<string>): set<string> { set c | c in done && c !in j.table }

  /** `held` has exactly the tickets of the call. */
  ghost predicate Complete(j: Plan, held: map<string, Ticket>) {
    && (forall p :: p in held ==> held[p].printer == p && IsTicket(j, held[p]))
    && (forall t :: IsTicket(j, t) ==> t.printer in held)
  }

  lemma CompleteRouted(j: Plan, held: map<string, Ticket>)
    requires j.table != map[] && Holds(j, held, j.cats)
    requires Unrouted(j, j.cats) == {} || j.station == None
    ensures Complete(j, held)
  {
    forall p
      ensures CatsAt(j, p) == RoutedAt(j, j.cats, p)
    {
      forall c | c in CatsAt(j, p)
        ensures c in RoutedAt(j, j.cats, p)
      {
        assert c !in j.table ==> c in Unrouted(j, j.cats);
      }
    }
  }

  /** The station's ticket once what has no route was added. */
  function AtStation(j: Plan, held: map<string, Ticket>, s: string, left: set<string>): Ticket {
    if s in held then Merged(held[s], Some(left), Clamp(j.want)) else Ticket(s, Clamp(j.want), Some(left))
  }

  lemma CompleteStation(j: Plan, held: map<string, Ticket>, after: map<string, Ticket>)
    requires j.table != map[] && Holds(j, held, j.cats)
    requires Unrouted(j, j.cats) != {} && j.station.Some?
    requires var s := j.station.value; var left := Unrouted(j, j.cats);
             after == held[s := AtStation(j, held, s, left)]
    ensures Complete(j, after)
  {
    var s := j.station.value;
    var left := Unrouted(j, j.cats);
    assert CatsAt(j, s) == RoutedAt(j, j.cats, s) + left;
    forall p | p != s
      ensures CatsAt(j, p) == RoutedAt(j, j.cats, p)
    {
    }
    StationTicket(j, held, s, left);
  }

  lemma StationTicket(j: Plan, held: map<string, Ticket>, s: string, left: set<string>)
    requires Holds(j, held, j.cats) && left == Unrouted(j, j.cats) && left != {}
    ensures Gathered(j, AtStation(j, held, s, left), s, RoutedAt(j, j.cats, s) + left)
  {
    if s in held {
      GatherMore(j, held[s], s, RoutedAt(j, j.cats, s), left, Clamp(j.want));
    } else {
      assert RoutedAt(j, j.cats, s) + left == left;
      GatherFirst(j, s, left, Clamp(j.want));
    }
  }

  lemma NoRoutes(j: Plan, held: map<string, Ticket>)
    requires j.table == map[] && Holds(j, held, j.cats)
    ensures held == map[]
  {
    forall p
      ensures p !in held
    {
      assert RoutedAt(j, j.cats, p) == {};
    }
  }

  /** The routed categories, taken in any order. */
  method RouteAll(j: Plan, kitchen: Tickets) returns (leftover: set<string>)
    requires kitchen.Valid() && kitchen.byPrinter == map[]
    modifies kitchen
    ensures kitchen.Valid() && Holds(j, kitchen.byPrinter, j.cats) && leftover == Unrouted(j, j.cats)
  {
    hide Merged, MostCopies;
    leftover := {};
    var todo := j.cats;
    while todo != {}
      invariant kitchen.Valid() && todo <= j.cats
      invariant Holds(j, kitchen.byPrinter, j.cats - todo)
      invariant leftover == Unrouted(j, j.cats - todo)
    {
      var c :| c in todo;
      ghost var done := j.cats - todo;
      ghost var before := kitchen.byPrinter;
      assert j.cats - (todo - {c}) == done + {c};
      if c in j.table {
        kitchen.Add(j.table[c].printer, Some({c}), j.want * j.table[c].copies);
        HoldsMore(j, before, done, c, kitchen.byPrinter);
      } else {
        leftover := leftover + {c};
        HoldsSkip(j, before, done, c);
      }
      todo := todo - {c};
    }
    assert j.cats - todo == j.cats;
  }

  /** The printers come in no promised order; which tickets there are is fixed. */
  method TicketsFor(j: Plan) returns (tickets: seq<Ticket>)
    ensures forall t :: t in tickets <==> IsTicket(j, t)
    ensures forall i, k :: 0 <= i < k < |tickets| ==> tickets[i].printer != tickets[k].printer
  {
    hide Holds, Merged, Unrouted, MostCopies;
    var kitchen := new Tickets();
    var leftover := RouteAll(j, kitchen);
    ghost var routed := kitchen.byPrinter;
    if j.table == map[] {
      NoRoutes(j, routed);
      if j.station.Some? && j.station.value != j.cashier {
        kitchen.Add(j.station.value, None, j.want);
      }
    } else if leftover != {} {
      if j.station.Some? {
        kitchen.Add(j.station.value, Some(leftover), j.want);
        CompleteStation(j, routed, kitchen.byPrinter);
      } else {
        CompleteRouted(j, routed);
      }
    } else {
      CompleteRouted(j, routed);
    }
    tickets := Listed(j, kitchen.byPrinter, kitchen.printers);
  }

  method Listed(ghost j: Plan, held: map<string, Ticket>, printers: seq<string>) returns (tickets: seq<Ticket>)
    requires Complete(j, held)
    requires forall i, k :: 0 <= i < k < |printers| ==> printers[i] != printers[k]
    requires forall i :: 0 <= i < |printers| ==> printers[i] in held
    requires forall p :: p in held ==> p in printers
    ensures forall t :: t in tickets <==> IsTicket(j, t)
    ensures forall i, k :: 0 <= i < k < |tickets| ==> tickets[i].printer != tickets[k].printer
  {
    tickets := [];
    for i := 0 to |printers|
      invariant |tickets| == i
      invariant forall k :: 0 <= k < i ==> tickets[k] == held[printers[k]]
    {
      tickets := tickets + [held[printers[i]]];
    }
    forall t | IsTicket(j, t)
      ensures t in tickets
    {
      var k :| 0 <= k < |printers| && printers[k] == t.printer;
      OnePerPrinter(j, t, tickets[k]);
    }
  }
}

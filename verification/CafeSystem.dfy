/**
 Orders, tables, stock and waste together (`CreatePOSOrder`, `UpdateOrderItemsFull`,
 `TransferOrder`, `UpdateLocalOrderStatusReason`, `RecordStockMovement` and `VoidWasteEvent` in
 domains.go): every run of these operations, with voids cut short between their two transactions and
 recipes changing in between.
 */
module CafeSystem {
  import opened Text
  import opened OrderStatus
  import opened Tables
  import Stock

  type Recipes = map<string, Stock.Recipe>

  /** What an order was made of when it was completed. */
  datatype Sale = Sale(recipes: Recipes, lines: seq<Stock.Item>)

  /** `sales` only serves to state what must hold. */
  datatype State = State(
    floor: Floor, items: map<string, seq<Stock.Item>>, recipes: Recipes, books: Stock.Books, sales: map<string, Sale>)

  datatype Action =
    | Place(id: string, table: string, lines: seq<Stock.Item>)
    | Edit(id: string, lines: seq<Stock.Item>)
    | Move(id: string, target: string)
    | Restatus(id: string, next: string)
    | Record(ingredient: string, kind: string, quantity: int, wasteId: string)
    | Void(wasteId: string, interrupted: bool)
    | Revise(recipes: Recipes)

  function LinesOf(items: map<string, seq<Stock.Item>>, id: string): seq<Stock.Item> {
    if id in items then items[id] else []
  }

  predicate OnFloor(a: Action) { a.Place? || a.Move? || a.Restatus? }

  /** What an action does to the floor. */
  function FloorStep(a: Action): Step
    requires OnFloor(a)
  {
    match a
    case Place(id, table, _) => Create(id, table)
    case Move(id, target) => Transfer(id, target)
    case Restatus(id, next) => SetStatus(id, next)
  }

  /** A completed, cancelled or refunded order is not edited. */
  predicate Editable(f: Floor, id: string) {
    LiveOrder(f, id) && Normal(f.orders[id].status) !in {"completed", "cancelled", "canceled", "refunded"}
  }

  /**
   What each operation may do.  Completing an order takes its recipes out of stock in some order of
   recipes; everything else is determined.
   */
  ghost predicate Next(s: State, a: Action, t: State) {
    match a
    case Place(id, table, lines) =>
      t == s.(floor := Tables.Next(s.floor, FloorStep(a)), items := s.items[id := lines])
    case Edit(id, lines) => t == if Editable(s.floor, id) then s.(items := s.items[id := lines]) else s
    case Move(id, target) => t == s.(floor := Tables.Next(s.floor, FloorStep(a)))
    case Restatus(id, next) =>
      if TakesStock(s.floor, FloorStep(a), id)
      then
        && t == s.(floor := Tables.Next(s.floor, FloorStep(a)), books := s.books.(room := t.books.room),
                   sales := s.sales[id := Sale(s.recipes, LinesOf(s.items, id))])
        && Stock.Took(s.books.room, t.books.room, Stock.OrderTakes(s.recipes, LinesOf(s.items, id)), id)
      else t == s.(floor := Tables.Next(s.floor, FloorStep(a)))
    case Record(ing, kind, quantity, wasteId) =>
      t == s.(books := Stock.Recorded(s.books, ing, kind, quantity, wasteId))
    case Void(id, interrupted) => t == s.(books := Stock.VoidedOrCut(s.books, id, interrupted))
    case Revise(recipes) => t == s.(recipes := recipes)
  }

  /** New orders get fresh identifiers, and statuses are open ones or the two that free a table. */
  ghost predicate Allowed(s: State, a: Action) {
    OnFloor(a) ==> StepOk(s.floor, FloorStep(a))
  }

  /** A run: one state more than actions. */
  ghost predicate IsRun(h: seq<State>, actions: seq<Action>) {
    |h| == |actions| + 1 && forall i :: 0 <= i < |actions| ==> GoesOn(h, actions, i)
  }

  ghost predicate GoesOn(h: seq<State>, actions: seq<Action>, i: nat)
    requires i < |actions| && |h| == |actions| + 1
  {
    Next(h[i], actions[i], h[i + 1])
  }

  /** A run with fresh identifiers and known statuses. */
  ghost predicate IsPlainRun(h: seq<State>, actions: seq<Action>) {
    IsRun(h, actions) && forall i :: 0 <= i < |actions| ==> Allowed(h[i], actions[i])
  }

  // ----- the ledger, over every run -----

  lemma StepLedger(s: State, a: Action, t: State)
    requires Next(s, a, t)
    ensures Stock.Ledger(s.books.room, t.books.room)
  {
    hide Tables.Next, TakesStock, Editable;
    match a
    case Record(i, kind, quantity, wasteId) => Stock.RecordedLedger(s.books, i, kind, quantity, wasteId);
    case Void(id, interrupted) => VoidLedger(s.books, id, interrupted);
    case _ =>
  }

  lemma VoidLedger(b: Stock.Books, id: string, interrupted: bool)
    ensures Stock.Ledger(b.room, Stock.VoidedOrCut(b, id, interrupted).room)
    ensures forall o, ing :: o != "" ==>
              Stock.Tagged(Stock.VoidedOrCut(b, id, interrupted).room.moves, o, ing)
              == Stock.Tagged(b.room.moves, o, ing)
  {
    if id in b.wastes {
      var w := b.wastes[id];
      Stock.RecordedLedger(Stock.Marked(b, id), w.ingredient, "adjustment", w.quantity, "");
    }
  }

  /** Over every run, whatever is asked, each ingredient's stock moved by what the ledger recorded. */
  lemma {:induction false} LedgerHolds(h: seq<State>, actions: seq<Action>, n: nat)
    requires IsRun(h, actions) && n < |h|
    ensures Stock.Ledger(h[0].books.room, h[n].books.room)
  {
    if n > 0 {
      hide Next, Stock.Ledger;
      LedgerHolds(h, actions, n - 1);
      assert GoesOn(h, actions, n - 1);
      StepLedger(h[n - 1], actions[n - 1], h[n]);
      Stock.LedgerTransitive(h[0].books.room, h[n - 1].books.room, h[n].books.room);
    } else {
      SameLedger(h[0].books.room);
    }
  }

  lemma SameLedger(room: Stock.Room)
    ensures Stock.Ledger(room, room)
  {
  }

  // ----- the invariant -----

  function SaleOf(s: State, o: string): Sale { if o in s.sales then s.sales[o] else Sale(map[], []) }

  ghost function Uses(sale: Sale): string -> int { Stock.OrderTakes(sale.recipes, sale.lines) }

  /** What the movements filed under an order must sum to. */
  ghost function Owed(s: State, o: string, ing: string): int {
    if Done(s.floor, o) then -Stock.Taken(s.books.room, Uses(SaleOf(s, o)), ing) else 0
  }

  ghost predicate Filed(s: State, o: string, ing: string) {
    Stock.Tagged(s.books.room.moves, o, ing) == Owed(s, o, ing)
  }

  /** A completed order is in the ledger with exactly what it was made of, any other order with nothing. */
  ghost predicate Booked(s: State) {
    forall o, ing :: o != "" ==> Filed(s, o, ing)
  }

  ghost predicate Inv(s: State) {
    Pointers(s.floor) && Decided(s.floor) && AllTrimmed(s.floor) && Booked(s)
  }

  ghost predicate AllTrimmed(f: Floor) { forall o :: o in f.orders ==> Trimmed(f.orders[o].status) }

  lemma FloorKeeps(f: Floor, step: Step)
    requires Pointers(f) && Decided(f) && AllTrimmed(f) && StepOk(f, step)
    ensures var g := Tables.Next(f, step); Pointers(g) && Decided(g) && AllTrimmed(g)
  {
    Tables.StepKeeps(f, step);
    StepDecides(f, step);
    hide Pointers, Decided, StepOk, Tables.Next, Trimmed;
    var g := Tables.Next(f, step);
    forall o | o in g.orders
      ensures Trimmed(g.orders[o].status)
    {
      TakenIsDone(f, step, o);
    }
  }

  /** Only the deducting request of an order completes it. */
  lemma DoneByTaking(f: Floor, step: Step, o: string)
    requires AllTrimmed(f) && StepOk(f, step)
    ensures Done(Tables.Next(f, step), o) <==> Done(f, o) || TakesStock(f, step, o)
    ensures !(Done(f, o) && TakesStock(f, step, o))
  {
    TakenIsDone(f, step, o);
    NextStatus(f, step, o);
    hide ValidTransition, EqualFold, Tables.Next, Trimmed;
  }

  /** Living ingredients stay alive along the ledger. */
  lemma SameTaken(s: Stock.Room, t: Stock.Room, used: string -> int, ing: string)
    requires Stock.Ledger(s, t)
    ensures Stock.Taken(s, used, ing) == Stock.Taken(t, used, ing)
  {
  }

  lemma FloorFiled(s: State, a: Action, t: State, o: string, ing: string)
    requires OnFloor(a) && Allowed(s, a) && Next(s, a, t)
    requires AllTrimmed(s.floor) && Filed(s, o, ing) && o != ""
    ensures Filed(t, o, ing)
  {
    StepLedger(s, a, t);
    hide Uses, Stock.Tagged, Tables.Next, AllTrimmed, StepOk;
    DoneByTaking(s.floor, FloorStep(a), o);
    if a.Restatus? && TakesStock(s.floor, FloorStep(a), a.id) {
      SoldNow(s, a, t, o, ing);
    } else {
      SameTaken(s.books.room, t.books.room, Uses(SaleOf(s, o)), ing);
    }
  }

  lemma SoldNow(s: State, a: Action, t: State, o: string, ing: string)
    requires a.Restatus? && TakesStock(s.floor, FloorStep(a), a.id) && Next(s, a, t) && Filed(s, o, ing)
    requires Done(t.floor, o) <==> Done(s.floor, o) || o == a.id
    requires o == a.id ==> !Done(s.floor, o)
    ensures Filed(t, o, ing)
  {
    var sale := Sale(s.recipes, LinesOf(s.items, a.id));
    assert Stock.Accounted(s.books.room, t.books.room, Uses(sale), a.id, o, ing);
    StepLedger(s, a, t);
    hide Uses, Stock.Tagged, Tables.Next, Done, TakesStock;
    SameTaken(s.books.room, t.books.room, Uses(SaleOf(t, o)), ing);
  }

  lemma OtherFiled(s: State, a: Action, t: State, o: string, ing: string)
    requires !OnFloor(a) && Next(s, a, t) && Filed(s, o, ing) && o != ""
    ensures Filed(t, o, ing)
  {
    StepLedger(s, a, t);
    match a
    case Record(i, kind, quantity, wasteId) => Stock.RecordedLedger(s.books, i, kind, quantity, wasteId);
    case Void(id, interrupted) => VoidLedger(s.books, id, interrupted);
    case _ =>
    hide Stock.Recorded, Stock.VoidedOrCut, Stock.Tagged, Uses, Editable;
    SameTaken(s.books.room, t.books.room, Uses(SaleOf(s, o)), ing);
  }

  lemma FloorOf(s: State, a: Action, t: State)
    requires Pointers(s.floor) && Decided(s.floor) && AllTrimmed(s.floor) && Allowed(s, a) && Next(s, a, t)
    ensures Pointers(t.floor) && Decided(t.floor) && AllTrimmed(t.floor)
  {
    hide Pointers, Decided, AllTrimmed, StepOk, Tables.Next, Stock.Took, TakesStock, Editable;
    if OnFloor(a) { FloorKeeps(s.floor, FloorStep(a)); }
  }

  /** Every operation keeps the invariant. */
  lemma StepKeeps(s: State, a: Action, t: State)
    requires Inv(s) && Allowed(s, a) && Next(s, a, t)
    ensures Inv(t)
  {
    hide Next, Allowed, Filed, Pointers, Decided, AllTrimmed;
    FloorOf(s, a, t);
    forall o, ing | o != ""
      ensures Filed(t, o, ing)
    {
      if OnFloor(a) { FloorFiled(s, a, t, o, ing); } else { OtherFiled(s, a, t, o, ing); }
    }
  }

  // ----- every run -----

  /**
   Over every run: a busy table names an open order seated there, and the ledger holds, for each
   order, exactly what it was made of, once, if it was completed and nothing otherwise.
   */
  lemma {:induction false} RunKeeps(h: seq<State>, actions: seq<Action>, n: nat)
    requires IsPlainRun(h, actions) && Inv(h[0]) && n < |h|
    ensures Inv(h[n])
  {
    if n > 0 {
      hide Inv, Next, Allowed;
      RunKeeps(h, actions, n - 1);
      assert GoesOn(h, actions, n - 1);
      StepKeeps(h[n - 1], actions[n - 1], h[n]);
    }
  }

  /** A café that opens with free tables and an empty ledger. */
  ghost predicate Opening(s: State) {
    && s.floor.orders == map[] && "" !in s.floor.tables && s.books.room.moves == []
    && (forall t :: t in s.floor.tables ==> s.floor.tables[t].current == "")
  }

  lemma OpeningInv(s: State)
    requires Opening(s)
    ensures Inv(s)
  {
  }

  /** From its opening on, stock is the opening stock plus the ledger, whatever is asked. */
  lemma StockFromOpening(h: seq<State>, actions: seq<Action>, n: nat, ing: string)
    requires IsRun(h, actions) && Opening(h[0]) && n < |h| && ing in h[0].books.room.ingredients
    ensures var now := h[n].books.room;
      && ing in now.ingredients
      && now.ingredients[ing].stock == h[0].books.room.ingredients[ing].stock + Stock.Moved(now.moves, ing)
  {
    LedgerHolds(h, actions, n);
  }

  /** And each order's part of it is what it was made of when completed, once, or nothing. */
  lemma OrderFromOpening(h: seq<State>, actions: seq<Action>, n: nat, o: string, ing: string)
    requires IsPlainRun(h, actions) && Opening(h[0]) && n < |h| && o != ""
    ensures var sale, now := SaleOf(h[n], o), h[n].books.room;
      Stock.Tagged(now.moves, o, ing) ==
        if Done(h[n].floor, o) && Stock.Live(now, ing) then -Stock.OrderUse(sale.recipes, sale.lines, ing) else 0
  {
    OpeningInv(h[0]);
    RunKeeps(h, actions, n);
    assert Filed(h[n], o, ing);
  }
}

/**
 The order operations on the stored state (`CreatePOSOrder`, `TransferOrder` and
 `UpdateLocalOrderStatusReason` in domains.go): floor and stock change in one transaction.
 */
module Cafe {
  import opened Prelude
  import opened Text
  import opened OrderStatus
  import opened Tables
  import opened Stock
  import CafeSystem

  predicate ValidLine(i: Item) { Trim(i.product) != "" && i.quantity > 0 }

  /** The lines of a new order: those without a product or a quantity are dropped. */
  function ValidLines(wanted: seq<Item>): seq<Item> {
    if |wanted| == 0 then []
    else
      var last := wanted[|wanted| - 1];
      ValidLines(wanted[..|wanted| - 1]) + (if ValidLine(last) then [last] else [])
  }

  /** Lines are taken one by one, in order: those of a product that is not blank, and at least one of it. */
  lemma {:induction false} LinesJoin(a: seq<Item>, b: seq<Item>)
    ensures ValidLines(a + b) == ValidLines(a) + ValidLines(b)
    ensures ValidLines([]) == []
  {
    if |b| == 0 {
      assert a + b == a;
    } else {
      var n := |b| - 1;
      assert (a + b)[..|a + b| - 1] == a + b[..n] && (a + b)[|a + b| - 1] == b[n];
      LinesJoin(a, b[..n]);
    }
  }

  lemma LineTaken(i: Item)
    ensures ValidLines([i]) == if Trim(i.product) != "" && i.quantity > 0 then [i] else []
  {
    assert [i][..0] == [];
  }

  ghost predicate AllKnown(wanted: seq<Item>, products: set<string>) {
    forall i :: 0 <= i < |wanted| && ValidLine(wanted[i]) ==> wanted[i].product in products
  }

  ghost predicate Acceptable(wanted: seq<Item>, products: set<string>) {
    AllKnown(wanted, products) && ValidLines(wanted) != []
  }

  class Counter {
    const stock: StockRoom
    var orders: map<string, Order>
    var tables: map<string, Table>
    var items: map<string, seq<Item>>
    var tokens: map<string, string>
    var products: set<string>
    ghost var sales: map<string, CafeSystem.Sale>

    constructor (stock: StockRoom, products: set<string>)
      ensures this.stock == stock && this.products == products
      ensures State() == Floor(map[], map[]) && items == map[] && tokens == map[] && sales == map[]
    {
      this.stock := stock;
      this.products := products;
      orders, tables, items, tokens, sales := map[], map[], map[], map[], map[];
    }

    ghost function State(): Floor
      reads this
    {
      Floor(orders, tables)
    }

    /** The whole stored state, as the runs of the café see it. */
    ghost function Whole(): CafeSystem.State
      reads this, stock
    {
      CafeSystem.State(State(), items, stock.recipes, stock.Both(), sales)
    }

    /** A live order that was submitted with this token. */
    ghost predicate Repeated(token: string)
      reads this
    {
      token != "" && exists o :: SubmittedAs(o, token)
    }

    predicate SubmittedAs(o: string, token: string)
      reads this
    {
      o in orders && !orders[o].deleted && o in tokens && tokens[o] == token
    }

    /** `id` is a fresh identifier. */
    method CreateOrder(id: string, wanted: seq<Item>, table: string, token: string) returns (r: Reply<string>)
      requires id !in orders
      modifies this`orders, this`tables, this`items, this`tokens
      ensures r.Ok? <==> (wanted != [] && (old(Repeated(Trim(token))) || Acceptable(wanted, products)))
      ensures r.Err? || old(Repeated(Trim(token))) ==> State() == old(State()) && items == old(items)
      ensures r.Ok? && old(Repeated(Trim(token))) ==> SubmittedAs(r.value, Trim(token))
      ensures r.Ok? && !old(Repeated(Trim(token))) ==>
                && r.value == id && tokens == old(tokens)[id := Trim(token)]
                && items == old(items)[id := ValidLines(wanted)] && HasPlaced(old(State()), State(), id, table)
                && CafeSystem.Next(old(Whole()), CafeSystem.Place(id, table, ValidLines(wanted)),
                                   Whole())
    {
      CreatedSays(State(), id, table);
      hide HasPlaced, Created, Trim, ValidLines;
      if wanted == [] { return Err("choose at least one product"); }
      var tok := Trim(token);
      if tok != "" && exists o :: o in orders && SubmittedAs(o, tok) {
        var o :| o in orders && SubmittedAs(o, tok);
        return Ok(o);
      }
      var known, lines := TakeLines(wanted);
      if !known { return Err("product not found"); }
      if lines == [] { return Err("no valid line"); }
      Place(id, lines, table, tok);
      return Ok(id);
    }

    /** The writes of a new order. */
    method Place(id: string, lines: seq<Item>, table: string, token: string)
      modifies this`orders, this`tables, this`items, this`tokens
      ensures State() == Created(old(State()), id, table)
      ensures items == old(items)[id := lines] && tokens == old(tokens)[id := token]
    {
      if table != "" && table in tables && !tables[table].deleted {
        tables := tables[table := tables[table].(current := id)];
      }
      orders := orders[id := Order("pending", table, false)];
      items := items[id := lines];
      tokens := tokens[id := token];
    }

    /** The loop over the submitted lines; `known` is false when it meets an unknown product. */
    method TakeLines(wanted: seq<Item>) returns (known: bool, lines: seq<Item>)
      ensures known <==> AllKnown(wanted, products)
      ensures known ==> lines == ValidLines(wanted)
    {
      hide ValidLine;
      lines := [];
      for i := 0 to |wanted|
        invariant lines == ValidLines(wanted[..i])
        invariant forall k :: 0 <= k < i && ValidLine(wanted[k]) ==> wanted[k].product in products
      {
        assert wanted[..i + 1][..i] == wanted[..i];
        if ValidLine(wanted[i]) {
          if wanted[i].product !in products { return false, lines; }
          lines := lines + [wanted[i]];
        }
      }
      assert wanted[..|wanted|] == wanted;
      known := true;
    }

    /** New lines for an order that is still open. */
    method EditOrder(id: string, wanted: seq<Item>) returns (r: Reply<()>)
      modifies this`items
      ensures r.Ok? <==>
              && id in orders && !orders[id].deleted
              && Lower(Trim(orders[id].status)) !in {"completed", "cancelled", "canceled", "refunded"}
              && Acceptable(wanted, products)
      ensures r.Ok? ==> items == old(items)[id := ValidLines(wanted)]
      ensures r.Ok? ==> CafeSystem.Next(old(Whole()), CafeSystem.Edit(id, ValidLines(wanted)), Whole())
      ensures r.Err? ==> items == old(items)
    {
      if id !in orders || orders[id].deleted { return Err("order not found"); }
      if Normal(orders[id].status) in {"completed", "cancelled", "canceled", "refunded"} {
        return Err("order can no longer be edited");
      }
      var known, lines := TakeLines(wanted);
      if !known { return Err("product not found"); }
      if lines == [] { return Err("at least one product is needed"); }
      items := items[id := lines];
      return Ok(());
    }

    method Transfer(id: string, wanted: string) returns (r: Reply<()>)
      modifies this`orders, this`tables
      ensures r.Ok? <==> CanMove(old(State()), id, Trim(wanted))
      ensures r.Ok? ==> HasMoved(old(State()), State(), id, Trim(wanted))
      ensures r.Err? ==> State() == old(State())
      ensures CafeSystem.Next(old(Whole()), CafeSystem.Move(id, wanted), Whole())
    {
      MovedSays(State(), id, wanted);
      hide HasMoved, CanMove;
      var target := Trim(wanted);
      if target == "" { return Err("choose a target table"); }
      if id !in orders || orders[id].deleted { return Err("order not found"); }
      var order := orders[id];
      if Closed(order.status) { return Err("only an open order can be moved"); }
      if order.table == target { return Err("already there"); }
      if target !in tables || tables[target].deleted { return Err("target table not found"); }
      if Trim(tables[target].current) != "" { return Err("target table is busy"); }
      if TargetBusy(Floor(orders, tables), id, target) { return Err("target table is busy"); }
      orders := orders[id := order.(table := target)];
      var source := order.table;
      if source != "" && source in tables && !tables[source].deleted
         && (tables[source].current == id || Trim(tables[source].current) == "") {
        tables := tables[source := tables[source].(current := "")];
      }
      tables := tables[target := tables[target].(current := id)];
      return Ok(());
    }

    /**
     A status request.  Completing takes the recipes of the order's lines out of stock, in the same
     transaction and exactly when `Deducts` says so; nothing else touches stock.
     */
    method SetStatus(id: string, next: string) returns (r: Reply<()>)
      modifies this`orders, this`tables, this`sales, stock`ingredients, stock`moves
      ensures r.Ok? <==> (id in old(orders) && !old(orders)[id].deleted
                          && ValidTransition(old(orders)[id].status, next))
      ensures r.Ok? ==> HasStatus(old(State()), State(), id, next)
      ensures r.Err? ==> Whole() == old(Whole())
      ensures CafeSystem.Next(old(Whole()), CafeSystem.Restatus(id, next), Whole())
    {
      if LiveOrder(State(), id) && ValidTransition(orders[id].status, next) { StatusSays(State(), id, next); }
      hide Took, ValidTransition, EqualFold, HasStatus;
      if id !in orders || orders[id].deleted { return Err("order not found"); }
      var order := orders[id];
      if !ValidTransition(order.status, next) { return Err("transition not allowed"); }
      if EqualFold(order.status, next) { return Ok(()); }
      if next == "completed" && order.status != "completed" {
        FreeTable(order.table);
        stock.DeductOrder(CafeSystem.LinesOf(items, id), id);
        sales := sales[id := CafeSystem.Sale(stock.recipes, CafeSystem.LinesOf(items, id))];
      }
      if next == "cancelled" {
        FreeTable(order.table);
      }
      orders := orders[id := order.(status := next)];
      return Ok(());
    }

    method FreeTable(table: string)
      modifies this`tables
      ensures tables == if table != "" then Point(old(State()), table, "").tables else old(tables)
    {
      if table != "" && table in tables && !tables[table].deleted {
        tables := tables[table := tables[table].(current := "")];
      }
    }
  }
}

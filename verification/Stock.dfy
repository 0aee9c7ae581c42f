/**
 Stock and its ledger (`RecordStockMovement`, `VoidWasteEvent` and the recipe deduction of
 `UpdateLocalOrderStatusReason` in domains.go).  Quantities are whole hundredths of a unit.
 */
module Stock {
  import opened Prelude

  datatype Ingredient = Ingredient(deleted: bool, stock: int)

  datatype RecipeLine = RecipeLine(ingredient: string, perUnit: int)

  datatype Recipe = Recipe(deleted: bool, product: string, lines: seq<RecipeLine>)

  datatype Item = Item(product: string, quantity: int)

  datatype Movement = Movement(ingredient: string, quantity: int, order: string)

  datatype Waste = Waste(ingredient: string, quantity: int, voided: bool)

  /** What is in stock, and every movement recorded so far. */
  datatype Room = Room(ingredients: map<string, Ingredient>, moves: seq<Movement>)

  predicate Live(s: Room, ing: string) { ing in s.ingredients && !s.ingredients[ing].deleted }

  function Moved(moves: seq<Movement>, ing: string): int {
    if |moves| == 0 then 0
    else Moved(moves[..|moves| - 1], ing)
         + (if moves[|moves| - 1].ingredient == ing then moves[|moves| - 1].quantity else 0)
  }

  /** One movement: stock and ledger change together. */
  function Posted(s: Room, ing: string, delta: int, order: string): Room
    requires ing in s.ingredients
  {
    Room(s.ingredients[ing := s.ingredients[ing].(stock := s.ingredients[ing].stock + delta)],
         s.moves + [Movement(ing, delta, order)])
  }

  /** From `s` to `t`, each ingredient's stock moved by what the ledger says, and nothing else changed. */
  ghost predicate Ledger(s: Room, t: Room) {
    && t.ingredients.Keys == s.ingredients.Keys
    && (forall ing :: ing in s.ingredients ==>
          && t.ingredients[ing].deleted == s.ingredients[ing].deleted
          && t.ingredients[ing].stock - s.ingredients[ing].stock == Moved(t.moves, ing) - Moved(s.moves, ing))
  }

  /** What the movements filed under an order sum to. */
  function Tagged(moves: seq<Movement>, order: string, ing: string): int {
    if |moves| == 0 then 0
    else
      var m := moves[|moves| - 1];
      Tagged(moves[..|moves| - 1], order, ing) + (if m.order == order && m.ingredient == ing then m.quantity else 0)
  }

  function Taken(s: Room, used: string -> int, ing: string): int { if Live(s, ing) then used(ing) else 0 }

  /**
   Of live ingredient `ing`, exactly `used(ing)` was taken; of the others nothing.  The movements
   were added at the end, filed under `order`, and account for it.
   */
  ghost predicate Took(s: Room, t: Room, used: string -> int, order: string) {
    && Ledger(s, t) && s.moves <= t.moves
    && (forall ing :: ing in s.ingredients ==>
          t.ingredients[ing].stock == s.ingredients[ing].stock - Taken(s, used, ing))
    && (forall o, ing :: Accounted(s, t, used, order, o, ing))
  }

  ghost predicate Accounted(s: Room, t: Room, used: string -> int, order: string, o: string, ing: string) {
    Tagged(t.moves, o, ing) == Tagged(s.moves, o, ing) - (if o == order then Taken(s, used, ing) else 0)
  }

  lemma TookNothing(s: Room, used: string -> int, order: string)
    requires forall ing :: used(ing) == 0
    ensures Took(s, s, used, order)
  {
    hide Tagged, Moved;
  }

  /** One line: a live ingredient's movement, filed under the order. */
  lemma TookLine(s: Room, line: RecipeLine, quantity: int, order: string)
    requires Live(s, line.ingredient)
    ensures Took(s, Posted(s, line.ingredient, -(line.perUnit * quantity), order), LineTakes(line, quantity), order)
  {
    var ing, delta := line.ingredient, -(line.perUnit * quantity);
    var t := Posted(s, ing, delta, order);
    var used := LineTakes(line, quantity);
    PostedLedger(s, ing, delta, order);
    PostedTagged(s, ing, delta, order);
    hide Moved;
    forall o, i
      ensures Accounted(s, t, used, order, o, i)
    {
      assert Tagged(t.moves, o, i) == Tagged(s.moves, o, i) + (if o == order && i == ing then delta else 0);
    }
  }

  lemma LedgerTransitive(a: Room, b: Room, c: Room)
    requires Ledger(a, b) && Ledger(b, c)
    ensures Ledger(a, c)
  {
  }

  lemma PostedLedger(s: Room, ing: string, delta: int, order: string)
    requires ing in s.ingredients
    ensures Ledger(s, Posted(s, ing, delta, order))
  {
    var t := Posted(s, ing, delta, order);
    assert t.moves[..|s.moves|] == s.moves;
  }

  /** A movement of nothing else: it counts for its own order and ingredient only. */
  lemma PostedTagged(s: Room, ing: string, delta: int, order: string)
    requires ing in s.ingredients
    ensures forall o, i :: Tagged(Posted(s, ing, delta, order).moves, o, i) ==
              Tagged(s.moves, o, i) + (if o == order && i == ing then delta else 0)
  {
    var t := Posted(s, ing, delta, order);
    assert t.moves[..|s.moves|] == s.moves;
  }

  /** A line of an ingredient that is gone, or of nothing, takes nothing. */
  lemma TookSkipped(s: Room, line: RecipeLine, quantity: int, order: string)
    requires !Live(s, line.ingredient) || line.perUnit * quantity == 0
    ensures Took(s, s, LineTakes(line, quantity), order)
  {
    hide Tagged, Moved;
  }

  lemma SameTook(s: Room, t: Room, f: string -> int, g: string -> int, order: string)
    requires Took(s, t, f, order) && forall ing :: f(ing) == g(ing)
    ensures Took(s, t, g, order)
  {
    hide Tagged, Moved;
    forall o, ing
      ensures Accounted(s, t, g, order, o, ing)
    {
      assert Accounted(s, t, f, order, o, ing);
    }
  }

  lemma TookThen(a: Room, b: Room, c: Room, f: string -> int, g: string -> int, h: string -> int, order: string)
    requires Took(a, b, f, order) && Took(b, c, g, order) && forall ing :: h(ing) == f(ing) + g(ing)
    ensures Took(a, c, h, order)
  {
    LedgerTransitive(a, b, c);
    hide Tagged, Moved;
    forall ing
      ensures Taken(a, h, ing) == Taken(a, f, ing) + Taken(b, g, ing)
    {
      assert Live(a, ing) == Live(b, ing);
    }
    forall o, ing
      ensures Accounted(a, c, h, order, o, ing)
    {
      assert Accounted(a, b, f, order, o, ing) && Accounted(b, c, g, order, o, ing);
    }
  }

  // ----- what an order uses -----

  function LinesUse(lines: seq<RecipeLine>, quantity: int, ing: string): int {
    if |lines| == 0 then 0
    else
      var l := lines[|lines| - 1];
      LinesUse(lines[..|lines| - 1], quantity, ing) + (if l.ingredient == ing then l.perUnit * quantity else 0)
  }

  function RecipeUse(r: Recipe, item: Item, ing: string): int {
    if r.deleted || r.product != item.product then 0 else LinesUse(r.lines, item.quantity, ing)
  }

  /** The use of one item over a set of recipes, in whatever order they come. */
  ghost function RecipesUse(recipes: map<string, Recipe>, s: set<string>, item: Item, ing: string): int
    requires s <= recipes.Keys
    decreases |s|
  {
    if s == {} then 0
    else
      var r :| r in s;
      RecipeUse(recipes[r], item, ing) + RecipesUse(recipes, s - {r}, item, ing)
  }

  /** Taking any recipe out first gives the same sum. */
  lemma {:induction false} AnyRecipeFirst(recipes: map<string, Recipe>, s: set<string>, item: Item, ing: string,
                                          r: string)
    requires s <= recipes.Keys && r in s
    ensures RecipesUse(recipes, s, item, ing)
            == RecipeUse(recipes[r], item, ing) + RecipesUse(recipes, s - {r}, item, ing)
    decreases |s|
  {
    var x :| x in s && RecipesUse(recipes, s, item, ing)
                       == RecipeUse(recipes[x], item, ing) + RecipesUse(recipes, s - {x}, item, ing);
    if x != r {
      AnyRecipeFirst(recipes, s - {x}, item, ing, r);
      AnyRecipeFirst(recipes, s - {r}, item, ing, x);
      assert s - {x} - {r} == s - {r} - {x};
    }
  }

  lemma OneMoreRecipe(recipes: map<string, Recipe>, done: set<string>, item: Item, r: string)
    requires done <= recipes.Keys && r in recipes && r !in done
    ensures forall ing :: RecipesUse(recipes, done + {r}, item, ing)
                          == RecipesUse(recipes, done, item, ing) + RecipeUse(recipes[r], item, ing)
  {
    forall ing
      ensures RecipesUse(recipes, done + {r}, item, ing)
              == RecipesUse(recipes, done, item, ing) + RecipeUse(recipes[r], item, ing)
    {
      AnyRecipeFirst(recipes, done + {r}, item, ing, r);
      assert done + {r} - {r} == done;
    }
  }

  ghost function OrderUse(recipes: map<string, Recipe>, items: seq<Item>, ing: string): int {
    if |items| == 0 then 0
    else OrderUse(recipes, items[..|items| - 1], ing)
         + RecipesUse(recipes, recipes.Keys, items[|items| - 1], ing)
  }

  // ----- laws that say what an order uses -----

  lemma {:induction false} LinesAdd(a: seq<RecipeLine>, b: seq<RecipeLine>, quantity: int, ing: string)
    ensures LinesUse(a + b, quantity, ing) == LinesUse(a, quantity, ing) + LinesUse(b, quantity, ing)
  {
    if |b| == 0 {
      assert a + b == a;
    } else {
      var n := |b| - 1;
      assert (a + b)[..|a + b| - 1] == a + b[..n] && (a + b)[|a + b| - 1] == b[n];
      LinesAdd(a, b[..n], quantity, ing);
    }
  }

  /** Recipes are looked at one by one, so those outside a set do not matter. */
  lemma {:induction false} SameRecipes(a: map<string, Recipe>, b: map<string, Recipe>, s: set<string>, item: Item,
                                       ing: string)
    requires s <= a.Keys && s <= b.Keys && forall r :: r in s ==> a[r] == b[r]
    ensures RecipesUse(a, s, item, ing) == RecipesUse(b, s, item, ing)
    decreases |s|
  {
    if s != {} {
      var r :| r in s;
      AnyRecipeFirst(a, s, item, ing, r);
      AnyRecipeFirst(b, s, item, ing, r);
      SameRecipes(a, b, s - {r}, item, ing);
    }
  }

  /** An order uses what its parts use together. */
  lemma {:induction false} ItemsAdd(recipes: map<string, Recipe>, a: seq<Item>, b: seq<Item>, ing: string)
    ensures OrderUse(recipes, a + b, ing) == OrderUse(recipes, a, ing) + OrderUse(recipes, b, ing)
  {
    if |b| == 0 {
      assert a + b == a;
    } else {
      var n := |b| - 1;
      assert (a + b)[..|a + b| - 1] == a + b[..n] && (a + b)[|a + b| - 1] == b[n];
      ItemsAdd(recipes, a, b[..n], ing);
    }
  }

  /** One more recipe adds what it uses by itself. */
  lemma {:induction false} RecipesAdd(recipes: map<string, Recipe>, id: string, recipe: Recipe, items: seq<Item>,
                                      ing: string)
    requires id !in recipes
    ensures OrderUse(recipes[id := recipe], items, ing)
            == OrderUse(recipes, items, ing) + OrderUse(map[id := recipe], items, ing)
  {
    if |items| > 0 {
      var n := |items| - 1;
      var all, one := recipes[id := recipe], map[id := recipe];
      RecipesAdd(recipes, id, recipe, items[..n], ing);
      AnyRecipeFirst(all, all.Keys, items[n], ing, id);
      assert all.Keys - {id} == recipes.Keys;
      SameRecipes(all, recipes, recipes.Keys, items[n], ing);
      AnyRecipeFirst(one, one.Keys, items[n], ing, id);
      assert one.Keys - {id} == {};
    }
  }

  /** A recipe of one line, for one item: so much per unit for a live recipe of the product, else nothing. */
  lemma OneLineUse(id: string, recipe: Recipe, line: RecipeLine, item: Item, ing: string)
    requires recipe.lines == [line]
    ensures OrderUse(map[id := recipe], [item], ing) ==
            if !recipe.deleted && recipe.product == item.product && line.ingredient == ing
            then line.perUnit * item.quantity else 0
  {
    OneRecipeUse(id, recipe, item, ing);
    OneLine(line, item.quantity, ing);
  }

  lemma OneLine(line: RecipeLine, quantity: int, ing: string)
    ensures LinesUse([line], quantity, ing) == if line.ingredient == ing then line.perUnit * quantity else 0
  {
    assert [line][..0] == [];
  }

  /** A recipe of several lines uses what they use one by one, and no recipe uses nothing. */
  lemma RecipeLinesAdd(id: string, a: Recipe, b: Recipe, whole: Recipe, item: Item, ing: string)
    requires whole == a.(lines := a.lines + b.lines) && b == a.(lines := b.lines)
    ensures OrderUse(map[id := whole], [item], ing)
            == OrderUse(map[id := a], [item], ing) + OrderUse(map[id := b], [item], ing)
    ensures OrderUse(map[id := a.(lines := [])], [item], ing) == OrderUse(map[], [item], ing) == 0
  {
    OneRecipeUse(id, whole, item, ing);
    OneRecipeUse(id, a, item, ing);
    OneRecipeUse(id, b, item, ing);
    OneRecipeUse(id, a.(lines := []), item, ing);
    LinesAdd(a.lines, b.lines, item.quantity, ing);
    var none: map<string, Recipe> := map[];
    assert none.Keys == {};
    assert [item][..0] == [];
  }

  lemma OneRecipeUse(id: string, recipe: Recipe, item: Item, ing: string)
    ensures OrderUse(map[id := recipe], [item], ing) == RecipeUse(recipe, item, ing)
  {
    var one := map[id := recipe];
    AnyRecipeFirst(one, one.Keys, item, ing, id);
    assert one.Keys - {id} == {};
    assert [item][..0] == [];
  }

  // The uses above as functions of the ingredient.

  function LineTakes(line: RecipeLine, quantity: int): string -> int {
    (ing: string) => if line.ingredient == ing then line.perUnit * quantity else 0
  }

  function LinesTake(lines: seq<RecipeLine>, quantity: int): string -> int {
    (ing: string) => LinesUse(lines, quantity, ing)
  }

  function RecipeTakes(r: Recipe, item: Item): string -> int {
    (ing: string) => RecipeUse(r, item, ing)
  }

  ghost function RecipesTake(recipes: map<string, Recipe>, s: set<string>, item: Item): string -> int
    requires s <= recipes.Keys
  {
    (ing: string) => RecipesUse(recipes, s, item, ing)
  }

  ghost function OrderTakes(recipes: map<string, Recipe>, items: seq<Item>): string -> int {
    (ing: string) => OrderUse(recipes, items, ing)
  }

  // ----- movements -----

  function Abs(x: int): int { if x < 0 then -x else x }

  /** The signed change of a movement; an outgoing one stops at zero, a count is turned into a difference. */
  function SignedDelta(kind: string, quantity: int, current: int): int {
    if kind in {"consumption", "waste", "return_to_supplier", "transfer_out"} then -Abs(quantity)
    else if kind == "outgoing" then
      if current <= 0 then 0 else if Abs(quantity) > current then -current else -Abs(quantity)
    else if kind == "adjustment" then quantity
    else if kind == "adjustment_target" then quantity - current
    else Abs(quantity)
  }

  /** What a movement of a kind makes of the stock. */
  ghost predicate StockMoves(kind: string, quantity: int, was: int, now: int) {
    var size := if quantity < 0 then -quantity else quantity;
    if kind in {"consumption", "waste", "return_to_supplier", "transfer_out"} then now == was - size
    else if kind == "outgoing" then
      && (was <= 0 ==> now == was)
      && (0 < was <= size ==> now == 0)
      && (size <= was ==> now == was - size)
    else if kind == "adjustment" then now == was + quantity
    else if kind == "adjustment_target" then now == quantity
    else now == was + size
  }

  /** Selling never takes stock below zero, and a count sets it. */
  lemma DeltaLaws(quantity: int, current: int)
    ensures current >= 0 ==> 0 <= current + SignedDelta("outgoing", quantity, current) <= current
    ensures current < 0 ==> SignedDelta("outgoing", quantity, current) == 0
    ensures current + SignedDelta("adjustment_target", quantity, current) == quantity
    ensures SignedDelta("waste", quantity, current) + SignedDelta("adjustment", Abs(quantity), current) == 0
    ensures forall kind :: StockMoves(kind, quantity, current, current + SignedDelta(kind, quantity, current))
  {
  }

  /** The ledger with the waste events. */
  datatype Books = Books(room: Room, wastes: map<string, Waste>)

  /** A hand-entered movement; waste also leaves an event that can be voided. */
  function Recorded(b: Books, ing: string, kind: string, quantity: int, wasteId: string): Books {
    if quantity == 0 || !Live(b.room, ing) then b
    else
      Books(Posted(b.room, ing, SignedDelta(kind, quantity, b.room.ingredients[ing].stock), ""),
            if kind == "waste" then b.wastes[wasteId := Waste(ing, Abs(quantity), false)] else b.wastes)
  }

  /** Marking a waste event voided, the first of the two transactions of a void. */
  function Marked(b: Books, id: string): Books {
    if id in b.wastes && !b.wastes[id].voided then b.(wastes := b.wastes[id := b.wastes[id].(voided := true)]) else b
  }

  /** Both: an event not voided yet gives its quantity back. */
  function Voided(b: Books, id: string): Books {
    if id !in b.wastes || b.wastes[id].voided || b.wastes[id].ingredient == "" then Marked(b, id)
    else Recorded(Marked(b, id), b.wastes[id].ingredient, "adjustment", b.wastes[id].quantity, "")
  }

  /** A void as it may go: cut short between its two transactions, only the mark stays. */
  function VoidedOrCut(b: Books, id: string, cut: bool): Books { if cut then Marked(b, id) else Voided(b, id) }

  /** Its ingredient's stock has grown by the event's quantity. */
  ghost predicate GivesBack(b: Books, after: Books, w: Waste) {
    && w.ingredient in b.room.ingredients && w.ingredient in after.room.ingredients
    && after.room.ingredients[w.ingredient].stock == b.room.ingredients[w.ingredient].stock + w.quantity
  }

  /**
   An event not voided yet, with an ingredient and a quantity, gives its quantity back if and only if
   the ingredient is live and the void is not cut short; otherwise stock and ledger stay.  It is marked
   either way, so no later void gives anything back.
   */
  lemma VoidGivesIff(b: Books, id: string, cut: bool)
    requires id in b.wastes && !b.wastes[id].voided && b.wastes[id].ingredient != "" && b.wastes[id].quantity != 0
    ensures var after, w := VoidedOrCut(b, id, cut), b.wastes[id];
      && (GivesBack(b, after, w) <==> (Live(b.room, w.ingredient) && !cut))
      && (!GivesBack(b, after, w) ==> after.room == b.room)
      && forall again :: VoidedOrCut(after, id, again) == after
  {
  }

  lemma RecordedLedger(b: Books, ing: string, kind: string, quantity: int, wasteId: string)
    ensures Ledger(b.room, Recorded(b, ing, kind, quantity, wasteId).room)
    ensures forall o, i :: o != "" ==>
              Tagged(Recorded(b, ing, kind, quantity, wasteId).room.moves, o, i) == Tagged(b.room.moves, o, i)
  {
    if quantity != 0 && Live(b.room, ing) {
      var delta := SignedDelta(kind, quantity, b.room.ingredients[ing].stock);
      PostedLedger(b.room, ing, delta, "");
      PostedTagged(b.room, ing, delta, "");
    }
  }

  /** Recording waste and voiding it brings the stock back, once: a second void changes nothing. */
  lemma VoidRestores(b: Books, ing: string, quantity: int, id: string)
    requires Live(b.room, ing) && ing != "" && quantity != 0 && id !in b.wastes
    ensures var after := Voided(Recorded(b, ing, "waste", quantity, id), id);
      && after.room.ingredients == b.room.ingredients && Voided(after, id) == after
  {
  }

  /** Five units of a deleted ingredient are voided and lost, and so are those of a void cut short. */
  lemma VoidLosesExample(gone: bool)
    ensures var b := Books(Room(map["milk" := Ingredient(gone, 0)], []), map["w" := Waste("milk", 500, false)]);
      var after := VoidedOrCut(b, "w", !gone);
      after.room.ingredients["milk"].stock == 0 && after.wastes["w"].voided && Voided(after, "w") == after
  {
  }

  class StockRoom {
    var ingredients: map<string, Ingredient>
    var moves: seq<Movement>
    var recipes: map<string, Recipe>
    var wastes: map<string, Waste>

    ghost function State(): Room
      reads this
    {
      Room(ingredients, moves)
    }

    ghost function Both(): Books
      reads this
    {
      Books(State(), wastes)
    }

    /** One recipe line: an ingredient that is gone is skipped, and nothing is recorded for nothing. */
    method DeductLine(line: RecipeLine, quantity: int, order: string)
      modifies this`ingredients, this`moves
      ensures Took(old(State()), State(), LineTakes(line, quantity), order)
    {
      hide Took;
      var deduct := line.perUnit * quantity;
      if line.ingredient in ingredients && !ingredients[line.ingredient].deleted && deduct != 0 {
        TookLine(State(), line, quantity, order);
        ingredients := ingredients[line.ingredient :=
          ingredients[line.ingredient].(stock := ingredients[line.ingredient].stock - deduct)];
        moves := moves + [Movement(line.ingredient, -deduct, order)];
      } else {
        TookSkipped(State(), line, quantity, order);
      }
    }

    method DeductLines(lines: seq<RecipeLine>, quantity: int, order: string)
      modifies this`ingredients, this`moves
      ensures Took(old(State()), State(), LinesTake(lines, quantity), order)
    {
      hide Took;
      TookNothing(State(), LinesTake(lines[..0], quantity), order);
      for i := 0 to |lines|
        invariant Took(old(State()), State(), LinesTake(lines[..i], quantity), order)
      {
        ghost var before := State();
        DeductLine(lines[i], quantity, order);
        assert lines[..i + 1][..i] == lines[..i];
        TookThen(old(State()), before, State(), LinesTake(lines[..i], quantity),
                 LineTakes(lines[i], quantity), LinesTake(lines[..i + 1], quantity), order);
      }
      assert lines[..|lines|] == lines;
    }

    method DeductRecipe(r: Recipe, item: Item, order: string)
      modifies this`ingredients, this`moves
      ensures Took(old(State()), State(), RecipeTakes(r, item), order)
    {
      hide Took;
      if !r.deleted && r.product == item.product {
        DeductLines(r.lines, item.quantity, order);
        SameTook(old(State()), State(), LinesTake(r.lines, item.quantity), RecipeTakes(r, item), order);
      } else {
        TookNothing(State(), RecipeTakes(r, item), order);
      }
    }

    /** Recipes are met in no fixed order; every one of the product counts. */
    method DeductItem(item: Item, order: string)
      modifies this`ingredients, this`moves
      ensures Took(old(State()), State(), RecipesTake(recipes, recipes.Keys, item), order)
    {
      hide Took;
      var todo := recipes.Keys;
      assert recipes.Keys - todo == {};
      TookNothing(State(), RecipesTake(recipes, {}, item), order);
      while todo != {}
        invariant todo <= recipes.Keys
        invariant Took(old(State()), State(), RecipesTake(recipes, recipes.Keys - todo, item), order)
        decreases todo
      {
        var r :| r in todo;
        ghost var before, done := State(), recipes.Keys - todo;
        DeductRecipe(recipes[r], item, order);
        OneMoreRecipe(recipes, done, item, r);
        assert recipes.Keys - (todo - {r}) == done + {r};
        TookThen(old(State()), before, State(), RecipesTake(recipes, done, item), RecipeTakes(recipes[r], item),
                 RecipesTake(recipes, done + {r}, item), order);
        todo := todo - {r};
      }
      assert recipes.Keys - {} == recipes.Keys;
    }

    /** Completing an order: all its items, whatever order the recipes come in. */
    method DeductOrder(items: seq<Item>, order: string)
      modifies this`ingredients, this`moves
      ensures Took(old(State()), State(), OrderTakes(recipes, items), order)
    {
      hide Took;
      TookNothing(State(), OrderTakes(recipes, items[..0]), order);
      for i := 0 to |items|
        invariant Took(old(State()), State(), OrderTakes(recipes, items[..i]), order)
      {
        ghost var before := State();
        DeductItem(items[i], order);
        assert items[..i + 1][..i] == items[..i];
        TookThen(old(State()), before, State(), OrderTakes(recipes, items[..i]),
                 RecipesTake(recipes, recipes.Keys, items[i]), OrderTakes(recipes, items[..i + 1]), order);
      }
      assert items[..|items|] == items;
    }

    /** A hand-entered movement; waste also leaves an event that can be voided. */
    method Record(ing: string, kind: string, quantity: int, wasteId: string) returns (r: Reply<()>)
      modifies this`ingredients, this`moves, this`wastes
      ensures r.Ok? <==> quantity != 0 && Live(old(State()), ing)
      ensures Both() == Recorded(old(Both()), ing, kind, quantity, wasteId)
      ensures r.Ok? ==>
                && ing in ingredients && StockMoves(kind, quantity, old(ingredients)[ing].stock, ingredients[ing].stock)
                && ingredients == old(ingredients)[ing := old(ingredients)[ing].(stock := ingredients[ing].stock)]
                && moves == old(moves) + [Movement(ing, ingredients[ing].stock - old(ingredients)[ing].stock, "")]
                && wastes == (if kind == "waste"
                              then old(wastes)[wasteId :=
                                     Waste(ing, if quantity < 0 then -quantity else quantity, false)]
                              else old(wastes))
      ensures r.Err? ==> Both() == old(Both())
    {
      if quantity == 0 { return Err("quantity is not valid"); }
      if ing !in ingredients || ingredients[ing].deleted { return Err("ingredient not found"); }
      var current := ingredients[ing].stock;
      var signed, final := ResolveDelta(kind, quantity, current);
      ingredients := ingredients[ing := ingredients[ing].(stock := current + signed)];
      moves := moves + [Movement(ing, signed, "")];
      if final == "waste" { wastes := wastes[wasteId := Waste(ing, Abs(quantity), false)]; }
      return Ok(());
    }

    /** The signed change and the kind under which the movement is filed. */
    method ResolveDelta(kind: string, quantity: int, current: int) returns (signed: int, final: string)
      ensures signed == SignedDelta(kind, quantity, current)
      ensures final == "waste" <==> kind == "waste"
    {
      var absQty := if quantity < 0 then -quantity else quantity;
      signed, final := absQty, kind;
      if kind in {"consumption", "waste", "return_to_supplier", "transfer_out", "outgoing"} {
        signed := -absQty;
        if kind == "outgoing" {
          if current <= 0 { signed := 0; } else if absQty > current { signed := -current; }
          final := "consumption";
        }
      } else if kind == "adjustment" {
        signed := quantity;
      } else if kind == "adjustment_target" {
        signed := quantity - current;
        final := "adjustment";
      }
    }

    /**
     Voiding waste puts its quantity back, once: the event is marked first, in its own transaction,
     so a second call never adds again.
     */
    method VoidWaste(id: string) returns (r: Reply<()>)
      modifies this`ingredients, this`moves, this`wastes
      ensures Both() == Voided(old(Both()), id)
      ensures r.Ok? <==>
              (id in old(wastes) && !old(wastes)[id].voided &&
               var w := old(wastes)[id]; w.ingredient == "" || w.quantity == 0 || Live(old(State()), w.ingredient))
      ensures wastes == (if id in old(wastes) then old(wastes)[id := old(wastes)[id].(voided := true)] else old(wastes))
      ensures r.Err? || old(wastes)[id].ingredient == "" || old(wastes)[id].quantity == 0 ==> State() == old(State())
      ensures r.Ok? && old(wastes)[id].ingredient != "" && old(wastes)[id].quantity != 0 ==>
                var w := old(wastes)[id];
                && w.ingredient in old(ingredients)
                && ingredients == old(ingredients)[w.ingredient :=
                     old(ingredients)[w.ingredient].(stock := old(ingredients)[w.ingredient].stock + w.quantity)]
                && moves == old(moves) + [Movement(w.ingredient, w.quantity, "")]
    {
      if id !in wastes { return Err("waste event not found"); }
      var w := wastes[id];
      if w.voided { return Err("already voided"); }
      wastes := wastes[id := w.(voided := true)];
      if w.ingredient != "" && w.quantity != 0 {
        r := Record(w.ingredient, "adjustment", w.quantity, "");
        return;
      }
      return Ok(());
    }
  }
}

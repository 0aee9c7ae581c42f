/**
 Paying a bill in parts (`splitQuote`, `RecordSplitPayment` and `UndoLastSplitPayment` in
 domains.go): a log of payments that grows at its end and can be undone from its end.
 */
module SplitPayments {
  import opened Prelude
  import opened SplitBill
  import Text

  datatype Settlement = Unpaid | Partial | Paid

  datatype Order = Order(
    items: seq<Item>, total: int, status: string, payments: seq<Payment>,
    paid: int, remaining: int, settlement: Settlement)

  function BillOf(o: Order): seq<BillLine> { Bill(o.items, o.total, o.payments) }

  function Unpaid(l: BillLine): int { l.quantity - l.paidQuantity }

  /** What paying `qty` units of a line costs now; taking all that is left costs all that is left. */
  function SplitQuote(l: BillLine, qty: int): int {
    if qty <= 0 || Unpaid(l) <= 0 then 0
    else if qty >= Unpaid(l) then l.remaining
    else
      var byUnit := qty * l.unit;
      var amt := if byUnit <= 0 then GoDiv(l.remaining * qty, Unpaid(l)) else byUnit;
      if amt > l.remaining then l.remaining else amt
  }

  /**
   The price of a pick, said in full: the rest of the line for all units left, else so many times the
   unit price, but a proportional part of the rest when units are worth less than a rial.
   */
  ghost predicate QuoteSays(l: BillLine, qty: int, amount: int) {
    var left := l.quantity - l.paidQuantity;
    && (qty <= 0 || left <= 0 ==> amount == 0)
    && (0 < left <= qty ==> amount == l.remaining)
    && (0 < qty < left && l.unit > 0 && qty * l.unit <= l.remaining ==> amount == qty * l.unit)
    && (0 < qty < left && l.unit > 0 && qty * l.unit > l.remaining ==> amount == l.remaining)
    && (0 < qty < left && l.unit == 0 ==> amount * left <= l.remaining * qty < amount * left + left)
  }

  lemma SplitQuoteSays(l: BillLine, qty: int)
    requires 0 <= l.unit && 0 <= l.remaining
    ensures QuoteSays(l, qty, SplitQuote(l, qty))
  {
    var left := Unpaid(l);
    if 0 < qty < left {
      if l.unit == 0 {
        ProductSign(l.remaining, qty);
        var p := l.remaining * qty;
        assert p == left * (p / left) + p % left;
        MulMonotone(qty, left, l.remaining);
        assert (p / left) * left <= l.remaining * left;
        MulCancel(p / left, l.remaining, left);
      } else {
        UnitPositive(qty, l.unit);
      }
    }
  }

  lemma UnitPositive(qty: int, unit: int)
    requires qty > 0 && unit > 0
    ensures qty * unit > 0
  {
  }

  /** The bill line filed under a key; a later line of the same key wins. */
  function Find(bill: seq<BillLine>, key: string): (r: Option<BillLine>)
    ensures r.Some? ==> r.value in bill && r.value.key == key
    ensures r.None? ==> forall i :: 0 <= i < |bill| ==> bill[i].key != key
  {
    if |bill| == 0 then None
    else if bill[|bill| - 1].key == key then Some(bill[|bill| - 1])
    else Find(bill[..|bill| - 1], key)
  }

  /** The order with another payment log, and its three summary fields brought up to date. */
  function WithPayments(o: Order, payments: seq<Payment>): Order {
    var paid := Collected(payments);
    var rem := NonNegative(o.total - paid);
    o.(payments := payments, paid := paid, remaining := rem,
       settlement := if rem == 0 && o.total > 0 then Paid else if paid > 0 then Partial else Settlement.Unpaid)
  }

  /** The summary fields say what the payment log says. */
  ghost predicate Summed(o: Order) {
    && o.paid == Collected(o.payments)
    && o.remaining == (if o.paid <= o.total then o.total - o.paid else 0)
    && (o.settlement.Paid? <==> o.remaining == 0 && o.total > 0)
    && (o.settlement.Partial? <==> !o.settlement.Paid? && o.paid > 0)
  }

  /** The same order with this payment log and its summary. */
  ghost predicate Updated(o: Order, o': Order, payments: seq<Payment>) {
    o'.items == o.items && o'.total == o.total && o'.status == o.status && o'.payments == payments && Summed(o')
  }

  lemma WithIsUpdated(o: Order, payments: seq<Payment>)
    ensures Updated(o, WithPayments(o, payments), payments)
  {
  }

  predicate TokenUsed(payments: seq<Payment>, token: string) {
    exists i :: 0 <= i < |payments| && payments[i].token == token
  }

  /** A pick the bill can honour: a line of the order, and no more than what it still owes. */
  predicate PickOk(bill: seq<BillLine>, key: string, qty: int) {
    Find(bill, key).Some? && 0 < qty <= Unpaid(Find(bill, key).value)
  }

  function AmountSum(lines: seq<PaymentLine>): int {
    if |lines| == 0 then 0 else AmountSum(lines[..|lines| - 1]) + lines[|lines| - 1].amount
  }

  ghost predicate DistinctLines(lines: seq<PaymentLine>) {
    forall i, j :: 0 <= i < j < |lines| ==> lines[i].lineId != lines[j].lineId
  }

  ghost predicate QuotedLines(bill: seq<BillLine>, lines: seq<PaymentLine>) {
    && DistinctLines(lines)
    && forall i :: 0 <= i < |lines| ==>
         && PickOk(bill, lines[i].lineId, lines[i].quantity)
         && lines[i].amount == SplitQuote(Find(bill, lines[i].lineId).value, lines[i].quantity)
  }

  /** A payment that this order could have accepted. */
  ghost predicate Legit(o: Order, p: Payment) {
    QuotedLines(BillOf(o), p.lines) && p.amount == AmountSum(p.lines) && p.amount > 0
  }

  /** The same payment, sent again. */
  predicate Repeats(o: Order, token: string) {
    Text.Trim(token) != "" && TokenUsed(o.payments, Text.Trim(token))
  }

  /** Every pick can be honoured, and together they cost something. */
  ghost predicate Payable(bill: seq<BillLine>, picks: map<string, int>) {
    && (forall k :: k in picks ==> PickOk(bill, k, picks[k]))
    && (exists k :: k in picks && SplitQuote(Find(bill, k).value, picks[k]) > 0)
  }

  /** Exactly when a payment is taken. */
  ghost predicate Accepts(o: Order, picks: map<string, int>, kind: string, token: string) {
    && Text.Trim(Text.Lower(kind)) in {"cash", "card", "transfer"} && picks != map[]
    && Text.Lower(o.status) !in {"completed", "cancelled", "canceled", "refunded"}
    && (Repeats(o, token) || Payable(BillOf(o), picks))
  }

  class OrderBook {
    var orders: map<string, Order>

    /** Go visits the picks in no fixed order, so the order of the payment's lines is open. */
    method Record(orderId: string, picks: map<string, int>, kind: string, token: string)
      returns (r: Reply<(int, int)>)
      modifies this
      ensures r.Ok? <==> orderId in old(orders) && Accepts(old(orders)[orderId], picks, kind, token)
      ensures r.Err? ==> orders == old(orders)
      ensures r.Ok? && Repeats(old(orders)[orderId], token) ==> orders == old(orders)
      ensures r.Ok? && !Repeats(old(orders)[orderId], token) ==>
                exists p ::
                  && Legit(old(orders)[orderId], p)
                  && p.token == Text.Trim(token) && p.kind == Text.Trim(Text.Lower(kind))
                  && Quoting(BillOf(old(orders)[orderId]), picks, p.lines)
                  && orderId in orders && orders == old(orders)[orderId := orders[orderId]]
                  && Updated(old(orders)[orderId], orders[orderId], old(orders)[orderId].payments + [p])
      ensures r.Ok? ==> r.value.0 == Collected(orders[orderId].payments)
                        && r.value.1 == NonNegative(orders[orderId].total - r.value.0)
    {
      var known := Text.Trim(Text.Lower(kind));
      hide SplitQuote, QuotedLines, FromPicks, Bill, TokenUsed, Summed;
      if known !in {"cash", "card", "transfer"} { return Err("UNKNOWN_METHOD"); }
      if picks == map[] { return Err("NOTHING_PICKED"); }
      if orderId !in orders { return Err("ORDER_NOT_FOUND"); }
      var o := orders[orderId];
      if Text.Lower(o.status) in {"completed", "cancelled", "canceled", "refunded"} { return Err("ORDER_CLOSED"); }
      var bill, paid, remaining := SplitBillOf(o.items, o.total, o.payments);
      if Repeats(o, token) { return Ok((paid, remaining)); }
      var bad, lines, amount := Quote(bill, picks);
      if bad { return Err("BAD_PICK"); }
      PositiveAmount(o, picks, lines);
      if amount <= 0 { return Err("ZERO_AMOUNT"); }
      var p := Payment(known, amount, Text.Trim(token), lines);
      WithIsUpdated(o, o.payments + [p]);
      assert (o.payments + [p])[..|o.payments|] == o.payments;
      orders := orders[orderId := WithPayments(o, o.payments + [p])];
      return Ok((paid + amount, NonNegative(o.total - (paid + amount))));
    }

    method Quote(bill: seq<BillLine>, picks: map<string, int>)
      returns (bad: bool, lines: seq<PaymentLine>, amount: int)
      ensures bad ==> exists k :: k in picks && !PickOk(bill, k, picks[k])
      ensures !bad ==> Quoting(bill, picks, lines) && amount == AmountSum(lines)
      ensures !bad && NoneNegative(bill) ==> forall k :: 0 <= k < |lines| ==> PricedBy(bill, lines[k])
    {
      hide Progress, Quoting, QuotedLines, NoneNegative, PricedBy, SplitQuote;
      ProgressStart(bill, picks);
      lines, amount := [], 0;
      var todo := picks.Keys;
      while todo != {}
        invariant Progress(bill, picks, todo, lines) && amount == AmountSum(lines)
        decreases todo
      {
        ProgressTodo(bill, picks, todo, lines);
        var key :| key in todo;
        if !PickOk(bill, key, picks[key]) { return true, [], 0; }
        var amt := SplitQuote(Find(bill, key).value, picks[key]);
        AddLine(bill, picks, todo, lines, PaymentLine(key, picks[key], amt));
        lines := lines + [PaymentLine(key, picks[key], amt)];
        amount := amount + amt;
        todo := todo - {key};
      }
      bad := false;
      ProgressEnd(bill, picks, lines);
      LinesQuoted(bill, lines);
    }

    /** Takes the last payment back. */
    method UndoLast(orderId: string) returns (r: Reply<()>)
      modifies this
      ensures r.Ok? <==> orderId in old(orders) && old(orders)[orderId].payments != []
                         && !Text.EqualFold(old(orders)[orderId].status, "completed")
      ensures r.Err? ==> orders == old(orders)
      ensures r.Ok? ==>
                && orderId in orders && orders == old(orders)[orderId := orders[orderId]]
                && Updated(old(orders)[orderId], orders[orderId],
                           old(orders)[orderId].payments[..|old(orders)[orderId].payments| - 1])
    {
      if orderId !in orders { return Err("ORDER_NOT_FOUND"); }
      var o := orders[orderId];
      if Text.EqualFold(o.status, "completed") { return Err("ORDER_CLOSED"); }
      if o.payments == [] { return Err("NOTHING_TO_UNDO"); }
      WithIsUpdated(o, o.payments[..|o.payments| - 1]);
      orders := orders[orderId := WithPayments(o, o.payments[..|o.payments| - 1])];
      return Ok(());
    }
  }

  ghost predicate NoneNegative(bill: seq<BillLine>) { forall l :: l in bill ==> 0 <= l.unit && 0 <= l.remaining }

  /** The line costs what the bill's line of its key asks for so many units. */
  ghost predicate PricedBy(bill: seq<BillLine>, line: PaymentLine) {
    exists l :: l in bill && l.key == line.lineId && QuoteSays(l, line.quantity, line.amount)
  }

  lemma LinesQuoted(bill: seq<BillLine>, lines: seq<PaymentLine>)
    requires QuotedLines(bill, lines)
    ensures NoneNegative(bill) ==> forall k :: 0 <= k < |lines| ==> PricedBy(bill, lines[k])
  {
    if NoneNegative(bill) {
      forall k | 0 <= k < |lines|
        ensures PricedBy(bill, lines[k])
      {
        var l := Find(bill, lines[k].lineId).value;
        SplitQuoteSays(l, lines[k].quantity);
        hide QuoteSays;
        assert l in bill && l.key == lines[k].lineId;
      }
    }
  }

  function Ids(lines: seq<PaymentLine>): set<string> {
    set k | 0 <= k < |lines| :: lines[k].lineId
  }

  ghost predicate FromPicks(picks: map<string, int>, lines: seq<PaymentLine>) {
    forall k :: 0 <= k < |lines| ==>
      lines[k].lineId in picks && lines[k].quantity == picks[lines[k].lineId]
  }

  /** The lines quote exactly the picks, each once. */
  ghost predicate Quoting(bill: seq<BillLine>, picks: map<string, int>, lines: seq<PaymentLine>) {
    QuotedLines(bill, lines) && |lines| == |picks| && FromPicks(picks, lines) && Ids(lines) == picks.Keys
  }

  /** Some picks are quoted, the keys in `todo` are not. */
  ghost predicate Progress(bill: seq<BillLine>, picks: map<string, int>, todo: set<string>, lines: seq<PaymentLine>) {
    && todo <= picks.Keys && |lines| + |todo| == |picks|
    && QuotedLines(bill, lines) && FromPicks(picks, lines) && Ids(lines) == picks.Keys - todo
  }

  lemma ProgressStart(bill: seq<BillLine>, picks: map<string, int>)
    ensures Progress(bill, picks, picks.Keys, [])
  {
  }

  lemma ProgressTodo(bill: seq<BillLine>, picks: map<string, int>, todo: set<string>, lines: seq<PaymentLine>)
    requires Progress(bill, picks, todo, lines)
    ensures todo <= picks.Keys
  {
  }

  lemma ProgressEnd(bill: seq<BillLine>, picks: map<string, int>, lines: seq<PaymentLine>)
    requires Progress(bill, picks, {}, lines)
    ensures Quoting(bill, picks, lines) && QuotedLines(bill, lines)
  {
  }

  lemma AddLine(bill: seq<BillLine>, picks: map<string, int>, todo: set<string>, lines: seq<PaymentLine>,
                l: PaymentLine)
    requires Progress(bill, picks, todo, lines)
    requires l.lineId in todo && l.quantity == picks[l.lineId] && PickOk(bill, l.lineId, l.quantity)
    requires l.amount == SplitQuote(Find(bill, l.lineId).value, l.quantity)
    ensures Progress(bill, picks, todo - {l.lineId}, lines + [l])
    ensures AmountSum(lines + [l]) == AmountSum(lines) + l.amount
  {
    assert (lines + [l])[..|lines|] == lines;
    AddId(lines, l);
    AddQuoted(bill, lines, l);
  }

  lemma AddQuoted(bill: seq<BillLine>, lines: seq<PaymentLine>, l: PaymentLine)
    requires QuotedLines(bill, lines) && l.lineId !in Ids(lines) && PickOk(bill, l.lineId, l.quantity)
    requires l.amount == SplitQuote(Find(bill, l.lineId).value, l.quantity)
    ensures QuotedLines(bill, lines + [l])
  {
    var all := lines + [l];
    forall k | 0 <= k < |lines|
      ensures all[k] == lines[k] && lines[k].lineId != l.lineId
    {
      assert lines[k].lineId in Ids(lines);
    }
  }

  lemma AddId(lines: seq<PaymentLine>, l: PaymentLine)
    ensures Ids(lines + [l]) == Ids(lines) + {l.lineId}
  {
    var all := lines + [l];
    forall k | 0 <= k < |lines|
      ensures lines[k].lineId in Ids(all)
    {
      assert all[k].lineId in Ids(all);
    }
    assert all[|lines|].lineId in Ids(all);
  }

  lemma {:induction false} AmountsNonNegative(lines: seq<PaymentLine>, k: nat)
    requires forall i :: 0 <= i < |lines| ==> 0 <= lines[i].amount
    requires k < |lines|
    ensures 0 <= lines[k].amount <= AmountSum(lines)
    decreases |lines|
  {
    var n := |lines| - 1;
    if k < n {
      AmountsNonNegative(lines[..n], k);
    } else if n > 0 {
      AmountsNonNegative(lines[..n], n - 1);
    }
  }

  lemma QuoteWithin(l: BillLine, qty: int)
    requires 0 <= l.unit && 0 <= l.remaining
    ensures 0 <= SplitQuote(l, qty) <= l.remaining
  {
    if 0 < qty < Unpaid(l) {
      ProductSign(qty, l.unit);
      QuotientSign(l.remaining, qty, Unpaid(l));
    }
  }

  /** Picking more units of a line never costs less. */
  lemma QuoteMonotone(l: BillLine, a: int, b: int)
    requires 0 <= l.unit && 0 <= l.remaining && a <= b
    ensures SplitQuote(l, a) <= SplitQuote(l, b)
  {
    QuoteWithin(l, a);
    QuoteWithin(l, b);
    if 0 < a && b < Unpaid(l) {
      UnitMonotone(a, b, l.unit);
      RestMonotone(l.remaining, a, b, Unpaid(l));
    }
  }

  lemma UnitMonotone(a: int, b: int, unit: int)
    requires 0 < a <= b && 0 <= unit
    ensures a * unit <= b * unit && (a * unit <= 0 <==> b * unit <= 0)
  {
    MulMonotone(a, b, unit);
  }

  lemma RestMonotone(rest: int, a: int, b: int, units: int)
    requires 0 <= rest && 0 < a <= b && 0 < units
    ensures GoDiv(rest * a, units) <= GoDiv(rest * b, units)
  {
    MulMonotone(a, b, rest);
    DivMonotone(rest * a, rest * b, units);
  }

  lemma DivMonotone(x: int, y: int, units: int)
    requires 0 <= x <= y && 0 < units
    ensures x / units <= y / units
  {
    var p, q := x / units, y / units;
    assert x == units * p + x % units && y == units * q + y % units;
    if p > q {
      MulMonotone(q + 1, p, units);
    }
  }

  /** The price of `qty` of `units` units worth `share` together, less than a rial per unit short. */
  ghost predicate FairPart(amount: int, share: int, qty: int, units: int) {
    amount * units <= share * qty < amount * units + qty * units
  }

  /** A pick from an untouched line costs its proportional part, short by less than a rial a unit. */
  lemma QuoteFair(item: Item, share: int, qty: int)
    requires 0 <= share && 0 < qty <= item.quantity
    ensures FairPart(SplitQuote(LineOf(item, share, []), qty), share, qty, item.quantity)
  {
    var l := LineOf(item, share, []);
    var units := item.quantity;
    if qty == units {
      WholeFair(share, units);
    } else if qty * l.unit <= 0 {
      RestFair(share, qty, units);
    } else {
      UnitFair(share, qty, units);
    }
  }

  lemma WholeFair(share: int, units: int)
    requires 0 <= share && 0 < units
    ensures FairPart(share, share, units, units)
  {
  }

  lemma RestFair(share: int, qty: int, units: int)
    requires 0 <= share && 0 < qty < units
    ensures FairPart(GoDiv(share * qty, units), share, qty, units) && GoDiv(share * qty, units) <= share
  {
    ProductSign(share, qty);
    var p := share * qty;
    assert p == units * (p / units) + p % units;
    MulMonotone(1, qty, units);
    MulMonotone(qty, units, share);
    assert (p / units) * units <= share * units;
    MulCancel(p / units, share, units);
  }

  lemma UnitFair(share: int, qty: int, units: int)
    requires 0 <= share && 0 < qty < units
    ensures var amount := qty * GoDiv(share, units);
            FairPart(amount, share, qty, units) && amount <= share
  {
    var u := share / units;
    assert share == units * u + share % units;
    UnitProducts(u, share % units, qty, units);
    MulMonotone(qty, units, u);
  }

  lemma UnitProducts(u: int, rest: int, qty: int, units: int)
    requires 0 <= u && 0 <= rest < units && 0 < qty
    ensures qty * u * units <= (units * u + rest) * qty < qty * u * units + qty * units
  {
    assert (units * u + rest) * qty == qty * u * units + rest * qty;
    MulMonotone(rest + 1, units, qty);
  }

  lemma ProductSign(a: int, b: int)
    requires 0 <= a && 0 <= b
    ensures 0 <= a * b
  {
  }

  lemma QuotientSign(a: int, b: int, c: int)
    requires 0 <= a && 0 <= b && 0 < c
    ensures 0 <= GoDiv(a * b, c)
  {
    ProductSign(a, b);
  }

  lemma BillLineSigns(o: Order, i: nat)
    requires i < |o.items|
    ensures 0 <= BillOf(o)[i].unit && 0 <= BillOf(o)[i].remaining
  {
    var share, q := Shares(o.items, o.total)[i], o.items[i].quantity;
    if q > 0 { assert share / q >= 0; }
  }

  lemma FoundSigns(o: Order, key: string)
    requires Find(BillOf(o), key).Some?
    ensures var l := Find(BillOf(o), key).value; 0 <= l.unit && 0 <= l.remaining
  {
    var bill := BillOf(o);
    var i :| 0 <= i < |bill| && bill[i] == Find(bill, key).value;
    BillLineSigns(o, i);
  }

  lemma PositiveAmount(o: Order, picks: map<string, int>, lines: seq<PaymentLine>)
    requires Quoting(BillOf(o), picks, lines)
    ensures AmountSum(lines) > 0 <==> Payable(BillOf(o), picks)
  {
    hide SplitQuote, BillOf, Unpaid, AmountSum;
    forall i | 0 <= i < |lines|
      ensures 0 <= lines[i].amount
    {
      FoundSigns(o, lines[i].lineId);
      QuoteWithin(Find(BillOf(o), lines[i].lineId).value, lines[i].quantity);
    }
    forall key | key in picks
      ensures exists k :: 0 <= k < |lines| && lines[k].lineId == key
    {
      assert key in Ids(lines);
    }
    if key :| key in picks && SplitQuote(Find(BillOf(o), key).value, picks[key]) > 0 {
      var k :| 0 <= k < |lines| && lines[k].lineId == key;
      AmountsNonNegative(lines, k);
    } else {
      AmountsZero(lines);
    }
  }

  lemma {:induction false} AmountsZero(lines: seq<PaymentLine>)
    requires forall i :: 0 <= i < |lines| ==> lines[i].amount <= 0
    ensures AmountSum(lines) <= 0
  {
    if |lines| > 0 { AmountsZero(lines[..|lines| - 1]); }
  }

  // ----- every history of payments -----

  /** Payment `n` was one the order could accept when the payments before it were in. */
  ghost predicate Recorded(o: Order, n: nat)
    requires n < |o.payments|
  {
    Legit(o.(payments := o.payments[..n]), o.payments[n])
  }

  ghost predicate History(o: Order) {
    forall n :: 0 <= n < |o.payments| ==> Recorded(o, n)
  }

  /** What one call does to the order: nothing, one more payment, or one payment fewer. */
  ghost predicate Step(o: Order, o': Order) {
    || o' == o
    || (exists p :: Legit(o, p) && Updated(o, o', o.payments + [p]))
    || (o.payments != [] && Updated(o, o', o.payments[..|o.payments| - 1]))
  }

  ghost predicate IsRun(h: seq<Order>) {
    |h| > 0 && forall i :: 0 <= i < |h| - 1 ==> Step(h[i], h[i + 1])
  }

  ghost predicate DistinctItems(items: seq<Item>) {
    forall i, j :: 0 <= i < j < |items| ==> items[i].id != items[j].id
  }

  /** Legitimacy does not look at the summary fields. */
  lemma LegitIgnoresSummary(o: Order, o': Order, p: Payment)
    requires o'.items == o.items && o'.total == o.total && o'.payments == o.payments
    ensures Legit(o, p) <==> Legit(o', p)
  {
  }

  lemma AppendKeepsHistory(o: Order, o': Order, p: Payment)
    requires History(o) && Legit(o, p)
    requires o'.items == o.items && o'.total == o.total && o'.payments == o.payments + [p]
    ensures History(o')
  {
    forall n | 0 <= n < |o'.payments|
      ensures Recorded(o', n)
    {
      assert n < |o.payments| ==> Recorded(o, n);
      assert o'.payments[..n] == o.payments[..n];
      if n < |o.payments| {
        LegitIgnoresSummary(o.(payments := o.payments[..n]), o'.(payments := o.payments[..n]), o.payments[n]);
      } else {
        assert o.payments[..n] == o.payments;
        LegitIgnoresSummary(o, o'.(payments := o.payments), p);
      }
    }
  }

  lemma PrefixKeepsHistory(o: Order, o': Order, m: nat)
    requires History(o) && m <= |o.payments|
    requires o'.items == o.items && o'.total == o.total && o'.payments == o.payments[..m]
    ensures History(o')
  {
    forall n | 0 <= n < |o'.payments|
      ensures Recorded(o', n)
    {
      assert n < |o.payments| ==> Recorded(o, n);
      assert o'.payments[..n] == o.payments[..n];
      LegitIgnoresSummary(o.(payments := o.payments[..n]), o'.(payments := o.payments[..n]), o.payments[n]);
    }
  }

  lemma StepKeepsHistory(o: Order, o': Order)
    requires History(o) && Step(o, o')
    ensures History(o') && o'.items == o.items && o'.total == o.total
  {
    if p :| Legit(o, p) && o' == WithPayments(o, o.payments + [p]) {
      AppendKeepsHistory(o, o', p);
    } else if o' != o {
      PrefixKeepsHistory(o, o', |o.payments| - 1);
    }
  }

  lemma {:induction false} RunKeepsHistory(h: seq<Order>, i: nat)
    requires IsRun(h) && History(h[0]) && i < |h|
    ensures History(h[i]) && h[i].items == h[0].items && h[i].total == h[0].total
  {
    if i > 0 {
      RunKeepsHistory(h, i - 1);
      StepKeepsHistory(h[i - 1], h[i]);
    }
  }

  lemma {:induction false} LineOnce(lines: seq<PaymentLine>, id: string)
    requires DistinctLines(lines)
    ensures (forall k :: 0 <= k < |lines| ==> lines[k].lineId != id)
            ==> LineAmount(lines, id) == 0 && LineQuantity(lines, id) == 0
    ensures forall k :: (0 <= k < |lines| && lines[k].lineId == id) ==>
              LineAmount(lines, id) == lines[k].amount && LineQuantity(lines, id) == lines[k].quantity
  {
    if |lines| > 0 {
      LineOnce(lines[..|lines| - 1], id);
    }
  }

  lemma {:induction false} FindDistinct(bill: seq<BillLine>, i: nat)
    requires i < |bill| && forall a, b :: 0 <= a < b < |bill| ==> bill[a].key != bill[b].key
    ensures Find(bill, bill[i].key) == Some(bill[i])
  {
    if i < |bill| - 1 { FindDistinct(bill[..|bill| - 1], i); }
  }

  lemma BillKeysDistinct(o: Order)
    requires DistinctItems(o.items)
    ensures forall a, b :: 0 <= a < b < |BillOf(o)| ==> BillOf(o)[a].key != BillOf(o)[b].key
  {
  }

  /** The paid part of a line: within its quantity and its share, and the whole share once all is paid. */
  ghost predicate LineSound(item: Item, share: int, payments: seq<Payment>) {
    var q, a := PaidQuantity(payments, item.id), PaidAmount(payments, item.id);
    && 0 <= q && (q > 0 ==> q <= item.quantity) && 0 <= a <= share
    && (q == 0 ==> a == 0) && (q == item.quantity > 0 ==> a == share)
  }

  lemma PaymentKeepsLine(o: Order, p: Payment, i: nat)
    requires DistinctItems(o.items) && i < |o.items| && Legit(o, p)
    requires LineSound(o.items[i], Shares(o.items, o.total)[i], o.payments)
    ensures LineSound(o.items[i], Shares(o.items, o.total)[i], o.payments + [p])
  {
    var id, bill := o.items[i].id, BillOf(o);
    assert (o.payments + [p])[..|o.payments|] == o.payments;
    LineOnce(p.lines, id);
    if k :| 0 <= k < |p.lines| && p.lines[k].lineId == id {
      BillKeysDistinct(o);
      FindDistinct(bill, i);
      BillLineSigns(o, i);
      QuoteWithin(bill[i], p.lines[k].quantity);
      assert PickOk(bill, id, p.lines[k].quantity);
    }
  }

  lemma {:induction false} LinesSound(o: Order, i: nat)
    requires DistinctItems(o.items) && History(o) && i < |o.items|
    ensures LineSound(o.items[i], Shares(o.items, o.total)[i], o.payments)
    decreases |o.payments|
  {
    if |o.payments| > 0 {
      var n := |o.payments| - 1;
      var before := o.(payments := o.payments[..n]);
      HistoryPrefix(o);
      LinesSound(before, i);
      LastKeepsLine(o, i);
    }
  }

  lemma LastKeepsLine(o: Order, i: nat)
    requires DistinctItems(o.items) && i < |o.items| && |o.payments| > 0
    requires var before := o.(payments := o.payments[..|o.payments| - 1]);
      && Legit(before, o.payments[|o.payments| - 1])
      && LineSound(o.items[i], Shares(o.items, o.total)[i], before.payments)
    ensures LineSound(o.items[i], Shares(o.items, o.total)[i], o.payments)
  {
    var n := |o.payments| - 1;
    PaymentKeepsLine(o.(payments := o.payments[..n]), o.payments[n], i);
    assert o.payments == o.payments[..n] + [o.payments[n]];
  }

  lemma HistoryPrefix(o: Order)
    requires History(o) && |o.payments| > 0
    ensures History(o.(payments := o.payments[..|o.payments| - 1]))
    ensures Legit(o.(payments := o.payments[..|o.payments| - 1]), o.payments[|o.payments| - 1])
  {
    PrefixKeepsHistory(o, o.(payments := o.payments[..|o.payments| - 1]), |o.payments| - 1);
    assert Recorded(o, |o.payments| - 1);
  }

  // ----- the sums over the lines -----

  function Amounts(items: seq<Item>, payments: seq<Payment>): (s: seq<int>)
    ensures |s| == |items|
    ensures forall i :: 0 <= i < |items| ==> s[i] == PaidAmount(payments, items[i].id)
  {
    seq(|items|, i requires 0 <= i < |items| => PaidAmount(payments, items[i].id))
  }

  function LineAmounts(items: seq<Item>, lines: seq<PaymentLine>): (s: seq<int>)
    ensures |s| == |items|
    ensures forall i :: 0 <= i < |items| ==> s[i] == LineAmount(lines, items[i].id)
  {
    seq(|items|, i requires 0 <= i < |items| => LineAmount(lines, items[i].id))
  }

  function Remainders(o: Order): (s: seq<int>)
    ensures |s| == |o.items|
    ensures forall i :: 0 <= i < |s| ==> s[i] == BillOf(o)[i].remaining
  {
    seq(|o.items|, i requires 0 <= i < |o.items| => BillOf(o)[i].remaining)
  }

  lemma {:induction false} SumAdd(a: seq<int>, b: seq<int>, c: seq<int>)
    requires |a| == |b| == |c| && forall i :: 0 <= i < |a| ==> c[i] == a[i] + b[i]
    ensures Sum(c) == Sum(a) + Sum(b)
  {
    if |a| > 0 {
      var n := |a| - 1;
      SumAdd(a[..n], b[..n], c[..n]);
    }
  }

  lemma {:induction false} SumZero(a: seq<int>)
    requires forall i :: 0 <= i < |a| ==> a[i] == 0
    ensures Sum(a) == 0
  {
    if |a| > 0 { SumZero(a[..|a| - 1]); }
  }

  lemma {:induction false} SumOne(a: seq<int>, k: nat)
    requires k < |a| && forall i :: 0 <= i < |a| && i != k ==> a[i] == 0
    ensures Sum(a) == a[k]
  {
    var n := |a| - 1;
    if k == n { SumZero(a[..n]); } else { SumOne(a[..n], k); }
  }

  /** Everything a payment collected landed on some line of the order. */
  lemma {:induction false} LinesCovered(items: seq<Item>, lines: seq<PaymentLine>)
    requires DistinctItems(items)
    requires forall k :: 0 <= k < |lines| ==> exists i :: 0 <= i < |items| && items[i].id == lines[k].lineId
    ensures Sum(LineAmounts(items, lines)) == AmountSum(lines)
  {
    if |lines| == 0 {
      SumZero(LineAmounts(items, lines));
    } else {
      var n := |lines| - 1;
      var l := lines[n];
      LinesCovered(items, lines[..n]);
      var i :| 0 <= i < |items| && items[i].id == l.lineId;
      var only := seq(|items|, j requires 0 <= j < |items| => if j == i then l.amount else 0);
      SumOne(only, i);
      SumAdd(LineAmounts(items, lines[..n]), only, LineAmounts(items, lines));
    }
  }

  lemma LegitCovered(o: Order, p: Payment, k: nat)
    requires Legit(o, p) && k < |p.lines|
    ensures exists i :: 0 <= i < |o.items| && o.items[i].id == p.lines[k].lineId
  {
    var bill := BillOf(o);
    assert PickOk(bill, p.lines[k].lineId, p.lines[k].quantity);
    var i :| 0 <= i < |bill| && bill[i] == Find(bill, p.lines[k].lineId).value;
    assert o.items[i].id == p.lines[k].lineId;
  }

  lemma LegitAmounts(o: Order, p: Payment)
    requires DistinctItems(o.items) && Legit(o, p)
    ensures Sum(LineAmounts(o.items, p.lines)) == p.amount
  {
    forall k | 0 <= k < |p.lines|
      ensures exists i :: 0 <= i < |o.items| && o.items[i].id == p.lines[k].lineId
    {
      LegitCovered(o, p, k);
    }
    LinesCovered(o.items, p.lines);
  }

  lemma AppendSum(o: Order, p: Payment)
    requires DistinctItems(o.items) && Legit(o, p)
    ensures Sum(Amounts(o.items, o.payments + [p])) == Sum(Amounts(o.items, o.payments)) + p.amount
  {
    hide Legit, DistinctItems;
    LegitAmounts(o, p);
    assert (o.payments + [p])[..|o.payments|] == o.payments;
    SumAdd(Amounts(o.items, o.payments), LineAmounts(o.items, p.lines), Amounts(o.items, o.payments + [p]));
  }

  lemma LastSum(o: Order)
    requires DistinctItems(o.items) && History(o) && |o.payments| > 0
    ensures var n := |o.payments| - 1;
            Sum(Amounts(o.items, o.payments)) == Sum(Amounts(o.items, o.payments[..n])) + o.payments[n].amount
  {
    hide History, Legit, DistinctItems, Amounts, Sum;
    var n := |o.payments| - 1;
    HistoryPrefix(o);
    AppendSum(o.(payments := o.payments[..n]), o.payments[n]);
    assert o.payments[..n] + [o.payments[n]] == o.payments;
  }

  lemma {:induction false} CollectedIsSum(o: Order)
    requires DistinctItems(o.items) && History(o)
    ensures Collected(o.payments) == Sum(Amounts(o.items, o.payments))
    decreases |o.payments|
  {
    if |o.payments| == 0 {
      SumZero(Amounts(o.items, o.payments));
    } else {
      LastSum(o);
      HistoryPrefix(o);
      CollectedIsSum(o.(payments := o.payments[..|o.payments| - 1]));
    }
  }

  // ----- the results -----

  /**
   In every reachable state: no line is charged more than its share, what is left to pay in all is
   the sum of what is left on the lines, and it never goes below zero.
   */
  lemma PaymentsSound(h: seq<Order>, n: nat)
    requires IsRun(h) && h[0].payments == [] && n < |h|
    requires DistinctItems(h[0].items) && Billable(h[0].items, h[0].total)
    ensures var o := h[n];
      && (forall i :: 0 <= i < |o.items| ==> LineSound(o.items[i], Shares(o.items, o.total)[i], o.payments))
      && Collected(o.payments) <= o.total
      && NonNegative(o.total - Collected(o.payments)) == Sum(Remainders(o))
  {
    var o := h[n];
    RunKeepsHistory(h, n);
    HistorySound(o);
  }

  lemma HistorySound(o: Order)
    requires History(o) && DistinctItems(o.items) && Billable(o.items, o.total)
    ensures forall i :: 0 <= i < |o.items| ==> LineSound(o.items[i], Shares(o.items, o.total)[i], o.payments)
    ensures Collected(o.payments) + Sum(Remainders(o)) == o.total
    ensures 0 <= Sum(Remainders(o))
  {
    forall i | 0 <= i < |o.items|
      ensures LineSound(o.items[i], Shares(o.items, o.total)[i], o.payments)
    {
      LinesSound(o, i);
    }
    CollectedIsSum(o);
    AllocationExact(o.items, o.total);
    var amounts, shares := Amounts(o.items, o.payments), Shares(o.items, o.total);
    forall i | 0 <= i < |o.items|
      ensures shares[i] == amounts[i] + Remainders(o)[i] && 0 <= Remainders(o)[i]
    {
      assert LineSound(o.items[i], shares[i], o.payments);
    }
    SumAdd(amounts, Remainders(o), shares);
    SumNonNegative(Remainders(o));
  }

  lemma {:induction false} SumNonNegative(a: seq<int>)
    requires forall i :: 0 <= i < |a| ==> 0 <= a[i]
    ensures 0 <= Sum(a)
    ensures Sum(a) == 0 ==> forall i :: 0 <= i < |a| ==> a[i] == 0
  {
    if |a| > 0 { SumNonNegative(a[..|a| - 1]); }
  }

  /** Nothing is left to pay on any line that can be picked. */
  ghost predicate AllPaid(o: Order) {
    forall i :: 0 <= i < |o.items| && o.items[i].quantity > 0
      ==> PaidQuantity(o.payments, o.items[i].id) == o.items[i].quantity
  }

  lemma AllPaidRemainders(o: Order, i: nat)
    requires AllPaid(o) && i < |o.items|
    requires LineSound(o.items[i], Shares(o.items, o.total)[i], o.payments)
    ensures Remainders(o)[i] == if o.items[i].quantity > 0 then 0 else Shares(o.items, o.total)[i]
  {
  }

  /**
   Once every unit is paid, the money collected is the order total exactly if and only if no share
   fell on a line without units; such a line can never be picked.
   */
  lemma FullyPaidIsTotal(h: seq<Order>, n: nat)
    requires IsRun(h) && h[0].payments == [] && n < |h| && AllPaid(h[n])
    requires DistinctItems(h[0].items) && Billable(h[0].items, h[0].total)
    ensures var o := h[n];
      Collected(o.payments) == o.total
      <==> forall i :: 0 <= i < |o.items| && o.items[i].quantity <= 0 ==> Shares(o.items, o.total)[i] == 0
  {
    RunKeepsHistory(h, n);
    AllPaidIsTotal(h[n]);
  }

  lemma AllPaidIsTotal(o: Order)
    requires History(o) && DistinctItems(o.items) && Billable(o.items, o.total) && AllPaid(o)
    ensures Collected(o.payments) == o.total
      <==> forall i :: 0 <= i < |o.items| && o.items[i].quantity <= 0 ==> Shares(o.items, o.total)[i] == 0
  {
    HistorySound(o);
    var rest, shares := Remainders(o), Shares(o.items, o.total);
    forall i | 0 <= i < |o.items|
      ensures rest[i] == if o.items[i].quantity > 0 then 0 else shares[i]
    {
      AllPaidRemainders(o, i);
    }
    SumNonNegative(rest);
    if forall i :: 0 <= i < |o.items| ==> rest[i] == 0 {
      SumZero(rest);
    }
  }

  /** A line without units is never paid, so its whole share stays open. */
  lemma UnitlessStaysOpen(o: Order, i: nat)
    requires DistinctItems(o.items) && History(o) && i < |o.items| && o.items[i].quantity <= 0
    ensures PaidAmount(o.payments, o.items[i].id) == 0
    ensures BillOf(o)[i].remaining == Shares(o.items, o.total)[i]
  {
    LinesSound(o, i);
  }

  /** An order of ten rials on a line without units: everything that can be paid is, and nothing was collected. */
  lemma UnitlessExample()
    ensures var o := Order([Item("tip", 0, 10)], 10, "pending", [], 0, 10, Settlement.Unpaid);
      && DistinctItems(o.items) && Billable(o.items, o.total) && IsRun([o]) && AllPaid(o)
      && Collected(o.payments) == 0 < o.total
  {
    var items := [Item("tip", 0, 10)];
    assert items[..0] == [];
    assert Subtotal(items) == 10;
  }

  /**
   Over every run the stored summary is that of the log, and it says paid exactly when nothing remains
   on any line, partial exactly when something was paid and something remains.
   */
  lemma SummaryHolds(h: seq<Order>, n: nat)
    requires IsRun(h) && h[0].payments == [] && Summed(h[0]) && n < |h|
    requires DistinctItems(h[0].items) && Billable(h[0].items, h[0].total)
    ensures var o := h[n];
      && Summed(o)
      && (o.settlement.Paid? <==> forall i :: 0 <= i < |o.items| ==> BillOf(o)[i].remaining == 0)
      && (o.settlement.Partial? <==>
            Collected(o.payments) > 0 && exists i :: 0 <= i < |o.items| && BillOf(o)[i].remaining > 0)
  {
    var o := h[n];
    RunKeepsHistory(h, n);
    RunKeepsSummary(h, n);
    HistorySound(o);
    var rest := Remainders(o);
    forall i | 0 <= i < |o.items|
      ensures rest[i] == BillOf(o)[i].remaining && 0 <= rest[i]
    {
      BillLineSigns(o, i);
    }
    SumNonNegative(rest);
    if forall i :: 0 <= i < |o.items| ==> rest[i] == 0 { SumZero(rest); }
  }

  lemma {:induction false} RunKeepsSummary(h: seq<Order>, n: nat)
    requires IsRun(h) && Summed(h[0]) && n < |h|
    ensures Summed(h[n])
  {
    if n > 0 {
      RunKeepsSummary(h, n - 1);
      assert Step(h[n - 1], h[n]);
    }
  }

  /** Undoing the payment just recorded gives the order back, summary fields included. */
  lemma UndoRestores(o: Order, p: Payment, paid: Order, undone: Order)
    requires Summed(o) && Updated(o, paid, o.payments + [p])
    requires Updated(paid, undone, paid.payments[..|paid.payments| - 1])
    ensures undone == o
  {
    assert (o.payments + [p])[..|o.payments|] == o.payments;
  }
}

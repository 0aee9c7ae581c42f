/**
 How an order's payable total is spread over its lines (`SplitBillOf` in domains.go).

 Money is in whole rials.  The product of a line total and the order total is a 64-bit one and may
 wrap; the sums are taken exactly.
 */
module SplitBill {
  import opened Prelude

  const TWO63: int := 0x8000_0000_0000_0000
  const TWO64: int := 0x1_0000_0000_0000_0000

  datatype Item = Item(id: string, quantity: int, lineTotal: int)

  datatype PaymentLine = PaymentLine(lineId: string, quantity: int, amount: int)

  datatype Payment = Payment(kind: string, amount: int, token: string, lines: seq<PaymentLine>)

  datatype BillLine = BillLine(
    key: string, quantity: int, paidQuantity: int, unit: int, payable: int, paid: int, remaining: int)

  function Wrap64(x: int): int { (x + TWO63) % TWO64 - TWO63 }

  function NonNegative(x: int): int { if x < 0 then 0 else x }

  function Subtotal(items: seq<Item>): int {
    if |items| == 0 then 0 else Subtotal(items[..|items| - 1]) + items[|items| - 1].lineTotal
  }

  function Sum(s: seq<int>): int {
    if |s| == 0 then 0 else Sum(s[..|s| - 1]) + s[|s| - 1]
  }

  /** A line's part of the total by the 64-bit rule, rounded towards zero. */
  function Proportion(lineTotal: int, total: int, subtotal: int): int
    requires subtotal > 0
  {
    GoDiv(Wrap64(lineTotal * total), subtotal)
  }

  /** The share of line `i` when the lines before it took `taken`. */
  function Payable(items: seq<Item>, total: int, i: nat, taken: int): int
    requires i < |items|
  {
    var subtotal := Subtotal(items);
    if subtotal > 0 && total > 0 then
      if i == |items| - 1 then NonNegative(total - taken)
      else NonNegative(Proportion(items[i].lineTotal, total, subtotal))
    else 0
  }

  /** The shares of the first `n` lines. */
  function SharesUpTo(items: seq<Item>, total: int, n: nat): (s: seq<int>)
    requires n <= |items|
    ensures |s| == n
    ensures forall k :: 0 <= k < n ==> 0 <= s[k]
  {
    if n == 0 then []
    else
      var before := SharesUpTo(items, total, n - 1);
      before + [Payable(items, total, n - 1, Sum(before))]
  }

  function Shares(items: seq<Item>, total: int): (s: seq<int>)
    ensures |s| == |items|
    ensures forall k :: 0 <= k < |s| ==> 0 <= s[k]
  {
    SharesUpTo(items, total, |items|)
  }

  // ----- what has been paid on a line -----

  function LineQuantity(lines: seq<PaymentLine>, id: string): int {
    if |lines| == 0 then 0
    else LineQuantity(lines[..|lines| - 1], id)
         + (if lines[|lines| - 1].lineId == id then lines[|lines| - 1].quantity else 0)
  }

  function LineAmount(lines: seq<PaymentLine>, id: string): int {
    if |lines| == 0 then 0
    else LineAmount(lines[..|lines| - 1], id)
         + (if lines[|lines| - 1].lineId == id then lines[|lines| - 1].amount else 0)
  }

  function PaidQuantity(payments: seq<Payment>, id: string): int {
    if |payments| == 0 then 0
    else PaidQuantity(payments[..|payments| - 1], id) + LineQuantity(payments[|payments| - 1].lines, id)
  }

  function PaidAmount(payments: seq<Payment>, id: string): int {
    if |payments| == 0 then 0
    else PaidAmount(payments[..|payments| - 1], id) + LineAmount(payments[|payments| - 1].lines, id)
  }

  function Collected(payments: seq<Payment>): int {
    if |payments| == 0 then 0
    else Collected(payments[..|payments| - 1]) + payments[|payments| - 1].amount
  }

  function LineOf(item: Item, share: int, payments: seq<Payment>): BillLine {
    BillLine(item.id, item.quantity, PaidQuantity(payments, item.id),
             if item.quantity > 0 then GoDiv(share, item.quantity) else 0,
             share, PaidAmount(payments, item.id),
             NonNegative(share - PaidAmount(payments, item.id)))
  }

  /** The whole bill: one line per item, in order. */
  function Bill(items: seq<Item>, total: int, payments: seq<Payment>): (b: seq<BillLine>)
    ensures |b| == |items|
    ensures forall i :: 0 <= i < |items| ==> b[i] == LineOf(items[i], Shares(items, total)[i], payments)
  {
    seq(|items|, i requires 0 <= i < |items| => LineOf(items[i], Shares(items, total)[i], payments))
  }

  /** What a line of the bill says; its unit price is the share of one unit, rounded down. */
  ghost predicate LineSays(l: BillLine, item: Item, share: int, payments: seq<Payment>) {
    && l.key == item.id && l.quantity == item.quantity && l.payable == share
    && l.paidQuantity == PaidQuantity(payments, item.id) && l.paid == PaidAmount(payments, item.id)
    && l.remaining == (if l.paid <= share then share - l.paid else 0)
    && (item.quantity <= 0 ==> l.unit == 0)
    && (item.quantity > 0 ==> l.unit * item.quantity <= share < l.unit * item.quantity + item.quantity)
  }

  lemma LineOfSays(item: Item, share: int, payments: seq<Payment>)
    requires 0 <= share
    ensures LineSays(LineOf(item, share, payments), item, share, payments)
  {
    if item.quantity > 0 {
      assert share == (share / item.quantity) * item.quantity + share % item.quantity;
    }
  }

  function Lookup(m: map<string, int>, k: string): int { if k in m then m[k] else 0 }

  method SubtotalOf(items: seq<Item>) returns (subtotal: int)
    ensures subtotal == Subtotal(items)
  {
    subtotal := 0;
    for i := 0 to |items|
      invariant subtotal == Subtotal(items[..i])
    {
      assert items[..i + 1][..i] == items[..i];
      subtotal := subtotal + items[i].lineTotal;
    }
    assert items[..|items|] == items;
  }

  ghost predicate Tallied(payments: seq<Payment>, paidQty: map<string, int>, paidAmt: map<string, int>) {
    && (forall id :: Lookup(paidQty, id) == PaidQuantity(payments, id))
    && (forall id :: Lookup(paidAmt, id) == PaidAmount(payments, id))
  }

  method Tally(payments: seq<Payment>)
    returns (paid: int, paidQty: map<string, int>, paidAmt: map<string, int>)
    ensures paid == Collected(payments)
    ensures Tallied(payments, paidQty, paidAmt)
  {
    paid, paidQty, paidAmt := 0, map[], map[];
    for p := 0 to |payments|
      invariant paid == Collected(payments[..p])
      invariant forall id :: Lookup(paidQty, id) == PaidQuantity(payments[..p], id)
      invariant forall id :: Lookup(paidAmt, id) == PaidAmount(payments[..p], id)
    {
      assert payments[..p + 1][..p] == payments[..p];
      paid := paid + payments[p].amount;
      paidQty, paidAmt := AddLines(paidQty, paidAmt, payments[p].lines);
    }
    assert payments[..|payments|] == payments;
  }

  method PayableOf(items: seq<Item>, total: int, subtotal: int, i: nat, taken: int) returns (payable: int)
    requires i < |items| && subtotal == Subtotal(items)
    ensures payable == Payable(items, total, i, taken)
  {
    payable := 0;
    if subtotal > 0 && total > 0 {
      if i == |items| - 1 { payable := total - taken; }
      else { payable := Proportion(items[i].lineTotal, total, subtotal); }
    }
    if payable < 0 { payable := 0; }
  }

  method BillLineOf(item: Item, payable: int, ghost payments: seq<Payment>,
                    paidQty: map<string, int>, paidAmt: map<string, int>)
    returns (line: BillLine)
    requires Tallied(payments, paidQty, paidAmt)
    ensures line == LineOf(item, payable, payments)
  {
    var qty, amt := Lookup(paidQty, item.id), Lookup(paidAmt, item.id);
    var unit := 0;
    if item.quantity > 0 { unit := GoDiv(payable, item.quantity); }
    var rem := payable - amt;
    if rem < 0 { rem := 0; }
    line := BillLine(item.id, item.quantity, qty, unit, payable, amt, rem);
  }

  method BillLines(items: seq<Item>, total: int, subtotal: int, ghost payments: seq<Payment>,
                   paidQty: map<string, int>, paidAmt: map<string, int>)
    returns (lines: seq<BillLine>)
    requires subtotal == Subtotal(items)
    requires Tallied(payments, paidQty, paidAmt)
    ensures lines == Bill(items, total, payments)
  {
    lines := [];
    var taken := 0;
    ghost var shares := Shares(items, total);
    for i := 0 to |items|
      invariant taken == Sum(shares[..i])
      invariant |lines| == i
      invariant forall k :: 0 <= k < i ==> lines[k] == LineOf(items[k], shares[k], payments)
    {
      var payable := PayableOf(items, total, subtotal, i, taken);
      TakeShare(items, total, i, taken, shares);
      taken := taken + payable;
      var line := BillLineOf(items[i], payable, payments, paidQty, paidAmt);
      lines := lines + [line];
    }
  }

  /** The loops of the source: running totals per line ID, then one pass over the items. */
  method SplitBillOf(items: seq<Item>, total: int, payments: seq<Payment>)
    returns (lines: seq<BillLine>, paid: int, remaining: int)
    ensures lines == Bill(items, total, payments)
    ensures |lines| == |items| && forall i :: 0 <= i < |items| ==>
              LineSays(lines[i], items[i], Shares(items, total)[i], payments)
    ensures paid == Collected(payments)
    ensures remaining == NonNegative(total - paid)
  {
    var subtotal := SubtotalOf(items);
    var paidQty, paidAmt;
    paid, paidQty, paidAmt := Tally(payments);
    lines := BillLines(items, total, subtotal, payments, paidQty, paidAmt);
    remaining := total - paid;
    if remaining < 0 { remaining := 0; }
    forall i | 0 <= i < |items|
      ensures LineSays(lines[i], items[i], Shares(items, total)[i], payments)
    {
      LineOfSays(items[i], Shares(items, total)[i], payments);
    }
  }

  /** The 64-bit number that an exact one wraps to. */
  ghost predicate IsWrapped(wrapped: int, exact: int) {
    -0x8000_0000_0000_0000 <= wrapped < 0x8000_0000_0000_0000 && (wrapped - exact) % 0x1_0000_0000_0000_0000 == 0
  }

  /** `share` is the 64-bit product of line and total over the subtotal, and not below zero. */
  ghost predicate ShareSays(share: int, lineTotal: int, total: int, subtotal: int) {
    exists product :: IsWrapped(product, lineTotal * total)
                      && (product < 0 ==> share == 0)
                      && (product >= 0 ==> share * subtotal <= product < share * subtotal + subtotal)
  }

  /** Every share, said in full: nothing without a positive bill, and the last one takes what is left. */
  lemma SharesSay(items: seq<Item>, total: int, i: nat)
    requires i < |items|
    ensures Subtotal(items) <= 0 || total <= 0 ==> Shares(items, total)[i] == 0
    ensures Subtotal(items) > 0 && total > 0 && i < |items| - 1 ==>
              ShareSays(Shares(items, total)[i], items[i].lineTotal, total, Subtotal(items))
    ensures Subtotal(items) > 0 && total > 0 && i == |items| - 1 ==>
              var before := Sum(Shares(items, total)[..i]);
              Shares(items, total)[i] == if before <= total then total - before else 0
  {
    NextShare(items, total, i);
    SharesPrefix(items, total, i);
    hide SharesUpTo, Sum, Subtotal, Proportion;
    if Subtotal(items) > 0 && total > 0
        && i < |items| - 1 { ProportionSays(items[i].lineTotal, total, Subtotal(items)); }
  }

  lemma ProportionSays(lineTotal: int, total: int, subtotal: int)
    requires subtotal > 0
    ensures ShareSays(NonNegative(Proportion(lineTotal, total, subtotal)), lineTotal, total, subtotal)
  {
    var exact := lineTotal * total;
    var product := Wrap64(exact);
    WrapSays(exact);
    QuotientSays(product, subtotal);
  }

  lemma WrapSays(exact: int)
    ensures IsWrapped(Wrap64(exact), exact)
  {
    var q := (exact + TWO63) / TWO64;
    assert Wrap64(exact) - exact == -q * TWO64;
    assert (-q * TWO64) % TWO64 == 0;
  }

  lemma QuotientSays(product: int, subtotal: int)
    requires subtotal > 0
    ensures product < 0 ==> NonNegative(GoDiv(product, subtotal)) == 0
    ensures product >= 0 ==>
              var share := NonNegative(GoDiv(product, subtotal));
              share * subtotal <= product < share * subtotal + subtotal
  {
    assert product >= 0 ==> product == (product / subtotal) * subtotal + product % subtotal;
  }

  lemma TakeShare(items: seq<Item>, total: int, i: nat, taken: int, shares: seq<int>)
    requires i < |items| && shares == Shares(items, total) && taken == Sum(shares[..i])
    ensures shares[i] == Payable(items, total, i, taken) && Sum(shares[..i + 1]) == taken + shares[i]
  {
    SharesPrefix(items, total, i);
    NextShare(items, total, i);
    assert shares[..i + 1][..i] == shares[..i];
  }

  lemma NextShare(items: seq<Item>, total: int, i: nat)
    requires i < |items|
    ensures var before := Sum(SharesUpTo(items, total, i));
            && Shares(items, total)[i] == Payable(items, total, i, before)
            && Sum(SharesUpTo(items, total, i + 1)) == before + Payable(items, total, i, before)
  {
    SharesPrefix(items, total, i + 1);
    assert Shares(items, total)[i] == SharesUpTo(items, total, i + 1)[i];
    assert SharesUpTo(items, total, i + 1)[..i] == SharesUpTo(items, total, i);
  }

  method AddLines(qty: map<string, int>, amt: map<string, int>, lines: seq<PaymentLine>)
    returns (qty': map<string, int>, amt': map<string, int>)
    ensures forall id :: Lookup(qty', id) == Lookup(qty, id) + LineQuantity(lines, id)
    ensures forall id :: Lookup(amt', id) == Lookup(amt, id) + LineAmount(lines, id)
  {
    qty', amt' := qty, amt;
    for i := 0 to |lines|
      invariant forall id :: Lookup(qty', id) == Lookup(qty, id) + LineQuantity(lines[..i], id)
      invariant forall id :: Lookup(amt', id) == Lookup(amt, id) + LineAmount(lines[..i], id)
    {
      assert lines[..i + 1][..i] == lines[..i];
      var l := lines[i];
      qty' := qty'[l.lineId := Lookup(qty', l.lineId) + l.quantity];
      amt' := amt'[l.lineId := Lookup(amt', l.lineId) + l.amount];
    }
    assert lines[..|lines|] == lines;
  }

  lemma {:induction false} SharesPrefix(items: seq<Item>, total: int, n: nat)
    requires n <= |items|
    ensures SharesUpTo(items, total, n) == Shares(items, total)[..n]
    decreases |items| - n
  {
    if n < |items| {
      SharesPrefix(items, total, n + 1);
      assert SharesUpTo(items, total, n + 1)[..n] == SharesUpTo(items, total, n);
      assert Shares(items, total)[..n + 1][..n] == Shares(items, total)[..n];
    }
  }

  // ----- the allocation is exact -----

  /**
   Whatever the line totals, the shares add up to the order total exactly when the lines before
   the last were not given more than the total.
   */
  lemma SumIsTotal(items: seq<Item>, total: int)
    requires |items| > 0 && Subtotal(items) > 0 && total > 0
    ensures Sum(Shares(items, total)) == total
            <==> Sum(SharesUpTo(items, total, |items| - 1)) <= total
  {
    var n := |items| - 1;
    assert Shares(items, total)[..n] == SharesUpTo(items, total, n);
  }

  /** A billable order: something to pay, and no line total is negative. */
  ghost predicate Billable(items: seq<Item>, total: int) {
    && |items| > 0 && Subtotal(items) > 0 && total > 0
    && (forall i :: 0 <= i < |items| ==> 0 <= items[i].lineTotal)
  }

  /** No product before the last line leaves 64 bits. */
  ghost predicate AllFit(items: seq<Item>, total: int) {
    forall i :: 0 <= i < |items| - 1 ==> Fits(items[i].lineTotal, total)
  }

  /** The product the share is computed from stays below the 64-bit limit. */
  ghost predicate Fits(lineTotal: int, total: int) { lineTotal * total < TWO63 }

  /** The part of the subtotal carried by the first `n` lines. */
  function PartialSubtotal(items: seq<Item>, n: nat): int
    requires n <= |items|
  {
    Subtotal(items[..n])
  }

  lemma {:induction false} PartialMonotone(items: seq<Item>, n: nat, m: nat)
    requires n <= m <= |items| && forall i :: 0 <= i < |items| ==> 0 <= items[i].lineTotal
    ensures 0 <= PartialSubtotal(items, n) <= PartialSubtotal(items, m)
    decreases n + m
  {
    if n < m {
      assert items[..m][..m - 1] == items[..m - 1];
      PartialMonotone(items, n, m - 1);
    } else if n > 0 {
      assert items[..n][..n - 1] == items[..n - 1];
      PartialMonotone(items, n - 1, n - 1);
    }
  }

  /** `share` is the exact proportion rounded down. */
  ghost predicate Floored(share: int, lineTotal: int, total: int, sub: int) {
    share * sub <= lineTotal * total < share * sub + sub
  }

  /** `given` falls short of its exact proportion by at most `n` rials. */
  ghost predicate Near(given: int, partial: int, total: int, sub: int, n: nat) {
    given * sub <= partial * total <= given * sub + n * sub
  }

  lemma FloorShare(lineTotal: int, total: int, subtotal: int)
    requires 0 <= lineTotal && total > 0 && subtotal > 0 && Fits(lineTotal, total)
    ensures Floored(NonNegative(Proportion(lineTotal, total, subtotal)), lineTotal, total, subtotal)
  {
    var p := lineTotal * total;
    assert p >= 0;
    assert Wrap64(p) == p;
    assert p == (p / subtotal) * subtotal + p % subtotal;
  }

  lemma Distribute(a: int, b: int, c: int)
    ensures (a + b) * c == a * c + b * c
  {
  }

  lemma InnerShare(items: seq<Item>, total: int, k: nat, taken: int)
    requires k < |items| - 1 && Subtotal(items) > 0 && total > 0
    ensures Payable(items, total, k, taken) == NonNegative(Proportion(items[k].lineTotal, total, Subtotal(items)))
  {
    hide Proportion;
  }

  /** The first `n` shares fall short of their exact proportion by less than a rial each. */
  lemma {:induction false} PrefixShares(items: seq<Item>, total: int, n: nat)
    requires Billable(items, total) && AllFit(items, total) && n < |items|
    ensures Near(Sum(SharesUpTo(items, total, n)), PartialSubtotal(items, n), total, Subtotal(items), n)
  {
    if n > 0 {
      var k, sub := n - 1, Subtotal(items);
      assert items[..n][..k] == items[..k];
      assert PartialSubtotal(items, n) == PartialSubtotal(items, k) + items[k].lineTotal;
      hide Proportion, Payable, NonNegative, SharesUpTo, Sum, Subtotal, Fits, Floored, Near;
      PrefixShares(items, total, k);
      NextShare(items, total, k);
      var before := Sum(SharesUpTo(items, total, k));
      InnerShare(items, total, k, before);
      FloorShare(items[k].lineTotal, total, sub);
      PrefixArithmetic(before, Payable(items, total, k, before), PartialSubtotal(items, k),
                       items[k].lineTotal, total, sub, k);
    }
  }

  lemma PrefixArithmetic(before: int, share: int, partial: int, lineTotal: int, total: int, sub: int, k: nat)
    requires Near(before, partial, total, sub, k) && Floored(share, lineTotal, total, sub)
    ensures Near(before + share, partial + lineTotal, total, sub, k + 1)
  {
    Distribute(before, share, sub);
    Distribute(partial, lineTotal, total);
    Distribute(k, 1, sub);
  }

  lemma MulCancel(a: int, b: int, c: int)
    requires c > 0 && a * c <= b * c
    ensures a <= b
  {
    assert a > b ==> (a - b) * c >= c;
  }

  lemma MulMonotone(a: int, b: int, c: int)
    requires a <= b && 0 <= c
    ensures a * c <= b * c
  {
  }

  /** `given` does not pass the exact proportion. */
  ghost predicate NotOver(given: int, partial: int, total: int, sub: int) { given * sub <= partial * total }

  /** Wrapped or not, a share does not pass its exact proportion: wrapping only makes the product smaller. */
  lemma ShareNotOver(lineTotal: int, total: int, sub: int)
    requires 0 <= lineTotal && 0 < total && 0 < sub
    ensures NotOver(NonNegative(Proportion(lineTotal, total, sub)), lineTotal, total, sub)
  {
    var p := lineTotal * total;
    assert 0 <= p;
    WrapNotAbove(p);
    FloorBelow(Wrap64(p), sub);
  }

  lemma WrapNotAbove(p: int)
    requires 0 <= p
    ensures Wrap64(p) <= p
  {
    if p >= TWO63 { WrapBelow(p); }
  }

  /** With or without overflow, the shares before the last line keep within their exact proportion. */
  lemma {:induction false} PrefixNotOver(items: seq<Item>, total: int, n: nat)
    requires Billable(items, total) && n < |items|
    ensures NotOver(Sum(SharesUpTo(items, total, n)), PartialSubtotal(items, n), total, Subtotal(items))
  {
    if n > 0 {
      var k, sub := n - 1, Subtotal(items);
      assert items[..n][..k] == items[..k];
      assert PartialSubtotal(items, n) == PartialSubtotal(items, k) + items[k].lineTotal;
      hide Proportion, Payable, NonNegative, SharesUpTo, Sum, Subtotal, NotOver;
      PrefixNotOver(items, total, k);
      NextShare(items, total, k);
      var before := Sum(SharesUpTo(items, total, k));
      InnerShare(items, total, k, before);
      ShareNotOver(items[k].lineTotal, total, sub);
      NotOverAdd(before, Payable(items, total, k, before), PartialSubtotal(items, k), items[k].lineTotal, total, sub);
    }
  }

  lemma NotOverAdd(before: int, share: int, partial: int, lineTotal: int, total: int, sub: int)
    requires NotOver(before, partial, total, sub) && NotOver(share, lineTotal, total, sub)
    ensures NotOver(before + share, partial + lineTotal, total, sub)
  {
    Distribute(before, share, sub);
    Distribute(partial, lineTotal, total);
  }

  /** What was given before the last line never passes the total. */
  lemma NotOverGiven(given: int, partial: int, total: int, sub: int)
    requires NotOver(given, partial, total, sub) && partial <= sub && 0 < sub && 0 <= total
    ensures given <= total
  {
    MulMonotone(partial, sub, total);
    MulCancel(given, total, sub);
  }

  /** On a billable order the shares add up to the total, to the rial, even when a product overflows. */
  lemma AllocationExact(items: seq<Item>, total: int)
    requires Billable(items, total)
    ensures Sum(Shares(items, total)) == total
  {
    var n := |items| - 1;
    PartialMonotone(items, n, |items|);
    assert items[..|items|] == items;
    hide NotOver, Sum, SharesUpTo, Payable;
    PrefixNotOver(items, total, n);
    NotOverGiven(Sum(SharesUpTo(items, total, n)), PartialSubtotal(items, n), total, Subtotal(items));
    SumIsTotal(items, total);
  }

  /** The last share, which absorbs the rounding, is at least its proportion and less than `n` rials over. */
  lemma LastShare(items: seq<Item>, total: int)
    requires Billable(items, total) && AllFit(items, total)
    ensures var n, sub := |items|, Subtotal(items);
            AtMostOver(Shares(items, total)[n - 1], items[n - 1].lineTotal, total, sub, n)
  {
    var n, sub := |items| - 1, Subtotal(items);
    assert sub == PartialSubtotal(items, n) + items[n].lineTotal;
    AllocationExact(items, total);
    NextShare(items, total, n);
    hide Near, Fits, SharesUpTo, Payable, AtMostOver, Subtotal;
    PrefixShares(items, total, n);
    var before, last := Sum(SharesUpTo(items, total, n)), Shares(items, total)[n];
    LastArithmetic(before, last, total, PartialSubtotal(items, n), items[n].lineTotal, sub, n);
  }

  /** `share` is at least the exact proportion, and less than `n` rials over it. */
  ghost predicate AtMostOver(share: int, lineTotal: int, total: int, sub: int, n: nat) {
    lineTotal * total <= share * sub < lineTotal * total + n * sub
  }

  lemma LastArithmetic(before: int, last: int, total: int, partial: int, lineTotal: int, sub: int, n: nat)
    requires total == before + last && sub == partial + lineTotal > 0
    requires Near(before, partial, total, sub, n)
    ensures AtMostOver(last, lineTotal, total, sub, n + 1)
  {
    Distribute(before, last, sub);
    Distribute(partial, lineTotal, total);
    Distribute(n, 1, sub);
    assert total * sub == sub * total;
  }

  /**
   A share before the last lies within one rial below its exact proportion if and only if the
   64-bit product did not overflow.
   */
  lemma ProportionalIffExact(items: seq<Item>, total: int, i: nat)
    requires |items| > 0 && 0 < Subtotal(items) < TWO63 && total > 0
    requires i < |items| - 1 && 0 <= items[i].lineTotal
    ensures Floored(Shares(items, total)[i], items[i].lineTotal, total, Subtotal(items))
            <==> Fits(items[i].lineTotal, total)
  {
    hide Proportion, Floored, Fits, SharesUpTo, Sum, Subtotal;
    NextShare(items, total, i);
    InnerShare(items, total, i, Sum(SharesUpTo(items, total, i)));
    ShareIff(items[i].lineTotal, total, Subtotal(items));
  }

  lemma ShareIff(lineTotal: int, total: int, sub: int)
    requires 0 <= lineTotal && 0 < total && 0 < sub < TWO63
    ensures Floored(NonNegative(Proportion(lineTotal, total, sub)), lineTotal, total, sub) <==> Fits(lineTotal, total)
  {
    if Fits(lineTotal, total) {
      FloorShare(lineTotal, total, sub);
    } else {
      WrappedShare(lineTotal * total, sub);
    }
  }

  lemma WrappedShare(p: int, sub: int)
    requires p >= TWO63 && 0 < sub < TWO63
    ensures NonNegative(GoDiv(Wrap64(p), sub)) * sub + sub <= p
  {
    WrapBelow(p);
    FloorBelow(Wrap64(p), sub);
  }

  lemma FloorBelow(w: int, sub: int)
    requires sub > 0
    ensures NonNegative(GoDiv(w, sub)) * sub <= NonNegative(w)
  {
    if w >= 0 {
      assert w == (w / sub) * sub + w % sub;
    } else {
      assert (-w) / sub >= 0;
    }
  }

  lemma WrapBelow(p: int)
    requires p >= TWO63
    ensures Wrap64(p) < TWO63 && Wrap64(p) <= p - TWO64
  {
  }

  /** Two equal lines of four billion rials: the product wraps, and the first line is priced at nothing. */
  lemma OverflowExample()
    ensures var items := [Item("a", 1, 4_000_000_000), Item("b", 1, 4_000_000_000)];
            Shares(items, 8_000_000_000) == [0, 8_000_000_000]
  {
    var items := [Item("a", 1, 4_000_000_000), Item("b", 1, 4_000_000_000)];
    var total := 8_000_000_000;
    assert items[..1] == [items[0]] && items[..1][..0] == [];
    assert Subtotal(items) == total;
    WrapExample();
    NextShare(items, total, 0);
    NextShare(items, total, 1);
  }

  lemma WrapExample()
    ensures Wrap64(4_000_000_000 * 8_000_000_000) < 0
  {
  }
}

/**
 Print jobs of the offline store (`EnqueueOrderPrintJobsDocs`, `createPrintJobs` and `PrintJobs` in
 printing.go, `Entities` in store.go): a job is not created again while an equal one is found, and
 finding reads at most 500 jobs, those with the lowest identifiers, and at most the 100 newest of
 an order.
 */
module PrintJobs {
  import opened Prelude
  import opened KitchenRouting
  import opened KitchenTickets

  /** What makes two jobs the same request; the categories are kept sorted, hence a set. */
  datatype Key = Key(order: string, doc: string, printer: string, copies: int, cats: Option<set<string>>)

  datatype PrintJob = PrintJob(key: Key, status: string, created: int)

  type Jobs = map<string, PrintJob>

  const STORED_LIMIT: nat := 500
  const ORDER_LIMIT: nat := 100

  predicate Recognised(status: string) { status in {"pending", "printing", "printed", "failed"} }

  /** A key as it is rebuilt from the stored record. */
  function Shown(k: Key): Key {
    k.(copies := if k.copies < 1 then 1 else k.copies, cats := if k.cats == Some({}) then None else k.cats)
  }

  // ----- identifiers in order -----

  predicate Before(a: string, b: string) {
    if b == "" then false
    else if a == "" then true
    else a[0] < b[0] || (a[0] == b[0] && Before(a[1..], b[1..]))
  }

  /** One is the start of the other, or they part at a lower character. */
  ghost predicate Precedes(a: string, b: string) {
    a < b || exists k: nat :: PartAt(a, b, k) && a[k] < b[k]
  }

  ghost predicate PartAt(a: string, b: string, k: nat) {
    k < |a| && k < |b| && a[..k] == b[..k] && a[k] != b[k]
  }

  lemma PartLater(a: string, b: string, k: nat)
    requires a != "" && b != "" && a[0] == b[0]
    ensures PartAt(a, b, k + 1) <==> PartAt(a[1..], b[1..], k)
  {
    if k < |a| - 1 && k < |b| - 1 {
      assert a[..k + 1] == [a[0]] + a[1..][..k] && b[..k + 1] == [b[0]] + b[1..][..k];
      assert a[..k + 1][1..] == a[1..][..k] && b[..k + 1][1..] == b[1..][..k];
    }
  }

  lemma PrecedesLater(a: string, b: string)
    requires a != "" && b != "" && a[0] == b[0]
    ensures Precedes(a, b) <==> Precedes(a[1..], b[1..])
  {
    assert a < b <==> a[1..] < b[1..] by {
      assert a == [a[0]] + a[1..] && b == [b[0]] + b[1..];
    }
    if k: nat :| PartAt(a, b, k) && a[k] < b[k] { PartLater(a, b, k - 1); }
    if k: nat :| PartAt(a[1..], b[1..], k) && a[1..][k] < b[1..][k] { PartLater(a, b, k); }
  }

  lemma {:induction false} BeforeIff(a: string, b: string)
    ensures Before(a, b) <==> Precedes(a, b)
  {
    if a != "" && b != "" && a[0] == b[0] {
      BeforeIff(a[1..], b[1..]);
      PrecedesLater(a, b);
    } else if a != "" && b != "" {
      assert PartAt(a, b, 0);
    }
  }

  lemma {:induction false} NotBeforeItself(a: string)
    ensures !Before(a, a)
  {
    if a != "" { NotBeforeItself(a[1..]); }
  }

  lemma {:induction false} BeforeTotal(a: string, b: string)
    ensures a == b || Before(a, b) || Before(b, a)
  {
    if a != "" && b != "" && a[0] == b[0] {
      BeforeTotal(a[1..], b[1..]);
      assert a == [a[0]] + a[1..] && b == [b[0]] + b[1..];
    }
  }

  lemma {:induction false} BeforeTransitive(a: string, b: string, c: string)
    requires Before(a, b) && Before(b, c)
    ensures Before(a, c)
  {
    if a != "" && a[0] == b[0] && b[0] == c[0] {
      BeforeTransitive(a[1..], b[1..], c[1..]);
    }
  }

  function IdsBefore(ids: set<string>, id: string): set<string> { set x | x in ids && Before(x, id) }

  /** Of the identifiers in order, the first `limit`. */
  function LowestIds(ids: set<string>, limit: nat): set<string> { set x | x in ids && |IdsBefore(ids, x)| < limit }

  lemma AllLowest(ids: set<string>, limit: nat)
    requires |ids| <= limit
    ensures LowestIds(ids, limit) == ids
  {
    forall x | x in ids
      ensures |IdsBefore(ids, x)| < limit
    {
      NotBeforeItself(x);
      assert |ids - {x}| == |ids| - 1;
      assert IdsBefore(ids, x) <= ids - {x};
      SubsetSize(IdsBefore(ids, x), ids - {x});
    }
  }

  lemma {:induction false} LastId(ids: set<string>) returns (m: string)
    requires ids != {}
    ensures m in ids && forall x :: x in ids && x != m ==> Before(x, m)
    decreases ids
  {
    m :| m in ids;
    var rest := ids - {m};
    if rest == {} {
      assert ids == {m};
    } else {
      var n := LastId(rest);
      assert forall x :: x in ids ==> x == m || x in rest;
      BeforeTotal(m, n);
      if Before(m, n) {
        m := n;
      } else {
        forall x | x in ids && x != m
          ensures Before(x, m)
        {
          if x != n { BeforeTransitive(x, n, m); }
        }
      }
    }
  }

  /** A cut of the sorted list: the right number, and everything kept comes before everything dropped. */
  lemma {:induction false} LowestIsPrefix(ids: set<string>, limit: nat)
    ensures |LowestIds(ids, limit)| == if |ids| <= limit then |ids| else limit
    ensures forall x, y :: x in LowestIds(ids, limit) && y in ids - LowestIds(ids, limit) ==> Before(x, y)
    decreases ids
  {
    if |ids| <= limit {
      AllLowest(ids, limit);
    } else {
      var m := LastId(ids);
      var rest := ids - {m};
      LowestIsPrefix(rest, limit);
      NotBeforeItself(m);
      assert IdsBefore(ids, m) == rest;
      LowestWithoutLast(ids, m, limit);
      assert ids - LowestIds(ids, limit) == (rest - LowestIds(rest, limit)) + {m};
    }
  }

  lemma LowestWithoutLast(ids: set<string>, m: string, limit: nat)
    requires m in ids && |IdsBefore(ids, m)| >= limit
    requires forall x :: x in ids && x != m ==> Before(x, m)
    ensures LowestIds(ids, limit) == LowestIds(ids - {m}, limit)
  {
    forall x | x in ids && x != m
      ensures IdsBefore(ids, x) == IdsBefore(ids - {m}, x)
    {
      if Before(m, x) {
        BeforeTransitive(x, m, x);
        NotBeforeItself(x);
      }
    }
  }

  // ----- what a call finds -----

  /** The jobs of an order among those read from the store. */
  function ReadFor(jobs: Jobs, order: string): set<string> {
    set id | id in LowestIds(jobs.Keys, STORED_LIMIT) && id in jobs && (order == "" || jobs[id].key.order == order)
  }

  ghost predicate IsListing(jobs: Jobs, order: string, seen: set<string>) {
    && seen <= ReadFor(jobs, order)
    && |seen| == (if |ReadFor(jobs, order)| <= 100 then |ReadFor(jobs, order)| else 100)
    && forall s, t :: s in seen && t in ReadFor(jobs, order) - seen ==> NotOlder(jobs, s, t)
  }

  ghost predicate NotOlder(jobs: Jobs, s: string, t: string) {
    s in jobs && t in jobs && jobs[s].created >= jobs[t].created
  }

  ghost predicate Found(jobs: Jobs, seen: set<string>, k: Key) {
    exists id :: id in seen && id in jobs && Shown(jobs[id].key) == k
  }

  predicate Oldest(jobs: Jobs, ids: set<string>, id: string) {
    id in ids && id in jobs && forall x :: x in ids && x in jobs ==> jobs[id].created <= jobs[x].created
  }

  lemma {:induction false} OldestExists(jobs: Jobs, ids: set<string>)
    requires ids != {} && ids <= jobs.Keys
    ensures exists id :: Oldest(jobs, ids, id)
    decreases ids
  {
    var m :| m in ids;
    var rest := ids - {m};
    if rest == {} {
      assert ids == {m};
      assert Oldest(jobs, ids, m);
    } else {
      OldestExists(jobs, rest);
      var n :| Oldest(jobs, rest, n);
      var o := if jobs[m].created <= jobs[n].created then m else n;
      assert Oldest(jobs, ids, o);
    }
  }

  /** The new table after asking for `wants`: found keys are reused, the others get a new job each. */
  ghost predicate Outcome(before: Jobs, seen: set<string>, after: Jobs, wants: seq<Key>, out: seq<string>) {
    && |out| == |wants|
    && (forall id :: id in before ==> id in after && after[id] == before[id])
    && (forall id :: id in after ==> id in before || id in out)
    && (forall i :: 0 <= i < |wants| ==> Answer(before, seen, after, wants[i], out[i]))
    && (forall i, k :: 0 <= i < k < |wants| && out[i] == out[k] ==> out[i] in before)
  }

  ghost predicate HasKey(jobs: Jobs, id: string, k: Key) { id in jobs && Shown(jobs[id].key) == k }

  /** A found key is answered by its oldest job. */
  ghost predicate Answer(before: Jobs, seen: set<string>, after: Jobs, k: Key, id: string) {
    && id in after && Shown(after[id].key) == Shown(k)
    && (id in before <==> Found(before, seen, k))
    && (id in before ==> id in seen && forall x :: x in seen && HasKey(before, x, k) ==> NotOlder(before, x, id))
    && (id !in before ==> after[id].key == k)
  }

  /** Nothing is created exactly when every wanted key is found. */
  lemma CreatesNothingIff(before: Jobs, seen: set<string>, after: Jobs, wants: seq<Key>, out: seq<string>)
    requires Outcome(before, seen, after, wants, out)
    ensures after == before <==> (forall k :: k in wants ==> Found(before, seen, k))
  {
    if after == before {
      forall k | k in wants
        ensures Found(before, seen, k)
      {
        var i :| 0 <= i < |wants| && wants[i] == k;
        assert Answer(before, seen, after, wants[i], out[i]);
      }
    }
    if forall k :: k in wants ==> Found(before, seen, k) {
      forall id | id in after
        ensures id in before
      {
        if id in out {
          var i :| 0 <= i < |out| && out[i] == id;
          assert Answer(before, seen, after, wants[i], out[i]);
        }
      }
      assert after.Keys == before.Keys;
    }
  }

  lemma OutcomeStart(before: Jobs, seen: set<string>)
    ensures Outcome(before, seen, before, [], [])
  {
  }

  lemma OutcomeReused(before: Jobs, seen: set<string>, after: Jobs, wants: seq<Key>, out: seq<string>, k: Key,
                      id: string)
    requires Outcome(before, seen, after, wants, out)
    requires id in seen && id in before && Shown(before[id].key) == k && Shown(k) == k
    requires forall x :: x in seen && HasKey(before, x, k) ==> NotOlder(before, x, id)
    ensures Outcome(before, seen, after, wants + [k], out + [id])
  {
    assert Answer(before, seen, after, k, id);
  }

  lemma OldestAnswers(before: Jobs, seen: set<string>, k: Key, same: set<string>, id: string)
    requires same == (set x | x in seen && HasKey(before, x, k)) && Oldest(before, same, id)
    ensures forall x :: x in seen && HasKey(before, x, k) ==> NotOlder(before, x, id)
  {
    forall x | x in seen && HasKey(before, x, k)
      ensures NotOlder(before, x, id)
    {
      assert x in same;
    }
  }

  lemma OutcomeCreated(before: Jobs, seen: set<string>, after: Jobs, wants: seq<Key>, out: seq<string>, k: Key,
                       id: string, job: PrintJob)
    requires Outcome(before, seen, after, wants, out)
    requires id !in after && job.key == k && !Found(before, seen, k)
    ensures Outcome(before, seen, after[id := job], wants + [k], out + [id])
  {
    var next := after[id := job];
    assert Answer(before, seen, next, k, id);
    forall i | 0 <= i < |wants|
      ensures Answer(before, seen, next, wants[i], out[i])
    {
      assert Answer(before, seen, after, wants[i], out[i]);
    }
    forall x | x in next
      ensures x in before || x in out + [id]
    {
      assert x == id ==> (out + [id])[|out|] == x;
    }
  }

  // ----- the jobs an order asks for -----

  datatype Settings = Settings(active: seq<Printer>, routes: seq<Route>, titles: map<string, string>,
                               categoryOf: map<string, string>)

  datatype Request = Request(order: string, products: seq<string>, customer: int, kitchen: int)

  function CategoriesOf(s: Settings, products: seq<string>): set<string> {
    set p | p in products && p in s.categoryOf && s.categoryOf[p] != "" :: s.categoryOf[p]
  }

  function TicketKey(order: string, t: Ticket): Key { Key(order, "kitchen", t.printer, t.copies, t.cats) }

  function MissingKey(r: Request): Key {
    if r.customer > 0 then Key(r.order, "customer", "", r.customer, None)
    else Key(r.order, "kitchen", "", r.kitchen, None)
  }

  function PlanOf(s: Settings, choice: seq<string>, r: Request): Plan
    requires |choice| == |s.routes| && |s.active| > 0
  {
    PlanFor(s.active, Table(s.routes, s.active, choice), CategoriesOf(s, r.products), r.kitchen)
  }

  ghost predicate Wanted(s: Settings, choice: seq<string>, r: Request, k: Key)
    requires |choice| == |s.routes|
  {
    if r.customer <= 0 && r.kitchen <= 0 then false
    else if |s.active| == 0 then k == MissingKey(r)
    else
      || (r.customer > 0 && k == Key(r.order, "customer", CashierOf(s.active), r.customer, None))
      || (r.kitchen > 0 && k == TicketKey(r.order, Ticket(k.printer, k.copies, k.cats))
          && IsTicket(PlanOf(s, choice, r), Ticket(k.printer, k.copies, k.cats)))
  }

  ghost predicate IsWants(s: Settings, choice: seq<string>, r: Request, wants: seq<Key>)
    requires |choice| == |s.routes|
  {
    forall k :: k in wants <==> Wanted(s, choice, r, k)
  }

  /** The printer at the till: the first that is marked as one, else the first of all. */
  ghost predicate IsTill(active: seq<Printer>, id: string) {
    if exists p :: p in active && IsCashier(p)
    then exists p :: IsFirst(active, p, IsCashier) && p.id == id
    else |active| > 0 && active[0].id == id
  }

  ghost predicate IsStation(active: seq<Printer>, station: Option<string>) {
    if exists p :: p in active && IsKitchen(p)
    then exists p :: IsFirst(active, p, IsKitchen) && station == Some(p.id)
    else station == None
  }

  /** What is printed for a request: a receipt at the till and the kitchen's tickets, or one failed job. */
  lemma WantedSays(s: Settings, choice: seq<string>, r: Request, k: Key)
    requires |choice| == |s.routes| && Wanted(s, choice, r, k)
    ensures k.order == r.order
    ensures |s.active| == 0 ==>
              && k.printer == "" && k.cats == None
              && (if r.customer > 0 then k.doc == "customer" && k.copies == r.customer
                  else k.doc == "kitchen" && k.copies == r.kitchen > 0)
    ensures |s.active| > 0 && k.doc == "customer" ==>
              k.copies == r.customer > 0 && IsTill(s.active, k.printer) && k.cats == None
    ensures |s.active| > 0 && k.doc != "customer" ==>
              && k.doc == "kitchen" && r.kitchen > 0
              && exists j: Plan :: j.table == Table(s.routes, s.active, choice) && j.want == r.kitchen
                   && IsStation(s.active, j.station) && IsTill(s.active, j.cashier)
                   && (forall c :: c in j.cats <==>
                         exists p :: p in r.products && p in s.categoryOf && s.categoryOf[p] == c && c != "")
                   && TicketSays(j, Ticket(k.printer, k.copies, k.cats))
  {
    if |s.active| > 0 {
      PlacesSay(s.active);
      if k.doc != "customer" {
        var j := PlanOf(s, choice, r);
        hide IsTill, IsStation, TicketSays, IsTicket, Table, CashierOf, StationOf;
        IsTicketSays(j, Ticket(k.printer, k.copies, k.cats));
        assert j.table == Table(s.routes, s.active, choice) && j.want == r.kitchen;
      }
    }
  }

  /** And all of it: without a printer the failed job, else the receipt and every ticket that is asked for. */
  lemma AllWanted(s: Settings, choice: seq<string>, r: Request, till: string, j: Plan, t: Ticket)
    requires |choice| == |s.routes| && IsTill(s.active, till)
    requires j.table == Table(s.routes, s.active, choice) && j.want == r.kitchen && j.cashier == till
    requires IsStation(s.active, j.station) && TicketSays(j, t)
    requires forall c :: c in j.cats <==>
               exists p :: p in r.products && p in s.categoryOf && s.categoryOf[p] == c && c != ""
    ensures r.customer > 0 ==> Wanted(s, choice, r, Key(r.order, "customer", till, r.customer, None))
    ensures r.kitchen > 0 ==> Wanted(s, choice, r, Key(r.order, "kitchen", t.printer, t.copies, t.cats))
  {
    assert |s.active| > 0;
    hide IsTicket, TicketSays, CashierOf, StationOf, Table, IsTill, IsStation;
    PlacesSay(s.active);
    OnePlace(s.active, till, CashierOf(s.active), j.station, StationOf(s.active));
    assert j.cats == CategoriesOf(s, r.products);
    assert j == PlanOf(s, choice, r);
    IsTicketSays(j, t);
  }

  lemma FailedWanted(s: Settings, choice: seq<string>, r: Request)
    requires |choice| == |s.routes| && |s.active| == 0
    ensures r.customer > 0 ==> Wanted(s, choice, r, Key(r.order, "customer", "", r.customer, None))
    ensures r.customer <= 0 < r.kitchen ==> Wanted(s, choice, r, Key(r.order, "kitchen", "", r.kitchen, None))
  {
  }

  lemma OnePlace(active: seq<Printer>, till: string, till': string, station: Option<string>, station': Option<string>)
    requires IsTill(active, till) && IsTill(active, till') && IsStation(active, station) && IsStation(active, station')
    ensures till == till' && station == station'
  {
    hide IsCashier, IsKitchen;
  }

  lemma PlacesSay(active: seq<Printer>)
    requires |active| > 0
    ensures IsTill(active, CashierOf(active)) && IsStation(active, StationOf(active))
  {
    hide IsCashier, IsKitchen, First, IsFirst;
    FirstIs(active, IsCashier);
    FirstIs(active, IsKitchen);
  }

  /** A wanted key survives being stored and read back. */
  lemma WantedShown(s: Settings, choice: seq<string>, r: Request, k: Key)
    requires |choice| == |s.routes| && Wanted(s, choice, r, k)
    ensures Shown(k) == k && k.order == r.order
  {
    if |s.active| > 0 && k.doc == "kitchen" {
      var p := PlanOf(s, choice, r);
      if p.table != map[] {
        var c :| c in CatsAt(p, k.printer) && CopiesFor(p, c) == k.copies;
        assert k.cats.value != {};
      }
    }
  }

  /** If routes are consulted at all, every category of the order is settled. */
  ghost predicate AllSettled(s: Settings, r: Request) {
    r.kitchen > 0 && |s.active| > 0 ==>
      && "" !in s.titles
      && forall c :: c in CategoriesOf(s, r.products) ==> DeliverySettled(s.routes, s.active, s.titles, c, r.kitchen)
  }

  lemma WantedDetermined(s: Settings, a: seq<string>, b: seq<string>, r: Request, k: Key)
    requires Choice(s.routes, s.titles, a) && Choice(s.routes, s.titles, b) && AllSettled(s, r)
    ensures Wanted(s, a, r, k) <==> Wanted(s, b, r, k)
  {
    hide IsTicket, Settled, Table;
    if |s.active| > 0 && r.kitchen > 0 {
      TicketsDetermined(s.routes, s.active, s.titles, CategoriesOf(s, r.products), r.kitchen, a, b,
                        Ticket(k.printer, k.copies, k.cats));
    }
  }

  /** One call, whatever the iteration orders were. */
  ghost predicate EnqueueStep(s: Settings, r: Request, before: Jobs, after: Jobs) {
    exists choice, wants, seen, out :: EnqueueRun(s, r, before, after, choice, wants, seen, out)
  }

  ghost predicate EnqueueRun(s: Settings, r: Request, before: Jobs, after: Jobs,
                             choice: seq<string>, wants: seq<Key>, seen: set<string>, out: seq<string>) {
    && Choice(s.routes, s.titles, choice) && IsWants(s, choice, r, wants)
    && IsListing(before, r.order, seen) && Outcome(before, seen, after, wants, out)
  }

  /** After a call, every wanted key has a job. */
  lemma CallLeavesJobs(s: Settings, r: Request, before: Jobs, after: Jobs, choice: seq<string>, wants: seq<Key>,
                       seen: set<string>, out: seq<string>, k: Key) returns (id: string)
    requires EnqueueRun(s, r, before, after, choice, wants, seen, out) && k in wants
    ensures id in after && Shown(after[id].key) == k
  {
    var i :| 0 <= i < |wants| && wants[i] == k;
    assert Answer(before, seen, after, wants[i], out[i]);
    WantedShown(s, choice, r, k);
    id := out[i];
  }

  lemma WholeListing(jobs: Jobs, order: string, seen: set<string>)
    requires IsListing(jobs, order, seen) && |ReadFor(jobs, order)| <= 100
    ensures seen == ReadFor(jobs, order)
  {
    SubsetSize(seen, ReadFor(jobs, order));
  }

  /** Some job with this key is among those the store reads. */
  ghost predicate Readable(jobs: Jobs, k: Key) {
    exists id :: id in LowestIds(jobs.Keys, STORED_LIMIT) && id in jobs && Shown(jobs[id].key) == k
  }

  /**
   Repeating a call: with settled routes and at most 100 readable jobs of the order, nothing is
   created exactly when every wanted key has a job among the 500 lowest identifiers.
   */
  lemma RepeatIff(s: Settings, r: Request, before: Jobs, after: Jobs, choice: seq<string>, wants: seq<Key>,
                  seen: set<string>, out: seq<string>)
    requires EnqueueRun(s, r, before, after, choice, wants, seen, out)
    requires |ReadFor(before, r.order)| <= 100
    ensures after == before <==> (forall k :: k in wants ==> Readable(before, k))
  {
    WholeListing(before, r.order, seen);
    CreatesNothingIff(before, seen, after, wants, out);
    forall k | k in wants
      ensures Found(before, seen, k) <==> Readable(before, k)
    {
      WantedShown(s, choice, r, k);
    }
  }

  function JobsOf(jobs: Jobs, order: string): set<string> {
    set id | id in jobs && (order == "" || jobs[id].key.order == order)
  }

  /** Between two calls jobs may be added and change status; none is deleted. */
  ghost predicate Kept(a: Jobs, b: Jobs) {
    forall id :: id in a ==> id in b && b[id].key == a[id].key
  }

  /** Within the limits, a later call for the same order with unchanged settings creates nothing. */
  lemma RepeatCreatesNothing(s: Settings, r: Request, a: Jobs, b: Jobs, later: Jobs, c: Jobs)
    requires EnqueueStep(s, r, a, b) && Kept(b, later) && EnqueueStep(s, r, later, c) && AllSettled(s, r)
    requires |later| <= 500 && |JobsOf(later, r.order)| <= 100
    ensures c == later
  {
    hide Outcome, IsListing, Wanted, AllSettled;
    var choice, wants, seen, out :| EnqueueRun(s, r, a, b, choice, wants, seen, out);
    var again, wants', seen', out' :| EnqueueRun(s, r, later, c, again, wants', seen', out');
    assert later.Keys == LowestIds(later.Keys, STORED_LIMIT) by {
      assert |later.Keys| == |later|;
      AllLowest(later.Keys, STORED_LIMIT);
    }
    assert ReadFor(later, r.order) == JobsOf(later, r.order);
    forall k | k in wants'
      ensures Readable(later, k)
    {
      WantedDetermined(s, choice, again, r, k);
      var id := CallLeavesJobs(s, r, a, b, choice, wants, seen, out, k);
      assert id in later;
    }
    RepeatIff(s, r, later, c, again, wants', seen', out');
  }

  /** Beyond them: a wanted key whose jobs all have 500 lower identifiers gets a second job. */
  lemma HiddenIsDuplicated(s: Settings, r: Request, before: Jobs, after: Jobs, choice: seq<string>, wants: seq<Key>,
                           seen: set<string>, out: seq<string>, k: Key)
    requires EnqueueRun(s, r, before, after, choice, wants, seen, out) && k in wants
    requires exists id :: id in before && Shown(before[id].key) == k
    requires forall id :: id in before && Shown(before[id].key) == k ==> |IdsBefore(before.Keys, id)| >= 500
    ensures exists first, second ::
              && first in before && first in after && Shown(after[first].key) == k
              && second in after && second !in before && after[second].key == k
  {
    var first :| first in before && Shown(before[first].key) == k;
    var i :| 0 <= i < |wants| && wants[i] == k;
    assert Answer(before, seen, after, wants[i], out[i]);
    assert !Found(before, seen, k);
    assert out[i] in after && out[i] !in before && after[out[i]].key == k;
    assert after[first] == before[first];
  }

  // ----- the operations -----

  ghost predicate Fresh(ids: nat -> string, jobs: Jobs) {
    && (forall i :: ids(i) !in jobs)
    && (forall i, k :: i < k ==> ids(i) != ids(k))
  }

  /** The keys of the wanted jobs, in the order in which they are saved. */
  method KeysFor(r: Request, s: Settings) returns (keys: seq<Key>, ghost choice: seq<string>)
    requires |s.active| > 0 && (r.customer > 0 || r.kitchen > 0)
    ensures forall i :: 0 <= i < |keys| ==> Shown(keys[i]) == keys[i] && keys[i].order == r.order
    ensures Choice(s.routes, s.titles, choice) && IsWants(s, choice, r, keys)
  {
    hide IsTicket, CashierOf, StationOf, IsWants, Wanted, Shown, Table;
    keys := [];
    if r.customer > 0 {
      keys := [Key(r.order, "customer", CashierOf(s.active), r.customer, None)];
    }
    if r.kitchen <= 0 {
      choice := Avoiding(s.routes, s.active, s.titles, "-");
      ReceiptOnly(s, choice, r);
      AllShown(s, choice, r, keys);
      return;
    }
    var table, anyRoute;
    table, anyRoute, choice := BuildTable(s.routes, s.active, s.titles);
    var tickets := TicketsFor(PlanFor(s.active, table, CategoriesOf(s, r.products), r.kitchen));
    ghost var first := keys;
    for i := 0 to |tickets|
      invariant |keys| == |first| + i && keys[..|first|] == first
      invariant forall k :: 0 <= k < i ==> keys[|first| + k] == TicketKey(r.order, tickets[k])
    {
      keys := keys + [TicketKey(r.order, tickets[i])];
    }
    WantsComplete(s, choice, r, tickets, keys);
    AllShown(s, choice, r, keys);
  }

  lemma ReceiptOnly(s: Settings, choice: seq<string>, r: Request)
    requires |choice| == |s.routes| && |s.active| > 0 && r.kitchen <= 0 < r.customer
    ensures IsWants(s, choice, r, [Key(r.order, "customer", CashierOf(s.active), r.customer, None)])
  {
    hide IsTicket, CashierOf;
  }

  lemma AllShown(s: Settings, choice: seq<string>, r: Request, keys: seq<Key>)
    requires |choice| == |s.routes| && IsWants(s, choice, r, keys)
    ensures forall i :: 0 <= i < |keys| ==> Shown(keys[i]) == keys[i] && keys[i].order == r.order
  {
    forall i | 0 <= i < |keys|
      ensures Shown(keys[i]) == keys[i] && keys[i].order == r.order
    {
      assert keys[i] in keys;
      WantedShown(s, choice, r, keys[i]);
    }
  }

  lemma WantsComplete(s: Settings, choice: seq<string>, r: Request, tickets: seq<Ticket>, keys: seq<Key>)
    requires |s.active| > 0 && r.kitchen > 0 && |choice| == |s.routes|
    requires forall t :: t in tickets <==> IsTicket(PlanOf(s, choice, r), t)
    requires |keys| >= |tickets|
    requires keys[..|keys| - |tickets|] ==
             if r.customer > 0 then [Key(r.order, "customer", CashierOf(s.active), r.customer, None)] else []
    requires forall k :: 0 <= k < |tickets| ==> keys[|keys| - |tickets| + k] == TicketKey(r.order, tickets[k])
    ensures IsWants(s, choice, r, keys)
  {
    hide IsTicket, CashierOf, PlanOf;
    var n := |keys| - |tickets|;
    forall k | k in keys
      ensures Wanted(s, choice, r, k)
    {
      var i :| 0 <= i < |keys| && keys[i] == k;
      if i < n {
        assert keys[..n][i] == k;
      } else {
        assert k == TicketKey(r.order, tickets[i - n]);
        assert tickets[i - n] in tickets;
      }
    }
    forall k | Wanted(s, choice, r, k)
      ensures k in keys
    {
      if k.doc == "customer" {
        assert keys[..n][0] == k;
      } else {
        var t := Ticket(k.printer, k.copies, k.cats);
        var i :| 0 <= i < |tickets| && tickets[i] == t;
        assert keys[n + i] == k;
      }
    }
  }

  class PrintDesk {
    var jobs: Jobs

    constructor ()
      ensures jobs == map[] && Valid()
    {
      jobs := map[];
    }

    ghost predicate Valid()
      reads this
    {
      forall id :: id in jobs ==> jobs[id].status in {"pending", "printing", "printed", "failed"}
    }

    method ListJobs(order: string) returns (seen: set<string>)
      ensures IsListing(jobs, order, seen) && seen <= jobs.Keys
    {
      var all := ReadFor(jobs, order);
      seen := all;
      while |seen| > ORDER_LIMIT
        invariant seen <= all && (|seen| >= ORDER_LIMIT || seen == all)
        invariant forall s, t :: s in seen && t in all - seen ==> NotOlder(jobs, s, t)
      {
        OldestExists(jobs, seen);
        var id :| Oldest(jobs, seen, id);
        seen := seen - {id};
      }
    }

    /** `ids` supplies fresh identifiers, `status` is what the payloads carry. */
    method CreateJobs(order: string, wants: seq<Key>, status: string, ids: nat -> string, now: int)
      returns (out: seq<string>, ghost seen: set<string>)
      requires Valid() && Recognised(status)
      requires Fresh(ids, jobs)
      requires forall i :: 0 <= i < |wants| ==> Shown(wants[i]) == wants[i]
      modifies this
      ensures Valid() && IsListing(old(jobs), order, seen)
      ensures Outcome(old(jobs), seen, jobs, wants, out)
      ensures forall id :: id in jobs && id !in old(jobs) ==> jobs[id].status == status && jobs[id].created == now
    {
      hide Outcome, IsListing, Shown;
      var existing := ListJobs(order);
      seen := existing;
      var known := jobs;
      out := [];
      OutcomeStart(known, existing);
      for i := 0 to |wants|
        invariant Valid() && existing <= known.Keys && forall id :: id in known ==> Recognised(known[id].status)
        invariant Outcome(known, existing, jobs, wants[..i], out)
        invariant forall k :: i <= k ==> ids(k) !in jobs
        invariant forall id :: id in jobs && id !in known ==> jobs[id].status == status && jobs[id].created == now
      {
        var same := set id | id in existing && id in known && Shown(known[id].key) == wants[i];
        var reused := false;
        if same != {} {
          OldestExists(known, same);
          var id :| Oldest(known, same, id);
          if Recognised(known[id].status) {
            OldestAnswers(known, existing, wants[i], same, id);
            OutcomeReused(known, existing, jobs, wants[..i], out, wants[i], id);
            out := out + [id];
            reused := true;
          }
        }
        if !reused {
          assert forall id :: id in existing && id in known && Shown(known[id].key) == wants[i] ==> id in same;
          OutcomeCreated(known, existing, jobs, wants[..i], out, wants[i], ids(i), PrintJob(wants[i], status, now));
          jobs := jobs[ids(i) := PrintJob(wants[i], status, now)];
          out := out + [ids(i)];
        }
        assert wants[..i + 1] == wants[..i] + [wants[i]];
      }
      assert wants[..|wants|] == wants;
    }

    /** `products` is `None` when there is no such order. */
    method Enqueue(order: string, products: Option<seq<string>>, customer: int, kitchen: int, s: Settings,
                   ids: nat -> string, now: int)
      returns (r: Reply<seq<string>>, ghost choice: seq<string>, ghost wants: seq<Key>, ghost seen: set<string>)
      requires Valid()
      requires Fresh(ids, jobs)
      modifies this
      ensures Valid() && (r.Err? <==> products == None)
      ensures r.Err? ==> jobs == old(jobs)
      ensures r.Ok? ==>
                EnqueueRun(s, Request(order, products.value, customer, kitchen), old(jobs), jobs,
                           choice, wants, seen, r.value)
      ensures forall id :: id in jobs && id !in old(jobs) ==>
                jobs[id].status == (if |s.active| == 0 then "failed" else "pending") && jobs[id].created == now
    {
      choice, wants, seen := [], [], {};
      if products == None { return Err("order not found"), choice, wants, seen; }
      var request := Request(order, products.value, customer, kitchen);
      if customer <= 0 && kitchen <= 0 {
        choice := Avoiding(s.routes, s.active, s.titles, "-");
        seen := ListJobs(order);
        return Ok([]), choice, wants, seen;
      }
      var keys, status, out;
      if |s.active| == 0 {
        choice := Avoiding(s.routes, s.active, s.titles, "-");
        keys, status := [MissingKey(request)], "failed";
      } else {
        keys, choice := KeysFor(request, s);
        status := "pending";
      }
      out, seen := CreateJobs(order, keys, status, ids, now);
      return Ok(out), choice, keys, seen;
    }
  }
}

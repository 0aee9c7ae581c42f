/**
 Who sits where (the table part of `CreatePOSOrder`, `TransferOrder` and
 `UpdateLocalOrderStatusReason` in domains.go): an order names its table, and a live table points
 back at the order it is busy with.
 */
module Tables {
  import opened Prelude
  import opened Text
  import opened OrderStatus

  datatype Order = Order(status: string, table: string, deleted: bool)

  /** An empty `current` means that the table is free. */
  datatype Table = Table(deleted: bool, current: string)

  datatype Floor = Floor(orders: map<string, Order>, tables: map<string, Table>)

  predicate LiveTable(f: Floor, t: string) { t in f.tables && !f.tables[t].deleted }

  predicate LiveOrder(f: Floor, o: string) { o in f.orders && !f.orders[o].deleted }

  predicate Closed(status: string) {
    Lower(status) in {"completed", "cancelled", "canceled", "refunded"}
  }

  /** What a transfer counts as an open order on the target table. */
  predicate Open(status: string) {
    Lower(status) in {"pending", "accepted", "preparing", "ready"}
  }

  /** Which is an order that was placed and has not reached an end. */
  lemma OpenIff(status: string)
    ensures Open(status) <==> 1 <= Stage(Lower(status)) <= 4
  {
  }

  function Point(f: Floor, t: string, o: string): Floor {
    if LiveTable(f, t) then f.(tables := f.tables[t := f.tables[t].(current := o)]) else f
  }

  // ----- the operations -----

  function Created(f: Floor, id: string, table: string): Floor {
    var g := if table != "" then Point(f, table, id) else f;
    g.(orders := g.orders[id := Order("pending", table, false)])
  }

  predicate TargetBusy(f: Floor, id: string, target: string) {
    exists o :: o in f.orders && !f.orders[o].deleted && o != id
                && f.orders[o].table == target && Open(f.orders[o].status)
  }

  function Transferred(f: Floor, id: string, wanted: string): Reply<Floor> {
    var target := Trim(wanted);
    if target == "" then Err("choose a target table")
    else if !LiveOrder(f, id) then Err("order not found")
    else if Closed(f.orders[id].status) then Err("only an open order can be moved")
    else if f.orders[id].table == target then Err("already there")
    else if !LiveTable(f, target) then Err("target table not found")
    else if Trim(f.tables[target].current) != "" || TargetBusy(f, id, target) then Err("target table is busy")
    else Ok(Moved(f, id, target))
  }

  /** The order goes to `target`; its old table is freed unless it is busy with another order. */
  function Moved(f: Floor, id: string, target: string): Floor
    requires LiveOrder(f, id)
  {
    var source := f.orders[id].table;
    var g := f.(orders := f.orders[id := f.orders[id].(table := target)]);
    var h := if source != "" && LiveTable(g, source)
                && (g.tables[source].current == id || Trim(g.tables[source].current) == "")
             then Point(g, source, "") else g;
    Point(h, target, id)
  }

  /** The effect of a status request on the floor; `Err` when it is refused. */
  function StatusSet(f: Floor, id: string, next: string): Reply<Floor> {
    if !LiveOrder(f, id) then Err("order not found")
    else if !ValidTransition(f.orders[id].status, next) then Err("transition not allowed")
    else if EqualFold(f.orders[id].status, next) then Ok(f)
    else Ok(Restated(f, id, next))
  }

  function Restated(f: Floor, id: string, next: string): Floor
    requires LiveOrder(f, id)
  {
    var prev := f.orders[id].status;
    var frees := (next == "completed" && prev != "completed") || next == "cancelled";
    var g := if frees && f.orders[id].table != "" then Point(f, f.orders[id].table, "") else f;
    g.(orders := g.orders[id := g.orders[id].(status := next)])
  }

  // ----- the operations, said in full -----

  /** A transfer that is accepted: an order that is not closed, to another live table that is free. */
  ghost predicate CanMove(f: Floor, id: string, target: string) {
    && target != "" && id in f.orders && !f.orders[id].deleted
    && Lower(f.orders[id].status) !in {"completed", "cancelled", "canceled", "refunded"}
    && f.orders[id].table != target
    && target in f.tables && !f.tables[target].deleted && Trim(f.tables[target].current) == ""
    && forall o :: o in f.orders && !f.orders[o].deleted && o != id && f.orders[o].table == target ==>
         Lower(f.orders[o].status) !in {"pending", "accepted", "preparing", "ready"}
  }

  /** Only the order's table has changed; the new one is its own, the old one free unless it is another's. */
  ghost predicate HasMoved(f: Floor, g: Floor, id: string, target: string) {
    && id in f.orders && g.orders == f.orders[id := f.orders[id].(table := target)]
    && g.tables.Keys == f.tables.Keys
    && forall t :: t in f.tables ==>
         && g.tables[t].deleted == f.tables[t].deleted
         && g.tables[t].current ==
            if t == target then id
            else if t == f.orders[id].table && t != "" && !f.tables[t].deleted
                    && (f.tables[t].current == id || Trim(f.tables[t].current) == "")
            then "" else f.tables[t].current
  }

  /** Exactly the order's status has changed, and its table is free if the word is one of the two that free it. */
  ghost predicate HasStatus(f: Floor, g: Floor, id: string, next: string) {
    && id in f.orders
    && (EqualFold(f.orders[id].status, next) ==> g == f)
    && (!EqualFold(f.orders[id].status, next) ==>
          && g.orders == f.orders[id := f.orders[id].(status := next)]
          && g.tables.Keys == f.tables.Keys
          && forall t :: t in f.tables ==>
               && g.tables[t].deleted == f.tables[t].deleted
               && g.tables[t].current ==
                  if t == f.orders[id].table && t != "" && !f.tables[t].deleted && next in {"completed", "cancelled"}
                  then "" else f.tables[t].current)
  }

  /** The new order is pending at its table, which is busy with it if it is there. */
  ghost predicate HasPlaced(f: Floor, g: Floor, id: string, table: string) {
    && g.orders == f.orders[id := Order("pending", table, false)]
    && g.tables.Keys == f.tables.Keys
    && forall t :: t in f.tables ==>
         && g.tables[t].deleted == f.tables[t].deleted
         && g.tables[t].current == if t == table && t != "" && !f.tables[t].deleted then id else f.tables[t].current
  }

  lemma CreatedSays(f: Floor, id: string, table: string)
    ensures HasPlaced(f, Created(f, id, table), id, table)
  {
  }

  lemma MovedSays(f: Floor, id: string, wanted: string)
    ensures Transferred(f, id, wanted).Ok? <==> CanMove(f, id, Trim(wanted))
    ensures CanMove(f, id, Trim(wanted)) ==> HasMoved(f, Transferred(f, id, wanted).value, id, Trim(wanted))
  {
    hide Trim, Lower;
    var target := Trim(wanted);
    if Transferred(f, id, wanted).Ok? {
      forall o | o in f.orders && !f.orders[o].deleted && o != id && f.orders[o].table == target
        ensures !Open(f.orders[o].status)
      {
        assert !TargetBusy(f, id, target);
      }
    }
  }

  lemma StatusSays(f: Floor, id: string, next: string)
    requires LiveOrder(f, id) && ValidTransition(f.orders[id].status, next)
    ensures StatusSet(f, id, next).Ok? && HasStatus(f, StatusSet(f, id, next).value, id, next)
  {
    assert f.orders[id].status == next ==> EqualFold(f.orders[id].status, next);
    hide ValidTransition, EqualFold;
    if !EqualFold(f.orders[id].status, next) { RestatedSays(f, id, next); }
  }

  lemma RestatedSays(f: Floor, id: string, next: string)
    requires LiveOrder(f, id) && !EqualFold(f.orders[id].status, next) && f.orders[id].status != next
    ensures HasStatus(f, Restated(f, id, next), id, next)
  {
    hide EqualFold;
  }

  // ----- what holds -----

  /** A busy table names a live, open order that sits there. */
  ghost predicate PointerOk(f: Floor, t: string)
    requires t in f.tables
  {
    !f.tables[t].deleted && f.tables[t].current != "" ==>
      && LiveOrder(f, f.tables[t].current)
      && Open(f.orders[f.tables[t].current].status)
      && f.orders[f.tables[t].current].table == t
  }

  ghost predicate Pointers(f: Floor) {
    "" !in f.tables && forall t :: t in f.tables ==> PointerOk(f, t)
  }

  lemma PendingOpen()
    ensures Open("pending")
  {
    PendingText();
  }

  lemma CreateKeeps(f: Floor, id: string, table: string)
    requires Pointers(f) && id !in f.orders && id != ""
    ensures Pointers(Created(f, id, table))
  {
    PendingOpen();
    hide Open;
    var g := Created(f, id, table);
    forall t | t in g.tables
      ensures PointerOk(g, t)
    {
      assert PointerOk(f, t);
    }
  }

  /**
   A transfer only asks that the order be not closed, so it keeps the pointers right exactly when
   the order it moves is open.
   */
  lemma TransferKeepsIff(f: Floor, id: string, wanted: string)
    requires Pointers(f) && id != "" && Transferred(f, id, wanted).Ok?
    ensures Pointers(Transferred(f, id, wanted).value) <==> Open(f.orders[id].status)
  {
    hide Closed, Open, TargetBusy, Trim;
    var g, target := Transferred(f, id, wanted).value, Trim(wanted);
    if Open(f.orders[id].status) {
      forall t | t in g.tables
        ensures PointerOk(g, t)
      {
        assert PointerOk(f, t);
      }
    } else {
      assert !PointerOk(g, target);
    }
  }

  /** The order stops being open in a spelling the store does not act on, while its table points at it. */
  predicate LeavesUnseen(f: Floor, id: string, next: string)
    requires LiveOrder(f, id)
  {
    && !Open(next) && next != "completed" && next != "cancelled"
    && LiveTable(f, f.orders[id].table) && f.tables[f.orders[id].table].current == id
  }

  /**
   A status change keeps the pointers right exactly when the new status is open or one of the two
   words that free a table, or no table points at the order.
   */
  lemma StatusKeepsIff(f: Floor, id: string, next: string)
    requires Pointers(f) && LiveOrder(f, id) && id != "" && Changes(f.orders[id].status, next)
    ensures Pointers(Restated(f, id, next)) <==> !LeavesUnseen(f, id, next)
  {
    var prev, g := f.orders[id].status, Restated(f, id, next);
    FreshlyCompleted(prev, next);
    hide Changes, Open;
    if LeavesUnseen(f, id, next) {
      assert !PointerOk(g, f.orders[id].table);
    } else {
      forall t | t in g.tables
        ensures PointerOk(g, t)
      {
        assert PointerOk(f, t);
      }
    }
  }

  lemma FreshlyCompleted(prev: string, next: string)
    requires Changes(prev, next)
    ensures next == "completed" ==> prev != "completed"
  {
  }

  /** Completed in capitals or padded, an order leaves its table pointing at it. */
  lemma SpellingLeavesPointer(next: string)
    requires next in {"COMPLETED", " completed"}
    ensures var f := Floor(map["o" := Order("ready", "t", false)], map["t" := Table(false, "o")]);
      && Pointers(f) && StatusSet(f, "o", next).Ok?
      && !Pointers(StatusSet(f, "o", next).value)
  {
    var f := Floor(map["o" := Order("ready", "t", false)], map["t" := Table(false, "o")]);
    ReadyText();
    if next == "COMPLETED" { CapitalsText(); CapitalsNotOpen(); } else { PaddedText(); PaddedNotOpen(); }
    hide Open, Normal, ValidTransition, EqualFold, Restated;
    assert PointerOk(f, "t");
    StatusKeepsIff(f, "o", next);
    assert LeavesUnseen(f, "o", next);
    ChangeIsRestated(f, "o", next);
  }

  lemma CapitalsNotOpen()
    ensures !Open("COMPLETED") && Changes("ready", "COMPLETED")
  {
    CapitalsText();
    CapitalsLower();
    ReadyText();
    hide Lower, Trim, Normal;
  }

  lemma PaddedNotOpen()
    ensures !Open(" completed") && Changes("ready", " completed")
  {
    PaddedText();
    CompletedText();
    ReadyText();
    assert |Lower(" completed")| == 10;
    hide Trim, Lower;
  }

  lemma ChangeIsRestated(f: Floor, id: string, next: string)
    requires LiveOrder(f, id) && Changes(f.orders[id].status, next)
    ensures StatusSet(f, id, next) == Ok(Restated(f, id, next))
  {
    hide ValidTransition, EqualFold, Restated;
  }

  lemma ReadyText()
    ensures Normal("ready") == "ready" && Lower("ready") == "ready" && Open("ready")
  {
    hide Trim;
    TrimIdle("ready");
    LowerIdle("ready");
  }

  // ----- every run -----

  datatype Step =
    | Create(id: string, table: string)
    | Transfer(id: string, target: string)
    | SetStatus(id: string, next: string)

  /** Statuses asked for are open ones or the two that free a table; new orders get fresh identifiers. */
  predicate StepOk(f: Floor, s: Step) {
    match s
    case Create(id, _) => id != "" && id !in f.orders
    case Transfer(id, _) => id != ""
    case SetStatus(id, next) => id != "" && (Open(next) || next == "completed" || next == "cancelled")
  }

  function Next(f: Floor, s: Step): Floor {
    match s
    case Create(id, table) => Created(f, id, table)
    case Transfer(id, target) => if Transferred(f, id, target).Ok? then Transferred(f, id, target).value else f
    case SetStatus(id, next) => if StatusSet(f, id, next).Ok? then StatusSet(f, id, next).value else f
  }

  /** Every live order is open or closed. */
  ghost predicate Decided(f: Floor) {
    forall o :: LiveOrder(f, o) ==> Open(f.orders[o].status) || Closed(f.orders[o].status)
  }

  lemma FreeingWords()
    ensures Closed("completed") && Closed("cancelled")
  {
    LowerIdle("completed");
    LowerIdle("cancelled");
  }

  lemma StepKeeps(f: Floor, s: Step)
    requires Pointers(f) && Decided(f) && StepOk(f, s)
    ensures Pointers(Next(f, s))
  {
    hide Open, Closed, Pointers, ValidTransition, EqualFold;
    match s
    case Create(id, table) => CreateKeeps(f, id, table);
    case Transfer(id, target) => if Transferred(f, id, target).Ok? { TransferKeepsIff(f, id, target); }
    case SetStatus(id, next) =>
      if LiveOrder(f, id) && Changes(f.orders[id].status, next) { StatusKeepsIff(f, id, next); }
  }

  lemma StepDecides(f: Floor, s: Step)
    requires Decided(f) && StepOk(f, s)
    ensures Decided(Next(f, s))
  {
    FreeingWords();
    PendingOpen();
    hide Open, Closed, TargetBusy, ValidTransition, EqualFold, Trim;
  }

  ghost predicate RunOk(f: Floor, steps: seq<Step>)
    decreases |steps|
  {
    |steps| == 0 || (StepOk(f, steps[0]) && RunOk(Next(f, steps[0]), steps[1..]))
  }

  function Run(f: Floor, steps: seq<Step>): Floor
    decreases |steps|
  {
    if |steps| == 0 then f else Run(Next(f, steps[0]), steps[1..])
  }

  /** Over every run, a busy live table names an open order seated at it. */
  lemma {:induction false} PointersHold(f: Floor, steps: seq<Step>)
    requires Pointers(f) && Decided(f) && RunOk(f, steps)
    ensures Pointers(Run(f, steps))
    decreases |steps|
  {
    if |steps| > 0 {
      hide Pointers, Decided, StepOk, Next;
      StepKeeps(f, steps[0]);
      StepDecides(f, steps[0]);
      PointersHold(Next(f, steps[0]), steps[1..]);
    }
  }

  // ----- deductions over runs -----

  predicate TakesStock(f: Floor, s: Step, id: string) {
    s.SetStatus? && s.id == id && LiveOrder(f, id) && Deducts(f.orders[id].status, s.next)
  }

  /** How often an order's recipes leave stock in a run of all orders. */
  function TimesTaken(f: Floor, steps: seq<Step>, id: string): nat
    decreases |steps|
  {
    if |steps| == 0 then 0
    else (if TakesStock(f, steps[0], id) then 1 else 0) + TimesTaken(Next(f, steps[0]), steps[1..], id)
  }

  ghost predicate Done(f: Floor, id: string) { id in f.orders && f.orders[id].status == "completed" }

  /** No open status carries blanks. */
  lemma OpenTrimmed(status: string)
    requires Open(status)
    ensures Trimmed(status)
  {
    assert LowerChar(status[0]) == Lower(status)[0] && LowerChar(status[|status| - 1]) == Lower(status)[|status| - 1];
    hide Trim;
    TrimIdle(status);
  }

  /** What a step makes of an order's status. */
  lemma NextStatus(f: Floor, s: Step, id: string)
    requires StepOk(f, s)
    ensures id in f.orders ==>
              && id in Next(f, s).orders
              && Next(f, s).orders[id].status ==
                 if s.SetStatus? && s.id == id && LiveOrder(f, id) then StatusAfter(f.orders[id].status, s.next)
                 else f.orders[id].status
    ensures id !in f.orders && id in Next(f, s).orders ==> Next(f, s).orders[id].status == "pending"
  {
    hide ValidTransition, EqualFold, Trim, Open, Closed, TargetBusy;
  }

  lemma TakenIsDone(f: Floor, s: Step, id: string)
    requires StepOk(f, s) && (id in f.orders ==> Trimmed(f.orders[id].status))
    ensures id in Next(f, s).orders ==> Trimmed(Next(f, s).orders[id].status)
    ensures TakesStock(f, s, id) ==> !Done(f, id) && Done(Next(f, s), id)
    ensures Done(f, id) ==> Done(Next(f, s), id)
  {
    CompletedText();
    PendingOpen();
    OpenTrimmed("pending");
    if s.SetStatus? && Open(s.next) { OpenTrimmed(s.next); }
    NextStatus(f, s, id);
    hide Normal, Trim, Lower, Open, ValidTransition, EqualFold, Next;
    if Done(f, id) && s.SetStatus? { CompletedStays("completed", s.next); }
  }

  /** However the orders' operations interleave, each order is taken out of stock at most once. */
  lemma {:induction false} TakenOnce(f: Floor, steps: seq<Step>, id: string)
    requires RunOk(f, steps) && (id in f.orders ==> Trimmed(f.orders[id].status))
    ensures TimesTaken(f, steps, id) <= 1
    ensures Done(f, id) ==> TimesTaken(f, steps, id) == 0
    ensures TimesTaken(f, steps, id) == 1 ==> Done(Run(f, steps), id)
    ensures Done(f, id) ==> Done(Run(f, steps), id)
    decreases |steps|
  {
    if |steps| > 0 {
      TakenIsDone(f, steps[0], id);
      hide StepOk, Next, Done, TakesStock, Trimmed;
      TakenOnce(Next(f, steps[0]), steps[1..], id);
    }
  }

  // ----- sharing -----

  /** No two open orders sit at one table. */
  ghost predicate NoSharing(f: Floor) {
    forall a, b :: LiveOrder(f, a) && LiveOrder(f, b) && a != b && f.orders[a].table == f.orders[b].table != ""
      ==> !(Open(f.orders[a].status) && Open(f.orders[b].status))
  }

  /** A transfer never brings two open orders to one table. */
  lemma TransferKeepsApart(f: Floor, id: string, wanted: string)
    requires NoSharing(f) && Transferred(f, id, wanted).Ok?
    ensures NoSharing(Transferred(f, id, wanted).value)
  {
    hide Closed, Open, Trim;
    var g := Transferred(f, id, wanted).value;
    forall a, b | LiveOrder(g, a) && LiveOrder(g, b) && a != b && g.orders[a].table == g.orders[b].table != ""
      ensures !(Open(g.orders[a].status) && Open(g.orders[b].status))
    {
      assert LiveOrder(f, a) && LiveOrder(f, b);
      assert !TargetBusy(f, id, Trim(wanted));
    }
  }
}

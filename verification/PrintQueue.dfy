/**
 The durable job table of the Windows print agent (`Store` in core.cpp).

 SQLite hands out rowids in insertion order and never reorders rows, so the table is a sequence
 of rows in rowid order.  Each statement or transaction is one step.
 */
module PrintQueue {
  import opened Prelude

  datatype Status = Queued | Printing | Completed | Failed | Cancelled

  datatype Failure = Failure(code: string, retryable: bool, uncertain: bool)

  datatype Connection = Network | Spooler

  datatype Profile = Profile(id: string, connection: Connection, copies: nat)

  datatype Config = Config(maxAttempts: int, printers: seq<Profile>)

  datatype Document = Receipt(lines: seq<string>) | Invoice(data: string, footer: Option<string>)

  datatype Row = Row(
    id: string, printer: string, document: Document, profile: Profile, status: Status,
    attempts: nat, created: int, next: int, error: Option<Failure>)

  const OUTCOME_UNKNOWN := Failure("PRINT_OUTCOME_UNKNOWN", false, true)
  const MAX_ACTIVE := 256
  const MAX_ATTEMPTS := 5
  const DEFAULT_ATTEMPTS := 3

  predicate IdChar(c: char) {
    'a' <= c <= 'z' || 'A' <= c <= 'Z' || '0' <= c <= '9' || c in "-_:."
  }

  predicate ValidId(s: string) {
    0 < |s| <= 128 && forall i :: 0 <= i < |s| ==> IdChar(s[i])
  }

  predicate ValidConfig(c: Config) {
    && 1 <= c.maxAttempts <= MAX_ATTEMPTS
    && |c.printers| <= 16
    && (forall i :: 0 <= i < |c.printers| ==> 1 <= c.printers[i].copies <= 3)
    && (forall i, j :: 0 <= i < j < |c.printers| ==> c.printers[i].id != c.printers[j].id)
  }

  /** The attempt limit in force: the saved one, or that of the default configuration. */
  function AttemptLimit(config: Option<Config>): int {
    if config.Some? then config.value.maxAttempts else DEFAULT_ATTEMPTS
  }

  /** An invoice without a footer is stored with an empty one. */
  function Normalize(d: Document): Document {
    if d.Invoice? && d.footer.None? then d.(footer := Some("")) else d
  }

  function Pow2(n: nat): nat {
    if n == 0 then 1 else 2 * Pow2(n - 1)
  }

  function Min(a: int, b: int): int { if a <= b then a else b }

  function Max(a: int, b: int): int { if a <= b then b else a }

  /** Seconds to wait before attempt number `attempt` + 1. */
  function Backoff(attempt: int): int {
    Min(60, Pow2(Min(Max(0, attempt), 6)))
  }

  /** Retry delays start at one second, never shrink as attempts grow, and never pass a minute. */
  lemma BackoffMonotone(a: int, b: int)
    requires a <= b
    ensures 1 <= Backoff(a) <= Backoff(b) <= 60
  {
    assert Pow2(1) == 2 && Pow2(2) == 4 && Pow2(3) == 8;
    assert Pow2(4) == 16 && Pow2(5) == 32 && Pow2(6) == 64;
  }

  /** One second at first, then twice as long each time, up to a minute. */
  lemma BackoffDoubles(a: int)
    ensures a <= 0 ==> Backoff(a) == 1
    ensures 0 <= a < 5 ==> Backoff(a + 1) == 2 * Backoff(a)
    ensures a >= 6 ==> Backoff(a) == 60
  {
    assert Pow2(6) == 64 && Pow2(5) == 32;
  }

  predicate Active(r: Row) { r.status.Queued? || r.status.Printing? }

  function IndexOf(rows: seq<Row>, id: string): (r: Option<nat>)
    ensures r.Some? ==> r.value < |rows| && rows[r.value].id == id
    ensures r.None? ==> forall i :: 0 <= i < |rows| ==> rows[i].id != id
  {
    if |rows| == 0 then None
    else if rows[|rows| - 1].id == id then Some(|rows| - 1)
    else IndexOf(rows[..|rows| - 1], id)
  }

  // ----- quantities summed over the table -----

  function Total(rows: seq<Row>, w: Row -> nat): nat {
    if |rows| == 0 then 0 else Total(rows[..|rows| - 1], w) + w(rows[|rows| - 1])
  }

  function ActiveUnit(r: Row): nat { if Active(r) then 1 else 0 }

  function CountActive(rows: seq<Row>): nat { Total(rows, ActiveUnit) }

  /** The active rows, counted. */
  function ActiveRows(rows: seq<Row>): set<nat> { set i: nat | i < |rows| && Active(rows[i]) }

  lemma {:induction false} CountIsSize(rows: seq<Row>)
    ensures CountActive(rows) == |ActiveRows(rows)|
  {
    if |rows| > 0 {
      var n := |rows| - 1;
      CountIsSize(rows[..n]);
      assert ActiveRows(rows) == ActiveRows(rows[..n]) + (if Active(rows[n]) then {n} else {});
    }
  }

  lemma {:induction false} TotalUpdate(rows: seq<Row>, w: Row -> nat, i: nat, r: Row)
    requires i < |rows|
    ensures Total(rows[i := r], w) == Total(rows, w) - w(rows[i]) + w(r)
  {
    var n := |rows| - 1;
    if i == n {
      assert rows[i := r][..n] == rows[..n];
    } else {
      assert rows[i := r][..n] == rows[..n][i := r];
      TotalUpdate(rows[..n], w, i, r);
    }
  }

  lemma TotalAppend(rows: seq<Row>, w: Row -> nat, r: Row)
    ensures Total(rows + [r], w) == Total(rows, w) + w(r)
  {
    assert (rows + [r])[..|rows|] == rows;
  }

  // ----- the operations on the table -----

  /** Another active row of the same printer stands before row `i`. */
  predicate Blocked(rows: seq<Row>, i: nat)
    requires i < |rows|
  {
    exists j :: 0 <= j < i && rows[j].printer == rows[i].printer && Active(rows[j])
  }

  predicate Claimable(rows: seq<Row>, i: nat, time: int)
    requires i < |rows|
  {
    rows[i].status.Queued? && rows[i].next <= time && !Blocked(rows, i)
  }

  /** The row waits, its delay is over, and every earlier row of its printer is done with. */
  ghost predicate InTurn(rows: seq<Row>, i: nat, time: int) {
    && i < |rows| && rows[i].status.Queued? && rows[i].next <= time
    && forall j :: 0 <= j < i && rows[j].printer == rows[i].printer ==> rows[j].status in {Completed, Failed, Cancelled}
  }

  lemma InTurnIff(rows: seq<Row>, time: int)
    ensures forall i :: 0 <= i < |rows| ==> (InTurn(rows, i, time) <==> Claimable(rows, i, time))
  {
  }

  function ClaimFrom(rows: seq<Row>, time: int, i: nat): (r: Option<nat>)
    requires i <= |rows|
    ensures r.Some? ==> i <= r.value < |rows| && Claimable(rows, r.value, time)
    ensures r.Some? ==> forall j :: i <= j < r.value ==> !Claimable(rows, j, time)
    ensures r.None? ==> forall j :: i <= j < |rows| ==> !Claimable(rows, j, time)
    decreases |rows| - i
  {
    if i == |rows| then None
    else if Claimable(rows, i, time) then Some(i)
    else ClaimFrom(rows, time, i + 1)
  }

  function Claimed(r: Row): Row {
    r.(status := Printing, attempts := r.attempts + 1, error := None)
  }

  /** The row a claim at `time` takes, if any. */
  function ClaimIndex(rows: seq<Row>, time: int): (r: Option<nat>)
    ensures r.Some? ==> r.value < |rows| && Claimable(rows, r.value, time)
    ensures r.Some? ==> forall j :: 0 <= j < r.value ==> !Claimable(rows, j, time)
    ensures r.None? ==> forall j :: 0 <= j < |rows| ==> !Claimable(rows, j, time)
  {
    ClaimFrom(rows, time, 0)
  }

  predicate MayRetry(error: Option<Failure>, attempts: nat, max: int) {
    error.Some? && error.value.retryable && !error.value.uncertain && attempts < max
  }

  function Finished(r: Row, error: Option<Failure>, max: int, time: int): Row {
    if error.None? then r.(status := Completed, next := time, error := None)
    else if MayRetry(error, r.attempts, max) then
      r.(status := Queued, next := time + Backoff(r.attempts), error := error)
    else r.(status := Failed, next := time, error := error)
  }

  /** The profile saved under a printer name; a later entry of the list wins. */
  function FindProfile(printers: seq<Profile>, printer: string): (r: Option<Profile>)
    ensures r.Some? ==> r.value in printers && r.value.id == printer
    ensures r.None? ==> forall i :: 0 <= i < |printers| ==> printers[i].id != printer
  {
    if |printers| == 0 then None
    else if printers[|printers| - 1].id == printer then Some(printers[|printers| - 1])
    else FindProfile(printers[..|printers| - 1], printer)
  }

  function NewRow(id: string, printer: string, doc: Document, p: Profile, now: int): Row {
    Row(id, printer, Normalize(doc), p, Queued, 0, now, now, None)
  }

  /** The table after an accepted submission, or why it is refused. */
  function Enqueued(rows: seq<Row>, config: Option<Config>, id: string, printer: string,
                    doc: Document, now: int): Reply<seq<Row>> {
    if !ValidId(id) || !ValidId(printer) then Err("INVALID_PAYLOAD")
    else
      var known := IndexOf(rows, id);
      if known.Some? then
        if rows[known.value].printer != printer || rows[known.value].document != Normalize(doc)
        then Err("JOB_ID_CONFLICT") else Ok(rows)
      else if config.None? || FindProfile(config.value.printers, printer).None?
      then Err("PRINTER_NOT_FOUND")
      else if CountActive(rows) >= MAX_ACTIVE then Err("QUEUE_FULL")
      else
        Ok(rows + [NewRow(id, printer, doc, FindProfile(config.value.printers, printer).value, now)])
  }

  function FinishedRows(rows: seq<Row>, id: string, error: Option<Failure>, max: int, time: int)
    : Reply<seq<Row>> {
    var at := IndexOf(rows, id);
    if at.None? then Err("JOB_NOT_FOUND")
    else if !rows[at.value].status.Printing? then Err("QUEUE_ERROR")
    else Ok(rows[at.value := Finished(rows[at.value], error, max, time)])
  }

  function CancelledRows(rows: seq<Row>, id: string): Reply<seq<Row>> {
    var at := IndexOf(rows, id);
    if at.None? then Err("JOB_NOT_FOUND")
    else if rows[at.value].status.Cancelled? then Ok(rows)
    else if !rows[at.value].status.Queued? then Err("JOB_NOT_CANCELLABLE")
    else Ok(rows[at.value := rows[at.value].(status := Cancelled)])
  }

  /** The rows a clear leaves behind: those whose bytes a printer may already own. */
  function ClearedRows(rows: seq<Row>): (r: seq<Row>)
    ensures |r| <= |rows|
    ensures forall x :: x in r <==> x in rows && x.status.Printing?
  {
    if |rows| == 0 then []
    else
      var last := rows[|rows| - 1];
      var kept := ClearedRows(rows[..|rows| - 1]);
      assert rows == rows[..|rows| - 1] + [last];
      if last.status.Printing? then kept + [last] else kept
  }

  function Recovered(r: Row): Row {
    if r.status.Printing? then r.(status := Failed, error := Some(OUTCOME_UNKNOWN)) else r
  }

  function RecoveredRows(rows: seq<Row>): (r: seq<Row>)
    ensures |r| == |rows|
    ensures forall i :: 0 <= i < |rows| ==> r[i] == Recovered(rows[i])
  {
    seq(|rows|, i requires 0 <= i < |rows| => Recovered(rows[i]))
  }

  // ----- what every operation keeps -----

  ghost predicate IdsDistinct(rows: seq<Row>) {
    forall i, j :: 0 <= i < j < |rows| ==> rows[i].id != rows[j].id
  }

  /** A printing row is the first active row of its printer. */
  ghost predicate Fifo(rows: seq<Row>) {
    forall i, j ::
      (0 <= j < i < |rows| && rows[i].status.Printing? && rows[j].printer == rows[i].printer)
      ==> !Active(rows[j])
  }

  ghost predicate AttemptsBounded(rows: seq<Row>) {
    forall i :: 0 <= i < |rows| ==>
      && (rows[i].status.Queued? ==> rows[i].attempts < MAX_ATTEMPTS)
      && (rows[i].status.Printing? ==> 1 <= rows[i].attempts)
      && rows[i].attempts <= MAX_ATTEMPTS
  }

  ghost predicate Wf(rows: seq<Row>) {
    IdsDistinct(rows) && Fifo(rows) && AttemptsBounded(rows) && CountActive(rows) <= MAX_ACTIVE
  }

  lemma EnqueueKeeps(rows: seq<Row>, config: Option<Config>, id: string, printer: string,
                     doc: Document, now: int)
    requires Wf(rows)
    ensures Enqueued(rows, config, id, printer, doc, now).Ok?
            ==> Wf(Enqueued(rows, config, id, printer, doc, now).value)
  {
    if Enqueued(rows, config, id, printer, doc, now).Ok? && IndexOf(rows, id).None? {
      AppendKeeps(rows, NewRow(id, printer, doc, FindProfile(config.value.printers, printer).value, now));
    }
  }

  /**
   Submitting is safe to repeat: once accepted, the same ID is taken again exactly for the same
   printer and document, without a second row, whatever the configuration has become.
   */
  lemma SubmitTwice(rows: seq<Row>, config: Option<Config>, id: string, printer: string, doc: Document, now: int,
                    config': Option<Config>, printer': string, doc': Document, now': int)
    requires Enqueued(rows, config, id, printer, doc, now).Ok?
    ensures var once := Enqueued(rows, config, id, printer, doc, now).value;
      var twice := Enqueued(once, config', id, printer', doc', now');
      && rows <= once && |once| <= |rows| + 1
      && (twice.Ok? <==> (printer' == printer && Normalize(doc') == Normalize(doc)))
      && (twice.Ok? ==> twice.value == once)
  {
    var once := Enqueued(rows, config, id, printer, doc, now).value;
    if IndexOf(rows, id).None? {
      assert once[|once| - 1].id == id;
      assert IndexOf(once, id) == Some(|once| - 1);
    }
  }

  lemma AppendKeeps(rows: seq<Row>, r: Row)
    requires Wf(rows) && CountActive(rows) < MAX_ACTIVE
    requires r.status.Queued? && r.attempts == 0
    requires forall i :: 0 <= i < |rows| ==> rows[i].id != r.id
    ensures Wf(rows + [r])
  {
    TotalAppend(rows, ActiveUnit, r);
  }

  lemma ClaimKeeps(rows: seq<Row>, time: int)
    requires Wf(rows) && ClaimIndex(rows, time).Some?
    ensures var i := ClaimIndex(rows, time).value; Wf(rows[i := Claimed(rows[i])])
  {
    var i := ClaimIndex(rows, time).value;
    TotalUpdate(rows, ActiveUnit, i, Claimed(rows[i]));
  }

  lemma FinishKeeps(rows: seq<Row>, i: nat, error: Option<Failure>, max: int, time: int)
    requires Wf(rows) && i < |rows| && rows[i].status.Printing? && max <= MAX_ATTEMPTS
    ensures Wf(rows[i := Finished(rows[i], error, max, time)])
  {
    var r := Finished(rows[i], error, max, time);
    TotalUpdate(rows, ActiveUnit, i, r);
    var after := rows[i := r];
    forall a, b | 0 <= b < a < |after| && after[a].status.Printing?
                  && after[b].printer == after[a].printer
      ensures !Active(after[b])
    {
      assert rows[a].status.Printing? && rows[b].printer == rows[a].printer;
    }
  }

  /**
   After a settlement the job can be claimed again exactly when the failure may be retried and its
   delay is over; until then no later job of the printer overtakes it.
   */
  lemma RetryKeepsTurn(rows: seq<Row>, i: nat, error: Option<Failure>, max: int, time: int, later: int)
    requires Fifo(rows) && i < |rows| && rows[i].status.Printing?
    ensures var after := rows[i := Finished(rows[i], error, max, time)];
      && (Claimable(after, i, later) <==>
            (error.Some? && error.value.retryable && !error.value.uncertain && rows[i].attempts < max
             && time + Backoff(rows[i].attempts) <= later))
      && (after[i].status.Queued? ==>
            forall j :: i < j < |rows| && rows[j].printer == rows[i].printer ==> !Claimable(after, j, later))
  {
    hide Backoff;
    var after := rows[i := Finished(rows[i], error, max, time)];
    assert !Blocked(after, i) by {
      assert forall j :: 0 <= j < i ==> after[j] == rows[j];
    }
    forall j | i < j < |rows| && rows[j].printer == rows[i].printer && after[i].status.Queued?
      ensures !Claimable(after, j, later)
    {
      assert after[i].printer == after[j].printer;
    }
  }

  lemma CancelKeeps(rows: seq<Row>, id: string)
    requires Wf(rows)
    ensures CancelledRows(rows, id).Ok? ==> Wf(CancelledRows(rows, id).value)
  {
    var r := CancelledRows(rows, id);
    if r.Ok? && r.value != rows {
      var i := IndexOf(rows, id).value;
      TotalUpdate(rows, ActiveUnit, i, rows[i].(status := Cancelled));
    }
  }

  lemma {:induction false} ClearKeepsOrder(rows: seq<Row>)
    requires IdsDistinct(rows) && Fifo(rows) && AttemptsBounded(rows)
    ensures IdsDistinct(ClearedRows(rows)) && Fifo(ClearedRows(rows)) && AttemptsBounded(ClearedRows(rows))
  {
    if |rows| > 0 {
      var init, last := rows[..|rows| - 1], rows[|rows| - 1];
      ClearKeepsOrder(init);
      forall x | x in ClearedRows(init)
        ensures x.id != last.id && (last.status.Printing? && x.printer == last.printer ==> !Active(x))
      {
        var k :| 0 <= k < |init| && init[k] == x;
        assert rows[k] == x;
      }
    }
  }

  lemma {:induction false} ClearTotal(rows: seq<Row>, w: Row -> nat)
    ensures Total(ClearedRows(rows), w) <= Total(rows, w)
  {
    if |rows| > 0 {
      ClearTotal(rows[..|rows| - 1], w);
      if rows[|rows| - 1].status.Printing? {
        TotalAppend(ClearedRows(rows[..|rows| - 1]), w, rows[|rows| - 1]);
      }
    }
  }

  lemma ClearKeeps(rows: seq<Row>)
    requires Wf(rows)
    ensures Wf(ClearedRows(rows))
  {
    ClearKeepsOrder(rows);
    ClearTotal(rows, ActiveUnit);
  }

  lemma {:induction false} RecoverTotal(rows: seq<Row>, w: Row -> nat)
    requires forall r :: w(Recovered(r)) <= w(r)
    ensures Total(RecoveredRows(rows), w) <= Total(rows, w)
  {
    if |rows| > 0 {
      var n := |rows| - 1;
      RecoverTotal(rows[..n], w);
      assert RecoveredRows(rows)[..n] == RecoveredRows(rows[..n]);
    }
  }

  lemma RecoverKeeps(rows: seq<Row>)
    requires Wf(rows)
    ensures Wf(RecoveredRows(rows))
  {
    RecoverTotal(rows, ActiveUnit);
  }

  /** At most one job prints per printer: a consequence of the order invariant. */
  lemma OnePrintingPerPrinter(rows: seq<Row>, i: nat, j: nat)
    requires Fifo(rows) && i < |rows| && j < |rows|
    requires rows[i].status.Printing? && rows[j].status.Printing?
    requires rows[i].printer == rows[j].printer
    ensures i == j
  {
    assert i < j ==> !Active(rows[i]);
    assert j < i ==> !Active(rows[j]);
  }

  /**
   Progress: with work queued and nothing printing, a claim at any time past every `next` value
   takes a job, and it is the oldest active job of the whole table.
   */
  lemma ClaimProgress(rows: seq<Row>, time: int, q: nat)
    requires q < |rows| && rows[q].status.Queued?
    requires forall i :: 0 <= i < |rows| ==> !rows[i].status.Printing? && rows[i].next <= time
    ensures ClaimIndex(rows, time).Some?
    ensures forall j :: 0 <= j < ClaimIndex(rows, time).value ==> !Active(rows[j])
  {
    var first := FirstActive(rows, q);
    assert Claimable(rows, first, time);
  }

  lemma FirstActive(rows: seq<Row>, q: nat) returns (first: nat)
    requires q < |rows| && Active(rows[q])
    ensures first <= q && Active(rows[first])
    ensures forall j :: 0 <= j < first ==> !Active(rows[j])
  {
    first := q;
    if j :| 0 <= j < q && Active(rows[j]) {
      first := FirstActive(rows, j);
    }
  }

  // ----- what the operations promise, in full -----

  ghost predicate Known(rows: seq<Row>, id: string) { exists i :: 0 <= i < |rows| && rows[i].id == id }

  /** Exactly the row at `i` may differ. */
  ghost predicate OnlyAt(a: seq<Row>, b: seq<Row>, i: nat) {
    |a| == |b| && i < |a| && forall j :: 0 <= j < |a| && j != i ==> b[j] == a[j]
  }

  /** What settling a printing job makes of its row. */
  ghost predicate Settles(was: Row, row: Row, error: Option<Failure>, max: int, time: int) {
    && row == was.(status := row.status, next := row.next, error := error)
    && row.status in {Completed, Queued, Failed}
    && (row.status.Completed? <==> error.None?)
    && (row.status.Queued? <==>
          (error.Some? && error.value.retryable && !error.value.uncertain && was.attempts < max))
    && row.next == time + (if row.status.Queued? then Backoff(was.attempts) else 0)
  }

  lemma FinishedSettles(was: Row, error: Option<Failure>, max: int, time: int)
    ensures Settles(was, Finished(was, error, max, time), error, max, time)
  {
  }

  /** A document is stored as it came, an invoice with a footer in any case. */
  ghost predicate StoredAs(doc: Document, stored: Document) {
    if doc.Receipt? then stored == doc
    else stored == Invoice(doc.data, Some(if doc.footer.Some? then doc.footer.value else ""))
  }

  /** A new row, waiting from now on, with the settings its printer has now. */
  ghost predicate FreshRow(row: Row, id: string, printer: string, doc: Document, config: Config, now: int) {
    && row.id == id && row.printer == printer && StoredAs(doc, row.document)
    && row.profile in config.printers && row.profile.id == printer
    && row.status.Queued? && row.attempts == 0 && row.created == row.next == now && row.error.None?
  }

  /** An identifier: up to 128 letters, digits and four signs. */
  ghost predicate Written(id: string) {
    1 <= |id| <= 128 &&
    forall c :: c in id ==>
      'a' <= c <= 'z' || 'A' <= c <= 'Z' || '0' <= c <= '9' || c == '-' || c == '_' || c == ':' || c == '.'
  }

  lemma WrittenIff(id: string)
    ensures Written(id) <==> ValidId(id)
  {
    assert forall c: char :: c in "-_:." <==> c == '-' || c == '_' || c == ':' || c == '.';
    assert forall i :: 0 <= i < |id| ==> id[i] in id;
  }

  /** A submission that is taken: a repeat of a stored job, or a new one there is a printer and room for. */
  ghost predicate Takes(rows: seq<Row>, config: Option<Config>, id: string, printer: string, doc: Document) {
    && Written(id) && Written(printer)
    && (if Known(rows, id)
        then exists i :: 0 <= i < |rows| && rows[i].id == id && rows[i].printer == printer
                         && StoredAs(doc, rows[i].document)
        else
          && config.Some? && (exists p :: p in config.value.printers && p.id == printer)
          && |ActiveRows(rows)| < 256)
  }

  /** `part` is, in order, what `change` makes of the rows with one of the statuses. */
  ghost predicate Sifted(rows: seq<Row>, part: seq<Row>, at: seq<nat>, status: Status, as_: Status) {
    && |at| == |part|
    && (forall k :: 0 <= k < |at| ==> at[k] < |rows| && rows[at[k]].status == status
                                       && part[k] == rows[at[k]].(status := as_))
    && (forall k, l :: 0 <= k < l < |at| ==> at[k] < at[l])
    && (forall i: nat :: i < |rows| && rows[i].status == status ==> i in at)
  }

  /** The first `k` rows are sifted into those kept and those cancelled. */
  ghost predicate Swept(all: seq<Row>, k: nat, kept: seq<Row>, keptAt: seq<nat>, cancelled: seq<Row>,
                        cancelledAt: seq<nat>) {
    && k <= |all| && kept == ClearedRows(all[..k])
    && Sifted(all[..k], kept, keptAt, Printing, Printing)
    && Sifted(all[..k], cancelled, cancelledAt, Queued, Cancelled)
  }

  lemma SweptNone(all: seq<Row>)
    ensures Swept(all, 0, [], [], [], [])
  {
    SiftedNone(Printing, Printing);
    SiftedNone(Queued, Cancelled);
    assert all[..0] == [];
  }

  lemma SweepRow(all: seq<Row>, k: nat, kept: seq<Row>, keptAt: seq<nat>, cancelled: seq<Row>, cancelledAt: seq<nat>)
    requires k < |all| && Swept(all, k, kept, keptAt, cancelled, cancelledAt)
    ensures var row := all[k];
      Swept(all, k + 1,
            if row.status.Printing? then kept + [row] else kept,
            if row.status.Printing? then keptAt + [k] else keptAt,
            if row.status.Queued? then cancelled + [row.(status := Cancelled)] else cancelled,
            if row.status.Queued? then cancelledAt + [k] else cancelledAt)
  {
    hide Sifted;
    assert all[..k + 1] == all[..k] + [all[k]] && all[..k + 1][..k] == all[..k];
    SiftedMore(all[..k], kept, keptAt, Printing, Printing, all[k]);
    SiftedMore(all[..k], cancelled, cancelledAt, Queued, Cancelled, all[k]);
    assert all[k].status.Printing? ==> all[k].(status := Printing) == all[k];
  }

  lemma SweptAll(all: seq<Row>, kept: seq<Row>, keptAt: seq<nat>, cancelled: seq<Row>, cancelledAt: seq<nat>)
    requires Swept(all, |all|, kept, keptAt, cancelled, cancelledAt)
    ensures kept == ClearedRows(all) && |kept| <= |all|
    ensures Sifted(all, kept, keptAt, Printing, Printing) && Sifted(all, cancelled, cancelledAt, Queued, Cancelled)
  {
    hide Sifted;
    assert all[..|all|] == all;
  }

  lemma SiftedNone(status: Status, as_: Status)
    ensures Sifted([], [], [], status, as_)
  {
  }

  lemma SiftedMore(rows: seq<Row>, part: seq<Row>, at: seq<nat>, status: Status, as_: Status, row: Row)
    requires Sifted(rows, part, at, status, as_)
    ensures row.status != status ==> Sifted(rows + [row], part, at, status, as_)
    ensures row.status == status ==>
              Sifted(rows + [row], part + [row.(status := as_)], at + [|rows|], status, as_)
  {
    if row.status == status {
      var more := at + [|rows|];
      forall i: nat | i < |rows + [row]| && (rows + [row])[i].status == status
        ensures i in more
      {
        if i < |rows| { assert i in at; } else { assert more[|at|] == i; }
      }
    }
  }

  // ----- the store object -----

  class Store {
    var rows: seq<Row>
    var config: Option<Config>

    ghost predicate Valid()
      reads this
    {
      Wf(rows) && (config.Some? ==> ValidConfig(config.value))
    }

    /** Opening the file: whatever was printing when the process died is failed, never replayed. */
    constructor (saved: seq<Row>, savedConfig: Option<Config>)
      requires Wf(saved) && (savedConfig.Some? ==> ValidConfig(savedConfig.value))
      ensures Valid() && config == savedConfig
      ensures rows == RecoveredRows(saved)
      ensures |rows| == |saved| && forall i :: 0 <= i < |saved| ==>
                rows[i] == if saved[i].status.Printing?
                           then saved[i].(status := Failed,
                                          error := Some(Failure("PRINT_OUTCOME_UNKNOWN", false, true)))
                           else saved[i]
    {
      config := savedConfig;
      rows := RecoveredRows(saved);
      RecoverKeeps(saved);
    }

    method Save(c: Config) returns (r: Reply<()>)
      requires Valid()
      modifies this`config
      ensures Valid()
      ensures r.Ok? <==>
              (1 <= c.maxAttempts <= 5 && |c.printers| <= 16
               && (forall p :: p in c.printers ==> 1 <= p.copies <= 3)
               && (forall i, j :: 0 <= i < j < |c.printers| ==> c.printers[i].id != c.printers[j].id))
      ensures config == if r.Ok? then Some(c) else old(config)
    {
      if !ValidConfig(c) { return Err("INVALID_PAYLOAD"); }
      config := Some(c);
      return Ok(());
    }

    method Enqueue(id: string, printer: string, doc: Document, now: int) returns (r: Reply<Row>)
      requires Valid()
      modifies this`rows
      ensures Valid()
      ensures r.Ok? <==> Takes(old(rows), config, id, printer, doc)
      ensures r.Ok? ==> Enqueued(old(rows), config, id, printer, doc, now) == Ok(rows)
      ensures r.Ok? && Known(old(rows), id) ==> rows == old(rows) && r.value in rows && r.value.id == id
      ensures r.Ok? && !Known(old(rows), id) ==>
                rows == old(rows) + [r.value] && FreshRow(r.value, id, printer, doc, config.value, now)
      ensures r.Err? ==> rows == old(rows) && Enqueued(old(rows), config, id, printer, doc, now) == Err(r.code)
    {
      CountIsSize(rows);
      WrittenIff(id);
      WrittenIff(printer);
      hide Written, ValidId;
      if !ValidId(id) || !ValidId(printer) { return Err("INVALID_PAYLOAD"); }
      EnqueueKeeps(rows, config, id, printer, doc, now);
      var known := IndexOf(rows, id);
      if known.Some? {
        var row := rows[known.value];
        if row.printer != printer || row.document != Normalize(doc) {
          return Err("JOB_ID_CONFLICT");
        }
        return Ok(row);
      }
      if config.None? { return Err("PRINTER_NOT_FOUND"); }
      var profile: Option<Profile> := None;
      var list := config.value.printers;
      for k := 0 to |list|
        invariant profile == FindProfile(list[..k], printer)
      {
        assert list[..k + 1][..k] == list[..k];
        if list[k].id == printer { profile := Some(list[k]); }
      }
      assert list[..|list|] == list;
      if profile.None? { return Err("PRINTER_NOT_FOUND"); }
      if CountActive(rows) >= MAX_ACTIVE { return Err("QUEUE_FULL"); }
      var row := NewRow(id, printer, doc, profile.value, now);
      rows := rows + [row];
      return Ok(row);
    }

    /** Hands the oldest due job out, one per printer at a time. */
    method Claim(time: int) returns (r: Option<Row>)
      requires Valid()
      modifies this`rows
      ensures Valid()
      ensures r.None? ==> rows == old(rows)
                          && forall i :: 0 <= i < |rows| ==> !InTurn(rows, i, time)
      ensures r.Some? ==> exists i ::
                && 0 <= i < |old(rows)| && InTurn(old(rows), i, time)
                && (forall j :: 0 <= j < i ==> !InTurn(old(rows), j, time))
                && r.value == old(rows)[i].(status := Printing, attempts := old(rows)[i].attempts + 1, error := None)
                && rows == old(rows)[i := r.value]
    {
      var at := ClaimIndex(rows, time);
      InTurnIff(rows, time);
      if at.None? { return None; }
      ClaimKeeps(rows, time);
      var row := Claimed(rows[at.value]);
      rows := rows[at.value := row];
      return Some(row);
    }

    method Finish(id: string, error: Option<Failure>, max: int, time: int) returns (r: Reply<Row>)
      requires Valid() && max <= MAX_ATTEMPTS
      modifies this`rows
      ensures Valid()
      ensures r.Ok? <==> exists i :: 0 <= i < |old(rows)| && old(rows)[i].id == id && old(rows)[i].status.Printing?
      ensures r.Ok? ==>
                exists i :: 0 <= i < |old(rows)| && old(rows)[i].id == id && old(rows)[i].status.Printing?
                  && OnlyAt(old(rows), rows, i) && r.value == rows[i]
                  && Settles(old(rows)[i], rows[i], error, max, time)
      ensures r.Ok? ==> FinishedRows(old(rows), id, error, max, time) == Ok(rows)
      ensures r.Err? ==> rows == old(rows)
                         && r.code == if Known(old(rows), id) then "QUEUE_ERROR" else "JOB_NOT_FOUND"
    {
      var at := IndexOf(rows, id);
      if at.None? { return Err("JOB_NOT_FOUND"); }
      var job := rows[at.value];
      if !job.status.Printing? { return Err("QUEUE_ERROR"); }
      FinishKeeps(rows, at.value, error, max, time);
      var retry := MayRetry(error, job.attempts, max);
      var status := if error.None? then Completed else if retry then Queued else Failed;
      var next := time + (if retry then Backoff(job.attempts) else 0);
      var row := job.(status := status, next := next, error := error);
      assert row == Finished(job, error, max, time);
      FinishedSettles(job, error, max, time);
      assert OnlyAt(rows, rows[at.value := row], at.value);
      rows := rows[at.value := row];
      return Ok(rows[at.value]);
    }

    method Cancel(id: string) returns (r: Reply<Row>)
      requires Valid()
      modifies this`rows
      ensures Valid()
      ensures r.Ok? <==>
              exists i :: 0 <= i < |old(rows)| && old(rows)[i].id == id && old(rows)[i].status in {Queued, Cancelled}
      ensures r.Ok? ==>
                exists i :: 0 <= i < |old(rows)| && old(rows)[i].id == id && OnlyAt(old(rows), rows, i)
                  && r.value == rows[i] == old(rows)[i].(status := Cancelled)
      ensures r.Ok? ==> CancelledRows(old(rows), id) == Ok(rows)
      ensures r.Err? ==> rows == old(rows)
                         && r.code == if Known(old(rows), id) then "JOB_NOT_CANCELLABLE" else "JOB_NOT_FOUND"
    {
      CancelKeeps(rows, id);
      var at := IndexOf(rows, id);
      if at.None? { return Err("JOB_NOT_FOUND"); }
      var job := rows[at.value];
      if job.status.Cancelled? { return Ok(job); }
      if !job.status.Queued? { return Err("JOB_NOT_CANCELLABLE"); }
      assert OnlyAt(rows, rows[at.value := job.(status := Cancelled)], at.value);
      rows := rows[at.value := job.(status := Cancelled)];
      return Ok(rows[at.value]);
    }

    /** Empties the queue and the history; a job that is printing is never touched. */
    method Clear() returns (cancelled: seq<Row>, removed: nat)
      requires Valid()
      modifies this`rows
      ensures Valid()
      ensures rows == ClearedRows(old(rows))
      ensures exists at :: Sifted(old(rows), rows, at, Printing, Printing)
      ensures exists at :: Sifted(old(rows), cancelled, at, Queued, Cancelled)
      ensures removed == |old(rows)| - |rows|
    {
      hide Swept, Sifted, Wf, ClearedRows;
      ClearKeeps(rows);
      var all := rows;
      ghost var keptAt: seq<nat>, cancelledAt: seq<nat> := [], [];
      cancelled := [];
      var kept := [];
      SweptNone(all);
      for k := 0 to |all|
        invariant Swept(all, k, kept, keptAt, cancelled, cancelledAt)
      {
        SweepRow(all, k, kept, keptAt, cancelled, cancelledAt);
        var row := all[k];
        if row.status.Queued? {
          cancelled, cancelledAt := cancelled + [row.(status := Cancelled)], cancelledAt + [k];
        }
        if row.status.Printing? { kept, keptAt := kept + [row], keptAt + [k]; }
      }
      SweptAll(all, kept, keptAt, cancelled, cancelledAt);
      removed := |all| - |kept|;
      rows := kept;
    }
  }
}

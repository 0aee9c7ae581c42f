/**
 The whole agent as a state machine: the job table, the one worker, and a crash at any moment.

 Three fields exist only to state what must hold.  Every accepted submission draws a `ticket`, so a
 ticket names one row for ever even when its job ID is submitted again after a clear.  `log` lists
 the copies of which some byte may have left, in the order they left; a `late` one belongs to a
 spool child that outlived its agent, and its bytes may leave at any moment after.  `cleared` holds
 the tickets of the rows that a clear deleted.
 */
module PrintSystem {
  import opened Prelude
  import opened PrintQueue
  import opened PrintTransport

  datatype Phase =
    | Idle
    | Sending(id: string, sent: nat, touched: bool)
    | Settling(id: string, failure: Option<Failure>)
    | Stopped

  datatype Transmission = Transmission(id: string, printer: string, ticket: nat, copy: nat, late: bool)

  datatype System = System(
    rows: seq<Row>, config: Option<Config>, phase: Phase,
    tickets: map<string, nat>, issued: nat, log: seq<Transmission>, cleared: set<nat>,
    claims: multiset<nat>)

  datatype Step =
    | Submit(id: string, printer: string, doc: Document, now: int)
    | SaveConfig(config: Config)
    | Claim(time: int)
    | ByteLeaves
    | CopyDone
    | CopyFails(e: Failure)
    | AllDone
    | Settle(time: int)
    | Cancel(id: string)
    | Clear
    | WorkerDies
    | Restart

  const START := System([], None, Idle, map[], 0, [], {}, multiset{})

  /** A step whose guard does not hold leaves the system as it is. */
  function Next(s: System, step: Step): System {
    match step
    case Submit(id, printer, doc, now) => NextSubmit(s, id, printer, doc, now)
    case SaveConfig(c) => if ValidConfig(c) then s.(config := Some(c)) else s
    case Claim(time) => NextClaim(s, time)
    case ByteLeaves => NextByte(s)
    case CopyDone =>
      if s.phase.Sending? && s.phase.sent < Copies(s, s.phase.id)
      then s.(phase := Sending(s.phase.id, s.phase.sent + 1, false)) else s
    case CopyFails(e) =>
      if s.phase.Sending? && Honest(Send(Threw(e), s.phase.touched))
      then s.(phase := Settling(s.phase.id, Some(CopyFailure(s.phase.sent, e)))) else s
    case AllDone =>
      if s.phase.Sending? && s.phase.sent == Copies(s, s.phase.id)
      then s.(phase := Settling(s.phase.id, None)) else s
    case Settle(time) => NextSettle(s, time)
    case Cancel(id) =>
      var r := CancelledRows(s.rows, id);
      if r.Ok? then s.(rows := r.value) else s
    case Clear => NextClear(s)
    case WorkerDies => Abandoned(s).(phase := Stopped)
    case Restart => Abandoned(s).(rows := RecoveredRows(s.rows), phase := Idle)
  }

  function Copies(s: System, id: string): nat {
    var at := IndexOf(s.rows, id);
    if at.Some? then s.rows[at.value].profile.copies else 0
  }

  function NextSubmit(s: System, id: string, printer: string, doc: Document, now: int): System {
    var r := Enqueued(s.rows, s.config, id, printer, doc, now);
    if r.Err? then s
    else if IndexOf(s.rows, id).Some? then s.(rows := r.value)
    else s.(rows := r.value, tickets := s.tickets[id := s.issued], issued := s.issued + 1)
  }

  function NextClaim(s: System, time: int): System {
    var at := ClaimIndex(s.rows, time);
    if !s.phase.Idle? || at.None? || s.rows[at.value].id !in s.tickets then s
    else
      var row := s.rows[at.value];
      s.(rows := s.rows[at.value := Claimed(row)], phase := Sending(row.id, 0, false),
         claims := s.claims + multiset{s.tickets[row.id]})
  }

  function NextByte(s: System): System { Leaves(s, false) }

  /** The agent goes while a copy is under way: its spool child, if it has one, may still write it. */
  function Abandoned(s: System): System {
    if s.phase.Sending? && IndexOf(s.rows, s.phase.id).Some?
       && s.rows[IndexOf(s.rows, s.phase.id).value].profile.connection.Spooler?
    then Leaves(s, true) else s
  }

  /** The first byte of the copy under way. */
  function Leaves(s: System, late: bool): System {
    if s.phase.Sending? && !s.phase.touched && s.phase.sent < Copies(s, s.phase.id)
       && s.phase.id in s.tickets
    then
      var row := s.rows[IndexOf(s.rows, s.phase.id).value];
      s.(phase := s.phase.(touched := true),
         log := s.log + [Transmission(row.id, row.printer, s.tickets[row.id], s.phase.sent, late)])
    else s
  }

  function NextSettle(s: System, time: int): System {
    if !s.phase.Settling? then s
    else
      var r := FinishedRows(s.rows, s.phase.id, s.phase.failure, AttemptLimit(s.config), time);
      if r.Ok? then s.(rows := r.value, phase := Idle) else s.(phase := Stopped)
  }

  function NextClear(s: System): System {
    var kept := ClearedRows(s.rows);
    s.(rows := kept,
       cleared := s.cleared + set r | r in s.rows && r !in kept && r.id in s.tickets :: s.tickets[r.id])
  }

  function Run(s: System, steps: seq<Step>): System
    decreases |steps|
  {
    if |steps| == 0 then s else Run(Next(s, steps[0]), steps[1..])
  }

  // ----- the invariant -----

  /** Rows stand in ticket order. */
  ghost predicate TicketOrder(rows: seq<Row>, tickets: map<string, nat>) {
    && (forall i :: 0 <= i < |rows| ==> rows[i].id in tickets)
    && (forall i, j :: 0 <= i < j < |rows| ==> tickets[rows[i].id] < tickets[rows[j].id])
  }

  ghost predicate Ticketed(s: System) {
    && TicketOrder(s.rows, s.tickets)
    && (forall i :: 0 <= i < |s.rows| ==> s.tickets[s.rows[i].id] < s.issued)
  }

  function Holder(p: Phase): Option<string> {
    if p.Sending? || p.Settling? then Some(p.id) else None
  }

  /** The worker's job is the only one printing, unless the worker has stopped. */
  ghost predicate PhaseMatches(s: System) {
    && (!s.phase.Stopped? ==> forall i :: 0 <= i < |s.rows| && s.rows[i].status.Printing?
                                ==> Holder(s.phase) == Some(s.rows[i].id))
    && (Holder(s.phase).Some? ==>
          exists i :: 0 <= i < |s.rows| && s.rows[i].id == s.phase.id && s.rows[i].status.Printing?)
  }

  ghost predicate ClaimsCounted(s: System) {
    && (forall i :: 0 <= i < |s.rows| && s.rows[i].id in s.tickets
          ==> s.claims[s.tickets[s.rows[i].id]] == s.rows[i].attempts)
    && (forall t: nat :: s.claims[t] <= MAX_ATTEMPTS)
    && (forall t: nat :: t >= s.issued ==> s.claims[t] == 0)
  }

  /** The copies a row may already have sent, given the state it is in. */
  ghost predicate MaySent(s: System, r: Row, copy: nat) {
    match r.status
    case Queued => false
    case Printing =>
      if s.phase.Sending? && s.phase.id == r.id
      then copy < s.phase.sent || (copy == s.phase.sent && s.phase.touched)
      else if s.phase.Settling? && s.phase.id == r.id
      then !(s.phase.failure.Some? && s.phase.failure.value.retryable && !s.phase.failure.value.uncertain)
      else true
    case _ => true
  }

  /** Where one log entry stands against one row. */
  ghost predicate Behind(s: System, t: Transmission, r: Row)
    requires r.id in s.tickets
  {
    && (t.ticket == s.tickets[r.id] ==> t.id == r.id && t.printer == r.printer && MaySent(s, r, t.copy))
    && (t.printer == r.printer && Active(r) ==> t.ticket <= s.tickets[r.id])
  }

  ghost predicate LogBehind(s: System)
    requires Ticketed(s)
  {
    forall k, i :: 0 <= k < |s.log| && 0 <= i < |s.rows| ==> Behind(s, s.log[k], s.rows[i])
  }

  ghost predicate InTable(rows: seq<Row>, id: string) {
    exists i :: 0 <= i < |rows| && rows[i].id == id
  }

  /** A logged row is still in the table, or a clear deleted it. */
  ghost predicate Accounted(s: System) {
    forall k :: 0 <= k < |s.log| ==>
      && s.log[k].ticket < s.issued
      && s.log[k].id in s.tickets && s.log[k].ticket <= s.tickets[s.log[k].id]
      && (s.log[k].ticket in s.cleared ||
          (InTable(s.rows, s.log[k].id) && s.tickets[s.log[k].id] == s.log[k].ticket))
  }

  ghost predicate Before(a: Transmission, b: Transmission) {
    a.ticket < b.ticket || (a.ticket == b.ticket && a.copy < b.copy)
  }

  /** Per printer, transmissions follow the order of submission, and no copy leaves twice. */
  ghost predicate LogOrdered(log: seq<Transmission>) {
    forall a, b :: 0 <= a < b < |log| && log[a].printer == log[b].printer ==> Before(log[a], log[b])
  }

  /** No copy of a row leaves twice. */
  ghost predicate Apart(log: seq<Transmission>) {
    forall a, b :: 0 <= a < b < |log| && log[a].ticket == log[b].ticket ==> log[a].copy != log[b].copy
  }

  /** Under one job ID, later transmissions never belong to an older submission. */
  ghost predicate IdOrdered(log: seq<Transmission>) {
    forall a, b :: 0 <= a < b < |log| && log[a].id == log[b].id ==> log[a].ticket <= log[b].ticket
  }

  ghost predicate Tracked(s: System) {
    Ticketed(s) && PhaseMatches(s) && ClaimsCounted(s)
  }

  ghost predicate TableInv(s: System) {
    Wf(s.rows) && (s.config.Some? ==> ValidConfig(s.config.value)) && Tracked(s)
  }

  ghost predicate Inv(s: System) {
    TableInv(s) && LogBehind(s) && Accounted(s) && LogOrdered(s.log) && Apart(s.log) && IdOrdered(s.log)
  }

  // ----- every step keeps it -----

  /** One row rewritten in place, or all of them, with IDs and printers kept. */
  ghost predicate SameJobs(a: seq<Row>, b: seq<Row>) {
    |a| == |b| && forall i :: 0 <= i < |a| ==> a[i].id == b[i].id && a[i].printer == b[i].printer
  }

  lemma KeepsLog(s: System, s': System)
    requires TableInv(s) && LogBehind(s) && Accounted(s) && Ticketed(s') && SameJobs(s.rows, s'.rows)
    requires s'.log == s.log && s'.tickets == s.tickets && s'.issued == s.issued && s'.cleared == s.cleared
    requires forall i, copy: nat :: 0 <= i < |s.rows| && MaySent(s, s.rows[i], copy)
               ==> MaySent(s', s'.rows[i], copy)
    requires forall i :: 0 <= i < |s.rows| && Active(s'.rows[i]) ==> Active(s.rows[i])
    ensures LogBehind(s') && Accounted(s')
  {
    forall k, j | 0 <= k < |s'.log| && 0 <= j < |s'.rows|
      ensures Behind(s', s'.log[k], s'.rows[j])
    {
      assert Behind(s, s.log[k], s.rows[j]);
    }
    forall k | 0 <= k < |s.log| && InTable(s.rows, s.log[k].id)
      ensures InTable(s'.rows, s.log[k].id)
    {
      var i :| 0 <= i < |s.rows| && s.rows[i].id == s.log[k].id;
      assert s'.rows[i].id == s.log[k].id;
    }
  }

  /** The system with one more queued row, under a fresh ticket. */
  function Admit(s: System, row: Row): System {
    s.(rows := s.rows + [row], tickets := s.tickets[row.id := s.issued], issued := s.issued + 1)
  }

  lemma AdmitKeepsTable(s: System, row: Row)
    requires Tracked(s)
    requires row.status.Queued? && row.attempts == 0 && !InTable(s.rows, row.id)
    ensures Tracked(Admit(s, row))
  {
    var s' := Admit(s, row);
    forall i | 0 <= i < |s.rows|
      ensures s'.rows[i] == s.rows[i] && s.rows[i].id != row.id
    {
    }
    if Holder(s.phase).Some? {
      var i :| 0 <= i < |s.rows| && s.rows[i].id == s.phase.id && s.rows[i].status.Printing?;
      assert s'.rows[i].id == s.phase.id;
    }
  }

  lemma AdmitKeepsLog(s: System, row: Row)
    requires Inv(s) && row.status.Queued? && !InTable(s.rows, row.id) && Ticketed(Admit(s, row))
    ensures LogBehind(Admit(s, row)) && Accounted(Admit(s, row))
  {
    var s', n := Admit(s, row), |s.rows|;
    forall k | 0 <= k < |s.log| && InTable(s.rows, s.log[k].id)
      ensures InTable(s'.rows, s.log[k].id)
    {
      var i :| 0 <= i < n && s.rows[i].id == s.log[k].id;
      assert s'.rows[i].id == s.log[k].id;
    }
    forall k, j | 0 <= k < |s'.log| && 0 <= j < |s'.rows|
      ensures Behind(s', s'.log[k], s'.rows[j])
    {
      if j < n { assert s'.rows[j] == s.rows[j] && Behind(s, s.log[k], s.rows[j]); }
    }
  }

  lemma SubmitKeepsInv(s: System, id: string, printer: string, doc: Document, now: int)
    requires Inv(s)
    ensures Inv(NextSubmit(s, id, printer, doc, now))
  {
    var r := Enqueued(s.rows, s.config, id, printer, doc, now);
    if r.Ok? && IndexOf(s.rows, id).None? {
      EnqueueKeeps(s.rows, s.config, id, printer, doc, now);
      var row := r.value[|s.rows|];
      assert NextSubmit(s, id, printer, doc, now) == Admit(s, row);
      AdmitKeepsTable(s, row);
      AdmitKeepsLog(s, row);
    }
  }

  lemma ClaimTracked(s: System, s': System, at: nat)
    requires Tracked(s) && s.phase.Idle? && at < |s.rows| && s.rows[at].attempts < MAX_ATTEMPTS
    requires s' == s.(rows := s.rows[at := Claimed(s.rows[at])], phase := Sending(s.rows[at].id, 0, false),
                      claims := s.claims + multiset{s.tickets[s.rows[at].id]})
    ensures Tracked(s')
  {
    assert s'.rows[at].id == s'.phase.id && s'.rows[at].status.Printing?;
    assert forall i :: 0 <= i < |s.rows| && i != at ==> s'.rows[i] == s.rows[i];
  }

  lemma ClaimKeepsTable(s: System, time: int)
    requires TableInv(s)
    ensures TableInv(NextClaim(s, time))
  {
    var s' := NextClaim(s, time);
    if s' != s {
      ClaimKeeps(s.rows, time);
      ClaimTracked(s, s', ClaimIndex(s.rows, time).value);
    }
  }

  lemma ClaimKeepsLog(s: System, s': System, at: nat)
    requires TableInv(s) && LogBehind(s) && Accounted(s) && s.phase.Idle?
    requires at < |s.rows| && s.rows[at].status.Queued? && Ticketed(s')
    requires s' == s.(rows := s.rows[at := Claimed(s.rows[at])], phase := s'.phase, claims := s'.claims)
    requires s'.phase == Sending(s.rows[at].id, 0, false)
    ensures LogBehind(s') && Accounted(s')
  {
    KeepsLog(s, s');
  }

  lemma ClaimKeepsInv(s: System, time: int)
    requires Inv(s)
    ensures Inv(NextClaim(s, time))
  {
    ClaimKeepsTable(s, time);
    if NextClaim(s, time) != s {
      ClaimKeepsLog(s, NextClaim(s, time), ClaimIndex(s.rows, time).value);
    }
  }

  /** The log entry of one more byte of the job at `at`. */
  function Entry(s: System, at: nat, late: bool): Transmission
    requires s.phase.Sending? && at < |s.rows| && s.rows[at].id in s.tickets
  {
    Transmission(s.rows[at].id, s.rows[at].printer, s.tickets[s.rows[at].id], s.phase.sent, late)
  }

  ghost predicate SendingAt(s: System, at: nat) {
    && s.phase.Sending? && !s.phase.touched && at < |s.rows|
    && s.rows[at].id == s.phase.id && s.rows[at].status.Printing?
  }

  lemma ByteLast(s: System, at: nat, k: nat, late: bool)
    requires Ticketed(s) && LogBehind(s) && SendingAt(s, at) && k < |s.log|
    requires s.log[k].printer == s.rows[at].printer
    ensures Before(s.log[k], Entry(s, at, late))
  {
    assert Behind(s, s.log[k], s.rows[at]);
  }

  lemma ByteBehind(s: System, s': System, at: nat, k: nat, j: nat, late: bool)
    requires Ticketed(s) && LogBehind(s) && Fifo(s.rows) && SendingAt(s, at)
    requires s' == s.(phase := s.phase.(touched := true), log := s.log + [Entry(s, at, late)])
    requires k < |s'.log| && j < |s.rows|
    ensures Behind(s', s'.log[k], s'.rows[j])
  {
    if k < |s.log| {
      assert s'.log[k] == s.log[k];
      assert Behind(s, s.log[k], s.rows[j]);
    } else {
      assert j < at ==> s.tickets[s.rows[j].id] < s.tickets[s.rows[at].id];
      assert at < j ==> s.tickets[s.rows[at].id] < s.tickets[s.rows[j].id];
    }
  }

  lemma ByteKeepsLog(s: System, s': System, at: nat, late: bool)
    requires Ticketed(s) && LogBehind(s) && Fifo(s.rows) && SendingAt(s, at)
    requires Accounted(s) && LogOrdered(s.log) && Apart(s.log) && IdOrdered(s.log)
    requires s' == s.(phase := s.phase.(touched := true), log := s.log + [Entry(s, at, late)])
    ensures LogBehind(s') && Accounted(s') && LogOrdered(s'.log) && Apart(s'.log) && IdOrdered(s'.log)
  {
    forall k | 0 <= k < |s.log| && s.log[k].printer == s.rows[at].printer
      ensures Before(s.log[k], Entry(s, at, late))
    {
      ByteLast(s, at, k, late);
    }
    forall k | 0 <= k < |s.log| && s.log[k].ticket == s.tickets[s.rows[at].id]
      ensures s.log[k].copy != s.phase.sent
    {
      assert Behind(s, s.log[k], s.rows[at]);
    }
    forall k, j | 0 <= k < |s'.log| && 0 <= j < |s'.rows|
      ensures Behind(s', s'.log[k], s'.rows[j])
    {
      ByteBehind(s, s', at, k, j, late);
    }
    assert InTable(s.rows, s.rows[at].id);
  }

  lemma LeavesKeepsInv(s: System, late: bool)
    requires Inv(s)
    ensures Inv(Leaves(s, late))
  {
    if Leaves(s, late) != s {
      var at :| 0 <= at < |s.rows| && s.rows[at].id == s.phase.id && s.rows[at].status.Printing?;
      assert IndexOf(s.rows, s.phase.id) == Some(at);
      ByteKeepsLog(s, Leaves(s, late), at, late);
    }
  }

  lemma SettleTracked(s: System, s': System, at: nat, row: Row)
    requires Tracked(s) && IdsDistinct(s.rows) && s.phase.Settling? && at < |s.rows|
    requires s.rows[at].id == s.phase.id == row.id && row.attempts == s.rows[at].attempts
    requires !row.status.Printing? && s' == s.(rows := s.rows[at := row], phase := Idle)
    ensures Tracked(s')
  {
    assert forall i :: 0 <= i < |s.rows| && i != at ==> s'.rows[i] == s.rows[i];
  }

  lemma SettleKeepsTable(s: System, time: int, at: nat)
    requires TableInv(s) && s.phase.Settling?
    requires at < |s.rows| && s.rows[at].id == s.phase.id && s.rows[at].status.Printing?
    ensures TableInv(NextSettle(s, time)) && NextSettle(s, time).phase.Idle?
    ensures NextSettle(s, time).rows
            == s.rows[at := Finished(s.rows[at], s.phase.failure, AttemptLimit(s.config), time)]
  {
    var row := Finished(s.rows[at], s.phase.failure, AttemptLimit(s.config), time);
    assert IndexOf(s.rows, s.phase.id) == Some(at);
    FinishKeeps(s.rows, at, s.phase.failure, AttemptLimit(s.config), time);
    SettleTracked(s, NextSettle(s, time), at, row);
  }

  lemma SettleKeepsLog(s: System, s': System, at: nat, time: int)
    requires TableInv(s) && LogBehind(s) && Accounted(s) && s.phase.Settling?
    requires at < |s.rows| && s.rows[at].id == s.phase.id && s.rows[at].status.Printing?
    requires s' == s.(rows := s.rows[at := Finished(s.rows[at], s.phase.failure, AttemptLimit(s.config), time)],
                      phase := Idle)
    requires Ticketed(s')
    ensures LogBehind(s') && Accounted(s')
  {
    KeepsLog(s, s');
  }

  lemma SettleKeepsInv(s: System, time: int)
    requires Inv(s)
    ensures Inv(NextSettle(s, time))
    ensures s.phase.Settling? ==> NextSettle(s, time).phase.Idle?
  {
    if s.phase.Settling? {
      var at :| 0 <= at < |s.rows| && s.rows[at].id == s.phase.id && s.rows[at].status.Printing?;
      SettleKeepsTable(s, time, at);
      SettleKeepsLog(s, NextSettle(s, time), at, time);
    }
  }

  /** The system after row `at`, which is queued, is cancelled. */
  function Withdrawn(s: System, at: nat): System
    requires at < |s.rows|
  {
    s.(rows := s.rows[at := s.rows[at].(status := Cancelled)])
  }

  lemma CancelTracked(s: System, at: nat)
    requires Tracked(s) && at < |s.rows| && s.rows[at].status.Queued?
    ensures Tracked(Withdrawn(s, at))
  {
    var s' := Withdrawn(s, at);
    assert forall i :: 0 <= i < |s.rows| && i != at ==> s'.rows[i] == s.rows[i];
    if Holder(s.phase).Some? {
      var i :| 0 <= i < |s.rows| && s.rows[i].id == s.phase.id && s.rows[i].status.Printing?;
      assert s'.rows[i] == s.rows[i];
    }
  }

  lemma CancelKeepsInv(s: System, id: string)
    requires Inv(s)
    ensures Inv(Next(s, Cancel(id)))
  {
    var s' := Next(s, Cancel(id));
    if s' != s {
      CancelKeeps(s.rows, id);
      var at := IndexOf(s.rows, id).value;
      assert s' == Withdrawn(s, at);
      CancelTracked(s, at);
      KeepsLog(s, s');
    }
  }

  lemma {:induction false} ClearedTickets(rows: seq<Row>, tickets: map<string, nat>)
    requires TicketOrder(rows, tickets)
    ensures TicketOrder(ClearedRows(rows), tickets)
  {
    if |rows| > 0 {
      var init, last := rows[..|rows| - 1], rows[|rows| - 1];
      ClearedTickets(init, tickets);
      var kept := ClearedRows(init);
      forall i | 0 <= i < |kept|
        ensures tickets[kept[i].id] < tickets[last.id]
      {
        var k := ClearedIndex(init, i);
        assert rows[k] == kept[i];
      }
    }
  }

  lemma ClearedIndex(rows: seq<Row>, j: nat) returns (i: nat)
    requires j < |ClearedRows(rows)|
    ensures i < |rows| && rows[i] == ClearedRows(rows)[j] && rows[i].status.Printing?
  {
    assert ClearedRows(rows)[j] in ClearedRows(rows);
    i :| 0 <= i < |rows| && rows[i] == ClearedRows(rows)[j];
  }

  lemma ClearTicketed(s: System)
    requires Ticketed(s)
    ensures Ticketed(NextClear(s))
  {
    ClearedTickets(s.rows, s.tickets);
    var kept := ClearedRows(s.rows);
    forall j | 0 <= j < |kept|
      ensures kept[j].id in s.tickets && s.tickets[kept[j].id] < s.issued
    {
      var i := ClearedIndex(s.rows, j);
    }
  }

  lemma ClearCounted(s: System)
    requires ClaimsCounted(s)
    ensures ClaimsCounted(NextClear(s))
  {
    var kept := ClearedRows(s.rows);
    forall j | 0 <= j < |kept| && kept[j].id in s.tickets
      ensures s.claims[s.tickets[kept[j].id]] == kept[j].attempts
    {
      var i := ClearedIndex(s.rows, j);
    }
  }

  lemma ClearPhase(s: System)
    requires PhaseMatches(s)
    ensures PhaseMatches(NextClear(s))
  {
    var kept := ClearedRows(s.rows);
    forall j | 0 <= j < |kept|
      ensures !s.phase.Stopped? ==> Holder(s.phase) == Some(kept[j].id)
    {
      var i := ClearedIndex(s.rows, j);
    }
    if Holder(s.phase).Some? {
      var i :| 0 <= i < |s.rows| && s.rows[i].id == s.phase.id && s.rows[i].status.Printing?;
      assert s.rows[i] in kept;
      var j :| 0 <= j < |kept| && kept[j] == s.rows[i];
      assert kept[j].id == s.phase.id && kept[j].status.Printing?;
    }
  }

  lemma ClearKeepsInv(s: System)
    requires Inv(s)
    ensures Inv(NextClear(s))
  {
    ClearKeeps(s.rows);
    ClearTicketed(s);
    ClearCounted(s);
    ClearPhase(s);
    var s' := NextClear(s);
    forall k, j | 0 <= k < |s'.log| && 0 <= j < |s'.rows|
      ensures Behind(s', s'.log[k], s'.rows[j])
    {
      var i := ClearedIndex(s.rows, j);
      assert Behind(s, s.log[k], s.rows[i]);
    }
    forall k | 0 <= k < |s.log| && s.log[k].ticket !in s'.cleared
      ensures InTable(s'.rows, s.log[k].id)
    {
      var i :| 0 <= i < |s.rows| && s.rows[i].id == s.log[k].id;
      assert s.rows[i] in s'.rows;
    }
  }

  lemma RestartTracked(s: System, s': System)
    requires Tracked(s) && s' == s.(rows := RecoveredRows(s.rows), phase := Idle)
    ensures Tracked(s')
  {
  }

  lemma RestartKeepsInv(s: System)
    requires Inv(s)
    ensures Inv(Next(s, Restart))
  {
    LeavesKeepsInv(s, true);
    hide Inv, Leaves;
    RecoveryKeepsInv(Abandoned(s));
  }

  lemma RecoveryKeepsInv(s: System)
    requires Inv(s)
    ensures Inv(s.(rows := RecoveredRows(s.rows), phase := Idle))
  {
    var s' := s.(rows := RecoveredRows(s.rows), phase := Idle);
    RecoverKeeps(s.rows);
    RestartTracked(s, s');
    KeepsLog(s, s');
  }

  predicate PhaseStep(step: Step) {
    step.CopyDone? || step.CopyFails? || step.AllDone?
  }

  lemma PhaseMaySent(s: System, step: Step, r: Row, copy: nat)
    requires PhaseStep(step) && MaySent(s, r, copy)
    ensures MaySent(Next(s, step), r, copy)
  {
  }

  /** The worker moving on without touching the table. */
  lemma PhaseKeepsInv(s: System, step: Step)
    requires Inv(s) && PhaseStep(step)
    ensures Inv(Next(s, step))
  {
    var s' := Next(s, step);
    assert s' == s.(phase := s'.phase);
    assert s'.phase.Stopped? || (!s.phase.Stopped? && Holder(s'.phase) == Holder(s.phase));
    forall r: Row, copy: nat | MaySent(s, r, copy)
      ensures MaySent(s', r, copy)
    {
      PhaseMaySent(s, step, r, copy);
    }
    MovePhase(s, s'.phase);
  }

  lemma DeathKeepsInv(s: System)
    requires Inv(s)
    ensures Inv(Next(s, WorkerDies))
  {
    LeavesKeepsInv(s, true);
    var a := Abandoned(s);
    forall r: Row, copy: nat | MaySent(a, r, copy)
      ensures MaySent(a.(phase := Stopped), r, copy)
    {
    }
    MovePhase(a, Stopped);
  }

  lemma MovePhase(s: System, p: Phase)
    requires Inv(s) && (p.Stopped? || (!s.phase.Stopped? && Holder(p) == Holder(s.phase)))
    requires forall r: Row, copy: nat :: MaySent(s, r, copy) ==> MaySent(s.(phase := p), r, copy)
    ensures Inv(s.(phase := p))
  {
    KeepsLog(s, s.(phase := p));
  }

  lemma ConfigKeepsInv(s: System, c: Config)
    requires Inv(s) && ValidConfig(c)
    ensures Inv(s.(config := Some(c)))
  {
    KeepsLog(s, s.(config := Some(c)));
  }

  lemma StepKeepsInv(s: System, step: Step)
    requires Inv(s)
    ensures Inv(Next(s, step))
  {
    match step
    case Submit(id, printer, doc, now) => SubmitKeepsInv(s, id, printer, doc, now);
    case SaveConfig(c) => if ValidConfig(c) { ConfigKeepsInv(s, c); }
    case Claim(time) => ClaimKeepsInv(s, time);
    case ByteLeaves => LeavesKeepsInv(s, false);
    case CopyDone => PhaseKeepsInv(s, step);
    case CopyFails(e) => PhaseKeepsInv(s, step);
    case AllDone => PhaseKeepsInv(s, step);
    case Settle(time) => SettleKeepsInv(s, time);
    case Cancel(id) => CancelKeepsInv(s, id);
    case Clear => ClearKeepsInv(s);
    case WorkerDies => DeathKeepsInv(s);
    case Restart => RestartKeepsInv(s);
  }

  lemma {:induction false} RunKeepsInv(s: System, steps: seq<Step>)
    requires Inv(s)
    ensures Inv(Run(s, steps))
    decreases |steps|
  {
    if |steps| > 0 {
      StepKeepsInv(s, steps[0]);
      RunKeepsInv(Next(s, steps[0]), steps[1..]);
    }
  }

  // ----- what it means over whole runs -----

  /**
   Safety of every run, with crashes anywhere: per printer the copies leave in the order the jobs
   were submitted, unless an abandoned spool child writes later; no copy of a row leaves twice; and
   two copies with the same job ID and number can only differ by a clear that deleted the first
   one's row.
   */
  lemma NoReplay(steps: seq<Step>)
    ensures var log := Run(START, steps).log;
      && (forall a, b :: 0 <= a < b < |log| && log[a].printer == log[b].printer && !log[a].late
            ==> Before(log[a], log[b]))
      && Apart(log)
      && (forall a, b :: 0 <= a < b < |log| && log[a].id == log[b].id && log[a].copy == log[b].copy
            ==> log[a].ticket in Run(START, steps).cleared)
  {
    var s := Run(START, steps);
    RunKeepsInv(START, steps);
    hide Run, TableInv, LogBehind, Accounted, IdOrdered, Apart, Before;
    forall a, b | 0 <= a < b < |s.log| && s.log[a].id == s.log[b].id && s.log[a].copy == s.log[b].copy
      ensures s.log[a].ticket in s.cleared
    {
      SameIdTwice(s, a, b);
    }
  }

  lemma SameIdTwice(s: System, a: nat, b: nat)
    requires Inv(s) && a < b < |s.log|
    requires s.log[a].id == s.log[b].id && s.log[a].copy == s.log[b].copy
    ensures s.log[a].ticket in s.cleared
  {
    assert s.log[a].ticket <= s.log[b].ticket;
  }

  /** A job of which some byte may have left is never waiting in the queue, in any reachable state. */
  lemma TouchedNeverQueued(steps: seq<Step>, k: nat, i: nat)
    requires var s := Run(START, steps); k < |s.log| && i < |s.rows|
    requires var s := Run(START, steps);
             s.rows[i].id in s.tickets && s.log[k].ticket == s.tickets[s.rows[i].id]
    ensures !Run(START, steps).rows[i].status.Queued?
  {
    var s := Run(START, steps);
    RunKeepsInv(START, steps);
    assert Behind(s, s.log[k], s.rows[i]);
  }

  /** In every reachable state the queue is in order and within its limits. */
  lemma QueueBounds(steps: seq<Step>)
    ensures var s := Run(START, steps);
      && Fifo(s.rows) && |ActiveRows(s.rows)| <= 256
      && forall t: nat :: s.claims[t] <= 5
  {
    RunKeepsInv(START, steps);
    CountIsSize(Run(START, steps).rows);
  }

  /** A claim passes over no active job of its printer, whatever retries and delays are pending. */
  lemma ClaimInTurn(steps: seq<Step>, time: int, i: nat, j: nat)
    requires var s := Run(START, steps); NextClaim(s, time) != s
    requires var s := Run(START, steps); ClaimIndex(s.rows, time) == Some(i) && j < i
    requires var s := Run(START, steps); s.rows[j].printer == s.rows[i].printer
    ensures !Active(Run(START, steps).rows[j])
    ensures NextClaim(Run(START, steps), time).phase.id == Run(START, steps).rows[i].id
  {
    var s := Run(START, steps);
    assert !Blocked(s.rows, i);
  }

  // ----- draining -----

  /** How many more claims and settlements a row can still take part in. */
  function Weight(r: Row): nat {
    if r.status.Queued? && r.attempts <= MAX_ATTEMPTS then 2 * (MAX_ATTEMPTS + 1 - r.attempts)
    else if r.status.Printing? && r.attempts <= MAX_ATTEMPTS then 2 * (MAX_ATTEMPTS + 1 - r.attempts) + 1
    else 0
  }

  function Potential(s: System): nat { Total(s.rows, Weight) }

  /** One for a step that claims or settles a job, none for any other. */
  function Work(s: System, step: Step): nat {
    if (step.Claim? || step.Settle?) && Next(s, step) != s then 1 else 0
  }

  function WorkDone(s: System, steps: seq<Step>): nat
    decreases |steps|
  {
    if |steps| == 0 then 0 else Work(s, steps[0]) + WorkDone(Next(s, steps[0]), steps[1..])
  }

  lemma ClaimDrains(s: System, time: int)
    requires Inv(s) && NextClaim(s, time) != s
    ensures Potential(NextClaim(s, time)) + 1 <= Potential(s)
  {
    var at := ClaimIndex(s.rows, time).value;
    TotalUpdate(s.rows, Weight, at, Claimed(s.rows[at]));
  }

  lemma SettleDrains(s: System, time: int)
    requires Inv(s) && s.phase.Settling?
    ensures Potential(NextSettle(s, time)) + 1 <= Potential(s)
  {
    var at :| 0 <= at < |s.rows| && s.rows[at].id == s.phase.id && s.rows[at].status.Printing?;
    SettleKeepsTable(s, time, at);
    var row := Finished(s.rows[at], s.phase.failure, AttemptLimit(s.config), time);
    assert Weight(row) + 1 <= Weight(s.rows[at]) by {
      assert TableInv(s);
    }
    hide Inv, TableInv, NextSettle, Finished, Weight;
    TotalUpdate(s.rows, Weight, at, row);
  }

  lemma CancelDrains(s: System, id: string)
    ensures Potential(Next(s, Cancel(id))) <= Potential(s)
  {
    var at := IndexOf(s.rows, id);
    if at.Some? {
      TotalUpdate(s.rows, Weight, at.value, s.rows[at.value].(status := Cancelled));
    }
  }

  lemma StepDrains(s: System, step: Step)
    requires Inv(s) && !step.Submit?
    ensures Potential(Next(s, step)) + Work(s, step) <= Potential(s)
  {
    match step
    case Claim(time) => if NextClaim(s, time) != s { ClaimDrains(s, time); }
    case Settle(time) => if s.phase.Settling? { SettleDrains(s, time); }
    case Cancel(id) => CancelDrains(s, id);
    case Clear => ClearTotal(s.rows, Weight);
    case Restart => RecoverTotal(s.rows, Weight);
    case _ =>
  }

  lemma {:induction false} TotalBound(rows: seq<Row>, v: Row -> nat, w: Row -> nat)
    requires forall i :: 0 <= i < |rows| ==> v(rows[i]) <= 12 * w(rows[i])
    ensures Total(rows, v) <= 12 * Total(rows, w)
  {
    if |rows| > 0 { TotalBound(rows[..|rows| - 1], v, w); }
  }

  /**
   With no new submission, the work left is bounded by the jobs at hand: twelve claims and
   settlements for each active job at most, so the queue drains.
   */
  lemma {:induction false} Drains(s: System, steps: seq<Step>)
    requires Inv(s) && forall k :: 0 <= k < |steps| ==> !steps[k].Submit?
    ensures WorkDone(s, steps) + Potential(Run(s, steps)) <= Potential(s)
    ensures Potential(s) <= 12 * |ActiveRows(s.rows)|
    decreases |steps|
  {
    CountIsSize(s.rows);
    TotalBound(s.rows, Weight, ActiveUnit);
    if |steps| > 0 {
      StepDrains(s, steps[0]);
      StepKeepsInv(s, steps[0]);
      Drains(Next(s, steps[0]), steps[1..]);
    }
  }

  /** And while something is queued and the worker is free, a late enough claim always finds a job. */
  lemma NeverStuck(steps: seq<Step>, q: nat, time: int)
    requires var s := Run(START, steps); s.phase.Idle? && q < |s.rows| && s.rows[q].status.Queued?
    requires forall i :: 0 <= i < |Run(START, steps).rows| ==> Run(START, steps).rows[i].next <= time
    ensures Work(Run(START, steps), Claim(time)) == 1
  {
    var s := Run(START, steps);
    RunKeepsInv(START, steps);
    ClaimProgress(s.rows, time, q);
  }
}

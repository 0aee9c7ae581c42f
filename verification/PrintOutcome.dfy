/**
 What a completed job means, over every run of the agent: the copies that were done are counted per
 ticket along the run, and a row is completed only with all of its copies.
 */
module PrintOutcome {
  import opened Prelude
  import opened PrintQueue
  import opened PrintTransport
  import opened PrintSystem

  /** The copies done so far, by ticket. */
  type Tally = multiset<nat>

  function Counted(s: System, done: Tally, step: Step): Tally {
    if step.CopyDone? && s.phase.Sending? && s.phase.sent < Copies(s, s.phase.id) && s.phase.id in s.tickets
    then done + multiset{s.tickets[s.phase.id]} else done
  }

  function DoneAfter(s: System, done: Tally, steps: seq<Step>): Tally
    decreases |steps|
  {
    if |steps| == 0 then done else DoneAfter(Next(s, steps[0]), Counted(s, done, steps[0]), steps[1..])
  }

  /** How many copies of a row are done, given the state it is in. */
  ghost predicate CopiesFit(phase: Phase, r: Row, n: nat) {
    match r.status
    case Queued => n == 0
    case Printing =>
      && (phase.Sending? && phase.id == r.id ==> n == phase.sent)
      && (phase.Settling? && phase.id == r.id && phase.failure.None? ==> n == r.profile.copies)
      && (phase.Settling? && phase.id == r.id && MayRetry(phase.failure, 0, 1) ==> n == 0)
    case Completed => n == r.profile.copies
    case _ => true
  }

  ghost predicate RowFits(s: System, done: Tally, r: Row) {
    r.id in s.tickets && CopiesFit(s.phase, r, done[s.tickets[r.id]])
  }

  ghost predicate Fits(s: System, done: Tally) {
    && (forall i :: 0 <= i < |s.rows| ==> RowFits(s, done, s.rows[i]))
    && (forall t: nat :: t >= s.issued ==> done[t] == 0)
  }

  lemma SubmitFits(s: System, done: Tally, id: string, printer: string, doc: Document, now: int)
    requires Inv(s) && Fits(s, done)
    ensures Fits(NextSubmit(s, id, printer, doc, now), done)
  {
    var r := Enqueued(s.rows, s.config, id, printer, doc, now);
    var s' := NextSubmit(s, id, printer, doc, now);
    if r.Ok? && IndexOf(s.rows, id).None? {
      forall i | 0 <= i < |s'.rows|
        ensures RowFits(s', done, s'.rows[i])
      {
        if i < |s.rows| { assert s'.rows[i] == s.rows[i] && RowFits(s, done, s.rows[i]); }
      }
    }
  }

  lemma ClaimFits(s: System, done: Tally, time: int)
    requires Inv(s) && Fits(s, done)
    ensures Fits(NextClaim(s, time), done)
  {
    var s' := NextClaim(s, time);
    if s' != s {
      forall i | 0 <= i < |s'.rows|
        ensures RowFits(s', done, s'.rows[i])
      {
        assert RowFits(s, done, s.rows[i]);
      }
    }
  }

  lemma CopyFits(s: System, done: Tally)
    requires Inv(s) && Fits(s, done)
    ensures Fits(Next(s, CopyDone), Counted(s, done, CopyDone))
  {
    var s', more := Next(s, CopyDone), Counted(s, done, CopyDone);
    if s.phase.Sending? {
      var at :| 0 <= at < |s.rows| && s.rows[at].id == s.phase.id && s.rows[at].status.Printing?;
      forall i | 0 <= i < |s.rows|
        ensures RowFits(s', more, s.rows[i])
      {
        assert RowFits(s, done, s.rows[i]) && RowFits(s, done, s.rows[at]);
        assert i < at ==> s.tickets[s.rows[i].id] < s.tickets[s.rows[at].id];
        assert at < i ==> s.tickets[s.rows[at].id] < s.tickets[s.rows[i].id];
      }
      assert s.tickets[s.rows[at].id] < s.issued;
    }
  }

  /** A step of the worker that leaves rows, tickets and counts. */
  lemma PhaseFits(s: System, done: Tally, p: Phase)
    requires Fits(s, done)
    requires forall i :: 0 <= i < |s.rows| && s.rows[i].status.Printing? ==>
               forall n: nat :: CopiesFit(s.phase, s.rows[i], n) ==> CopiesFit(p, s.rows[i], n)
    ensures Fits(s.(phase := p), done)
  {
    forall i | 0 <= i < |s.rows|
      ensures RowFits(s.(phase := p), done, s.rows[i])
    {
      assert RowFits(s, done, s.rows[i]);
    }
  }

  lemma LogFits(s: System, done: Tally, late: bool)
    requires Fits(s, done)
    ensures Fits(Leaves(s, late), done)
  {
    var s' := Leaves(s, late);
    forall i | 0 <= i < |s'.rows|
      ensures RowFits(s', done, s'.rows[i])
    {
      assert RowFits(s, done, s.rows[i]);
    }
  }

  lemma WorkerFits(s: System, done: Tally, step: Step)
    requires Inv(s) && Fits(s, done) && (step.CopyFails? || step.AllDone?)
    ensures Fits(Next(s, step), done)
  {
    var p := Next(s, step).phase;
    assert Next(s, step) == s.(phase := p);
    if s.phase.Sending? && p != s.phase {
      var at :| 0 <= at < |s.rows| && s.rows[at].id == s.phase.id && s.rows[at].status.Printing?;
      assert IndexOf(s.rows, s.phase.id) == Some(at);
      forall i, n: nat | 0 <= i < |s.rows| && s.rows[i].status.Printing? && CopiesFit(s.phase, s.rows[i], n)
        ensures CopiesFit(p, s.rows[i], n)
      {
        assert s.rows[i].id == s.phase.id ==> i == at;
      }
      PhaseFits(s, done, p);
    }
  }

  /** Rows have different tickets. */
  lemma SameTickets(s: System, s': System, done: Tally, at: nat)
    requires at < |s.rows| && s'.tickets == s.tickets && Fits(s, done)
    ensures forall i :: 0 <= i < |s.rows| ==> s.rows[i].id in s'.tickets
  {
    assert forall i :: 0 <= i < |s.rows| ==> RowFits(s, done, s.rows[i]);
  }

  lemma SettleFits(s: System, done: Tally, time: int)
    requires Inv(s) && Fits(s, done)
    ensures Fits(NextSettle(s, time), done)
  {
    if s.phase.Settling? {
      var at :| 0 <= at < |s.rows| && s.rows[at].id == s.phase.id && s.rows[at].status.Printing?;
      SettleKeepsTable(s, time, at);
      var s' := NextSettle(s, time);
      var row := Finished(s.rows[at], s.phase.failure, AttemptLimit(s.config), time);
      FinishedSettles(s.rows[at], s.phase.failure, AttemptLimit(s.config), time);
      hide Inv, NextSettle, TableInv, LogBehind, Finished;
      SameTickets(s, s', done, at);
      forall i | 0 <= i < |s'.rows|
        ensures RowFits(s', done, s'.rows[i])
      {
        assert RowFits(s, done, s.rows[i]);
        assert i != at ==> s'.rows[i] == s.rows[i];
      }
    }
  }

  lemma CancelFits(s: System, done: Tally, id: string)
    requires Fits(s, done)
    ensures Fits(Next(s, Cancel(id)), done)
  {
    var s' := Next(s, Cancel(id));
    forall i | 0 <= i < |s'.rows|
      ensures RowFits(s', done, s'.rows[i])
    {
      assert RowFits(s, done, s.rows[i]);
    }
  }

  lemma ClearFits(s: System, done: Tally)
    requires Fits(s, done)
    ensures Fits(NextClear(s), done)
  {
    var s' := NextClear(s);
    forall j | 0 <= j < |s'.rows|
      ensures RowFits(s', done, s'.rows[j])
    {
      var i := ClearedIndex(s.rows, j);
      assert RowFits(s, done, s.rows[i]);
    }
  }

  lemma RestartFits(s: System, done: Tally)
    requires Fits(s, done)
    ensures Fits(Next(s, Restart), done)
  {
    LogFits(s, done, true);
    var a, s' := Abandoned(s), Next(s, Restart);
    hide Leaves, Abandoned;
    forall i | 0 <= i < |s'.rows|
      ensures RowFits(s', done, s'.rows[i])
    {
      assert RowFits(a, done, a.rows[i]);
    }
  }

  lemma DeathFits(s: System, done: Tally)
    requires Fits(s, done)
    ensures Fits(Next(s, WorkerDies), done)
  {
    LogFits(s, done, true);
    hide Leaves;
    PhaseFits(Abandoned(s), done, Stopped);
  }

  /**
   What the worker's turn ends in: with every copy done the row is completed, and a failure settles it
   as the failure asks, an unknown outcome once a copy was done.
   */
  lemma TurnEnds(s: System, at: nat, failed: Option<Failure>, time: int)
    requires Inv(s) && s.phase.Sending? && at < |s.rows| && s.rows[at].id == s.phase.id
    requires failed.None? ==> s.phase.sent == s.rows[at].profile.copies
    requires failed.Some? ==> Honest(Send(Threw(failed.value), s.phase.touched))
    ensures var end := Next(Next(s, if failed.None? then AllDone else CopyFails(failed.value)), Settle(time));
      var failure := if failed.Some? && s.phase.sent > 0
                     then Some(Failure("PRINT_OUTCOME_UNKNOWN", false, true)) else failed;
      && end.phase.Idle? && OnlyAt(s.rows, end.rows, at)
      && Settles(s.rows[at], end.rows[at], failure, if s.config.Some? then s.config.value.maxAttempts else 3, time)
  {
    TurnGoesOn(s, at, failed);
    var mid := Next(s, if failed.None? then AllDone else CopyFails(failed.value));
    hide Inv, TableInv, NextSettle, Finished, Settles;
    PhaseKeepsInv(s, if failed.None? then AllDone else CopyFails(failed.value));
    InvTable(mid);
    SettleKeepsTable(mid, time, at);
    FinishedSettles(mid.rows[at], mid.phase.failure, AttemptLimit(mid.config), time);
  }

  lemma InvTable(s: System)
    requires Inv(s)
    ensures TableInv(s)
  {
  }

  lemma TurnGoesOn(s: System, at: nat, failed: Option<Failure>)
    requires Inv(s) && s.phase.Sending? && at < |s.rows| && s.rows[at].id == s.phase.id
    requires failed.None? ==> s.phase.sent == s.rows[at].profile.copies
    requires failed.Some? ==> Honest(Send(Threw(failed.value), s.phase.touched))
    ensures s.rows[at].status.Printing?
    ensures Next(s, if failed.None? then AllDone else CopyFails(failed.value)) ==
            s.(phase := Settling(s.phase.id, if failed.Some? && s.phase.sent > 0
                                             then Some(Failure("PRINT_OUTCOME_UNKNOWN", false, true)) else failed))
  {
    assert IndexOf(s.rows, s.phase.id) == Some(at);
  }

  lemma StepFits(s: System, done: Tally, step: Step)
    requires Inv(s) && Fits(s, done)
    ensures Fits(Next(s, step), Counted(s, done, step))
  {
    match step
    case Submit(id, printer, doc, now) => SubmitFits(s, done, id, printer, doc, now);
    case SaveConfig(c) => ConfigFits(s, done, step);
    case Claim(time) => ClaimFits(s, done, time);
    case ByteLeaves => LogFits(s, done, false);
    case CopyDone => CopyFits(s, done);
    case CopyFails(e) => WorkerFits(s, done, step);
    case AllDone => WorkerFits(s, done, step);
    case Settle(time) => SettleFits(s, done, time);
    case Cancel(id) => CancelFits(s, done, id);
    case Clear => ClearFits(s, done);
    case WorkerDies => DeathFits(s, done);
    case Restart => RestartFits(s, done);
  }

  lemma ConfigFits(s: System, done: Tally, step: Step)
    requires Fits(s, done) && step.SaveConfig?
    ensures Fits(Next(s, step), done)
  {
    var s' := Next(s, step);
    forall i | 0 <= i < |s'.rows|
      ensures RowFits(s', done, s'.rows[i])
    {
      assert RowFits(s, done, s.rows[i]);
    }
  }

  lemma {:induction false} RunFits(s: System, done: Tally, steps: seq<Step>)
    requires Inv(s) && Fits(s, done)
    ensures Fits(Run(s, steps), DoneAfter(s, done, steps))
    decreases |steps|
  {
    if |steps| > 0 {
      hide Inv, Fits, Next, Counted;
      StepKeepsInv(s, steps[0]);
      StepFits(s, done, steps[0]);
      RunFits(Next(s, steps[0]), Counted(s, done, steps[0]), steps[1..]);
    }
  }

  /** In every reachable state a completed row has had all of its copies done, and a queued one none. */
  lemma CompletedIsDone(steps: seq<Step>, i: nat)
    requires i < |Run(START, steps).rows|
    ensures var s, done := Run(START, steps), DoneAfter(START, multiset{}, steps); var row := s.rows[i];
      && row.id in s.tickets
      && (row.status.Completed? ==> done[s.tickets[row.id]] == row.profile.copies)
      && (row.status.Queued? ==> done[s.tickets[row.id]] == 0)
  {
    RunFits(START, multiset{}, steps);
    assert RowFits(Run(START, steps), DoneAfter(START, multiset{}, steps), Run(START, steps).rows[i]);
  }
}

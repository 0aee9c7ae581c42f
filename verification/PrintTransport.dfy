/**
 The two ways bytes leave the agent (`send_network`, `send_spooler` and `spool_child` in
 platform.cpp) and the worker that drives them (`start_worker` in main.cpp).

 The operating system is a script of answers.  `touched` records whether some byte may have left
 the process; what each transport owes the queue is `Honest`.
 */
module PrintTransport {
  import opened Prelude
  import opened PrintQueue

  /** `Interrupted`: the process died before the call came back. */
  datatype Outcome = Sent | Threw(failure: Failure) | Interrupted

  datatype Send = Send(outcome: Outcome, touched: bool)

  /** A failure that may be retried was raised before any byte could leave. */
  predicate Honest(s: Send) {
    s.outcome.Threw? && s.outcome.failure.retryable && !s.outcome.failure.uncertain ==> !s.touched
  }

  const CHUNK := 16384

  datatype Connect = Connected | NoSocket | Refused | TimedOut

  function ConnectFailure(c: Connect): Failure {
    Failure(if c.TimedOut? then "NETWORK_TIMEOUT" else "NETWORK_CONNECTION_FAILED", true, false)
  }

  /**
   Raw TCP.  `writes[k]` is what the k-th `send` call returns: -1 for an error, otherwise how many
   bytes of the chunk it took.  Running out of answers is a crash in the middle.
   */
  method SendNetwork(endpointOk: bool, connect: Connect, size: nat, writes: seq<int>)
    returns (s: Send, offset: nat)
    requires forall k :: 0 <= k < |writes| ==> -1 <= writes[k]
    ensures Honest(s)
    ensures s.outcome.Sent? ==> offset == size
    ensures s.outcome.Threw? ==> (s.outcome.failure.retryable <==> endpointOk && !connect.Connected?)
    ensures s.touched && s.outcome.Threw? ==> s.outcome.failure == OUTCOME_UNKNOWN
    ensures offset > 0 ==> s.touched
    ensures s.touched ==> endpointOk && connect.Connected?
    ensures !endpointOk ==> s.outcome == Threw(Failure("INVALID_CONFIG", false, false))
    ensures endpointOk && !connect.Connected? ==>
              s.outcome == Threw(Failure(if connect.TimedOut? then "NETWORK_TIMEOUT" else "NETWORK_CONNECTION_FAILED",
                                         true, false))
    ensures endpointOk && connect.Connected? && size > 0 && |writes| > 0 && writes[0] == -1 ==>
              s.outcome == Threw(Failure("PRINT_OUTCOME_UNKNOWN", false, true))
    // As long as every call takes something, all of it goes out.
    ensures (endpointOk && connect.Connected? && |writes| >= size
             && forall k :: 0 <= k < |writes| ==> writes[k] > 0) ==> s.outcome.Sent?
  {
    offset := 0;
    if !endpointOk { return Send(Threw(Failure("INVALID_CONFIG", false, false)), false), 0; }
    if !connect.Connected? { return Send(Threw(ConnectFailure(connect)), false), 0; }
    var touched, k := false, 0;
    while offset < size
      invariant offset <= size && k <= |writes|
      invariant offset > 0 ==> touched
      invariant (k > 0 ==> writes[0] >= 0) && (k == 0 ==> offset == 0)
      invariant (forall j :: 0 <= j < |writes| ==> writes[j] > 0) ==> offset >= Min(k, size)
      decreases |writes| - k
    {
      if k == |writes| { return Send(Interrupted, touched), offset; }
      var chunk := Min(CHUNK, size - offset);
      touched := true;
      if writes[k] == -1 { return Send(Threw(OUTCOME_UNKNOWN), touched), offset; }
      offset := offset + Min(writes[k], chunk);
      k := k + 1;
    }
    s := Send(Outcome.Sent, touched);
  }

  /** What the print spooler answers to each call of the child process. */
  datatype Spooler = Spooler(readable: bool, queueOpen: bool, docStarted: bool, pageStarted: bool,
                             writes: nat -> bool, ended: bool)

  const NOT_OPENED := 10
  const UNCERTAIN := 20

  /** Every call of the child goes well, and each chunk is taken whole. */
  ghost predicate AllGoesWell(os: Spooler, size: nat) {
    && os.readable && os.queueOpen && os.docStarted && os.pageStarted && os.ended
    && forall k: nat :: k * CHUNK < size ==> os.writes(k)
  }

  /** The disposable child: only a failure to open the queue is reported as nothing submitted. */
  method SpoolChild(os: Spooler, size: nat) returns (code: int, offset: nat, touched: bool)
    ensures code in {0, NOT_OPENED, UNCERTAIN}
    ensures code == 0 <==> AllGoesWell(os, size)
    ensures code == 0 ==> offset == size
    ensures code == NOT_OPENED <==> os.readable && !os.queueOpen
    ensures code == NOT_OPENED ==> !touched
    ensures offset > 0 ==> touched
  {
    offset, touched := 0, false;
    if !os.readable { return UNCERTAIN, 0, false; }
    if !os.queueOpen { return NOT_OPENED, 0, false; }
    if !os.docStarted { return UNCERTAIN, 0, false; }
    touched := true;
    if !os.pageStarted { return UNCERTAIN, offset, touched; }
    var k := 0;
    while offset < size
      invariant offset <= size && offset == Min(k * CHUNK, size)
      invariant forall j: nat :: j < k ==> os.writes(j)
    {
      var n := Min(CHUNK, size - offset);
      if !os.writes(k) { return UNCERTAIN, offset, touched; }
      offset, k := offset + n, k + 1;
    }
    code := if os.ended then 0 else UNCERTAIN;
  }

  /**
   How starting, waiting for and questioning the child went.  A child that dies instead of returning
   may have written anything and leaves an exit code that is not its own.
   */
  datatype Parent = Parent(fileWritten: bool, created: bool, waited: bool, codeRead: bool, died: Option<int>)

  /** The code of a dead child is read as that of one which could not open the queue. */
  predicate Mistaken(p: Parent) {
    p.fileWritten && p.created && p.waited && p.codeRead && p.died == Some(NOT_OPENED)
  }

  /** A retryable error means that nothing left, if and only if no dead child passes for an unopened queue. */
  method SendSpooler(parent: Parent, os: Spooler, size: nat) returns (s: Send)
    ensures Honest(s) <==> !Mistaken(parent)
    ensures s.outcome.Sent? <==>
              (parent.fileWritten && parent.created && parent.waited && parent.codeRead
               && (parent.died == Some(0) || (parent.died == None && AllGoesWell(os, size))))
    ensures s.outcome.Threw? && s.outcome.failure.retryable && !Mistaken(parent) ==>
              parent.fileWritten && (!parent.created || (os.readable && !os.queueOpen && parent.died == None))
    ensures s.touched && s.outcome.Threw? && !Mistaken(parent) ==> s.outcome.failure == OUTCOME_UNKNOWN
  {
    if !parent.fileWritten { return Send(Threw(Failure("STORAGE_ERROR", false, false)), false); }
    if !parent.created { return Send(Threw(Failure("SPOOLER_UNAVAILABLE", true, false)), false); }
    var code, offset, touched := SpoolChild(os, size);
    // A child killed after the wait may have been stopped anywhere.
    if !parent.waited { return Send(Threw(OUTCOME_UNKNOWN), true); }
    if parent.died.Some? { code, touched := parent.died.value, true; }
    if !parent.codeRead { return Send(Threw(OUTCOME_UNKNOWN), touched); }
    if code == NOT_OPENED { return Send(Threw(Failure("PRINTER_OFFLINE", true, false)), touched); }
    if code != 0 { return Send(Threw(OUTCOME_UNKNOWN), touched); }
    return Send(Outcome.Sent, touched);
  }

  ghost predicate AllSent(sends: seq<Send>, copies: nat) {
    copies <= |sends| && forall k :: 0 <= k < copies ==> sends[k].outcome.Sent?
  }

  /** One copy after another; a failure after the first copy is never a clean one. */
  function CopyFailure(sent: nat, e: Failure): Failure {
    if sent > 0 then OUTCOME_UNKNOWN else e
  }

  /** The copies loop of the worker.  `done` is false when the process died inside it. */
  method PrintCopies(render: Option<Failure>, copies: nat, sends: seq<Send>)
    returns (done: bool, failure: Option<Failure>, sent: nat, touched: bool)
    requires forall k :: 0 <= k < |sends| ==> Honest(sends[k])
    ensures sent <= copies && sent <= |sends|
    ensures forall k :: 0 <= k < sent ==> sends[k].outcome.Sent?
    ensures done && failure.None? <==> (render.None? && AllSent(sends, copies))
    ensures done && failure.None? ==> sent == copies
    ensures render.Some? ==> done && failure == render && sent == 0 && !touched
    // Else the first copy that was not sent decides.
    ensures render.None? && !AllSent(sends, copies) ==>
              && sent < copies && (sent == |sends| || !sends[sent].outcome.Sent?)
              && (done <==> sent < |sends| && sends[sent].outcome.Threw?)
              && (done ==> failure == Some(if sent > 0 then Failure("PRINT_OUTCOME_UNKNOWN", false, true)
                                           else sends[sent].outcome.failure))
    ensures done && failure.Some? && failure.value.retryable && !failure.value.uncertain
            ==> sent == 0 && !touched
    ensures touched ==> exists k :: 0 <= k < |sends| && k <= sent && sends[k].touched
    ensures forall k :: 0 <= k < sent && sends[k].touched ==> touched
  {
    sent, touched, failure := 0, false, None;
    if render.Some? { return true, render, 0, false; }
    while sent < copies
      invariant sent <= copies && sent <= |sends|
      invariant forall k :: 0 <= k < sent ==> sends[k].outcome.Sent?
      invariant touched ==> exists k :: 0 <= k < sent && sends[k].touched
      invariant forall k :: 0 <= k < sent && sends[k].touched ==> touched
    {
      if sent == |sends| { return false, None, sent, touched; }
      var s := sends[sent];
      touched := touched || s.touched;
      match s.outcome
      case Interrupted => return false, None, sent, touched;
      case Threw(e) => return true, Some(CopyFailure(sent, e)), sent, touched;
      case Sent => sent := sent + 1;
    }
    done := true;
  }

  /** One turn of the worker: claim, print, settle. */
  method RunOnce(store: Store, claimTime: int, finishTime: int, render: Option<Failure>, sends: seq<Send>)
    returns (job: Option<Row>, done: bool, touched: bool)
    requires store.Valid()
    requires forall k :: 0 <= k < |sends| ==> Honest(sends[k])
    modifies store`rows
    ensures store.Valid()
    ensures job.None? ==> store.rows == old(store.rows) && !touched
    ensures job.Some? ==> exists i :: 0 <= i < |store.rows| && store.rows[i].id == job.value.id
    // Whatever may have left is never put back in the queue.
    ensures job.Some? && touched ==>
              forall i :: 0 <= i < |store.rows| && store.rows[i].id == job.value.id
                ==> !store.rows[i].status.Queued?
    // A settled job is queued again, completed or failed; an unsettled one is left printing.
    ensures job.Some? && done ==>
              forall i :: 0 <= i < |store.rows| && store.rows[i].id == job.value.id
                ==> !store.rows[i].status.Printing?
    ensures job.Some? && !done ==>
              forall i :: 0 <= i < |store.rows| && store.rows[i].id == job.value.id
                ==> store.rows[i] == job.value && job.value.status.Printing?
    // It is completed exactly when every copy was sent, and otherwise settled as its failure asks.
    ensures job.Some? && done ==>
              exists i: int, failure: Option<Failure> ::
                && 0 <= i < |store.rows| && store.rows[i].id == job.value.id
                && (failure.None? <==> (render.None? && AllSent(sends, job.value.profile.copies)))
                && Settles(job.value, store.rows[i], failure,
                           if store.config.Some? then store.config.value.maxAttempts else 3, finishTime)
  {
    hide Fifo, AttemptsBounded, CountActive, ClaimIndex;
    ghost var before := store.rows;
    job := store.Claim(claimTime);
    done, touched := true, false;
    if job.None? { return; }
    ghost var at :| 0 <= at < |before| && job.value == Claimed(before[at])
                    && store.rows == before[at := job.value];
    assert store.rows[at] == job.value;
    var finished, failure, sent, t := PrintCopies(render, job.value.profile.copies, sends);
    touched, done := t, finished;
    if !finished { return; }
    var max := AttemptLimit(store.config);
    var r := store.Finish(job.value.id, failure, max, finishTime);
  }
}

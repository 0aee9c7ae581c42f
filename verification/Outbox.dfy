/**
 The log of local intents waiting for the server (`QueueCatalog`, `Outbox`, `SaveResults` and
 `Discard` in outbox.go).
 */
module Outbox {
  import opened Prelude
  import opened Replica

  datatype State = Queued | Retry | NotProcessed | Conflict | Rejected | Skipped | Applied | Discarded

  datatype Operation = Operation(
    id: string, sequence: nat, key: Key, action: string, baseVersion: Option<int>,
    payload: string, state: State, result: string)

  datatype Result = Result(id: string, status: string, raw: string)

  const BATCH := 100

  function ParseStatus(s: string): Option<State> {
    if s == "applied" then Some(Applied)
    else if s == "conflict" then Some(Conflict)
    else if s == "rejected" then Some(Rejected)
    else if s == "retry" then Some(Retry)
    else if s == "not_processed" then Some(NotProcessed)
    else if s == "skipped" then Some(Skipped)
    else None
  }

  /** Still to be sent. */
  predicate Pending(op: Operation) { op.state.Queued? || op.state.Retry? || op.state.NotProcessed? }

  /** Refused by the server; the user may drop it. */
  predicate Blocked(op: Operation) { op.state.Conflict? || op.state.Rejected? || op.state.Skipped? }

  predicate Settled(op: Operation) { op.state.Applied? || op.state.Discarded? }

  function IndexOf(ops: seq<Operation>, id: string): (r: Option<nat>)
    ensures r.Some? ==> r.value < |ops| && ops[r.value].id == id
    ensures r.None? ==> forall i :: 0 <= i < |ops| ==> ops[i].id != id
  {
    if |ops| == 0 then None
    else if ops[|ops| - 1].id == id then Some(|ops| - 1)
    else IndexOf(ops[..|ops| - 1], id)
  }

  // ----- what the log keeps -----

  ghost predicate IdsDistinct(ops: seq<Operation>) {
    forall i, j :: 0 <= i < j < |ops| ==> ops[i].id != ops[j].id
  }

  ghost predicate Numbered(ops: seq<Operation>, last: nat) {
    && (forall i :: 0 <= i < |ops| ==> 1 <= ops[i].sequence <= last)
    && (forall i, j :: 0 <= i < j < |ops| ==> ops[i].sequence < ops[j].sequence)
  }

  /** A record has at most one intent that is neither applied nor dropped. */
  ghost predicate OneOpenEach(ops: seq<Operation>) {
    forall i, j :: 0 <= i < j < |ops| && ops[i].key == ops[j].key ==> Settled(ops[i]) || Settled(ops[j])
  }

  ghost predicate LogInv(ops: seq<Operation>, last: nat) {
    IdsDistinct(ops) && Numbered(ops, last) && OneOpenEach(ops)
  }

  /** Same intent: everything but state and result is as it was, and a settled one has not moved. */
  ghost predicate SameIntent(a: Operation, b: Operation) {
    && b == a.(state := b.state, result := b.result)
    && (Settled(a) ==> b.state == a.state)
  }

  /** The log only grows, and what it held is still the same intent. */
  ghost predicate Extends(a: seq<Operation>, b: seq<Operation>) {
    |a| <= |b| && forall i :: 0 <= i < |a| ==> SameIntent(a[i], b[i])
  }

  lemma ExtendsTransitive(a: seq<Operation>, b: seq<Operation>, c: seq<Operation>)
    requires Extends(a, b) && Extends(b, c)
    ensures Extends(a, c)
  {
  }

  /** The log after each operation got its answer, if there is one for it. */
  function Answer(op: Operation, results: seq<Result>): Operation {
    var r := Find(results, op.id);
    if r.Some? && ParseStatus(r.value.status).Some?
    then op.(state := ParseStatus(r.value.status).value, result := r.value.raw) else op
  }

  function Find(results: seq<Result>, id: string): (r: Option<Result>)
    ensures r.Some? ==> r.value in results && r.value.id == id
    ensures r.None? ==> forall i :: 0 <= i < |results| ==> results[i].id != id
  {
    if |results| == 0 then None
    else if results[|results| - 1].id == id then Some(results[|results| - 1])
    else Find(results[..|results| - 1], id)
  }

  function Answered(ops: seq<Operation>, results: seq<Result>): (r: seq<Operation>)
    ensures |r| == |ops|
    ensures forall i :: 0 <= i < |ops| ==> r[i] == Answer(ops[i], results)
  {
    seq(|ops|, i requires 0 <= i < |ops| => Answer(ops[i], results))
  }

  // ----- the response to a push -----

  ghost predicate ResultIdsDistinct(results: seq<Result>) {
    forall i, j :: 0 <= i < j < |results| ==> results[i].id != results[j].id
  }

  /** The response answers exactly the operations that were sent, once each, with known statuses. */
  ghost predicate Covers(sent: seq<Operation>, results: seq<Result>) {
    && |sent| == |results| && ResultIdsDistinct(results)
    && (forall i :: 0 <= i < |results| ==> ParseStatus(results[i].status).Some?)
    && (forall i :: 0 <= i < |results| ==> WasSent(sent, results[i].id))
  }

  ghost predicate WasSent(sent: seq<Operation>, id: string) {
    exists j :: 0 <= j < |sent| && sent[j].id == id
  }

  ghost predicate IsPending(ops: seq<Operation>, id: string) {
    IndexOf(ops, id).Some? && Pending(ops[IndexOf(ops, id).value])
  }

  /** Every answered operation is still waiting. */
  ghost predicate AllPending(ops: seq<Operation>, results: seq<Result>) {
    forall i :: 0 <= i < |results| ==> IsPending(ops, results[i].id)
  }

  function SentIds(sent: seq<Operation>): set<string> { set i | 0 <= i < |sent| :: sent[i].id }

  function ResultIds(results: seq<Result>): set<string> { set i | 0 <= i < |results| :: results[i].id }

  lemma {:induction false} ResultCount(results: seq<Result>)
    requires ResultIdsDistinct(results)
    ensures |ResultIds(results)| == |results|
  {
    if |results| > 0 {
      var n := |results| - 1;
      ResultCount(results[..n]);
      assert ResultIds(results) == ResultIds(results[..n]) + {results[n].id};
    }
  }

  lemma SentIdsAppend(sent: seq<Operation>, op: Operation)
    ensures SentIds(sent + [op]) == SentIds(sent) + {op.id}
  {
    var all := sent + [op];
    forall i | 0 <= i < |sent| ensures sent[i].id in SentIds(all) { assert all[i].id in SentIds(all); }
    assert all[|sent|].id in SentIds(all);
  }

  lemma {:induction false} SentCount(sent: seq<Operation>)
    ensures |SentIds(sent)| <= |sent|
    ensures |SentIds(sent)| == |sent| ==> IdsDistinct(sent)
  {
    if |sent| > 0 {
      var n := |sent| - 1;
      var init, op := sent[..n], sent[n];
      SentCount(init);
      SentIdsAppend(init, op);
      assert sent == init + [op];
      if op.id in SentIds(init) {
        assert SentIds(sent) == SentIds(init);
      } else {
        assert forall i :: 0 <= i < n ==> init[i].id in SentIds(init);
      }
    }
  }

  /** An accepted response is a bijection: each operation sent has exactly one answer. */
  lemma CoversIsBijection(sent: seq<Operation>, results: seq<Result>, j: nat)
    requires Covers(sent, results) && j < |sent|
    ensures IdsDistinct(sent)
    ensures exists i :: 0 <= i < |results| && results[i].id == sent[j].id
  {
    ResultCount(results);
    SentCount(sent);
    forall id | id in ResultIds(results)
      ensures id in SentIds(sent)
    {
      assert WasSent(sent, id);
    }
    SubsetSize(ResultIds(results), SentIds(sent));
    assert sent[j].id in ResultIds(results);
  }

  /** The check on a response: IDs are struck off as they are answered. */
  method CheckResponse(sent: seq<Operation>, results: seq<Result>) returns (ok: bool)
    ensures ok <==> Covers(sent, results)
  {
    if |sent| != |results| { return false; }
    var expected := SentIds(sent);
    for i := 0 to |results|
      invariant expected == SentIds(sent) - ResultIds(results[..i])
      invariant ResultIdsDistinct(results[..i])
      invariant forall k :: 0 <= k < i ==> ParseStatus(results[k].status).Some? && results[k].id in SentIds(sent)
    {
      var before := results[..i];
      assert results[..i + 1] == before + [results[i]];
      assert ResultIds(results[..i + 1]) == ResultIds(before) + {results[i].id};
      if results[i].id !in expected {
        NotCovered(sent, results, i);
        return false;
      }
      assert forall k :: 0 <= k < i ==> before[k].id in ResultIds(before);
      expected := expected - {results[i].id};
      if ParseStatus(results[i].status).None? { return false; }
    }
    assert results[..|results|] == results;
    AllCovered(sent, results);
    ok := true;
  }

  lemma AllCovered(sent: seq<Operation>, results: seq<Result>)
    requires |sent| == |results| && ResultIdsDistinct(results)
    requires forall i :: 0 <= i < |results| ==>
               ParseStatus(results[i].status).Some? && results[i].id in SentIds(sent)
    ensures Covers(sent, results)
  {
    forall i | 0 <= i < |results|
      ensures WasSent(sent, results[i].id)
    {
      assert results[i].id in SentIds(sent);
    }
  }

  lemma NotCovered(sent: seq<Operation>, results: seq<Result>, i: nat)
    requires i < |results| && results[i].id !in SentIds(sent) - ResultIds(results[..i])
    ensures !Covers(sent, results)
  {
    assert WasSent(sent, results[i].id) ==> results[i].id in SentIds(sent);
    if results[i].id in ResultIds(results[..i]) {
      var k :| 0 <= k < i && results[..i][k].id == results[i].id;
      assert results[k].id == results[i].id;
    }
  }

  // ----- the batch to send -----

  function Waiting(ops: seq<Operation>): seq<Operation> {
    if |ops| == 0 then []
    else Waiting(ops[..|ops| - 1]) + (if Pending(ops[|ops| - 1]) then [ops[|ops| - 1]] else [])
  }

  function Insert(ops: seq<Operation>, op: Operation): seq<Operation> {
    if |ops| == 0 || ops[|ops| - 1].sequence <= op.sequence then ops + [op]
    else Insert(ops[..|ops| - 1], op) + [ops[|ops| - 1]]
  }

  function SortBySequence(ops: seq<Operation>): seq<Operation> {
    if |ops| == 0 then [] else Insert(SortBySequence(ops[..|ops| - 1]), ops[|ops| - 1])
  }

  /** The next operations to push: the waiting ones by sequence, a hundred at most. */
  function Batch(ops: seq<Operation>): seq<Operation> {
    var sorted := SortBySequence(Waiting(ops));
    if |sorted| > BATCH then sorted[..BATCH] else sorted
  }

  ghost predicate Ascending(ops: seq<Operation>) {
    forall i, j :: 0 <= i < j < |ops| ==> ops[i].sequence < ops[j].sequence
  }

  lemma InsertLast(ops: seq<Operation>, op: Operation)
    requires forall i :: 0 <= i < |ops| ==> ops[i].sequence < op.sequence
    ensures Insert(ops, op) == ops + [op]
  {
  }

  lemma {:induction false} SortIdle(ops: seq<Operation>)
    requires Ascending(ops)
    ensures SortBySequence(ops) == ops
  {
    if |ops| > 0 {
      var n := |ops| - 1;
      SortIdle(ops[..n]);
      InsertLast(ops[..n], ops[n]);
      assert ops[..n] + [ops[n]] == ops;
    }
  }

  lemma {:induction false} WaitingOrder(ops: seq<Operation>)
    requires Ascending(ops)
    ensures Ascending(Waiting(ops))
    ensures forall op :: op in Waiting(ops) <==> op in ops && Pending(op)
  {
    if |ops| > 0 {
      var n := |ops| - 1;
      WaitingOrder(ops[..n]);
      assert ops == ops[..n] + [ops[n]];
      forall op | op in Waiting(ops[..n])
        ensures op.sequence < ops[n].sequence
      {
        assert op in ops[..n];
      }
    }
  }

  lemma BatchShape(ops: seq<Operation>, last: nat)
    requires Numbered(ops, last)
    ensures Ascending(Waiting(ops)) && Batch(ops) <= Waiting(ops)
    ensures |Batch(ops)| < |Waiting(ops)| ==> |Batch(ops)| == BATCH
    ensures forall op :: op in Waiting(ops) <==> op in ops && Pending(op)
  {
    WaitingOrder(ops);
    SortIdle(Waiting(ops));
  }

  /**
   Intents leave in the order they were made: a batch holds only waiting ones, in ascending
   sequence, and a waiting intent is left out only when a full batch of older ones goes first.
   */
  lemma BatchIsOldest(ops: seq<Operation>, last: nat, x: Operation, y: Operation)
    requires Numbered(ops, last) && x in Batch(ops) && y in ops && Pending(y) && y !in Batch(ops)
    ensures Ascending(Batch(ops)) && |Batch(ops)| == BATCH
    ensures x in ops && Pending(x) && x.sequence < y.sequence
  {
    BatchShape(ops, last);
    var b, w := Batch(ops), Waiting(ops);
    assert y in w;
    var j :| 0 <= j < |w| && w[j] == y;
    var i :| 0 <= i < |b| && b[i] == x;
    assert w[i] == x && x in w;
    assert forall k :: 0 <= k < |b| ==> w[k] == b[k];
    assert |b| <= j;
  }

  // ----- in full -----

  /** The server's word for a state. */
  ghost predicate Names(status: string, state: State) {
    || (status == "applied" && state.Applied?)
    || (status == "conflict" && state.Conflict?)
    || (status == "rejected" && state.Rejected?)
    || (status == "retry" && state.Retry?)
    || (status == "not_processed" && state.NotProcessed?)
    || (status == "skipped" && state.Skipped?)
  }

  ghost predicate IsWord(status: string) {
    status in {"applied", "conflict", "rejected", "retry", "not_processed", "skipped"}
  }

  lemma ParsedNames(status: string)
    ensures IsWord(status) <==> ParseStatus(status).Some?
    ensures forall state :: Names(status, state) <==> ParseStatus(status) == Some(state)
  {
  }

  /** The response answers each operation that was sent, once, and nothing else, with known words. */
  ghost predicate FullReply(sent: seq<Operation>, results: seq<Result>) {
    && |results| == |sent|
    && (forall i, j :: 0 <= i < j < |results| ==> results[i].id != results[j].id)
    && (forall i :: 0 <= i < |results| ==> IsWord(results[i].status) && SentAs(sent, results[i].id))
  }

  ghost predicate SentAs(sent: seq<Operation>, id: string) { exists op :: op in sent && op.id == id }

  lemma FullReplyIff(sent: seq<Operation>, results: seq<Result>)
    ensures FullReply(sent, results) <==> Covers(sent, results)
  {
    forall i | 0 <= i < |results|
      ensures IsWord(results[i].status) <==> ParseStatus(results[i].status).Some?
      ensures SentAs(sent, results[i].id) <==> WasSent(sent, results[i].id)
    {
      ParsedNames(results[i].status);
      if WasSent(sent, results[i].id) {
        var j :| 0 <= j < |sent| && sent[j].id == results[i].id;
        assert sent[j] in sent;
      }
    }
  }

  /** An operation with an answer has its state and text, one without is as it was. */
  ghost predicate AnsweredBy(a: Operation, b: Operation, results: seq<Result>) {
    && (forall r :: r in results && r.id == a.id ==>
          b == a.(state := b.state, result := r.raw) && Names(r.status, b.state))
    && ((forall r :: r in results ==> r.id != a.id) ==> b == a)
  }

  ghost predicate AllAnswered(before: seq<Operation>, after: seq<Operation>, results: seq<Result>) {
    |after| == |before| && forall i :: 0 <= i < |before| ==> AnsweredBy(before[i], after[i], results)
  }

  lemma AnsweredSays(ops: seq<Operation>, results: seq<Result>)
    requires ResultIdsDistinct(results) && forall i :: 0 <= i < |results| ==> ParseStatus(results[i].status).Some?
    ensures AllAnswered(ops, Answered(ops, results), results)
  {
    var after := Answered(ops, results);
    forall i | 0 <= i < |ops|
      ensures AnsweredBy(ops[i], after[i], results)
    {
      AnswerSays(ops[i], results);
    }
  }

  lemma AnswerSays(op: Operation, results: seq<Result>)
    requires ResultIdsDistinct(results) && forall i :: 0 <= i < |results| ==> ParseStatus(results[i].status).Some?
    ensures AnsweredBy(op, Answer(op, results), results)
  {
    var found := Find(results, op.id);
    forall r | r in results && r.id == op.id
      ensures found == Some(r) && ParseStatus(r.status).Some?
    {
      var i :| 0 <= i < |results| && results[i] == r;
      var j :| 0 <= j < |results| && results[j] == found.value;
    }
    if found.Some? { ParsedNames(found.value.status); }
  }

  ghost predicate IsWaiting(op: Operation) { op.state in {Queued, Retry, NotProcessed} }

  /** The oldest waiting operations in sequence order: as many as there are, up to the limit. */
  ghost predicate IsOldest(ops: seq<Operation>, sent: seq<Operation>, limit: nat) {
    && |sent| <= limit && Ascending(sent)
    && (forall op :: op in sent ==> op in ops && IsWaiting(op))
    && (forall op :: op in ops && IsWaiting(op) && op !in sent ==> |sent| == limit && LaterThan(sent, op))
  }

  ghost predicate LaterThan(sent: seq<Operation>, op: Operation) {
    forall x :: x in sent ==> x.sequence < op.sequence
  }

  lemma PrefixOldest(ops: seq<Operation>, w: seq<Operation>, n: nat, limit: nat)
    requires Ascending(w) && forall op :: op in w <==> op in ops && IsWaiting(op)
    requires n <= |w| && n <= limit && (n < |w| ==> n == limit)
    ensures IsOldest(ops, w[..n], limit)
  {
    hide IsWaiting;
    var sent := w[..n];
    assert forall op :: op in sent ==> op in w;
    forall op | op in w && op !in sent
      ensures |sent| == limit && LaterThan(sent, op)
    {
      LaterInOrder(w, n, op);
    }
  }

  lemma LaterInOrder(w: seq<Operation>, n: nat, op: Operation)
    requires Ascending(w) && n <= |w| && op in w && op !in w[..n]
    ensures n < |w| && LaterThan(w[..n], op)
  {
    var i :| 0 <= i < |w| && w[i] == op;
    forall j | 0 <= j < n
      ensures w[j] != op
    {
      assert w[..n][j] in w[..n];
    }
    forall x | x in w[..n]
      ensures x.sequence < op.sequence
    {
      var j :| 0 <= j < n && w[..n][j] == x;
      assert w[j] == x;
    }
  }

  lemma OldestIs(ops: seq<Operation>, last: nat, limit: nat)
    requires Numbered(ops, last) && limit <= BATCH
    ensures var b := Batch(ops); IsOldest(ops, if |b| > limit then b[..limit] else b, limit)
  {
    BatchShape(ops, last);
    var w, b := Waiting(ops), Batch(ops);
    var n := if |b| > limit then limit else |b|;
    assert w[..n] == if |b| > limit then b[..limit] else b;
    assert forall op: Operation :: IsWaiting(op) <==> Pending(op);
    hide Batch, Waiting, Numbered;
    PrefixOldest(ops, w, n, limit);
  }
}

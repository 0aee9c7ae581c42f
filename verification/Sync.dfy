/**
 Synchronising with the server (`Refresh` and `bootstrap` in syncclient/client.go).

 A device is its durable copy and what the client holds in memory.  Asking for a page, receiving
 it, committing it and acknowledging it are separate steps; between any two of them the application
 may write records of its own, the client may fail or the process may die.  The methods carry out
 such steps against an arbitrary server.
 */
module Sync {
  import opened Prelude
  import opened Replica
  import opened Outbox
  import opened OfflineStore

  const MAX_PAGES := 100

  /** The durable part a refresh works on. */
  datatype Copy = Copy(entities: Entities, cursor: string)

  datatype Page = Page(next: string, hasMore: bool, changes: seq<Change>)

  /** What the client has in memory; `cursor` is its own variable, `version` the page it committed. */
  datatype Phase =
    | Idle
    | Begun
    | Ready(cursor: string)
    | Asked(cursor: string)
    | Fetched(cursor: string, page: Page)
    | Held(cursor: string, more: bool, version: nat)

  /** The successive durable copies, and where each came from. */
  datatype Version =
    | First(copy: Copy)
    | Paged(copy: Copy, from: string, changes: seq<Change>)
    | Replaced(copy: Copy)
    | Written(copy: Copy)

  /** An acknowledgement the server received, and the durable version its page became. */
  datatype Receipt = Receipt(cursor: string, version: nat)

  /** `asked` and `recoveries` count since the refresh began. */
  datatype Device = Device(
    copy: Copy, phase: Phase, asked: nat, recoveries: nat, history: seq<Version>, receipts: seq<Receipt>)

  /** An acknowledgement is confirmed, or its reply is lost, or it never arrives. */
  datatype Delivery = Confirmed | ReplyLost | Undelivered

  datatype Step =
    | Begin
    | Proceed
    | Boot(entities: Entities, cursor: string)
    | Ask
    | Recover(entities: Entities, cursor: string)
    | Deliver(page: Page)
    | Commit
    | Acknowledge(delivery: Delivery)
    | Write(entities: Entities)
    | Fail
    | Crash

  function Fresh(c: Copy): Device { Device(c, Idle, 0, 0, [First(c)], []) }

  /** A page is committed unless it goes nowhere, has no cursor or holds a malformed change. */
  predicate Acceptable(cursor: string, p: Page) {
    && !(p.hasMore && p.next == cursor) && p.next != ""
    && forall i :: 0 <= i < |p.changes| ==> WellFormed(p.changes[i])
  }

  /** What the application writes: no record is removed and no version lowered. */
  predicate LocalWrite(before: Entities, after: Entities) {
    forall k :: k in before ==> k in after && before[k].version <= after[k].version
  }

  function Replace(d: Device, entities: Entities, cursor: string): Device {
    var copy := Copy(entities, cursor);
    d.(copy := copy, phase := Ready(cursor), history := d.history + [Replaced(copy)])
  }

  function CommitPage(d: Device, p: Page): Device {
    var copy := Copy(Merged(d.copy.entities, p.changes), p.next);
    d.(copy := copy, phase := Held(p.next, p.hasMore, |d.history|),
       history := d.history + [Paged(copy, d.copy.cursor, p.changes)])
  }

  function Next(d: Device, s: Step): Device {
    match s
    case Begin => if d.phase.Idle? then d.(phase := Begun, asked := 0, recoveries := 0) else d
    case Proceed => if d.phase.Begun? && d.copy.cursor != "" then d.(phase := Ready(d.copy.cursor)) else d
    case Boot(entities, cursor) => if d.phase.Begun? && cursor != "" then Replace(d, entities, cursor) else d
    case Ask =>
      if d.phase.Ready? && d.asked < MAX_PAGES then d.(phase := Asked(d.phase.cursor), asked := d.asked + 1) else d
    case Recover(entities, cursor) =>
      if d.phase.Asked? && d.recoveries == 0 && cursor != ""
      then Replace(d, entities, cursor).(recoveries := 1) else d
    case Deliver(page) => if d.phase.Asked? then d.(phase := Fetched(d.phase.cursor, page)) else d
    case Commit =>
      if !d.phase.Fetched? then d
      else if Acceptable(d.phase.cursor, d.phase.page) then CommitPage(d, d.phase.page)
      else d.(phase := Idle)
    case Acknowledge(delivery) =>
      if !d.phase.Held? then d
      else
        d.(receipts := if delivery.Undelivered? then d.receipts
                       else d.receipts + [Receipt(d.phase.cursor, d.phase.version)],
           phase := if delivery.Confirmed? && d.phase.more then Ready(d.phase.cursor) else Idle)
    case Write(entities) =>
      if LocalWrite(d.copy.entities, entities)
      then
        var copy := d.copy.(entities := entities);
        d.(copy := copy, history := d.history + [Written(copy)])
      else d
    case Fail => d.(phase := Idle)
    case Crash => d.(phase := Idle)
  }

  function Run(d: Device, steps: seq<Step>): Device {
    if |steps| == 0 then d else Next(Run(d, steps[..|steps| - 1]), steps[|steps| - 1])
  }

  lemma RunStep(d: Device, steps: seq<Step>, s: Step)
    ensures Run(d, steps + [s]) == Next(Run(d, steps), s)
  {
    assert (steps + [s])[..|steps|] == steps;
  }

  // ----- the invariant -----

  /**
   A page was asked for from the cursor of the copy it was merged into, and merged whole with its
   own; a write of the application keeps cursor and records.
   */
  ghost predicate Linked(h: seq<Version>, i: nat)
    requires i < |h|
  {
    && (h[i].Paged? ==>
          && i > 0 && h[i].from == h[i - 1].copy.cursor
          && h[i].copy.entities == Merged(h[i - 1].copy.entities, h[i].changes))
    && (h[i].Written? ==>
          && i > 0 && h[i].copy.cursor == h[i - 1].copy.cursor
          && LocalWrite(h[i - 1].copy.entities, h[i].copy.entities))
  }

  ghost predicate Acknowledged(h: seq<Version>, r: Receipt) {
    r.version < |h| && h[r.version].Paged? && h[r.version].copy.cursor == r.cursor
  }

  ghost predicate Inv(d: Device) {
    && |d.history| > 0 && d.history[|d.history| - 1].copy == d.copy
    && (forall i :: 0 <= i < |d.history| ==> Linked(d.history, i))
    && (forall k :: 0 <= k < |d.receipts| ==> Acknowledged(d.history, d.receipts[k]))
    && PhaseFits(d.phase, d.copy, d.history)
    && d.asked <= MAX_PAGES && d.recoveries <= 1
  }

  /** No bootstrap between two versions. */
  ghost predicate Unbroken(h: seq<Version>, a: nat, b: nat) {
    a <= b < |h| && forall i :: a < i <= b ==> h[i].Paged? || h[i].Written?
  }

  /** The client's memory fits a durable history that ends in `copy`. */
  ghost predicate PhaseFits(p: Phase, copy: Copy, h: seq<Version>) {
    && (p.Ready? || p.Asked? || p.Fetched? || p.Held? ==> p.cursor == copy.cursor)
    && (p.Held? ==> Acknowledged(h, Receipt(p.cursor, p.version)) && Unbroken(h, p.version, |h| - 1))
  }

  lemma NewVersionKeeps(d: Device, e: Device, v: Version)
    requires Inv(d) && e.history == d.history + [v] && e.copy == v.copy && e.receipts == d.receipts
    requires v.Paged? ==> v.from == d.copy.cursor && v.copy.entities == Merged(d.copy.entities, v.changes)
    requires v.Written? ==> v.copy.cursor == d.copy.cursor && LocalWrite(d.copy.entities, v.copy.entities)
    requires e.asked <= MAX_PAGES && e.recoveries <= 1 && PhaseFits(e.phase, e.copy, e.history)
    ensures Inv(e)
  {
    hide Merged, LocalWrite, PhaseFits;
    forall i | 0 <= i < |e.history|
      ensures Linked(e.history, i)
    {
      if i < |d.history| { assert Linked(d.history, i); }
    }
    forall k | 0 <= k < |e.receipts|
      ensures Acknowledged(e.history, e.receipts[k])
    {
      assert Acknowledged(d.history, d.receipts[k]);
    }
  }

  lemma WriteKeepsInv(d: Device, entities: Entities)
    requires Inv(d)
    ensures Inv(Next(d, Write(entities)))
  {
    if LocalWrite(d.copy.entities, entities) {
      var e := Next(d, Write(entities));
      assert PhaseFits(e.phase, e.copy, e.history);
      hide LocalWrite, PhaseFits;
      NewVersionKeeps(d, e, Written(e.copy));
    }
  }

  lemma StepKeepsInv(d: Device, s: Step)
    requires Inv(d)
    ensures Inv(Next(d, s))
  {
    hide Merged, Acceptable;
    match s
    case Boot(entities, cursor) =>
      if d.phase.Begun? && cursor != "" { NewVersionKeeps(d, Next(d, s), Replaced(Copy(entities, cursor))); }
    case Recover(entities, cursor) =>
      if Next(d, s) != d { NewVersionKeeps(d, Next(d, s), Replaced(Copy(entities, cursor))); }
    case Commit =>
      if d.phase.Fetched? && Acceptable(d.phase.cursor, d.phase.page) {
        var p := d.phase.page;
        var merged := Copy(Merged(d.copy.entities, p.changes), p.next);
        NewVersionKeeps(d, Next(d, s), Paged(merged, d.copy.cursor, p.changes));
      }
    case Write(entities) => WriteKeepsInv(d, entities);
    case _ =>
  }

  lemma {:induction false} RunKeepsInv(d: Device, steps: seq<Step>)
    requires Inv(d)
    ensures Inv(Run(d, steps))
  {
    if |steps| > 0 {
      hide Inv, Next;
      RunKeepsInv(d, steps[..|steps| - 1]);
      StepKeepsInv(Run(d, steps[..|steps| - 1]), steps[|steps| - 1]);
    }
  }

  // ----- over every run, with failures and crashes anywhere -----

  /**
   When the server receives an acknowledgement, its cursor is the durable one; its page became durable
   whole together with that cursor, merged into the copy it was asked for from; and every change of
   it is in the durable copy of that moment, at its version or a newer one.
   */
  lemma AckedIsDurable(c: Copy, steps: seq<Step>, delivery: Delivery)
    requires var d := Run(Fresh(c), steps); Next(d, Acknowledge(delivery)).receipts != d.receipts
    ensures var d := Run(Fresh(c), steps); d.phase.Held? && d.copy.cursor == d.phase.cursor
    ensures var d := Run(Fresh(c), steps); var v := d.phase.version;
      && Next(d, Acknowledge(delivery)).receipts == d.receipts + [Receipt(d.copy.cursor, v)]
      && 0 < v < |d.history| && d.history[v].Paged?
      && d.history[v].from == d.history[v - 1].copy.cursor
      && d.history[v].copy == Copy(Merged(d.history[v - 1].copy.entities, d.history[v].changes), d.copy.cursor)
      && forall i :: 0 <= i < |d.history[v].changes| ==> Keeps(d.copy.entities, d.history[v].changes[i])
  {
    RunKeepsInv(Fresh(c), steps);
    var d := Run(Fresh(c), steps);
    HeldIsDurable(d);
  }

  lemma HeldIsDurable(d: Device)
    requires Inv(d) && d.phase.Held?
    ensures var v := d.phase.version;
      && 0 < v < |d.history| && d.history[v].Paged?
      && d.history[v].from == d.history[v - 1].copy.cursor
      && d.history[v].copy == Copy(Merged(d.history[v - 1].copy.entities, d.history[v].changes), d.phase.cursor)
      && forall i :: 0 <= i < |d.history[v].changes| ==> Keeps(d.copy.entities, d.history[v].changes[i])
  {
    var v := d.phase.version;
    assert Linked(d.history, v);
    hide Merged, Keeps;
    forall i | 0 <= i < |d.history[v].changes|
      ensures Keeps(d.copy.entities, d.history[v].changes[i])
    {
      PageKept(d.history, v, i);
    }
  }

  lemma {:induction false} LaterKeeps(h: seq<Version>, a: nat, b: nat, c: Change)
    requires Unbroken(h, a, b) && (forall i :: 0 <= i < |h| ==> Linked(h, i)) && Keeps(h[a].copy.entities, c)
    ensures Keeps(h[b].copy.entities, c)
    decreases b
  {
    if a < b {
      LaterKeeps(h, a, b - 1, c);
      assert Linked(h, b);
      hide Merged;
      if h[b].Paged? { MergeKeeps(h[b - 1].copy.entities, h[b].changes, c); }
    }
  }

  lemma PageKept(h: seq<Version>, v: nat, i: nat)
    requires (forall j :: 0 <= j < |h| ==> Linked(h, j)) && v < |h| && h[v].Paged? && i < |h[v].changes|
    requires Unbroken(h, v, |h| - 1)
    ensures Keeps(h[|h| - 1].copy.entities, h[v].changes[i])
  {
    var change := h[v].changes[i];
    assert Linked(h, v);
    hide Merged;
    MergedIsNewest(h[v - 1].copy.entities, h[v].changes, KeyOf(change), i);
    LaterKeeps(h, v, |h| - 1, change);
  }

  /** Page `v` of the run so far, with no bootstrap since. */
  ghost predicate CommittedSince(d: Device, v: nat)
    ensures CommittedSince(d, v) ==> v < |d.history| && d.history[v].Paged?
  {
    v < |d.history| && d.history[v].Paged? && Unbroken(d.history, v, |d.history| - 1)
  }

  /**
   Nothing committed is lost: in every reachable state, each change of each page since the last
   bootstrap is in the durable copy at its version or a newer one.  With `ReceiptsSound` this holds of
   every page the server has an acknowledgement for.
   */
  lemma NothingAckedLost(c: Copy, steps: seq<Step>, v: nat, i: nat)
    requires var d := Run(Fresh(c), steps); CommittedSince(d, v) && i < |d.history[v].changes|
    ensures var d := Run(Fresh(c), steps); Keeps(d.copy.entities, d.history[v].changes[i])
  {
    RunKeepsInv(Fresh(c), steps);
    hide Run, Inv, Keeps, CommittedSince;
    KeptNow(Run(Fresh(c), steps), v, i);
  }

  lemma KeptNow(d: Device, v: nat, i: nat)
    requires Inv(d) && CommittedSince(d, v) && i < |d.history[v].changes|
    ensures Keeps(d.copy.entities, d.history[v].changes[i])
  {
    hide Keeps, Linked, Unbroken, Acknowledged, PhaseFits;
    PageKept(d.history, v, i);
  }

  /**
   Sent again at any later time, before a bootstrap, a page changes nothing if and only if each
   unversioned record is still what the page last made of it; without unversioned changes, always.
   */
  lemma RedeliveryInRun(c: Copy, steps: seq<Step>, v: nat)
    requires CommittedSince(Run(Fresh(c), steps), v)
    ensures var d := Run(Fresh(c), steps); var page := d.history[v].changes;
      && (Merged(d.copy.entities, page) == d.copy.entities <==> forall k: Key :: StillLast(d.copy.entities, page, k))
      && ((forall i :: 0 <= i < |page| ==> page[i].version != 0) ==> Merged(d.copy.entities, page) == d.copy.entities)
  {
    var d := Run(Fresh(c), steps);
    var page := d.history[v].changes;
    hide Run, Keeps, CommittedSince, Merged, StillLast;
    forall i | 0 <= i < |page|
      ensures Keeps(d.copy.entities, page[i])
    {
      NothingAckedLost(c, steps, v, i);
    }
    RedeliveryIff(d.copy.entities, page);
    if forall i :: 0 <= i < |page| ==> page[i].version != 0 { RedeliveryIdle(d.copy.entities, page); }
  }

  /** Every receipt of every run is of a page that became durable with its cursor. */
  lemma ReceiptsSound(c: Copy, steps: seq<Step>, k: nat)
    requires k < |Run(Fresh(c), steps).receipts|
    ensures var d := Run(Fresh(c), steps); Acknowledged(d.history, d.receipts[k])
    ensures Run(Fresh(c), steps).asked <= 100 && Run(Fresh(c), steps).recoveries <= 1
  {
    RunKeepsInv(Fresh(c), steps);
  }

  function Note(payload: string): Change { Change("note", "x", 0, false, "update", payload, true) }

  function PayloadOfX(es: Entities): Option<string> {
    if Key("note", "x") in es then Some(es[Key("note", "x")].payload) else None
  }

  /** Two pages that each write the unversioned record x. */
  const TWO_PAGES: seq<Step> :=
    [Begin, Proceed, Ask, Deliver(Page("1", true, [Note("A")])), Commit, Acknowledge(Confirmed),
     Ask, Deliver(Page("2", false, [Note("B")])), Commit]

  /** After both, the first one sent again turns x back. */
  lemma UnversionedTurnsBack()
    ensures var d := Run(Fresh(Copy(map[], "0")), TWO_PAGES);
      && CommittedSince(d, 1) && d.history[1].changes == [Note("A")]
      && PayloadOfX(d.copy.entities) == Some("B")
      && PayloadOfX(Merged(d.copy.entities, d.history[1].changes)) == Some("A")
  {
    hide Run, Merged, Unbroken;
    AfterTwo();
    assert TWO_PAGES[..9] == TWO_PAGES;
    OneNote(Noted("B"), "A");
    assert Unbroken(AFTER_TWO.history, 1, 2) by {
      UnbrokenNotes();
    }
  }

  /** A store that holds just the record x. */
  function Noted(payload: string): Entities { map[KeyOf(Note("")) := Stored(Note(payload))] }

  const AFTER_ONE: Device :=
    Device(Copy(Noted("A"), "1"), Ready("1"), 1, 0,
           [First(Copy(map[], "0")), Paged(Copy(Noted("A"), "1"), "0", [Note("A")])], [Receipt("1", 1)])

  const AFTER_TWO: Device :=
    Device(Copy(Noted("B"), "2"), Held("2", false, 2), 2, 0,
           AFTER_ONE.history + [Paged(Copy(Noted("B"), "2"), "1", [Note("B")])], [Receipt("1", 1)])

  lemma UnbrokenNotes()
    ensures Unbroken(AFTER_TWO.history, 1, 2)
  {
  }

  lemma AfterOne()
    ensures Run(Fresh(Copy(map[], "0")), TWO_PAGES[..6]) == AFTER_ONE
  {
    var d := Fresh(Copy(map[], "0"));
    OneNote(map[], "A");
    hide Merged, Run, Stored, Noted;
    RunNone(d);
    assert TWO_PAGES[..0] == [];
    RunsAlong(d, 0);
    RunsAlong(d, 1);
    RunsAlong(d, 2);
    RunsAlong(d, 3);
    RunsAlong(d, 4);
    RunsAlong(d, 5);
  }

  lemma AfterTwo()
    ensures Run(Fresh(Copy(map[], "0")), TWO_PAGES[..9]) == AFTER_TWO
  {
    var d := Fresh(Copy(map[], "0"));
    AfterOne();
    OneNote(Noted("A"), "B");
    hide Merged, Run, Stored, Noted;
    RunsAlong(d, 6);
    RunsAlong(d, 7);
    RunsAlong(d, 8);
  }

  lemma RunsAlong(d: Device, n: nat)
    requires n < |TWO_PAGES|
    ensures Run(d, TWO_PAGES[..n + 1]) == Next(Run(d, TWO_PAGES[..n]), TWO_PAGES[n])
  {
    assert TWO_PAGES[..n + 1] == TWO_PAGES[..n] + [TWO_PAGES[n]];
    RunStep(d, TWO_PAGES[..n], TWO_PAGES[n]);
  }

  lemma OneNote(es: Entities, payload: string)
    requires forall k :: k in es ==> k == KeyOf(Note("")) && es[k].version == 0
    ensures Merged(es, [Note(payload)]) == Noted(payload)
  {
    assert [Note(payload)][..0] == [];
  }

  // ----- the client -----

  datatype PullReply = Sent(page: Page) | NeedsBootstrap | PullFailed

  datatype BootReply =
    | Snapped(cursor: string, sections: map<Section, seq<Row>>, hasMore: bool, hasData: bool)
    | BootFailed

  datatype Handshake = Handshake(bootstrap: bool, version: int, maxBatch: int) | HandshakeFailed

  datatype PushReply = Results(results: seq<Result>) | PushFailed

  datatype Server = Server(
    handshake: Handshake, push: seq<Operation> -> PushReply, pull: nat -> PullReply, boot: nat -> BootReply,
    ack: nat -> Delivery)

  ghost function Durable(s: Store): Copy
    reads s
  {
    Copy(s.entities, s.cursor)
  }

  /** The steps so far, from device `d`, have brought the store to what it holds now. */
  ghost predicate InStep(s: Store, d: Device, steps: seq<Step>)
    reads s
  {
    Run(d, steps).copy == Durable(s)
  }

  // ----- what a refresh does with its server, in full -----

  ghost predicate Bootable(reply: BootReply) {
    && reply.Snapped? && !reply.hasMore && reply.hasData && reply.cursor != ""
    && AllWellFormed(reply.sections)
  }

  /** A reply that carries a page worth committing. */
  ghost predicate Usable(cursor: string, reply: PullReply) { reply.Sent? && Acceptable(cursor, reply.page) }

  /** The pulls from request `page` on end well, with at most one recovery and within the limit. */
  ghost predicate Finishes(server: Server, cursor: string, page: nat, recovered: bool)
    decreases MAX_PAGES - page
  {
    page < MAX_PAGES &&
    match server.pull(page)
    case Sent(p) =>
      && Acceptable(cursor, p) && server.ack(page).Confirmed?
      && (p.hasMore ==> Finishes(server, p.next, page + 1, recovered))
    case NeedsBootstrap =>
      !recovered && Bootable(server.boot(1)) && Finishes(server, server.boot(1).cursor, page + 1, true)
    case PullFailed => false
  }

  /** The cursor after `i` pages. */
  function CursorAt(cursor: string, pages: seq<Page>, i: nat): string
    requires i <= |pages|
  {
    if i == 0 then cursor else pages[i - 1].next
  }

  /** A server that sends these pages, the last one without more, and confirms each of them. */
  ghost predicate SendsPages(server: Server, cursor: string, pages: seq<Page>) {
    && 0 < |pages| <= 100
    && forall i :: 0 <= i < |pages| ==>
         && server.pull(i) == Sent(pages[i]) && server.ack(i).Confirmed?
         && Acceptable(CursorAt(cursor, pages, i), pages[i])
         && (pages[i].hasMore <==> i < |pages| - 1)
  }

  function CopyAfter(c: Copy, pages: seq<Page>): Copy {
    if |pages| == 0 then c
    else
      var last := pages[|pages| - 1];
      Copy(Merged(CopyAfter(c, pages[..|pages| - 1]).entities, last.changes), last.next)
  }

  /** How many operations a server takes at a time. */
  function PushLimit(server: Server): nat
    requires server.handshake.Handshake?
  {
    if 0 < server.handshake.maxBatch < 100 then server.handshake.maxBatch else 100
  }

  /** The oldest waiting operations were sent, and the server answered each of them. */
  ghost predicate Pushed(server: Server, before: seq<Operation>, after: seq<Operation>, sent: seq<Operation>)
    requires server.handshake.Handshake?
  {
    && IsOldest(before, sent, PushLimit(server))
    && (sent == [] ==> after == before)
    && (sent != [] ==>
          && server.push(sent).Results? && FullReply(sent, server.push(sent).results)
          && AllAnswered(before, after, server.push(sent).results))
  }

  /** The answer to this batch can be taken. */
  ghost predicate Answers(server: Server, sent: seq<Operation>) {
    sent == [] || (server.push(sent).Results? && FullReply(sent, server.push(sent).results))
  }

  method RunBootstrap(store: Store, reply: BootReply) returns (r: Reply<()>)
    modifies store`entities, store`cursor
    ensures r.Ok? <==> Bootable(reply)
    ensures r.Ok? ==> reply.Snapped? && Snapshot(reply.sections, store.entities)
                      && store.cursor == reply.cursor && store.cursor != ""
    ensures r.Err? ==> Durable(store) == old(Durable(store))
  {
    if reply.BootFailed? { return Err("REQUEST_FAILED"); }
    if reply.hasMore { return Err("paged bootstrap not supported"); }
    if !reply.hasData { return Err("bootstrap missing data"); }
    r := store.Bootstrap(reply.sections, reply.cursor);
  }

  /** The one transaction of a received page. */
  method StorePage(store: Store, cursor: string, page: Page) returns (r: Reply<()>)
    modifies store`entities, store`cursor
    ensures r.Ok? <==> Acceptable(cursor, page)
    ensures Durable(store) == if r.Ok? then Copy(Merged(old(store.entities), page.changes), page.next)
                              else old(Durable(store))
  {
    if page.hasMore && page.next == cursor { return Err("sync cursor did not advance"); }
    r := store.ApplyPage(page.changes, page.next);
  }

  /** One received page: commit it with its cursor, then acknowledge that cursor. */
  method TakePage(store: Store, reply: PullReply, delivery: Delivery, cursor: string, ghost d: Device,
                  ghost steps: seq<Step>)
    returns (r: Reply<bool>, ghost steps': seq<Step>)
    requires InStep(store, d, steps) && Run(d, steps).phase == Asked(cursor) && cursor == store.cursor
    modifies store`entities, store`cursor
    ensures InStep(store, d, steps') && steps <= steps'
    ensures r.Ok? ==> && steps' != [] && steps'[|steps'| - 1] == Acknowledge(Confirmed)
                      && Run(d, steps').phase == if r.value then Ready(store.cursor) else Idle
    ensures r.Err? ==> Run(d, steps').phase.Idle?
    ensures r.Ok? <==> Usable(cursor, reply) && delivery.Confirmed?
    ensures r.Ok? ==> r.value == reply.page.hasMore
    ensures Durable(store) == if Usable(cursor, reply)
                              then Copy(Merged(old(store.entities), reply.page.changes), reply.page.next)
                              else old(Durable(store))
    ensures Run(d, steps').asked == Run(d, steps).asked && Run(d, steps').recoveries == Run(d, steps).recoveries
  {
    hide Run, Merged, Acceptable;
    steps' := steps;
    if !reply.Sent? {
      RunStep(d, steps', Fail);
      steps' := steps' + [Fail];
      return Err("REQUEST_FAILED"), steps';
    }
    RunStep(d, steps', Deliver(reply.page));
    steps' := steps' + [Deliver(reply.page)];
    assert InStep(store, d, steps');
    var stored := StorePage(store, cursor, reply.page);
    RunStep(d, steps', Commit);
    steps' := steps' + [Commit];
    assert InStep(store, d, steps');
    if stored.Err? { return Err(stored.code), steps'; }
    RunStep(d, steps', Acknowledge(delivery));
    steps' := steps' + [Acknowledge(delivery)];
    if !delivery.Confirmed? { return Err("REQUEST_FAILED"), steps'; }
    r := Ok(reply.page.hasMore);
  }

  lemma FinishesNow(server: Server, cursor: string, page: nat, recovered: bool)
    requires page < MAX_PAGES
    ensures server.pull(page).PullFailed? ==> !Finishes(server, cursor, page, recovered)
    ensures server.pull(page).NeedsBootstrap? ==>
              (Finishes(server, cursor, page, recovered) <==>
                 (!recovered && Bootable(server.boot(1)) && Finishes(server, server.boot(1).cursor, page + 1, true)))
    ensures server.pull(page).Sent? ==>
              var p := server.pull(page).page;
              (Finishes(server, cursor, page, recovered) <==>
                 (Acceptable(cursor, p) && server.ack(page).Confirmed?
                  && (p.hasMore ==> Finishes(server, p.next, page + 1, recovered))))
  {
    hide Acceptable, Bootable;
  }

  lemma NoneLeft(server: Server, cursor: string, recovered: bool)
    ensures !Finishes(server, cursor, MAX_PAGES, recovered)
  {
  }

  /** Where the run of a well-behaved server stands after `page` pages. */
  lemma PagesNow(server: Server, c: Copy, pages: seq<Page>, page: nat)
    requires SendsPages(server, c.cursor, pages) && page < |pages|
    ensures server.pull(page) == Sent(pages[page]) && server.ack(page).Confirmed?
    ensures Usable(CopyAfter(c, pages[..page]).cursor, server.pull(page))
    ensures pages[page].hasMore <==> page + 1 < |pages|
    ensures CopyAfter(c, pages[..page + 1])
            == Copy(Merged(CopyAfter(c, pages[..page]).entities, pages[page].changes), pages[page].next)
    ensures page + 1 == |pages| ==> pages[..page + 1] == pages
    ensures page + 1 < |pages| ==> page + 1 < MAX_PAGES
  {
    hide Acceptable, Merged;
    assert pages[..page + 1][..page] == pages[..page];
    if page > 0 { assert pages[..page][page - 1] == pages[page - 1]; }
    assert CopyAfter(c, pages[..page]).cursor == CursorAt(c.cursor, pages, page);
    assert server.pull(page) == Sent(pages[page]);
  }

  lemma PagesStart(server: Server, c: Copy, pages: seq<Page>)
    requires SendsPages(server, c.cursor, pages)
    ensures 0 < |pages| <= MAX_PAGES && CopyAfter(c, pages[..0]) == c
    ensures CopyAfter(c, pages).cursor == pages[|pages| - 1].next
  {
    hide Acceptable, Merged;
  }

  /** The pull loop: commit first, acknowledge after, at most a hundred pages, one recovery. */
  method PullPages(store: Store, server: Server, ghost d: Device, ghost before: seq<Step>, ghost pages: seq<Page>)
    returns (r: Reply<()>, ghost steps: seq<Step>)
    requires InStep(store, d, before) && Run(d, before).phase == Ready(store.cursor)
    requires Run(d, before).asked == 0 && Run(d, before).recoveries == 0
    modifies store`entities, store`cursor
    ensures InStep(store, d, steps) && before <= steps && Run(d, steps).phase.Idle?
    ensures Run(d, steps).asked <= 100 && Run(d, steps).recoveries <= 1
    ensures r.Ok? ==> steps != [] && steps[|steps| - 1] == Acknowledge(Confirmed)
    ensures r.Ok? <==> Finishes(server, old(store.cursor), 0, false)
    ensures SendsPages(server, old(store.cursor), pages) ==>
              r.Ok? && Durable(store) == CopyAfter(old(Durable(store)), pages)
  {
    hide Run, Finishes, SendsPages, CopyAfter, Merged, Acceptable, Bootable, Snapshot;
    ghost var c := Durable(store);
    if SendsPages(server, c.cursor, pages) { PagesStart(server, c, pages); }
    steps := before;
    var cursor := store.cursor;
    var recovered := false;
    for page := 0 to MAX_PAGES
      invariant InStep(store, d, steps) && before <= steps && cursor == store.cursor
      invariant Run(d, steps).phase == Ready(cursor) && Run(d, steps).asked == page
      invariant Run(d, steps).recoveries == if recovered then 1 else 0
      invariant Finishes(server, c.cursor, 0, false) <==> Finishes(server, cursor, page, recovered)
      invariant SendsPages(server, c.cursor, pages) ==>
                  !recovered && page < |pages| && Durable(store) == CopyAfter(c, pages[..page])
    {
      FinishesNow(server, cursor, page, recovered);
      if SendsPages(server, c.cursor, pages) { PagesNow(server, c, pages, page); }
      var reply := server.pull(page);
      RunStep(d, steps, Ask);
      steps := steps + [Ask];
      if reply.NeedsBootstrap? && !recovered {
        r := RunBootstrap(store, server.boot(1));
        ghost var s := if r.Ok? then Recover(store.entities, store.cursor) else Fail;
        RunStep(d, steps, s);
        steps := steps + [s];
        if r.Err? { return; }
        cursor := store.cursor;
        recovered := true;
      } else {
        var more;
        more, steps := TakePage(store, reply, server.ack(page), cursor, d, steps);
        if more.Err? { return Err(more.code), steps; }
        cursor := store.cursor;
        if !more.value { return Ok(()), steps; }
      }
    }
    NoneLeft(server, cursor, recovered);
    if SendsPages(server, c.cursor, pages) { PagesStart(server, c, pages); }
    RunStep(d, steps, Fail);
    steps := steps + [Fail];
    r := Err("sync page limit reached");
  }

  /** One batch of intents, and the server's answers to it. */
  method PushBatch(store: Store, server: Server) returns (r: Reply<()>, sent: seq<Operation>)
    requires store.Valid() && server.handshake.Handshake?
    modifies store`ops
    ensures store.Valid() && LogStep(old(store.Outbox()), store.Outbox())
    ensures Durable(store) == old(Durable(store))
    ensures IsOldest(old(store.ops), sent, PushLimit(server))
    ensures r.Ok? <==> Answers(server, sent)
    ensures r.Ok? ==> Pushed(server, old(store.ops), store.ops, sent)
    ensures r.Err? ==> store.ops == old(store.ops)
  {
    sent := Batch(store.ops);
    OldestIs(store.ops, store.lastSequence, PushLimit(server));
    if 0 < server.handshake.maxBatch < |sent| { sent := sent[..server.handshake.maxBatch]; }
    if |sent| == 0 { return Ok(()), sent; }
    var reply := server.push(sent);
    if reply.PushFailed? { return Err("REQUEST_FAILED"), sent; }
    if FullReply(sent, reply.results) { SentStillWaiting(store.ops, sent, reply.results); }
    r := store.SaveResults(sent, reply.results);
  }

  lemma SentStillWaiting(ops: seq<Operation>, sent: seq<Operation>, results: seq<Result>)
    requires (forall op :: op in sent ==> op in ops && IsWaiting(op)) && FullReply(sent, results)
    ensures forall i :: 0 <= i < |results| ==> StillWaiting(ops, results[i].id)
  {
    forall i | 0 <= i < |results|
      ensures StillWaiting(ops, results[i].id)
    {
      assert SentAs(sent, results[i].id);
      var op :| op in sent && op.id == results[i].id;
      var k :| 0 <= k < |ops| && ops[k] == op;
    }
  }

  /** The replica is fetched whole first: the server asks for it, or nothing was ever fetched. */
  ghost predicate Boots(cursor: string, server: Server)
    requires server.handshake.Handshake?
  {
    server.handshake.bootstrap || cursor == ""
  }

  /** The device is the same, the server speaks its protocol, and a first bootstrap works if one is due. */
  ghost predicate Connects(known: string, cursor: string, server: Server, scope: string)
    ensures Connects(known, cursor, server, scope) ==> server.handshake.Handshake?
  {
    && (known == "" || known == scope)
    && server.handshake.Handshake? && server.handshake.version == 2
    && (Boots(cursor, server) ==> Bootable(server.boot(0)))
  }

  ghost function StartCursor(cursor: string, server: Server): string
    requires server.handshake.Handshake? && (Boots(cursor, server) ==> Bootable(server.boot(0)))
  {
    if Boots(cursor, server) then server.boot(0).cursor else cursor
  }

  /** The part before the push: same device, handshake, and a first bootstrap if one is due. */
  method Connect(store: Store, server: Server, scope: string, ghost d: Device)
    returns (r: Reply<()>, ghost steps: seq<Step>)
    requires d.phase.Idle? && d.copy == Durable(store)
    modifies store`scope, store`entities, store`cursor
    ensures r.Ok? <==> Connects(old(store.scope), old(store.cursor), server, scope)
    ensures r.Ok? ==>
              && store.cursor == StartCursor(old(store.cursor), server)
              && steps != [] && Run(d, steps).phase == Ready(store.cursor)
              && (!Boots(old(store.cursor), server) ==> Durable(store) == old(Durable(store)))
    ensures r.Err? ==> Run(d, steps).phase.Idle?
    ensures InStep(store, d, steps) && (steps != [] ==> Run(d, steps).asked == Run(d, steps).recoveries == 0)
    ensures store.scope == if old(store.scope) == "" then scope else old(store.scope)
  {
    hide Run, Bootable, Snapshot;
    steps := [];
    RunNone(d);
    if store.scope != "" && store.scope != scope { return Err("different device"), steps; }
    store.scope := scope;
    if server.handshake.HandshakeFailed? { return Err("REQUEST_FAILED"), steps; }
    if server.handshake.version != 2 { return Err("server does not support sync protocol v2"), steps; }
    RunStep(d, steps, Begin);
    steps := steps + [Begin];
    ghost var s := Proceed;
    if server.handshake.bootstrap || store.cursor == "" {
      r := RunBootstrap(store, server.boot(0));
      s := if r.Ok? then Boot(store.entities, store.cursor) else Fail;
      if r.Err? {
        RunStep(d, steps, s);
        steps := steps + [s];
        return;
      }
    }
    RunStep(d, steps, s);
    steps := steps + [s];
    r := Ok(());
  }

  /** One synchronisation, whatever the server answers, is a run of steps from an idle device. */
  method Refresh(store: Store, server: Server, scope: string, ghost d: Device, ghost pages: seq<Page>)
    returns (r: Reply<()>, ghost steps: seq<Step>, ghost sent: seq<Operation>)
    requires store.Valid() && d.phase.Idle? && d.copy == Durable(store)
    modifies store
    ensures store.Valid() && LogStep(old(store.Outbox()), store.Outbox())
    ensures InStep(store, d, steps) && Run(d, steps).phase.Idle?
    ensures steps != [] ==> Run(d, steps).asked <= 100 && Run(d, steps).recoveries <= 1
    ensures r.Ok? ==> steps != [] && steps[|steps| - 1] == Acknowledge(Confirmed)
    ensures store.scope == if old(store.scope) == "" then scope else old(store.scope)
    // Intents are pushed once the connection stands, whatever becomes of the pulls.
    ensures Connects(old(store.scope), old(store.cursor), server, scope) ==>
              IsOldest(old(store.ops), sent, PushLimit(server))
    ensures Connects(old(store.scope), old(store.cursor), server, scope) && Answers(server, sent) ==>
              Pushed(server, old(store.ops), store.ops, sent)
    ensures !(Connects(old(store.scope), old(store.cursor), server, scope) && Answers(server, sent)) ==>
              store.ops == old(store.ops)
    // It succeeds exactly when every part does, and then holds all that the server sent.
    ensures r.Ok? <==> (Connects(old(store.scope), old(store.cursor), server, scope) && Answers(server, sent)
                        && Finishes(server, StartCursor(old(store.cursor), server), 0, false))
    ensures (Connects(old(store.scope), old(store.cursor), server, scope) && Answers(server, sent)
             && SendsPages(server, StartCursor(old(store.cursor), server), pages)) ==>
              && r.Ok? && store.cursor == pages[|pages| - 1].next
              && (!Boots(old(store.cursor), server) ==> Durable(store) == CopyAfter(old(Durable(store)), pages))
  {
    sent := [];
    hide Finishes, SendsPages, Pushed, IsOldest, Bootable, CopyAfter, Answers, PushLimit, Merged;
    hide Run, LogInv, QueueStep, AnswerStep, DropStep, Connects, StartCursor, Boots;
    r, steps := Connect(store, server, scope, d);
    if r.Err? { return; }
    ghost var start := Durable(store);
    r, sent := PushBatch(store, server);
    if r.Err? {
      RunStep(d, steps, Fail);
      steps := steps + [Fail];
      return;
    }
    if SendsPages(server, start.cursor, pages) { PagesStart(server, start, pages); }
    r, steps := PullPages(store, server, d, steps, pages);
  }

  lemma RunNone(d: Device)
    ensures Run(d, []) == d
  {
  }
}

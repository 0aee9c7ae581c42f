/**
 The device's durable state (`Store` in store.go): every write works on a copy that replaces the
 state only when nothing failed, so an error leaves everything as it was.
 */
module OfflineStore {
  import opened Prelude
  import opened Replica
  import opened Outbox

  datatype Log = Log(ops: seq<Operation>, last: nat)

  // ----- the steps of the outbox -----

  ghost predicate HasOpen(ops: seq<Operation>, k: Key) {
    exists i :: 0 <= i < |ops| && ops[i].key == k && !ops[i].state.Applied? && !ops[i].state.Discarded?
  }

  /** A fresh intent for a record that has none open, numbered next. */
  ghost predicate CanQueue(a: Log, op: Operation) {
    && op.state.Queued? && op.sequence == a.last + 1 && !HasOpen(a.ops, op.key)
    && forall i :: 0 <= i < |a.ops| ==> a.ops[i].id != op.id
  }

  ghost predicate QueueStep(a: Log, b: Log) {
    b.ops != [] && CanQueue(a, b.ops[|b.ops| - 1])
    && b == Log(a.ops + [b.ops[|b.ops| - 1]], a.last + 1)
  }

  ghost predicate AnswerStep(a: Log, b: Log) {
    exists results :: AllPending(a.ops, results) && ResultIdsDistinct(results)
                      && b == Log(Answered(a.ops, results), a.last)
  }

  ghost predicate DropStep(a: Log, b: Log) {
    exists i :: 0 <= i < |a.ops| && Blocked(a.ops[i])
                && b == Log(a.ops[i := a.ops[i].(state := Discarded)], a.last)
  }

  ghost predicate LogStep(a: Log, b: Log) {
    b == a || QueueStep(a, b) || AnswerStep(a, b) || DropStep(a, b)
  }

  lemma QueueKeeps(a: Log, b: Log)
    requires LogInv(a.ops, a.last) && QueueStep(a, b)
    ensures LogInv(b.ops, b.last) && Extends(a.ops, b.ops)
  {
    var n := |a.ops|;
    assert forall i :: 0 <= i < n ==> b.ops[i] == a.ops[i];
    forall i | 0 <= i < n && a.ops[i].key == b.ops[n].key
      ensures Settled(a.ops[i])
    {
    }
  }

  lemma AnswerIntent(ops: seq<Operation>, results: seq<Result>, i: nat)
    requires IdsDistinct(ops) && AllPending(ops, results) && i < |ops|
    ensures SameIntent(ops[i], Answer(ops[i], results))
  {
    var r := Find(results, ops[i].id);
    if r.Some? {
      var k :| 0 <= k < |results| && results[k] == r.value;
      assert Pending(ops[IndexOf(ops, results[k].id).value]);
    }
  }

  lemma AnswerExtends(ops: seq<Operation>, results: seq<Result>)
    requires IdsDistinct(ops) && AllPending(ops, results)
    ensures Extends(ops, Answered(ops, results))
  {
    forall i | 0 <= i < |ops|
      ensures SameIntent(ops[i], Answered(ops, results)[i])
    {
      AnswerIntent(ops, results, i);
    }
  }

  lemma AnswerKeeps(a: Log, b: Log, results: seq<Result>)
    requires LogInv(a.ops, a.last) && AllPending(a.ops, results)
    requires b == Log(Answered(a.ops, results), a.last)
    ensures LogInv(b.ops, b.last) && Extends(a.ops, b.ops)
  {
    AnswerExtends(a.ops, results);
    ExtendsKeeps(a.ops, b.ops, a.last);
  }

  /** Moving states of intents that are not settled breaks nothing. */
  lemma ExtendsKeeps(a: seq<Operation>, b: seq<Operation>, last: nat)
    requires LogInv(a, last) && Extends(a, b) && |a| == |b|
    ensures LogInv(b, last)
  {
    forall i, j | 0 <= i < j < |b| && b[i].key == b[j].key
      ensures Settled(b[i]) || Settled(b[j])
    {
      assert SameIntent(a[i], b[i]) && SameIntent(a[j], b[j]);
    }
  }

  lemma DropKeeps(a: Log, b: Log)
    requires LogInv(a.ops, a.last) && DropStep(a, b)
    ensures LogInv(b.ops, b.last) && Extends(a.ops, b.ops)
  {
    ExtendsKeeps(a.ops, b.ops, a.last);
  }

  lemma LogStepKeeps(a: Log, b: Log)
    requires LogInv(a.ops, a.last) && LogStep(a, b)
    ensures LogInv(b.ops, b.last) && Extends(a.ops, b.ops)
  {
    if QueueStep(a, b) {
      QueueKeeps(a, b);
    } else if results :| AllPending(a.ops, results) && ResultIdsDistinct(results)
                         && b == Log(Answered(a.ops, results), a.last) {
      AnswerKeeps(a, b, results);
    } else if DropStep(a, b) {
      DropKeeps(a, b);
    }
  }

  /**
   Over every run of the outbox: sequences are unique and ascending, each record has at most one
   open intent, no intent is ever lost or rewritten, and an applied or dropped one stays so.
   */
  lemma {:induction false} OutboxRun(h: seq<Log>, n: nat)
    requires n < |h| && LogInv(h[0].ops, h[0].last)
    requires forall i :: 0 <= i < |h| - 1 ==> LogStep(h[i], h[i + 1])
    ensures LogInv(h[n].ops, h[n].last) && Extends(h[0].ops, h[n].ops)
  {
    if n > 0 {
      OutboxRun(h, n - 1);
      var a, b := h[n - 1], h[n];
      assert LogStep(a, b);
      LogStepKeeps(a, b);
      ExtendsTransitive(h[0].ops, a.ops, b.ops);
    }
  }

  // ----- bootstrap -----

  datatype Section = Products | Categories | Ingredients | Banners | Recipes | Orders | InventorySummary
    | WasteEvents | WasteItems | Tables | Customers | Debtors | Printers | CafeProfile | Other(name: string)

  datatype Row = Row(id: string, ingredientId: string, version: int, raw: string, validJson: bool)

  /** The record kind a section fills; unknown sections are skipped. */
  function SectionKind(s: Section): Option<string> {
    match s
    case Products => Some("product")
    case Categories => Some("category")
    case Ingredients => Some("ingredient")
    case Banners => Some("banner")
    case Recipes => Some("recipe")
    case Orders => Some("order")
    case InventorySummary => Some("inventory_summary")
    case WasteEvents => Some("waste_event")
    case WasteItems => Some("waste_item")
    case Tables => Some("table")
    case Customers => Some("customer")
    case Debtors => Some("debtor")
    case Printers => Some("printer")
    case CafeProfile => Some("cafe_profile")
    case Other(_) => None
  }

  lemma SectionKindsDiffer(a: Section, b: Section)
    requires SectionKind(a).Some? && SectionKind(a) == SectionKind(b)
    ensures a == b
  {
    var k := SectionKind(a).value;
    assert k[0] in "pcibrowtd" && |k| >= 5;
  }

  function RowChange(kind: string, row: Row): Change {
    Change(kind, if row.id == "" && kind == "inventory_summary" then row.ingredientId else row.id,
           row.version, false, "", row.raw, row.validJson)
  }

  function RowChanges(kind: string, rows: seq<Row>): (cs: seq<Change>)
    ensures |cs| == |rows|
    ensures forall i :: 0 <= i < |cs| ==> cs[i] == RowChange(kind, rows[i])
  {
    seq(|rows|, i requires 0 <= i < |rows| => RowChange(kind, rows[i]))
  }

  /** What a merge leaves under a key depends only on what was under it. */
  lemma {:induction false} MergeLocal(es: Entities, fs: Entities, cs: seq<Change>, k: Key)
    requires Get(es, k) == Get(fs, k)
    ensures Get(Merged(es, cs), k) == Get(Merged(fs, cs), k)
  {
    if |cs| > 0 {
      MergeLocal(es, fs, cs[..|cs| - 1], k);
    }
  }

  lemma {:induction false} MergeOtherKind(es: Entities, cs: seq<Change>, k: Key)
    requires forall i :: 0 <= i < |cs| ==> KeyOf(cs[i]) != k
    ensures Get(Merged(es, cs), k) == Get(es, k)
  {
    if |cs| > 0 {
      MergeOtherKind(es, cs[..|cs| - 1], k);
    }
  }

  ghost predicate Fills(sections: map<Section, seq<Row>>, s: Section, kind: string) {
    s in sections && SectionKind(s) == Some(kind)
  }

  /** What a snapshot holds under a key: the rows of the one section that fills its kind. */
  ghost predicate Snapshot(sections: map<Section, seq<Row>>, es: Entities) {
    forall k: Key ::
      && (forall s :: Fills(sections, s, k.kind) ==>
            Get(es, k) == Get(Merged(map[], RowChanges(k.kind, sections[s])), k))
      && ((forall s :: !Fills(sections, s, k.kind)) ==> k !in es)
  }

  /** Some row of the snapshot is this record. */
  ghost predicate InSnapshot(sections: map<Section, seq<Row>>, k: Key) {
    exists s, i :: Fills(sections, s, k.kind) && 0 <= i < |sections[s]| && KeyOf(RowChange(k.kind, sections[s][i])) == k
  }

  /**
   Only what the snapshot holds is there after a bootstrap: a record made on the device survives
   exactly when the snapshot has its key.
   */
  lemma SurvivesIff(sections: map<Section, seq<Row>>, es: Entities, k: Key)
    requires Snapshot(sections, es)
    ensures k in es <==> InSnapshot(sections, k)
  {
    if exists s :: Fills(sections, s, k.kind) {
      var s :| Fills(sections, s, k.kind);
      var cs := RowChanges(k.kind, sections[s]);
      assert Get(es, k) == Get(Merged(map[], cs), k);
      if k in es {
        MergeWinner(map[], cs, k);
      }
      if InSnapshot(sections, k) {
        var t, i :| Fills(sections, t, k.kind) && 0 <= i < |sections[t]|
                    && KeyOf(RowChange(k.kind, sections[t][i])) == k;
        SectionKindsDiffer(s, t);
        MergedIsNewest(map[], cs, k, i);
      }
    }
  }

  /** The record is a row of its section, with the highest version among those that name it. */
  ghost predicate HoldsRow(sections: map<Section, seq<Row>>, k: Key, e: Entity) {
    exists s, i :: Fills(sections, s, k.kind) && 0 <= i < |sections[s]| && RowSays(k, sections[s][i], e)
                   && forall j :: 0 <= j < |sections[s]| && RowNames(k, sections[s][j]) ==>
                        sections[s][j].version <= e.version
  }

  /** Only an inventory summary may go by its ingredient. */
  ghost predicate RowNames(k: Key, row: Row) {
    k.id == if row.id == "" && k.kind == "inventory_summary" then row.ingredientId else row.id
  }

  ghost predicate RowSays(k: Key, row: Row, e: Entity) {
    && RowNames(k, row) && e.key == k && e.version == row.version && !e.deleted
    && e.payload == (if row.raw == "" || row.raw == "null" then "{}" else row.raw)
  }

  /** What is there after a bootstrap is, for every record, a newest row of the snapshot, alive and with its text. */
  lemma SnapshotSays(sections: map<Section, seq<Row>>, es: Entities, k: Key)
    requires Snapshot(sections, es) && k in es
    ensures HoldsRow(sections, k, es[k])
  {
    SurvivesIff(sections, es, k);
    var s :| Fills(sections, s, k.kind);
    assert Get(es, k) == Get(Merged(map[], RowChanges(k.kind, sections[s])), k);
    hide Snapshot, RowChanges, Merged, RowSays, RowNames, InSnapshot;
    var i := RowsSay(sections[s], k, es[k]);
  }

  lemma RowsSay(rows: seq<Row>, k: Key, e: Entity) returns (i: nat)
    requires Get(Merged(map[], RowChanges(k.kind, rows)), k) == Some(e)
    ensures i < |rows| && RowSays(k, rows[i], e)
    ensures forall j :: 0 <= j < |rows| && RowNames(k, rows[j]) ==> rows[j].version <= e.version
  {
    var cs := RowChanges(k.kind, rows);
    hide Merged;
    MergeWinner(map[], cs, k);
    i :| 0 <= i < |cs| && KeyOf(cs[i]) == k && Highest(cs, i) && e == Stored(cs[i]);
    assert cs[i] == RowChange(k.kind, rows[i]);
    forall j | 0 <= j < |rows| && RowNames(k, rows[j])
      ensures rows[j].version <= e.version
    {
      assert cs[j] == RowChange(k.kind, rows[j]) && KeyOf(cs[j]) == k;
    }
  }

  /** The name under which the server sends a section. */
  function SectionName(s: Section): string {
    match s
    case Products => "products"
    case Categories => "categories"
    case Ingredients => "ingredients"
    case Banners => "banners"
    case Recipes => "recipes"
    case Orders => "orders"
    case InventorySummary => "inventory_summary"
    case WasteEvents => "waste_events"
    case WasteItems => "waste_items"
    case Tables => "tables"
    case Customers => "customers"
    case Debtors => "debtors"
    case Printers => "printers"
    case CafeProfile => "cafe_profile"
    case Other(name) => name
  }

  /** A section fills the kind of which its name is the plural, or the name itself. */
  lemma SectionIsPlural(s: Section)
    requires SectionKind(s).Some?
    ensures var name, kind := SectionName(s), SectionKind(s).value;
      || name == kind
      || name == kind + "s"
      || (|kind| > 0 && kind[|kind| - 1] == 'y' && name == kind[..|kind| - 1] + "ies")
  {
  }

  /** Movements and print jobs are in no section, so a bootstrap drops every one of them. */
  lemma LocalKindsVanish(sections: map<Section, seq<Row>>, es: Entities, k: Key)
    requires Snapshot(sections, es) && k.kind in {"inventory_movement", "print_job"}
    ensures k !in es
  {
    forall s
      ensures !Fills(sections, s, k.kind)
    {
      KindLength(s);
    }
  }

  lemma KindLength(s: Section)
    ensures SectionKind(s).Some? ==> |SectionKind(s).value| != 9 && |SectionKind(s).value| != 18
  {
  }

  ghost predicate AllWellFormed(sections: map<Section, seq<Row>>) {
    forall s, i :: s in sections && SectionKind(s).Some? && 0 <= i < |sections[s]| ==>
      WellFormed(RowChange(SectionKind(s).value, sections[s][i]))
  }

  lemma AddSection(done: map<Section, seq<Row>>, es: Entities, s: Section, rows: seq<Row>)
    requires Snapshot(done, es) && s !in done
    ensures SectionKind(s).None? ==> Snapshot(done[s := rows], es)
    ensures SectionKind(s).Some? ==>
              Snapshot(done[s := rows], Merged(es, RowChanges(SectionKind(s).value, rows)))
  {
    var now := done[s := rows];
    if SectionKind(s).Some? {
      var kind := SectionKind(s).value;
      var cs := RowChanges(kind, rows);
      forall k: Key
        ensures forall t :: Fills(now, t, k.kind) ==>
                  Get(Merged(es, cs), k) == Get(Merged(map[], RowChanges(k.kind, now[t])), k)
        ensures (forall t :: !Fills(now, t, k.kind)) ==> k !in Merged(es, cs)
      {
        AddSectionAt(done, es, s, rows, k);
      }
    } else {
      forall k: Key, t
        ensures Fills(now, t, k.kind) <==> Fills(done, t, k.kind)
      {
      }
    }
  }

  lemma AddSectionAt(done: map<Section, seq<Row>>, es: Entities, s: Section, rows: seq<Row>, k: Key)
    requires Snapshot(done, es) && s !in done && SectionKind(s).Some?
    ensures var kind, now := SectionKind(s).value, done[s := rows];
      var after := Merged(es, RowChanges(kind, rows));
      && (forall t :: Fills(now, t, k.kind) ==>
            Get(after, k) == Get(Merged(map[], RowChanges(k.kind, now[t])), k))
      && ((forall t :: !Fills(now, t, k.kind)) ==> k !in after)
  {
    var kind, now := SectionKind(s).value, done[s := rows];
    var cs := RowChanges(kind, rows);
    if k.kind == kind {
      forall t | Fills(now, t, kind)
        ensures t == s
      {
        SectionKindsDiffer(s, t);
      }
      forall t
        ensures !Fills(done, t, kind)
      {
        if Fills(done, t, kind) { SectionKindsDiffer(s, t); }
      }
      assert k !in es;
      MergeLocal(es, map[], cs, k);
      assert Fills(now, s, kind);
    } else {
      MergeOtherKind(es, cs, k);
      forall t
        ensures Fills(now, t, k.kind) <==> Fills(done, t, k.kind)
      {
      }
    }
  }

  lemma BadSection(sections: map<Section, seq<Row>>, s: Section)
    requires s in sections && SectionKind(s).Some?
    requires var cs := RowChanges(SectionKind(s).value, sections[s]);
             exists i :: 0 <= i < |cs| && !WellFormed(cs[i])
    ensures !AllWellFormed(sections)
  {
    var cs := RowChanges(SectionKind(s).value, sections[s]);
    var i :| 0 <= i < |cs| && !WellFormed(cs[i]);
    assert !WellFormed(RowChange(SectionKind(s).value, sections[s][i]));
  }

  lemma AddWellFormed(done: map<Section, seq<Row>>, s: Section, rows: seq<Row>)
    requires AllWellFormed(done) && s !in done
    requires SectionKind(s).Some? ==>
               var cs := RowChanges(SectionKind(s).value, rows);
               forall i :: 0 <= i < |cs| ==> WellFormed(cs[i])
    ensures AllWellFormed(done[s := rows])
  {
    var now := done[s := rows];
    forall t, i | t in now && SectionKind(t).Some? && 0 <= i < |now[t]|
      ensures WellFormed(RowChange(SectionKind(t).value, now[t][i]))
    {
      if t == s { assert WellFormed(RowChanges(SectionKind(s).value, rows)[i]); }
    }
  }

  /** The sections are visited in no fixed order; the outcome is the same for all of them. */
  method LoadSections(sections: map<Section, seq<Row>>) returns (r: Reply<Entities>)
    ensures r.Ok? <==> AllWellFormed(sections)
    ensures r.Ok? ==> Snapshot(sections, r.value)
  {
    var es: Entities := map[];
    var todo := sections.Keys;
    ghost var done: map<Section, seq<Row>> := map[];
    while todo != {}
      invariant todo <= sections.Keys
      invariant done.Keys == sections.Keys - todo && forall s :: s in done ==> done[s] == sections[s]
      invariant AllWellFormed(done) && Snapshot(done, es)
      decreases todo
    {
      var s :| s in todo;
      AddSection(done, es, s, sections[s]);
      if SectionKind(s).Some? {
        var page := MergePage(es, RowChanges(SectionKind(s).value, sections[s]));
        if page.Err? {
          BadSection(sections, s);
          return Err(page.code);
        }
        es := page.value;
      }
      AddWellFormed(done, s, sections[s]);
      done := done[s := sections[s]];
      todo := todo - {s};
    }
    assert done == sections;
    r := Ok(es);
  }

  // ----- the store object -----

  /** An operation with this identifier is there and waiting. */
  ghost predicate StillWaiting(ops: seq<Operation>, id: string) {
    exists i :: 0 <= i < |ops| && ops[i].id == id && IsWaiting(ops[i])
  }

  lemma WaitingIff(ops: seq<Operation>, results: seq<Result>)
    requires IdsDistinct(ops)
    ensures AllPending(ops, results) <==> forall i :: 0 <= i < |results| ==> StillWaiting(ops, results[i].id)
  {
    forall i | 0 <= i < |results|
      ensures IsPending(ops, results[i].id) <==> StillWaiting(ops, results[i].id)
    {
    }
  }

  /** What saving a response has to do, whichever way it goes. */
  lemma SavingSays(log: Log, sent: seq<Operation>, results: seq<Result>)
    requires LogInv(log.ops, log.last)
    ensures LogStep(log, log) && IdsDistinct(log.ops)
    ensures FullReply(sent, results) <==> Covers(sent, results)
    ensures AllPending(log.ops, results) <==> forall i :: 0 <= i < |results| ==> StillWaiting(log.ops, results[i].id)
    ensures Covers(sent, results) ==>
              && ResultIdsDistinct(results)
              && (forall i :: 0 <= i < |results| ==> ParseStatus(results[i].status).Some?)
              && AllAnswered(log.ops, Answered(log.ops, results), results)
    ensures Covers(sent, results) && AllPending(log.ops, results) ==>
              var after := Log(Answered(log.ops, results), log.last);
              LogInv(after.ops, after.last) && LogStep(log, after)
  {
    FullReplyIff(sent, results);
    WaitingIff(log.ops, results);
    hide FullReply, AllAnswered, Answered, AllPending, StillWaiting, IsPending;
    if Covers(sent, results) {
      AnsweredSays(log.ops, results);
      if AllPending(log.ops, results) { AnswerKeeps(log, Log(Answered(log.ops, results), log.last), results); }
    }
  }

  class Store {
    var entities: Entities
    var ops: seq<Operation>
    var lastSequence: nat
    var scope: string
    var cursor: string

    ghost function Outbox(): Log
      reads this
    {
      Log(ops, lastSequence)
    }

    ghost predicate Valid()
      reads this
    {
      LogInv(ops, lastSequence)
    }

    /** Records a catalogue intent.  `newId` and `opId` are fresh identifiers. */
    method QueueCatalog(kind: string, id: string, action: string, payload: string, expected: int,
                        newId: string, opId: string)
      returns (r: Reply<string>)
      requires Valid() && forall i :: 0 <= i < |ops| ==> ops[i].id != opId
      modifies this`ops, this`lastSequence
      ensures Valid() && LogStep(old(Outbox()), Outbox())
      ensures var k := Key(kind, if action == "create" then newId else id);
        && (r.Ok? <==>
              && (action == "create" ==> id == "") && scope != "" && !HasOpen(old(ops), k)
              && (action != "create" ==>
                    k in entities && !entities[k].deleted && entities[k].version == expected && expected >= 1))
        && (r.Ok? ==>
              && r.value == k.id && lastSequence == old(lastSequence) + 1
              && ops == old(ops) + [Operation(opId, lastSequence, k, action,
                                              if action == "create" then None else Some(expected),
                                              payload, Queued, "{}")])
      ensures r.Err? ==> Outbox() == old(Outbox())
    {
      if action == "create" && id != "" { return Err("new entity IDs are generated locally"); }
      var k := Key(kind, if action == "create" then newId else id);
      if scope == "" { return Err("configure a device before queuing server edits"); }
      for i := 0 to |ops|
        invariant forall j :: 0 <= j < i ==> ops[j].key != k || Settled(ops[j])
        invariant ops == old(ops) && lastSequence == old(lastSequence)
      {
        if ops[i].key == k && !Settled(ops[i]) { return Err("this record already has pending intent"); }
      }
      var base: Option<int> := None;
      if action != "create" {
        if k !in entities || entities[k].deleted { return Err("record is not in the local snapshot"); }
        if entities[k].version != expected { return Err("record changed while editing"); }
        if entities[k].version < 1 { return Err("record has no optimistic version"); }
        base := Some(entities[k].version);
      }
      lastSequence := lastSequence + 1;
      ops := ops + [Operation(opId, lastSequence, k, action, base, payload, Queued, "{}")];
      QueueKeeps(old(Outbox()), Outbox());
      return Ok(k.id);
    }

    /** Stores the server's answers: all of them, or none. */
    method SaveResults(sent: seq<Operation>, results: seq<Result>) returns (r: Reply<()>)
      requires Valid()
      modifies this`ops
      ensures Valid() && LogStep(old(Outbox()), Outbox())
      ensures r.Ok? <==>
              FullReply(sent, results)
              && forall i :: 0 <= i < |results| ==> StillWaiting(old(ops), results[i].id)
      ensures r.Ok? ==> AllAnswered(old(ops), ops, results)
      ensures ops == if r.Ok? then Answered(old(ops), results) else old(ops)
    {
      SavingSays(Outbox(), sent, results);
      hide FullReply, AllAnswered, Answered, AllPending, Covers, StillWaiting, LogStep, LogInv;
      var ok := CheckResponse(sent, results);
      if !ok { return Err("push response did not cover the submitted batch"); }
      var tx := Answering(results);
      if tx.None? { return Err("outbox changed during push"); }
      ops := tx.value;
      return Ok(());
    }

    /** The log with every answer filled in, unless one is for an operation that does not wait any more. */
    method Answering(results: seq<Result>) returns (r: Option<seq<Operation>>)
      requires IdsDistinct(ops) && ResultIdsDistinct(results)
      requires forall i :: 0 <= i < |results| ==> ParseStatus(results[i].status).Some?
      ensures r.Some? <==> AllPending(ops, results)
      ensures r.Some? ==> r.value == Answered(ops, results)
    {
      hide Answered, IdsDistinct, ResultIdsDistinct;
      var tx := ops;
      AnswerNone(ops);
      for i := 0 to |results|
        invariant tx == Answered(ops, results[..i])
        invariant AllPending(ops, results[..i])
      {
        var at := IndexOf(tx, results[i].id);
        AnswerOne(ops, results, i);
        if at.None? || !Pending(tx[at.value]) { return None; }
        tx := tx[at.value := tx[at.value].(state := ParseStatus(results[i].status).value, result := results[i].raw)];
      }
      assert results[..|results|] == results;
      return Some(tx);
    }

    /** Drops an intent the server refused; one whose outcome is open cannot be dropped. */
    method Discard(id: string) returns (r: Reply<()>)
      requires Valid()
      modifies this`ops
      ensures Valid() && LogStep(old(Outbox()), Outbox())
      ensures r.Ok? <==> exists i :: 0 <= i < |old(ops)| && old(ops)[i].id == id
                                     && old(ops)[i].state in {Conflict, Rejected, Skipped}
      ensures r.Err? ==> ops == old(ops)
      ensures r.Ok? ==> DropStep(old(Outbox()), Outbox())
                        && exists i :: 0 <= i < |ops| && ops[i].id == id && ops[i].state.Discarded?
    {
      for i := 0 to |ops|
        invariant forall j :: 0 <= j < i ==> !(ops[j].id == id && Blocked(ops[j]))
        invariant ops == old(ops)
      {
        if ops[i].id == id && Blocked(ops[i]) {
          ops := ops[i := ops[i].(state := Discarded)];
          DropKeeps(old(Outbox()), Outbox());
          assert ops[i].id == id && ops[i].state.Discarded?;
          return Ok(());
        }
      }
      return Err("only blocked terminal operations can be discarded");
    }

    /** A page of changes and its cursor are committed together. */
    method ApplyPage(changes: seq<Change>, next: string) returns (r: Reply<()>)
      modifies this`entities, this`cursor
      ensures r.Ok? <==> next != "" && forall i :: 0 <= i < |changes| ==> WellFormed(changes[i])
      ensures r.Ok? <==> next != "" && forall i :: 0 <= i < |changes| ==> Sound(changes[i])
      ensures r.Ok? ==> forall k: Key :: Decided(old(entities), changes, k, Get(entities, k))
      ensures entities == (if r.Ok? then Merged(old(entities), changes) else old(entities))
      ensures cursor == (if r.Ok? then next else old(cursor))
    {
      if next == "" { return Err("server returned empty cursor"); }
      var page := MergePage(entities, changes);
      if page.Err? { return Err(page.code); }
      entities := page.value;
      cursor := next;
      return Ok(());
    }

    /** Replaces the whole copy by a snapshot; the outbox survives. */
    method Bootstrap(sections: map<Section, seq<Row>>, next: string) returns (r: Reply<()>)
      modifies this`entities, this`cursor
      ensures r.Ok? <==> next != "" && AllWellFormed(sections)
      ensures r.Ok? ==> Snapshot(sections, entities)
      ensures r.Err? ==> entities == old(entities)
      ensures cursor == (if r.Ok? then next else old(cursor))
    {
      if next == "" { return Err("bootstrap missing snapshot cursor"); }
      var loaded := LoadSections(sections);
      if loaded.Err? { return Err(loaded.code); }
      entities := loaded.value;
      cursor := next;
      return Ok(());
    }
  }

  lemma AnswerNone(ops: seq<Operation>)
    ensures Answered(ops, []) == ops
  {
  }

  /** The operation a result names is where it was, and not answered yet. */
  lemma AnswerTarget(ops: seq<Operation>, results: seq<Result>, i: nat)
    requires IdsDistinct(ops) && ResultIdsDistinct(results) && i < |results|
    ensures var tx := Answered(ops, results[..i]); var at := IndexOf(tx, results[i].id);
      && at == IndexOf(ops, results[i].id)
      && (at.Some? ==> tx[at.value] == ops[at.value])
  {
    var tx, r := Answered(ops, results[..i]), results[i];
    assert forall j :: 0 <= j < |ops| ==> tx[j].id == ops[j].id;
    assert Find(results[..i], r.id).None?;
  }

  lemma FindOneMore(results: seq<Result>, i: nat, id: string)
    requires i < |results|
    ensures Find(results[..i + 1], id) == if results[i].id == id then Some(results[i]) else Find(results[..i], id)
  {
    assert results[..i + 1][..i] == results[..i];
  }

  lemma AnswerUpdate(ops: seq<Operation>, results: seq<Result>, i: nat, at: nat)
    requires IdsDistinct(ops) && i < |results| && at < |ops| && ops[at].id == results[i].id
    requires Answered(ops, results[..i])[at] == ops[at] && ParseStatus(results[i].status).Some?
    ensures Answered(ops, results[..i + 1]) == Answered(ops, results[..i])[at :=
              ops[at].(state := ParseStatus(results[i].status).value, result := results[i].raw)]
  {
    forall j | 0 <= j < |ops|
      ensures Answer(ops[j], results[..i + 1]) ==
              if j == at then ops[at].(state := ParseStatus(results[i].status).value, result := results[i].raw)
              else Answer(ops[j], results[..i])
    {
      FindOneMore(results, i, ops[j].id);
    }
  }

  /** Answering one more operation changes that operation only. */
  lemma AnswerOne(ops: seq<Operation>, results: seq<Result>, i: nat)
    requires IdsDistinct(ops) && ResultIdsDistinct(results) && i < |results|
    requires ParseStatus(results[i].status).Some? && AllPending(ops, results[..i])
    ensures var tx := Answered(ops, results[..i]); var at := IndexOf(tx, results[i].id);
      && (at.None? || !Pending(tx[at.value]) ==> !AllPending(ops, results))
      && (at.Some? && Pending(tx[at.value]) ==>
            && AllPending(ops, results[..i + 1])
            && Answered(ops, results[..i + 1]) == tx[at.value :=
                 tx[at.value].(state := ParseStatus(results[i].status).value, result := results[i].raw)])
  {
    AnswerTarget(ops, results, i);
    hide Answered, Answer, Find, IdsDistinct, ResultIdsDistinct;
    var at := IndexOf(ops, results[i].id);
    if at.Some? && Pending(ops[at.value]) {
      AnswerUpdate(ops, results, i, at.value);
      assert results[..i + 1] == results[..i] + [results[i]];
    }
  }
}

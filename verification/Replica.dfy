/**
 The local copy of the server's records and how changes are merged into it (`applyChange`,
 `ApplyPage` and `Bootstrap` in store.go).  Payloads are opaque text.
 */
module Replica {
  import opened Prelude

  datatype Key = Key(kind: string, id: string)

  datatype Entity = Entity(key: Key, version: int, deleted: bool, payload: string)

  datatype Change = Change(
    kind: string, id: string, version: int, tombstone: bool, operation: string,
    payload: string, validJson: bool)

  type Entities = map<Key, Entity>

  function KeyOf(c: Change): Key { Key(c.kind, c.id) }

  function Deletes(c: Change): bool { c.tombstone || c.operation == "delete" }

  /** The record a change writes; an absent payload becomes an empty object. */
  function Stored(c: Change): Entity {
    Entity(KeyOf(c), c.version, Deletes(c), if c.payload in {"", "null"} then "{}" else c.payload)
  }

  predicate WellFormed(c: Change) {
    c.id != "" && c.kind != "" && (c.payload in {"", "null"} || c.validJson)
  }

  /** A newer version replaces what is there; unversioned records replace each other. */
  predicate Replaces(es: Entities, c: Change) {
    var k := KeyOf(c);
    k !in es || c.version > es[k].version || (c.version == 0 && es[k].version == 0)
  }

  function Applied(es: Entities, c: Change): Entities {
    if Replaces(es, c) then es[KeyOf(c) := Stored(c)] else es
  }

  function Merged(es: Entities, cs: seq<Change>): Entities {
    if |cs| == 0 then es else Applied(Merged(es, cs[..|cs| - 1]), cs[|cs| - 1])
  }

  function Get(es: Entities, k: Key): Option<Entity> { if k in es then Some(es[k]) else None }

  // ----- what a page does, in full -----

  /** A change names its record and carries valid text, or none. */
  predicate Sound(c: Change) {
    c.id != "" && c.kind != "" && (c.payload == "" || c.payload == "null" || c.validJson)
  }

  /** The record says what the change says; an absent payload is an empty object. */
  ghost predicate Says(e: Entity, c: Change) {
    && e.key.kind == c.kind && e.key.id == c.id && e.version == c.version
    && (e.deleted <==> c.tombstone || c.operation == "delete")
    && e.payload == (if c.payload == "" || c.payload == "null" then "{}" else c.payload)
  }

  /** The change is for this record and newer than what is there, or both are unversioned. */
  ghost predicate Beats(es: Entities, c: Change, k: Key) {
    && c.kind == k.kind && c.id == k.id
    && (k in es ==> c.version > es[k].version || c.version == es[k].version == 0)
  }

  /** If some change of the record beats what is there, it becomes one of the highest version. */
  ghost predicate Decided(es: Entities, cs: seq<Change>, k: Key, r: Option<Entity>) {
    if exists c :: c in cs && Beats(es, c, k)
    then
      r.Some? && exists c :: c in cs && Says(r.value, c) && c.kind == k.kind && c.id == k.id
                             && forall d :: d in cs && d.kind == k.kind && d.id == k.id ==> d.version <= c.version
    else r == if k in es then Some(es[k]) else None
  }

  lemma MergeDecides(es: Entities, cs: seq<Change>, k: Key)
    ensures Decided(es, cs, k, Get(Merged(es, cs), k))
  {
    MergeWinner(es, cs, k);
    if Overrides(es, cs, k) {
      var i :| 0 <= i < |cs| && KeyOf(cs[i]) == k && Replaces(es, cs[i]);
      assert cs[i] in cs && Beats(es, cs[i], k);
      var j :| 0 <= j < |cs| && KeyOf(cs[j]) == k && Highest(cs, j) && Get(Merged(es, cs), k) == Some(Stored(cs[j]));
      assert cs[j] in cs && Says(Stored(cs[j]), cs[j]);
    } else {
      forall c | c in cs
        ensures !Beats(es, c, k)
      {
        var i :| 0 <= i < |cs| && cs[i] == c;
      }
    }
  }

  // ----- the loop of a page, all or nothing -----

  method MergePage(es: Entities, cs: seq<Change>) returns (r: Reply<Entities>)
    ensures r.Ok? <==> forall i :: 0 <= i < |cs| ==> Sound(cs[i])
    ensures r.Ok? <==> forall i :: 0 <= i < |cs| ==> WellFormed(cs[i])
    ensures r.Ok? ==> r.value == Merged(es, cs)
    ensures r.Ok? ==> forall k: Key :: Decided(es, cs, k, Get(r.value, k))
  {
    var tx := es;
    for i := 0 to |cs|
      invariant tx == Merged(es, cs[..i])
      invariant forall k :: 0 <= k < i ==> WellFormed(cs[k])
    {
      assert cs[..i + 1][..i] == cs[..i];
      if !WellFormed(cs[i]) { return Err("change missing entity identity"); }
      tx := Applied(tx, cs[i]);
    }
    assert cs[..|cs|] == cs;
    forall k: Key
      ensures Decided(es, cs, k, Get(tx, k))
    {
      MergeDecides(es, cs, k);
    }
    r := Ok(tx);
  }

  // ----- what a merge leaves under a key -----

  /** Some change of this key would replace the record that was there at the start. */
  ghost predicate Overrides(es: Entities, cs: seq<Change>, k: Key) {
    exists i :: 0 <= i < |cs| && KeyOf(cs[i]) == k && Replaces(es, cs[i])
  }

  /** Change `i` has the highest version of its key. */
  ghost predicate Highest(cs: seq<Change>, i: nat)
    requires i < |cs|
  {
    forall j :: 0 <= j < |cs| && KeyOf(cs[j]) == KeyOf(cs[i]) ==> cs[j].version <= cs[i].version
  }

  /** The winner: the old record if nothing overrides it, else a change of the highest version. */
  ghost predicate Winner(es: Entities, cs: seq<Change>, k: Key, r: Option<Entity>) {
    if !Overrides(es, cs, k) then r == Get(es, k)
    else exists i :: 0 <= i < |cs| && KeyOf(cs[i]) == k && Highest(cs, i) && r == Some(Stored(cs[i]))
  }

  /** For every start and every sequence of changes, the merge leaves exactly the winner. */
  lemma {:induction false} MergeWinner(es: Entities, cs: seq<Change>, k: Key)
    ensures Winner(es, cs, k, Get(Merged(es, cs), k))
  {
    if |cs| > 0 {
      var n := |cs| - 1;
      MergeWinner(es, cs[..n], k);
      WinnerStep(es, cs, k);
    }
  }

  /** A change of another key leaves the winner alone. */
  lemma OtherKeyStep(es: Entities, cs: seq<Change>, c: Change, k: Key, r: Option<Entity>)
    requires Winner(es, cs, k, r) && KeyOf(c) != k
    ensures Winner(es, cs + [c], k, r)
  {
    var all := cs + [c];
    assert forall i :: 0 <= i < |cs| ==> all[i] == cs[i];
    if Overrides(es, cs, k) {
      var j :| 0 <= j < |cs| && KeyOf(cs[j]) == k && Replaces(es, cs[j]);
      assert Replaces(es, all[j]);
      var i :| 0 <= i < |cs| && KeyOf(cs[i]) == k && Highest(cs, i) && r == Some(Stored(cs[i]));
      assert KeyOf(all[i]) == k && Highest(all, i);
    }
  }

  /** A change of the key that replaces the current record becomes the winner. */
  lemma ReplacingStep(es: Entities, cs: seq<Change>, c: Change, k: Key, m: Entities)
    requires Winner(es, cs, k, Get(m, k)) && KeyOf(c) == k && Replaces(m, c)
    ensures Winner(es, cs + [c], k, Some(Stored(c)))
  {
    var all, n := cs + [c], |cs|;
    assert forall i :: 0 <= i < |cs| ==> all[i] == cs[i];
    if Overrides(es, cs, k) {
      var j :| 0 <= j < |cs| && KeyOf(cs[j]) == k && Replaces(es, cs[j]);
      assert Replaces(es, all[j]);
      var i :| 0 <= i < |cs| && KeyOf(cs[i]) == k && Highest(cs, i) && Get(m, k) == Some(Stored(cs[i]));
    } else {
      assert Replaces(es, all[n]);
    }
    assert Highest(all, n);
  }

  lemma KeepingStep(es: Entities, cs: seq<Change>, c: Change, k: Key, m: Entities)
    requires Winner(es, cs, k, Get(m, k)) && KeyOf(c) == k && !Replaces(m, c)
    ensures Winner(es, cs + [c], k, Get(m, k))
  {
    var all, n := cs + [c], |cs|;
    assert forall i :: 0 <= i < |cs| ==> all[i] == cs[i];
    if Overrides(es, cs, k) {
      var j :| 0 <= j < |cs| && KeyOf(cs[j]) == k && Replaces(es, cs[j]);
      assert Replaces(es, all[j]);
      var i :| 0 <= i < |cs| && KeyOf(cs[i]) == k && Highest(cs, i) && Get(m, k) == Some(Stored(cs[i]));
      assert KeyOf(all[i]) == k && Highest(all, i);
    }
  }

  lemma WinnerStep(es: Entities, cs: seq<Change>, k: Key)
    requires |cs| > 0 && Winner(es, cs[..|cs| - 1], k, Get(Merged(es, cs[..|cs| - 1]), k))
    ensures Winner(es, cs, k, Get(Merged(es, cs), k))
  {
    var n := |cs| - 1;
    var before, c, m := cs[..n], cs[n], Merged(es, cs[..n]);
    assert before + [c] == cs;
    if KeyOf(c) != k { OtherKeyStep(es, before, c, k, Get(m, k)); }
    else if Replaces(m, c) { ReplacingStep(es, before, c, k, m); }
    else { KeepingStep(es, before, c, k, m); }
  }

  // ----- convergence -----

  /** Changes of one key that share its highest version say the same thing. */
  ghost predicate Agreeing(cs: seq<Change>) {
    forall i, j :: (0 <= i < |cs| && 0 <= j < |cs| && KeyOf(cs[i]) == KeyOf(cs[j])
                    && Highest(cs, i) && Highest(cs, j)) ==> Stored(cs[i]) == Stored(cs[j])
  }

  ghost predicate SameChanges(cs: seq<Change>, ds: seq<Change>) {
    && (forall i :: 0 <= i < |cs| ==> cs[i] in ds)
    && (forall i :: 0 <= i < |ds| ==> ds[i] in cs)
  }

  lemma HighestTransfers(cs: seq<Change>, ds: seq<Change>, i: nat, j: nat)
    requires SameChanges(cs, ds) && i < |cs| && j < |ds| && cs[i] == ds[j] && Highest(cs, i)
    ensures Highest(ds, j)
  {
    forall b | 0 <= b < |ds| && KeyOf(ds[b]) == KeyOf(ds[j])
      ensures ds[b].version <= ds[j].version
    {
      var a :| 0 <= a < |cs| && cs[a] == ds[b];
    }
  }

  lemma OverridesTransfers(es: Entities, cs: seq<Change>, ds: seq<Change>, k: Key)
    requires SameChanges(cs, ds) && Overrides(es, cs, k)
    ensures Overrides(es, ds, k)
  {
    var i :| 0 <= i < |cs| && KeyOf(cs[i]) == k && Replaces(es, cs[i]);
    var j :| 0 <= j < |ds| && ds[j] == cs[i];
  }

  lemma WinnerUnique(es: Entities, cs: seq<Change>, ds: seq<Change>, k: Key, r: Option<Entity>, q: Option<Entity>)
    requires SameChanges(cs, ds) && Agreeing(cs) && Winner(es, cs, k, r) && Winner(es, ds, k, q)
    ensures r == q
  {
    if Overrides(es, cs, k) {
      OverridesTransfers(es, cs, ds, k);
      var i :| 0 <= i < |cs| && KeyOf(cs[i]) == k && Highest(cs, i) && r == Some(Stored(cs[i]));
      var j :| 0 <= j < |ds| && KeyOf(ds[j]) == k && Highest(ds, j) && q == Some(Stored(ds[j]));
      var a :| 0 <= a < |cs| && cs[a] == ds[j];
      HighestTransfers(ds, cs, j, a);
    } else if Overrides(es, ds, k) {
      OverridesTransfers(es, ds, cs, k);
    }
  }

  /** Order, repetition and page boundaries do not matter when the changes agree. */
  lemma Convergence(es: Entities, cs: seq<Change>, ds: seq<Change>)
    requires SameChanges(cs, ds) && Agreeing(cs)
    ensures Merged(es, cs) == Merged(es, ds)
  {
    forall k: Key
      ensures Get(Merged(es, cs), k) == Get(Merged(es, ds), k)
    {
      MergeWinner(es, cs, k);
      MergeWinner(es, ds, k);
      WinnerUnique(es, cs, ds, k, Get(Merged(es, cs), k), Get(Merged(es, ds), k));
    }
    SameByGet(Merged(es, cs), Merged(es, ds));
  }

  lemma SameByGet(a: Entities, b: Entities)
    requires forall k: Key :: Get(a, k) == Get(b, k)
    ensures a == b
  {
    forall k: Key
      ensures k in a <==> k in b
      ensures k in a ==> a[k] == b[k]
    {
      assert Get(a, k) == Get(b, k);
    }
  }

  lemma {:induction false} MergeAppend(es: Entities, a: seq<Change>, b: seq<Change>)
    ensures Merged(es, a + b) == Merged(Merged(es, a), b)
    decreases |b|
  {
    if |b| == 0 {
      assert a + b == a;
    } else {
      var n := |b| - 1;
      assert (a + b)[..|a + b| - 1] == a + b[..n];
      MergeAppend(es, a, b[..n]);
    }
  }

  /**
   From an empty copy, delivery order can be ignored if and only if the changes agree at the
   highest version of every key.
   */
  lemma ConvergenceIff(cs: seq<Change>)
    ensures Agreeing(cs) <==>
            forall a, b :: SameChanges(cs, a) && SameChanges(cs, b) ==> Merged(map[], a) == Merged(map[], b)
  {
    if Agreeing(cs) {
      forall a, b | SameChanges(cs, a) && SameChanges(cs, b)
        ensures Merged(map[], a) == Merged(map[], b)
      {
        Convergence(map[], cs, a);
        Convergence(map[], cs, b);
      }
    } else {
      var i, j :| 0 <= i < |cs| && 0 <= j < |cs| && KeyOf(cs[i]) == KeyOf(cs[j])
                  && Highest(cs, i) && Highest(cs, j) && Stored(cs[i]) != Stored(cs[j]);
      var a, b := Favouring(cs, i), Favouring(cs, j);
      FavouringWins(cs, i);
      FavouringWins(cs, j);
      assert Merged(map[], a) != Merged(map[], b);
    }
  }

  /** The same changes, arranged so that change `i` prevails among its equals. */
  function Favouring(cs: seq<Change>, i: nat): seq<Change>
    requires i < |cs|
  {
    if cs[i].version == 0 then cs + [cs[i]] else [cs[i]] + cs
  }

  lemma FavouringWins(cs: seq<Change>, i: nat)
    requires i < |cs| && Highest(cs, i)
    ensures SameChanges(cs, Favouring(cs, i))
    ensures Get(Merged(map[], Favouring(cs, i)), KeyOf(cs[i])) == Some(Stored(cs[i]))
  {
    var c, k, f := cs[i], KeyOf(cs[i]), Favouring(cs, i);
    if c.version == 0 {
      assert f[..|cs|] == cs;
      MergeWinner(map[], cs, k);
      assert Overrides(map[], cs, k) by { assert Replaces(map[], cs[i]); }
      var m := Merged(map[], cs);
      var w :| 0 <= w < |cs| && KeyOf(cs[w]) == k && Highest(cs, w) && Get(m, k) == Some(Stored(cs[w]));
      assert cs[w].version == 0;
      assert Merged(map[], f) == Applied(m, c);
      forall x | 0 <= x < |f| ensures f[x] in cs { assert x < |cs| ==> f[x] == cs[x]; }
      forall x | 0 <= x < |cs| ensures cs[x] in f { assert f[x] == cs[x]; }
    } else {
      MergeAppend(map[], [c], cs);
      assert [c][..0] == [];
      assert Merged(map[], [c]) == map[k := Stored(c)];
      MergeWinner(map[k := Stored(c)], cs, k);
      assert !Overrides(map[k := Stored(c)], cs, k);
      forall x | 0 <= x < |f| ensures f[x] in cs { assert x > 0 ==> f[x] == cs[x - 1]; }
      forall x | 0 <= x < |cs| ensures cs[x] in f { assert f[x + 1] == cs[x]; }
    }
  }

  // ----- consequences -----

  /** What the last unversioned change of a key writes. */
  function LastUnversioned(cs: seq<Change>, k: Key): (r: Option<Entity>)
    ensures r.None? ==> forall i :: 0 <= i < |cs| && KeyOf(cs[i]) == k ==> cs[i].version != 0
  {
    if |cs| == 0 then None
    else
      var last := cs[|cs| - 1];
      if KeyOf(last) == k && last.version == 0 then Some(Stored(last)) else LastUnversioned(cs[..|cs| - 1], k)
  }

  /** A record that ends unversioned is what the last unversioned change of its key wrote, if there is one. */
  lemma {:induction false} UnversionedWinner(es: Entities, cs: seq<Change>, k: Key)
    requires LastUnversioned(cs, k).Some?
    requires Get(Merged(es, cs), k).Some? && Get(Merged(es, cs), k).value.version == 0
    ensures Get(Merged(es, cs), k) == LastUnversioned(cs, k)
  {
    var last := cs[|cs| - 1];
    if KeyOf(last) != k || last.version != 0 {
      UnversionedWinner(es, cs[..|cs| - 1], k);
    }
  }

  lemma MergedIsNewest(es: Entities, cs: seq<Change>, k: Key, i: nat)
    requires i < |cs| && KeyOf(cs[i]) == k
    ensures k in Merged(es, cs) && cs[i].version <= Merged(es, cs)[k].version
  {
    MergeWinner(es, cs, k);
    if !Overrides(es, cs, k) {
      assert !Replaces(es, cs[i]);
    }
  }

  /** Pulling a page a second time changes nothing, unversioned changes included. */
  lemma ReplayIdle(es: Entities, page: seq<Change>)
    ensures Merged(Merged(es, page), page) == Merged(es, page)
  {
    var m := Merged(es, page);
    forall k: Key
      ensures Get(Merged(m, page), k) == Get(m, k)
    {
      ReplayIdleAt(es, page, k);
    }
    SameByGet(Merged(m, page), m);
  }

  lemma ReplayIdleAt(es: Entities, page: seq<Change>, k: Key)
    ensures Get(Merged(Merged(es, page), page), k) == Get(Merged(es, page), k)
  {
    var m := Merged(es, page);
    MergeWinner(m, page, k);
    if Overrides(m, page, k) {
      var i :| 0 <= i < |page| && KeyOf(page[i]) == k && Replaces(m, page[i]);
      MergedIsNewest(es, page, k, i);
      assert page[i].version == 0 == m[k].version;
      UnversionedWinner(es, page, k);
      var j :| 0 <= j < |page| && KeyOf(page[j]) == k && Highest(page, j)
               && Get(Merged(m, page), k) == Some(Stored(page[j]));
      MergedIsNewest(es, page, k, j);
      UnversionedWinner(m, page, k);
    }
  }

  /** A deleted record stays exactly as it is through any changes that do not override its tombstone. */
  lemma TombstoneStays(es: Entities, cs: seq<Change>, k: Key)
    requires k in es && es[k].deleted
    requires forall i :: 0 <= i < |cs| && KeyOf(cs[i]) == k ==>
               cs[i].version <= es[k].version && !(cs[i].version == 0 == es[k].version)
    ensures Get(Merged(es, cs), k) == Some(es[k])
  {
    MergeWinner(es, cs, k);
  }

  /**
   If the highest changes of each record agree, a deleted record ends deleted exactly when nothing
   overrides its tombstone or a highest change of it deletes again.
   */
  lemma TombstoneIff(es: Entities, cs: seq<Change>, k: Key)
    requires k in es && es[k].deleted && Agreeing(cs)
    ensures Get(Merged(es, cs), k).Some?
    ensures Get(Merged(es, cs), k).value.deleted <==>
            (!Overrides(es, cs, k)
             || exists i :: 0 <= i < |cs| && KeyOf(cs[i]) == k && Highest(cs, i) && Deletes(cs[i]))
  {
    MergeWinner(es, cs, k);
  }

  // ----- a page that comes again later -----

  /** The record a change names is there, at its version or a newer one. */
  ghost predicate Keeps(es: Entities, c: Change) {
    KeyOf(c) in es && c.version <= es[KeyOf(c)].version
  }

  lemma {:induction false} MergeKeeps(es: Entities, cs: seq<Change>, c: Change)
    requires Keeps(es, c)
    ensures Keeps(Merged(es, cs), c)
  {
    if |cs| > 0 { MergeKeeps(es, cs[..|cs| - 1], c); }
  }

  /** No unversioned record was written over since by another unversioned change. */
  ghost predicate StillLast(es: Entities, page: seq<Change>, k: Key) {
    k in es && es[k].version == 0 && LastUnversioned(page, k).Some? ==> LastUnversioned(page, k) == Some(es[k])
  }

  /**
   A page whose changes are all in the copy, at their version or a newer one, changes nothing when it
   comes again, if and only if each unversioned record is still what the page last made of it.
   */
  lemma RedeliveryIff(es: Entities, page: seq<Change>)
    requires forall i :: 0 <= i < |page| ==> Keeps(es, page[i])
    ensures Merged(es, page) == es <==> forall k: Key :: StillLast(es, page, k)
  {
    forall k: Key
      ensures Get(Merged(es, page), k) == Get(es, k) <==> StillLast(es, page, k)
    {
      RedeliveryAt(es, page, k);
    }
    if forall k: Key :: StillLast(es, page, k) { SameByGet(Merged(es, page), es); }
  }

  lemma RedeliveryAt(es: Entities, page: seq<Change>, k: Key)
    requires forall i :: 0 <= i < |page| ==> Keeps(es, page[i])
    ensures Get(Merged(es, page), k) == Get(es, k) <==> StillLast(es, page, k)
  {
    MergeWinner(es, page, k);
    if Overrides(es, page, k) {
      var i :| 0 <= i < |page| && KeyOf(page[i]) == k && Replaces(es, page[i]);
      assert Keeps(es, page[i]);
      assert page[i].version == 0 == es[k].version;
      var j :| 0 <= j < |page| && KeyOf(page[j]) == k && Highest(page, j)
               && Get(Merged(es, page), k) == Some(Stored(page[j]));
      assert Keeps(es, page[j]);
      UnversionedWinner(es, page, k);
    } else if LastUnversioned(page, k).Some? {
      var i := LastIndex(page, k);
      assert Keeps(es, page[i]) && !Replaces(es, page[i]);
    }
  }

  lemma {:induction false} LastIndex(cs: seq<Change>, k: Key) returns (i: nat)
    requires LastUnversioned(cs, k).Some?
    ensures i < |cs| && KeyOf(cs[i]) == k && cs[i].version == 0
  {
    i := |cs| - 1;
    if !(KeyOf(cs[i]) == k && cs[i].version == 0) { i := LastIndex(cs[..i], k); }
  }

  /** Without unversioned changes it always changes nothing. */
  lemma RedeliveryIdle(es: Entities, page: seq<Change>)
    requires forall i :: 0 <= i < |page| ==> Keeps(es, page[i]) && page[i].version != 0
    ensures Merged(es, page) == es
  {
    RedeliveryIff(es, page);
    forall k: Key
      ensures LastUnversioned(page, k).None?
    {
      if LastUnversioned(page, k).Some? { var i := LastIndex(page, k); }
    }
  }
}

/**
 The canonical text of a request (`stableStringify` in protocol.ts): object entries are sorted by
 key at every level, then printed.  The comparison of keys is a parameter.
 */
module Fingerprint {
  import opened Json

  type Order = (Text, Text) -> bool

  ghost predicate TotalPreorder(leq: Order) {
    && (forall x, y :: leq(x, y) || leq(y, x))
    && (forall x, y, z :: leq(x, y) && leq(y, z) ==> leq(x, z))
  }

  predicate Tie(x: Text, y: Text, leq: Order) { leq(x, y) && leq(y, x) }

  /** No two entries have different keys that compare equal. */
  ghost predicate Untied(es: seq<Entry>, leq: Order) {
    forall x, y :: x in es && y in es && Tie(x.key, y.key, leq) ==> x.key == y.key
  }

  // ----- stable sorting -----

  function Insert(es: seq<Entry>, e: Entry, leq: Order): seq<Entry> {
    if |es| == 0 || leq(es[|es| - 1].key, e.key) then es + [e]
    else Insert(es[..|es| - 1], e, leq) + [es[|es| - 1]]
  }

  function Sort(es: seq<Entry>, leq: Order): seq<Entry> {
    if |es| == 0 then [] else Insert(Sort(es[..|es| - 1], leq), es[|es| - 1], leq)
  }

  ghost predicate DistinctKeys(es: seq<Entry>) {
    forall i, j :: 0 <= i < j < |es| ==> es[i].key != es[j].key
  }

  ghost predicate Sorted(es: seq<Entry>, leq: Order) {
    forall i, j :: 0 <= i < j < |es| ==> leq(es[i].key, es[j].key)
  }

  lemma {:induction false} InsertFacts(es: seq<Entry>, e: Entry, leq: Order)
    ensures |Insert(es, e, leq)| == |es| + 1
    ensures forall x :: x in Insert(es, e, leq) <==> x in es || x == e
  {
    if |es| > 0 && !leq(es[|es| - 1].key, e.key) {
      var n := |es| - 1;
      InsertFacts(es[..n], e, leq);
      assert es == es[..n] + [es[n]];
    }
  }

  lemma {:induction false} InsertDistinct(es: seq<Entry>, e: Entry, leq: Order)
    requires DistinctKeys(es) && forall i :: 0 <= i < |es| ==> es[i].key != e.key
    ensures DistinctKeys(Insert(es, e, leq))
  {
    if |es| > 0 && !leq(es[|es| - 1].key, e.key) {
      var n := |es| - 1;
      InsertDistinct(es[..n], e, leq);
      InsertFacts(es[..n], e, leq);
      var r := Insert(es[..n], e, leq);
      forall k | 0 <= k < |r|
        ensures r[k].key != es[n].key
      {
        assert r[k] in r;
        if r[k] != e { var i :| 0 <= i < n && es[..n][i] == r[k]; }
      }
    }
  }

  lemma {:induction false} InsertSorted(es: seq<Entry>, e: Entry, leq: Order)
    requires TotalPreorder(leq) && Sorted(es, leq)
    ensures Sorted(Insert(es, e, leq), leq)
  {
    if |es| > 0 && !leq(es[|es| - 1].key, e.key) {
      var n := |es| - 1;
      InsertSorted(es[..n], e, leq);
      InsertFacts(es[..n], e, leq);
      forall x | x in Insert(es[..n], e, leq)
        ensures leq(x.key, es[n].key)
      {
        if x != e {
          var i :| 0 <= i < n && es[..n][i] == x;
        }
      }
    }
  }

  lemma {:induction false} SortFacts(es: seq<Entry>, leq: Order)
    ensures |Sort(es, leq)| == |es|
    ensures forall x :: x in Sort(es, leq) <==> x in es
    ensures DistinctKeys(es) ==> DistinctKeys(Sort(es, leq))
    ensures TotalPreorder(leq) ==> Sorted(Sort(es, leq), leq)
  {
    if |es| > 0 {
      var n := |es| - 1;
      SortFacts(es[..n], leq);
      InsertFacts(Sort(es[..n], leq), es[n], leq);
      assert es == es[..n] + [es[n]];
      if DistinctKeys(es) {
        var r := Sort(es[..n], leq);
        forall k | 0 <= k < |r|
          ensures r[k].key != es[n].key
        {
          assert r[k] in r;
          var i :| 0 <= i < n && es[..n][i] == r[k];
        }
        InsertDistinct(r, es[n], leq);
      }
      if TotalPreorder(leq) { InsertSorted(Sort(es[..n], leq), es[n], leq); }
    }
  }

  lemma LastIsGreatest(a: seq<Entry>, b: seq<Entry>, leq: Order)
    requires |a| > 0 && |b| > 0 && Sorted(b, leq) && TotalPreorder(leq) && a[|a| - 1] in b
    ensures leq(a[|a| - 1].key, b[|b| - 1].key)
  {
    var i :| 0 <= i < |b| && b[i] == a[|a| - 1];
  }

  /** With keys that do not tie, the sorted order of a set of entries is unique. */
  lemma {:induction false} SortedUnique(a: seq<Entry>, b: seq<Entry>, leq: Order)
    requires TotalPreorder(leq) && Untied(a, leq) && |a| == |b|
    requires DistinctKeys(a) && DistinctKeys(b) && Sorted(a, leq) && Sorted(b, leq)
    requires forall x :: x in a <==> x in b
    ensures a == b
  {
    if |a| > 0 {
      var n := |a| - 1;
      SameLast(a, b, leq);
      UntiedPrefix(a, n, leq);
      hide TotalPreorder, Untied;
      assert a == a[..n] + [a[n]] && b == b[..n] + [b[n]];
      forall x
        ensures x in a[..n] <==> x in b[..n]
      {
        InPrefix(a, x);
        InPrefix(b, x);
      }
      SortedUnique(a[..n], b[..n], leq);
    }
  }

  lemma UntiedPrefix(a: seq<Entry>, n: nat, leq: Order)
    requires n <= |a| && Untied(a, leq)
    ensures Untied(a[..n], leq)
  {
    assert forall x :: x in a[..n] ==> x in a;
  }

  lemma SameLast(a: seq<Entry>, b: seq<Entry>, leq: Order)
    requires TotalPreorder(leq) && Untied(a, leq) && |a| == |b| > 0
    requires DistinctKeys(b) && Sorted(a, leq) && Sorted(b, leq)
    requires forall x :: x in a <==> x in b
    ensures a[|a| - 1] == b[|b| - 1]
  {
    var n := |a| - 1;
    assert a[n] in b && b[n] in a;
    LastIsGreatest(a, b, leq);
    LastIsGreatest(b, a, leq);
    assert Tie(a[n].key, b[n].key, leq);
    assert a[n].key == b[n].key;
    var i :| 0 <= i < |b| && b[i] == a[n];
  }

  lemma InPrefix(a: seq<Entry>, x: Entry)
    requires |a| > 0 && DistinctKeys(a)
    ensures x in a[..|a| - 1] <==> x in a && x != a[|a| - 1]
  {
    var n := |a| - 1;
    assert a == a[..n] + [a[n]];
    if x in a[..n] {
      var i :| 0 <= i < n && a[..n][i] == x;
      assert a[i] == x;
    }
  }

  // ----- the normal form and the meaning of a value -----

  function Norm(j: Json, leq: Order): Json {
    match j
    case Arr(items) => Arr(seq(|items|, i requires 0 <= i < |items| => Norm(items[i], leq)))
    case Obj(es) =>
      Obj(Sort(seq(|es|, i requires 0 <= i < |es| => Entry(es[i].key, Norm(es[i].value, leq))), leq))
    case _ => j
  }

  function NormEntries(es: seq<Entry>, leq: Order): (r: seq<Entry>)
    ensures |r| == |es|
    ensures forall i :: 0 <= i < |es| ==> r[i] == Entry(es[i].key, Norm(es[i].value, leq))
  {
    seq(|es|, i requires 0 <= i < |es| => Entry(es[i].key, Norm(es[i].value, leq)))
  }

  lemma {:induction false} InsertMapped(es: seq<Entry>, e: Entry, leq: Order)
    ensures Insert(NormEntries(es, leq), Entry(e.key, Norm(e.value, leq)), leq) == NormEntries(Insert(es, e, leq), leq)
  {
    hide Norm;
    if |es| > 0 {
      var n := |es| - 1;
      assert NormEntries(es, leq)[..n] == NormEntries(es[..n], leq);
      InsertMapped(es[..n], e, leq);
    }
  }

  /** Sorting the entries and then treating their values is the same as the other way round. */
  lemma {:induction false} SortThenMap(es: seq<Entry>, leq: Order)
    ensures Norm(Obj(es), leq) == Obj(NormEntries(Sort(es, leq), leq))
  {
    SortMapped(es, leq);
  }

  lemma {:induction false} SortMapped(es: seq<Entry>, leq: Order)
    ensures Sort(NormEntries(es, leq), leq) == NormEntries(Sort(es, leq), leq)
  {
    hide Norm;
    if |es| > 0 {
      var n := |es| - 1;
      assert NormEntries(es, leq)[..n] == NormEntries(es[..n], leq);
      SortMapped(es[..n], leq);
      InsertMapped(Sort(es[..n], leq), es[n], leq);
    }
  }

  /** What a value means: an object is a finite map, so the order of its entries is gone. */
  datatype Value =
    | VNull
    | VBool(b: bool)
    | VNum(t: Text)
    | VStr(s: Text)
    | VArr(vs: seq<Value>)
    | VObj(m: map<Text, Value>)

  function Meaning(j: Json): Value
    decreases j, 1
  {
    match j
    case Null => VNull
    case Bool(b) => VBool(b)
    case Num(r) => VNum(r)
    case Str(s) => VStr(s)
    case Arr(items) => VArr(seq(|items|, i requires 0 <= i < |items| => Meaning(items[i])))
    case Obj(es) => VObj(MeaningOf(es))
  }

  function MeaningOf(es: seq<Entry>): map<Text, Value>
    decreases es, 0
  {
    if |es| == 0 then map[] else MeaningOf(es[..|es| - 1])[es[|es| - 1].key := Meaning(es[|es| - 1].value)]
  }

  /** No object of the value repeats a key. */
  ghost predicate KeysDistinct(j: Json) {
    match j
    case Arr(items) => forall i :: 0 <= i < |items| ==> KeysDistinct(items[i])
    case Obj(es) => DistinctKeys(es) && forall i :: 0 <= i < |es| ==> KeysDistinct(es[i].value)
    case _ => true
  }

  ghost predicate Wellformed(j: Json) { Printable(j) && KeysDistinct(j) }

  /** The entries are exactly the bindings of the map. */
  ghost predicate Binds(es: seq<Entry>, m: map<Text, Value>) {
    && (forall i :: 0 <= i < |es| ==> es[i].key in m && m[es[i].key] == Meaning(es[i].value))
    && (forall k :: k in m ==> exists i :: 0 <= i < |es| && es[i].key == k)
  }

  lemma BindsAppend(es: seq<Entry>, m: map<Text, Value>, e: Entry)
    requires Binds(es, m) && forall i :: 0 <= i < |es| ==> es[i].key != e.key
    ensures Binds(es + [e], m[e.key := Meaning(e.value)])
  {
    var all, p := es + [e], m[e.key := Meaning(e.value)];
    forall k | k in p
      ensures exists i :: 0 <= i < |all| && all[i].key == k
    {
      if k == e.key {
        assert all[|es|].key == k;
      } else {
        var i :| 0 <= i < |es| && es[i].key == k;
        assert all[i].key == k;
      }
    }
  }

  lemma {:induction false} MeaningBinds(es: seq<Entry>)
    requires DistinctKeys(es)
    ensures Binds(es, MeaningOf(es))
  {
    if |es| > 0 {
      var n := |es| - 1;
      MeaningBinds(es[..n]);
      BindsAppend(es[..n], MeaningOf(es[..n]), es[n]);
      assert es == es[..n] + [es[n]];
    }
  }

  lemma BindsUnique(es: seq<Entry>, m: map<Text, Value>, p: map<Text, Value>)
    requires Binds(es, m) && Binds(es, p)
    ensures m == p
  {
    forall k
      ensures k in m <==> k in p
      ensures k in m ==> m[k] == p[k]
    {
      if k in m { var i :| 0 <= i < |es| && es[i].key == k; }
      if k in p { var i :| 0 <= i < |es| && es[i].key == k; }
    }
  }

  ghost predicate HasKey(es: seq<Entry>, k: Text) { exists i :: 0 <= i < |es| && es[i].key == k }

  ghost predicate HasBinding(es: seq<Entry>, k: Text, v: Value) {
    exists i :: 0 <= i < |es| && es[i].key == k && Meaning(es[i].value) == v
  }

  /** Entries with the same keys and meanings, in any order, mean the same object. */
  lemma SameBindings(es: seq<Entry>, fs: seq<Entry>)
    requires DistinctKeys(es) && DistinctKeys(fs)
    requires forall i :: 0 <= i < |es| ==> HasBinding(fs, es[i].key, Meaning(es[i].value))
    requires forall j :: 0 <= j < |fs| ==> HasKey(es, fs[j].key)
    ensures MeaningOf(es) == MeaningOf(fs)
  {
    MeaningBinds(es);
    MeaningBinds(fs);
    hide MeaningOf, Meaning;
    var m := MeaningOf(fs);
    forall i | 0 <= i < |es|
      ensures es[i].key in m && m[es[i].key] == Meaning(es[i].value)
    {
      assert HasBinding(fs, es[i].key, Meaning(es[i].value));
    }
    forall k | k in m
      ensures exists i :: 0 <= i < |es| && es[i].key == k
    {
      var j :| 0 <= j < |fs| && fs[j].key == k;
      assert HasKey(es, fs[j].key);
    }
    BindsUnique(es, MeaningOf(es), m);
  }

  // ----- the normal form keeps the meaning -----

  lemma {:induction false} NormKeeps(j: Json, leq: Order)
    requires Printable(j) && KeysDistinct(j)
    ensures Printable(Norm(j, leq)) && Meaning(Norm(j, leq)) == Meaning(j)
    decreases j, 1
  {
    match j
    case Arr(items) =>
      forall i | 0 <= i < |items|
        ensures Printable(Norm(items[i], leq)) && Meaning(Norm(items[i], leq)) == Meaning(items[i])
      {
        NormKeeps(items[i], leq);
      }
    case Obj(es) => NormKeepsObject(es, leq);
    case _ =>
  }

  lemma NormKeepsObject(es: seq<Entry>, leq: Order)
    requires Printable(Obj(es)) && KeysDistinct(Obj(es))
    ensures Printable(Norm(Obj(es), leq)) && Meaning(Norm(Obj(es), leq)) == Meaning(Obj(es))
    decreases es, 2
  {
    var ns := NormEntries(es, leq);
    var sorted := Sort(ns, leq);
    assert Norm(Obj(es), leq) == Obj(sorted);
    forall i | 0 <= i < |es|
      ensures Printable(ns[i].value) && Meaning(ns[i].value) == Meaning(es[i].value)
    {
      NormKeeps(es[i].value, leq);
    }
    SortFacts(ns, leq);
    SortedPrintable(ns, sorted);
    SortedBindings(es, ns, sorted);
  }

  lemma SortedPrintable(ns: seq<Entry>, sorted: seq<Entry>)
    requires PrintableEntries(ns) && forall x :: x in sorted <==> x in ns
    ensures Printable(Obj(sorted))
  {
    forall i | 0 <= i < |sorted|
      ensures UnitText(sorted[i].key) && Printable(sorted[i].value)
    {
      assert sorted[i] in sorted;
      var k :| 0 <= k < |ns| && ns[k] == sorted[i];
    }
  }

  lemma SortedBindings(es: seq<Entry>, ns: seq<Entry>, sorted: seq<Entry>)
    requires DistinctKeys(es) && DistinctKeys(sorted) && |ns| == |es|
    requires forall i :: 0 <= i < |es| ==> ns[i].key == es[i].key && Meaning(ns[i].value) == Meaning(es[i].value)
    requires forall x :: x in sorted <==> x in ns
    ensures MeaningOf(sorted) == MeaningOf(es)
  {
    hide MeaningOf, Meaning;
    forall i | 0 <= i < |es|
      ensures HasBinding(sorted, es[i].key, Meaning(es[i].value))
    {
      assert ns[i] in sorted;
      var j :| 0 <= j < |sorted| && sorted[j] == ns[i];
    }
    forall j | 0 <= j < |sorted|
      ensures HasKey(es, sorted[j].key)
    {
      assert sorted[j] in ns;
      var i :| 0 <= i < |ns| && ns[i] == sorted[j];
      assert es[i].key == sorted[j].key;
    }
    SameBindings(es, sorted);
  }

  // ----- equal meanings have equal normal forms -----

  /** No object of the value holds two different keys that compare equal. */
  ghost predicate NoTies(j: Json, leq: Order) {
    match j
    case Arr(items) => forall i :: 0 <= i < |items| ==> NoTies(items[i], leq)
    case Obj(es) => Untied(es, leq) && forall i :: 0 <= i < |es| ==> NoTies(es[i].value, leq)
    case _ => true
  }

  lemma {:induction false} SameNorm(a: Json, b: Json, leq: Order)
    requires TotalPreorder(leq) && NoTies(a, leq)
    requires Wellformed(a) && Wellformed(b) && Meaning(a) == Meaning(b)
    ensures Norm(a, leq) == Norm(b, leq)
    decreases a, 1
  {
    match a
    case Arr(items) =>
      var va, vb := Meaning(a).vs, Meaning(b).vs;
      assert |va| == |vb|;
      forall i | 0 <= i < |items|
        ensures Norm(items[i], leq) == Norm(b.items[i], leq)
      {
        assert va[i] == vb[i];
        SameNorm(items[i], b.items[i], leq);
      }
    case Obj(es) => SameNormObject(es, b.entries, leq);
    case _ =>
  }

  ghost predicate WellformedEntries(es: seq<Entry>) {
    DistinctKeys(es) && forall i :: 0 <= i < |es| ==> UnitText(es[i].key) && Wellformed(es[i].value)
  }

  /** The entry of `fs` under the key of `e` normalises to the same entry. */
  lemma MatchingEntry(e: Entry, fs: seq<Entry>, leq: Order, m: map<Text, Value>) returns (j: nat)
    requires TotalPreorder(leq) && NoTies(e.value, leq) && Wellformed(e.value) && WellformedEntries(fs)
    requires Binds(fs, m) && e.key in m && m[e.key] == Meaning(e.value)
    ensures j < |fs| && fs[j].key == e.key && NormEntries(fs, leq)[j] == Entry(e.key, Norm(e.value, leq))
    decreases e, 2
  {
    j :| 0 <= j < |fs| && fs[j].key == e.key;
    SameNorm(e.value, fs[j].value, leq);
  }

  lemma EntriesMatch(es: seq<Entry>, fs: seq<Entry>, leq: Order, m: map<Text, Value>)
    requires TotalPreorder(leq) && WellformedEntries(es) && WellformedEntries(fs)
    requires forall i :: 0 <= i < |es| ==> NoTies(es[i].value, leq)
    requires Binds(es, m) && Binds(fs, m)
    ensures forall i :: 0 <= i < |es| ==> NormEntries(es, leq)[i] in NormEntries(fs, leq)
    ensures forall j :: 0 <= j < |fs| ==> NormEntries(fs, leq)[j] in NormEntries(es, leq)
    decreases es, 3
  {
    var ns, ms := NormEntries(es, leq), NormEntries(fs, leq);
    hide Norm, Meaning, Wellformed, UnitText, NoTies;
    forall i | 0 <= i < |es|
      ensures ns[i] in ms
    {
      var j := MatchingEntry(es[i], fs, leq, m);
    }
    forall j | 0 <= j < |fs|
      ensures ms[j] in ns
    {
      var i :| 0 <= i < |es| && es[i].key == fs[j].key;
      var k := MatchingEntry(es[i], fs, leq, m);
      assert k == j;
    }
  }

  lemma SameNormObject(es: seq<Entry>, fs: seq<Entry>, leq: Order)
    requires TotalPreorder(leq) && NoTies(Obj(es), leq)
    requires Wellformed(Obj(es)) && Wellformed(Obj(fs)) && MeaningOf(es) == MeaningOf(fs)
    ensures Norm(Obj(es), leq) == Norm(Obj(fs), leq)
    decreases es, 4
  {
    hide Norm, Meaning, MeaningOf, Wellformed, UnitText, Binds, Sort, TotalPreorder, NoTies, Untied;
    UntiedParts(es, leq);
    EntriesOf(es, leq);
    EntriesOf(fs, leq);
    MeaningBinds(es);
    MeaningBinds(fs);
    EntriesMatch(es, fs, leq, MeaningOf(es));
    SameSorted(NormEntries(es, leq), NormEntries(fs, leq), leq);
  }

  lemma EntriesOf(es: seq<Entry>, leq: Order)
    requires Wellformed(Obj(es))
    ensures WellformedEntries(es) && Norm(Obj(es), leq) == Obj(Sort(NormEntries(es, leq), leq))
  {
  }

  lemma UntiedParts(es: seq<Entry>, leq: Order)
    requires NoTies(Obj(es), leq)
    ensures Untied(NormEntries(es, leq), leq) && forall i :: 0 <= i < |es| ==> NoTies(es[i].value, leq)
  {
    UntiedNorm(es, leq);
  }

  lemma UntiedNorm(es: seq<Entry>, leq: Order)
    requires Untied(es, leq)
    ensures Untied(NormEntries(es, leq), leq)
  {
    hide Norm;
    var ns := NormEntries(es, leq);
    forall x, y | x in ns && y in ns && Tie(x.key, y.key, leq)
      ensures x.key == y.key
    {
      var i :| 0 <= i < |ns| && ns[i] == x;
      var j :| 0 <= j < |ns| && ns[j] == y;
      assert es[i] in es && es[j] in es;
    }
  }

  lemma SameSorted(ns: seq<Entry>, ms: seq<Entry>, leq: Order)
    requires TotalPreorder(leq) && Untied(ns, leq) && DistinctKeys(ns) && DistinctKeys(ms)
    requires (forall i :: 0 <= i < |ns| ==> ns[i] in ms) && (forall j :: 0 <= j < |ms| ==> ms[j] in ns)
    ensures Sort(ns, leq) == Sort(ms, leq)
  {
    hide Sort, TotalPreorder;
    SortFacts(ns, leq);
    SortFacts(ms, leq);
    SameSize(ns, ms);
    SortedUnique(Sort(ns, leq), Sort(ms, leq), leq);
  }

  function EntrySet(es: seq<Entry>): set<Entry> { set i | 0 <= i < |es| :: es[i] }

  lemma {:induction false} EntryCount(es: seq<Entry>)
    requires DistinctKeys(es)
    ensures |EntrySet(es)| == |es|
  {
    if |es| > 0 {
      var n := |es| - 1;
      EntryCount(es[..n]);
      assert EntrySet(es) == EntrySet(es[..n]) + {es[n]};
      assert es[n] !in EntrySet(es[..n]);
    }
  }

  lemma SameSize(ns: seq<Entry>, ms: seq<Entry>)
    requires DistinctKeys(ns) && DistinctKeys(ms)
    requires (forall i :: 0 <= i < |ns| ==> ns[i] in ms) && (forall j :: 0 <= j < |ms| ==> ms[j] in ns)
    ensures |ns| == |ms|
  {
    EntryCount(ns);
    EntryCount(ms);
    assert EntrySet(ns) == EntrySet(ms);
  }

  // ----- the fingerprint -----

  function Stable(j: Json, leq: Order): Text
    requires Printable(Norm(j, leq))
  {
    Render(Norm(j, leq))
  }

  /** Different meanings have different fingerprints, whatever the order of keys. */
  lemma StableInjective(a: Json, b: Json, leq: Order)
    requires Wellformed(a) && Wellformed(b)
    ensures Printable(Norm(a, leq)) && Printable(Norm(b, leq))
    ensures Stable(a, leq) == Stable(b, leq) ==> Meaning(a) == Meaning(b)
  {
    NormKeeps(a, leq);
    NormKeeps(b, leq);
    SameTextIff(a, b, leq);
  }

  /** If no keys of `a` tie, another request has its fingerprint exactly when it is equal up to the order of keys. */
  lemma Canonical(a: Json, b: Json, leq: Order)
    requires Wellformed(a) && Wellformed(b) && TotalPreorder(leq) && NoTies(a, leq)
    ensures Printable(Norm(a, leq)) && Printable(Norm(b, leq))
    ensures Stable(a, leq) == Stable(b, leq) <==> Meaning(a) == Meaning(b)
  {
    StableInjective(a, b, leq);
    if Meaning(a) == Meaning(b) { SameNorm(a, b, leq); }
  }

  /** Two requests have the same fingerprint. */
  ghost predicate SameText(a: Json, b: Json, leq: Order) {
    Printable(Norm(a, leq)) && Printable(Norm(b, leq)) && Stable(a, leq) == Stable(b, leq)
  }

  /** With any comparison: fingerprints agree exactly when the sorted forms do, and then the requests mean the same. */
  lemma SameTextIff(a: Json, b: Json, leq: Order)
    requires Wellformed(a) && Wellformed(b)
    ensures SameText(a, b, leq) <==> Norm(a, leq) == Norm(b, leq)
    ensures SameText(a, b, leq) ==> Meaning(a) == Meaning(b)
  {
    NormKeeps(a, leq);
    NormKeeps(b, leq);
    if SameText(a, b, leq) {
      hide Render, Norm, Meaning, Printable;
      assert Render(Norm(a, leq)) + [] == Render(Norm(b, leq)) + [];
      RenderPrefix(Norm(a, leq), Norm(b, leq), [], []);
    }
  }

  function Pair(x: Text, y: Text): Json { Obj([Entry(x, Null), Entry(y, Null)]) }

  lemma PairMeaning(x: Text, y: Text)
    requires x != y && UnitText(x) && UnitText(y)
    ensures Wellformed(Pair(x, y)) && Meaning(Pair(x, y)) == VObj(map[x := VNull, y := VNull])
  {
    hide UnitText;
    var es := [Entry(x, Null), Entry(y, Null)];
    assert es[..1] == [es[0]] && es[..1][..0] == [];
    assert MeaningOf(es[..1]) == map[x := VNull];
    assert MeaningOf(es) == map[x := VNull, y := VNull];
    assert forall i :: 0 <= i < |es| ==> UnitText(es[i].key) && es[i].value == Null;
    assert Printable(Null) && KeysDistinct(Null);
    assert Printable(Obj(es)) && KeysDistinct(Obj(es));
  }

  /** Two keys that tie keep the order they came in. */
  lemma TieKeepsOrder(x: Text, y: Text, leq: Order)
    requires x != y && leq(x, y) && leq(y, x) && UnitText(x) && UnitText(y)
    ensures Wellformed(Pair(x, y)) && Wellformed(Pair(y, x)) && Meaning(Pair(x, y)) == Meaning(Pair(y, x))
    ensures !SameText(Pair(x, y), Pair(y, x), leq)
  {
    hide Norm, SameText, Wellformed, Meaning, UnitText;
    PairSorted(x, y, leq);
    PairSorted(y, x, leq);
    PairMeaning(x, y);
    PairMeaning(y, x);
    assert Pair(x, y).entries[0].key == x && Pair(y, x).entries[0].key == y;
    SameTextIff(Pair(x, y), Pair(y, x), leq);
  }

  lemma PairSorted(x: Text, y: Text, leq: Order)
    requires leq(x, y)
    ensures Norm(Pair(x, y), leq) == Pair(x, y)
  {
    var es := [Entry(x, Null), Entry(y, Null)];
    var ns := NormEntries(es, leq);
    assert ns == es;
    assert es[..1] == [es[0]] && es[..1][..0] == [];
    assert Sort(es[..1], leq) == [es[0]];
    assert Sort(es, leq) == es;
  }

  // ----- and only then -----

  /** Somewhere in `es`, key `x` stands before key `y`. */
  ghost predicate Precedes(es: seq<Entry>, x: Text, y: Text) {
    exists i, j :: 0 <= i < j < |es| && es[i].key == x && es[j].key == y
  }

  lemma PrecedesMore(es: seq<Entry>, fs: seq<Entry>, x: Text, y: Text)
    requires Precedes(es, x, y)
    ensures Precedes(es + fs, x, y)
  {
    var i, j :| 0 <= i < j < |es| && es[i].key == x && es[j].key == y;
    assert (es + fs)[i].key == x && (es + fs)[j].key == y;
  }

  lemma {:induction false} InsertKeepsOrder(es: seq<Entry>, e: Entry, leq: Order, x: Text, y: Text)
    requires Precedes(es, x, y)
    ensures Precedes(Insert(es, e, leq), x, y)
  {
    var n := |es| - 1;
    if leq(es[n].key, e.key) {
      PrecedesMore(es, [e], x, y);
    } else {
      var i, j :| 0 <= i < j < |es| && es[i].key == x && es[j].key == y;
      var r := Insert(es[..n], e, leq);
      if j < n {
        assert es[..n][i].key == x && es[..n][j].key == y;
        InsertKeepsOrder(es[..n], e, leq, x, y);
        PrecedesMore(r, [es[n]], x, y);
      } else {
        InsertFacts(es[..n], e, leq);
        assert es[..n][i] in r;
        var k :| 0 <= k < |r| && r[k] == es[i];
        assert (r + [es[n]])[k].key == x && (r + [es[n]])[|r|].key == y;
      }
    }
  }

  /** What does not come after the new entry stays before it. */
  lemma {:induction false} InsertAfter(es: seq<Entry>, e: Entry, leq: Order, i: nat)
    requires i < |es| && leq(es[i].key, e.key)
    ensures Precedes(Insert(es, e, leq), es[i].key, e.key)
  {
    var n := |es| - 1;
    if leq(es[n].key, e.key) {
      assert (es + [e])[i].key == es[i].key && (es + [e])[|es|].key == e.key;
    } else {
      InsertAfter(es[..n], e, leq, i);
      PrecedesMore(Insert(es[..n], e, leq), [es[n]], es[i].key, e.key);
    }
  }

  /** The sort is stable: an entry that does not compare greater stays before a later one. */
  lemma {:induction false} SortStable(es: seq<Entry>, leq: Order, p: nat, q: nat)
    requires p < q < |es| && leq(es[p].key, es[q].key)
    ensures Precedes(Sort(es, leq), es[p].key, es[q].key)
  {
    var n := |es| - 1;
    var r := Sort(es[..n], leq);
    if q < n {
      SortStable(es[..n], leq, p, q);
      InsertKeepsOrder(r, es[n], leq, es[p].key, es[q].key);
    } else {
      SortFacts(es[..n], leq);
      assert es[..n][p] in r;
      var i :| 0 <= i < |r| && r[i] == es[p];
      InsertAfter(r, es[n], leq, i);
    }
  }

  lemma OneOrder(es: seq<Entry>, x: Text, y: Text)
    requires DistinctKeys(es) && Precedes(es, x, y)
    ensures !Precedes(es, y, x)
  {
  }

  function Swapped(es: seq<Entry>, p: nat, q: nat): seq<Entry>
    requires p < q < |es|
  {
    es[p := es[q]][q := es[p]]
  }

  lemma SwapKeeps(es: seq<Entry>, p: nat, q: nat)
    requires p < q < |es| && Wellformed(Obj(es))
    ensures Wellformed(Obj(Swapped(es, p, q))) && MeaningOf(Swapped(es, p, q)) == MeaningOf(es)
  {
    var fs := Swapped(es, p, q);
    assert forall i :: 0 <= i < |fs| ==> fs[i] == es[if i == p then q else if i == q then p else i];
    assert Wellformed(Obj(fs));
    hide Meaning, MeaningOf, Wellformed, Printable;
    forall i | 0 <= i < |es|
      ensures HasBinding(fs, es[i].key, Meaning(es[i].value))
    {
      assert fs[if i == p then q else if i == q then p else i] == es[i];
    }
    forall j | 0 <= j < |fs|
      ensures HasKey(es, fs[j].key)
    {
      assert es[if j == p then q else if j == q then p else j] == fs[j];
    }
    SameBindings(es, fs);
  }

  /** Two tied keys the other way round give another form of the same object. */
  lemma SwapDiffers(es: seq<Entry>, leq: Order, p: nat, q: nat)
    requires p < q < |es| && DistinctKeys(es) && Tie(es[p].key, es[q].key, leq)
    ensures Norm(Obj(es), leq) != Norm(Obj(Swapped(es, p, q)), leq)
  {
    var fs := Swapped(es, p, q);
    var ns, ms := NormEntries(es, leq), NormEntries(fs, leq);
    assert Norm(Obj(es), leq) == Obj(Sort(ns, leq)) && Norm(Obj(fs), leq) == Obj(Sort(ms, leq));
    hide Norm, Sort;
    SortStable(ns, leq, p, q);
    SortStable(ms, leq, p, q);
    SortFacts(ns, leq);
    OneOrder(Sort(ns, leq), es[p].key, es[q].key);
  }

  lemma ItemDiffers(items: seq<Json>, i: nat, twin: Json, leq: Order)
    requires i < |items| && Wellformed(Arr(items)) && Wellformed(twin)
    requires Meaning(twin) == Meaning(items[i]) && Norm(twin, leq) != Norm(items[i], leq)
    ensures var b := Arr(items[i := twin]);
      Wellformed(b) && Meaning(b) == Meaning(Arr(items)) && Norm(b, leq) != Norm(Arr(items), leq)
  {
    var b := Arr(items[i := twin]);
    assert Norm(b, leq).items[i] == Norm(twin, leq) && Norm(Arr(items), leq).items[i] == Norm(items[i], leq);
    assert Meaning(b).vs == Meaning(Arr(items)).vs;
  }

  lemma ValueDiffers(es: seq<Entry>, i: nat, twin: Json, leq: Order)
    requires i < |es| && Wellformed(Obj(es)) && Wellformed(twin)
    requires Meaning(twin) == Meaning(es[i].value) && Norm(twin, leq) != Norm(es[i].value, leq)
    ensures var b := Obj(es[i := Entry(es[i].key, twin)]);
      Wellformed(b) && Meaning(b) == Meaning(Obj(es)) && Norm(b, leq) != Norm(Obj(es), leq)
  {
    var fs := es[i := Entry(es[i].key, twin)];
    assert Wellformed(Obj(fs));
    ValueMeaning(es, fs, i);
    var ns, ms := NormEntries(es, leq), NormEntries(fs, leq);
    assert Norm(Obj(es), leq) == Obj(Sort(ns, leq)) && Norm(Obj(fs), leq) == Obj(Sort(ms, leq));
    hide Norm, Sort, Meaning, MeaningOf;
    SortFacts(ns, leq);
    SortFacts(ms, leq);
    assert ms[i] in ms;
    forall k | 0 <= k < |ns|
      ensures ns[k] != ms[i]
    {
      assert k != i ==> ns[k].key != ms[i].key;
    }
    assert ms[i] !in ns;
  }

  lemma ValueMeaning(es: seq<Entry>, fs: seq<Entry>, i: nat)
    requires i < |es| == |fs| && DistinctKeys(es) && DistinctKeys(fs)
    requires forall k :: 0 <= k < |es| ==> fs[k].key == es[k].key && Meaning(fs[k].value) == Meaning(es[k].value)
    ensures MeaningOf(es) == MeaningOf(fs)
  {
    hide Meaning, MeaningOf;
    forall k | 0 <= k < |es|
      ensures HasBinding(fs, es[k].key, Meaning(es[k].value)) && HasKey(es, fs[k].key)
    {
      assert fs[k].key == es[k].key;
    }
    SameBindings(es, fs);
  }

  /** A request with tied keys has an equal one, up to the order of keys, with another form. */
  lemma {:induction false} TiedTwin(a: Json, leq: Order) returns (b: Json)
    requires Wellformed(a) && !NoTies(a, leq)
    ensures Wellformed(b) && Meaning(b) == Meaning(a) && Norm(b, leq) != Norm(a, leq)
    decreases a, 1
  {
    match a
    case Arr(items) =>
      var i :| 0 <= i < |items| && !NoTies(items[i], leq);
      var twin := TiedTwin(items[i], leq);
      ItemDiffers(items, i, twin, leq);
      b := Arr(items[i := twin]);
    case Obj(es) =>
      b := TiedObject(es, leq);
  }

  lemma TiedObject(es: seq<Entry>, leq: Order) returns (b: Json)
    requires Wellformed(Obj(es)) && !NoTies(Obj(es), leq)
    ensures Wellformed(b) && Meaning(b) == Meaning(Obj(es)) && Norm(b, leq) != Norm(Obj(es), leq)
    decreases es, 2
  {
    if Untied(es, leq) {
      var i :| 0 <= i < |es| && !NoTies(es[i].value, leq);
      var twin := TiedTwin(es[i].value, leq);
      ValueDiffers(es, i, twin, leq);
      b := Obj(es[i := Entry(es[i].key, twin)]);
    } else {
      var x, y :| x in es && y in es && Tie(x.key, y.key, leq) && x.key != y.key;
      var i :| 0 <= i < |es| && es[i] == x;
      var j :| 0 <= j < |es| && es[j] == y;
      var p, q := if i < j then i else j, if i < j then j else i;
      SwapKeeps(es, p, q);
      SwapDiffers(es, leq, p, q);
      b := Obj(Swapped(es, p, q));
    }
  }

  /** Every request equal to `a` up to the order of keys has its fingerprint. */
  ghost predicate OrderBlind(a: Json, leq: Order) {
    forall b :: Wellformed(b) && Meaning(b) == Meaning(a) ==> SameText(a, b, leq)
  }

  /** The order of a request's keys does not show in its fingerprint if and only if none of its keys tie. */
  lemma CanonicalIff(a: Json, leq: Order)
    requires Wellformed(a) && TotalPreorder(leq)
    ensures OrderBlind(a, leq) <==> NoTies(a, leq)
  {
    hide Norm, SameText, Wellformed, Meaning, NoTies;
    if NoTies(a, leq) {
      forall b | Wellformed(b) && Meaning(b) == Meaning(a)
        ensures SameText(a, b, leq)
      {
        SameNorm(a, b, leq);
        SameTextIff(a, b, leq);
      }
    } else {
      var b := TiedTwin(a, leq);
      SameTextIff(a, b, leq);
    }
  }

  /** Every key of the value is one of `names`. */
  ghost predicate KeysWithin(j: Json, names: set<Text>) {
    match j
    case Arr(items) => forall i :: 0 <= i < |items| ==> KeysWithin(items[i], names)
    case Obj(es) => forall i :: 0 <= i < |es| ==> es[i].key in names && KeysWithin(es[i].value, names)
    case _ => true
  }

  /** A request whose keys come from a fixed list of names that do not tie has no ties. */
  lemma {:induction false} NamesUntied(j: Json, names: set<Text>, leq: Order)
    requires KeysWithin(j, names) && forall x, y :: x in names && y in names && Tie(x, y, leq) ==> x == y
    ensures NoTies(j, leq)
    decreases j
  {
    match j
    case Arr(items) =>
      forall i | 0 <= i < |items|
        ensures NoTies(items[i], leq)
      {
        NamesUntied(items[i], names, leq);
      }
    case Obj(es) =>
      forall i | 0 <= i < |es|
        ensures NoTies(es[i].value, leq)
      {
        NamesUntied(es[i].value, names, leq);
      }
    case _ =>
  }
}

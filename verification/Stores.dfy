/** The flat key/value form of a multimap: building it, writing it into a stored table, and walking
    it with nothing but a tag. */
module Stores {
  import opened Scheme
  import opened MultiMaps

  type Store = map<string, string>

  /** Where entry `i` of key `k` is stored. */
  function EntryLabel(s: Scheme, k: string, i: nat): string {
    Label(s, Tag(s, k), i)
  }

  /** The keys and counters of `mm` lie in the scope of the collision assumption. */
  ghost predicate Fits(s: Scheme, mm: MultiMap) {
    (forall k :: k in mm ==> Tag(s, k) in s.tags) && Total(mm) <= s.limit
  }

  ghost predicate IsEntry(s: Scheme, mm: MultiMap, lab: string, value: string) {
    exists k, i: nat :: k in mm && i < |mm[k]| && lab == EntryLabel(s, k, i) && value == mm[k][i]
  }

  /** `store` holds every entry of `mm` under its label, and nothing else. */
  ghost predicate IsFlat(s: Scheme, mm: MultiMap, store: Store) {
    && (forall k, i: nat {:trigger EntryLabel(s, k, i)} :: k in mm && i < |mm[k]| ==>
          EntryLabel(s, k, i) in store && store[EntryLabel(s, k, i)] == mm[k][i])
    && (forall l :: l in store ==> IsEntry(s, mm, l, store[l]))
  }

  /** Labels of entries in the scope determine key and counter. */
  ghost predicate EntriesDistinct(s: Scheme) {
    forall k, i: nat, l, j: nat {:trigger EntryLabel(s, k, i), EntryLabel(s, l, j)} ::
      (&& Tag(s, k) in s.tags && Tag(s, l) in s.tags && i <= s.limit && j <= s.limit
       && EntryLabel(s, k, i) == EntryLabel(s, l, j))
      ==> k == l && i == j
  }

  lemma EntriesAreDistinct(s: Scheme)
    requires Assumptions(s)
    ensures EntriesDistinct(s)
  {
    LabelsAreDistinct(s);
    forall k, i: nat, l, j: nat
      | && Tag(s, k) in s.tags && Tag(s, l) in s.tags && i <= s.limit && j <= s.limit
        && EntryLabel(s, k, i) == EntryLabel(s, l, j)
      ensures k == l && i == j
    {
      TagInjective(s, k, l);
    }
  }

  // ----- building -----

  /** The encrypted multimap of the client: a map, and the labels in order of insertion. */
  class EncryptedMultiMap {
    var kvMap: Store
    var keys: seq<string>

    ghost predicate Valid()
      reads this
    {
      forall l :: l in keys <==> l in kvMap
    }

    constructor ()
      ensures Valid() && kvMap == map[] && keys == []
    {
      kvMap, keys := map[], [];
    }

    /** `std::map::insert` keeps the value of a label that is already there. */
    method Insert(key: string, value: string)
      requires Valid()
      modifies this
      ensures Valid() && keys == old(keys) + [key]
      ensures kvMap == if key in old(kvMap) then old(kvMap) else old(kvMap)[key := value]
    {
      if key !in kvMap {
        kvMap := kvMap[key := value];
      }
      keys := keys + [key];
    }
  }

  lemma NewLabelIsFree(s: Scheme, mm: MultiMap, store: Store, key: string, value: string)
    requires EntriesDistinct(s) && IsFlat(s, mm, store)
    requires Fits(s, mm[key := Get(mm, key) + [value]])
    ensures EntryLabel(s, key, |Get(mm, key)|) !in store
  {
    hide EntryLabel, Total;
    var n := |Get(mm, key)|;
    var nn := mm[key := Get(mm, key) + [value]];
    ListAtMostTotal(nn, key);
    forall l | l in store ensures l != EntryLabel(s, key, n) {
      assert IsEntry(s, mm, l, store[l]);
      var k, i: nat :| k in mm && i < |mm[k]| && l == EntryLabel(s, k, i);
      ListAtMostTotal(nn, k);
      assert k in nn && i < |nn[k]| && !(k == key && i == n);
    }
  }

  /** Appending an entry to a list adds one label that was free before. */
  lemma FlatAppend(s: Scheme, mm: MultiMap, store: Store, key: string, value: string)
    requires EntriesDistinct(s) && IsFlat(s, mm, store)
    requires Fits(s, mm[key := Get(mm, key) + [value]])
    ensures EntryLabel(s, key, |Get(mm, key)|) !in store
    ensures IsFlat(s, mm[key := Get(mm, key) + [value]], store[EntryLabel(s, key, |Get(mm, key)|) := value])
  {
    hide EntryLabel;
    var n := |Get(mm, key)|;
    var lab := EntryLabel(s, key, n);
    var nn := mm[key := Get(mm, key) + [value]];
    assert nn[key][n] == value;
    NewLabelIsFree(s, mm, store, key, value);
    var grown := store[lab := value];
    forall l | l in grown ensures IsEntry(s, nn, l, grown[l]) {
      if l != lab {
        var k, i: nat :| k in mm && i < |mm[k]| && l == EntryLabel(s, k, i) && store[l] == mm[k][i];
        assert k in nn && nn[k][i] == mm[k][i];
      }
    }
    forall k, i: nat | k in nn && i < |nn[k]|
      ensures EntryLabel(s, k, i) in grown && grown[EntryLabel(s, k, i)] == nn[k][i]
    {
      if !(k == key && i == n) {
        assert k in mm && i < |mm[k]| && nn[k][i] == mm[k][i];
      }
    }
  }

  lemma PartFits(s: Scheme, whole: MultiMap, part: MultiMap)
    requires Fits(s, whole) && part.Keys <= whole.Keys
    requires forall k :: k in part ==> |part[k]| <= |whole[k]|
    ensures Fits(s, part) && Total(part) <= Total(whole)
    decreases |part|
  {
    if part != map[] {
      var k :| k in part && Total(part) == |part[k]| + Total(part - {k});
      TotalSplit(whole, k);
      assert Fits(s, whole - {k});
      PartFits(s, whole - {k}, part - {k});
    }
  }

  lemma FlatEmpty(s: Scheme)
    ensures IsFlat(s, map[], map[]) && Total(map[]) == 0
  {
  }

  /** Entering a key with an empty list changes nothing in the flat form. */
  lemma FlatNewKey(s: Scheme, mm: MultiMap, store: Store, key: string)
    requires IsFlat(s, mm, store) && key !in mm
    ensures IsFlat(s, mm[key := []], store) && Total(mm[key := []]) == Total(mm)
  {
    var nn := mm[key := []];
    TotalAppend(mm, key, []);
    assert nn == mm[key := Get(mm, key) + []] by {
      assert Get(mm, key) + [] == [];
    }
    forall l | l in store ensures IsEntry(s, nn, l, store[l]) {
      assert IsEntry(s, mm, l, store[l]);
    }
  }

  /** One turn of the inner loop of `setup`. */
  lemma FlatStep(s: Scheme, whole: MultiMap, done: MultiMap, store: Store, key: string, i: nat)
    requires EntriesDistinct(s) && Fits(s, whole) && key in whole && key !in done && i < |whole[key]|
    requires done.Keys <= whole.Keys && forall k :: k in done ==> done[k] == whole[k]
    requires IsFlat(s, done[key := whole[key][..i]], store)
    ensures Label(s, Tag(s, key), i) !in store
    ensures IsFlat(s, done[key := whole[key][..i + 1]], store[Label(s, Tag(s, key), i) := whole[key][i]])
    ensures Total(done[key := whole[key][..i + 1]]) == Total(done[key := whole[key][..i]]) + 1
  {
    var flat, next := done[key := whole[key][..i]], done[key := whole[key][..i + 1]];
    assert whole[key][..i + 1] == whole[key][..i] + [whole[key][i]];
    assert next == flat[key := Get(flat, key) + [whole[key][i]]];
    PartFits(s, whole, next);
    FlatAppend(s, flat, store, key, whole[key][i]);
    TotalAppend(flat, key, [whole[key][i]]);
  }

  /** `EncryptManager::setup`. The flat map has one entry for each list entry: no insertion finds its
      label taken. */
  method Setup(s: Scheme, mm: RowMultiMap) returns (emm: EncryptedMultiMap)
    requires EntriesDistinct(s) && mm.Valid() && Fits(s, mm.maps)
    ensures fresh(emm) && emm.Valid()
    ensures IsFlat(s, mm.maps, emm.kvMap)
    ensures |emm.kvMap| == |emm.keys| == Total(mm.maps)
  {
    hide EntryLabel, Label, Tag, IsFlat, Fits, Total, EntriesDistinct;
    emm := new EncryptedMultiMap();
    FlatEmpty(s);
    var keys := mm.GetKeys();
    ghost var done: MultiMap := map[];
    for n := 0 to |keys|
      invariant forall k :: k in done <==> k in keys[..n]
      invariant forall k :: k in done ==> done[k] == mm.maps[k]
      invariant emm.Valid() && IsFlat(s, done, emm.kvMap)
      invariant |emm.kvMap| == |emm.keys| == Total(done)
    {
      var data := mm.maps[keys[n]];
      FlatNewKey(s, done, emm.kvMap, keys[n]);
      assert data[..0] == [];
      for i := 0 to |data|
        invariant emm.Valid() && IsFlat(s, done[keys[n] := data[..i]], emm.kvMap)
        invariant |emm.kvMap| == |emm.keys| == Total(done[keys[n] := data[..i]])
      {
        FlatStep(s, mm.maps, done, emm.kvMap, keys[n], i);
        var key := Tag(s, keys[n]);
        var encKwiHex := Label(s, key, i);
        emm.Insert(encKwiHex, data[i]);
      }
      assert data[..|data|] == data;
      done := done[keys[n] := data];
      assert keys[..n + 1] == keys[..n] + [keys[n]];
    }
    assert keys[..|keys|] == keys;
    assert done == mm.maps;
  }

  // ----- writing into a stored table -----

  type StoredTables = map<string, Store>

  /** The rows of a stored table, none while it has not been created. */
  function RowsOf(tables: StoredTables, name: string): Store {
    if name in tables then tables[name] else map[]
  }

  /** The part of a map that lies under the given labels. */
  function Part(m: Store, labels: seq<string>): Store {
    map l | l in labels && l in m :: m[l]
  }

  lemma PartGrows(before: Store, m: Store, labels: seq<string>, l: string)
    requires l in m
    ensures before + Part(m, labels + [l]) == (before + Part(m, labels))[l := m[l]]
  {
  }

  lemma Reassign(tables: StoredTables, name: string, a: Store, b: Store)
    ensures tables[name := a][name := b] == tables[name := b]
  {
  }

  /** The database: by name, tables with a label column under a primary key and a value column. */
  class Database {
    var tables: StoredTables

    constructor ()
      ensures tables == map[]
    {
      tables := map[];
    }

    /** `createTableIfNotExsit`. */
    method CreateTableIfNotExist(name: string)
      modifies this
      ensures tables == old(tables)[name := RowsOf(old(tables), name)]
    {
      if name !in tables {
        tables := tables[name := map[]];
      }
    }

    /** `insertIntoSql`: `ON CONFLICT DO UPDATE`. */
    method InsertIntoSql(key: string, value: string, targetTable: string)
      requires targetTable in tables
      modifies this
      ensures tables == old(tables)[targetTable := old(tables)[targetTable][key := value]]
    {
      tables := tables[targetTable := tables[targetTable][key := value]];
    }

    /** `insertEMM`: one upsert for each label. The result is the old table overridden by the new
        entries, in whatever order the labels come and however often one is repeated. */
    method InsertEMM(emm: EncryptedMultiMap, targetTable: string)
      requires emm.Valid()
      modifies this
      ensures tables == old(tables)[targetTable := RowsOf(old(tables), targetTable) + emm.kvMap]
    {
      hide RowsOf;
      ghost var before := RowsOf(tables, targetTable);
      CreateTableIfNotExist(targetTable);
      var keys := emm.keys;
      ghost var done: Store := before;
      for n := 0 to |keys|
        invariant tables == old(tables)[targetTable := done]
        invariant done == before + Part(emm.kvMap, keys[..n])
      {
        var key := keys[n];
        InsertIntoSql(key, emm.kvMap[key], targetTable);
        Reassign(old(tables), targetTable, done, done[key := emm.kvMap[key]]);
        PartGrows(before, emm.kvMap, keys[..n], key);
        done := done[key := emm.kvMap[key]];
        assert keys[..n + 1] == keys[..n] + [key];
      }
      assert keys[..|keys|] == keys;
      assert emm.kvMap == Part(emm.kvMap, keys);
    }
  }

  /** A label is in the flat store exactly when its counter is below the length of the list. */
  lemma HitIff(s: Scheme, mm: MultiMap, store: Store, key: string, n: nat)
    requires EntriesDistinct(s) && IsFlat(s, mm, store) && Fits(s, mm)
    requires Tag(s, key) in s.tags && n <= s.limit
    ensures EntryLabel(s, key, n) in store <==> n < |Get(mm, key)|
    ensures n < |Get(mm, key)| ==> store[EntryLabel(s, key, n)] == Get(mm, key)[n]
  {
    hide EntryLabel;
    var lab := EntryLabel(s, key, n);
    if lab in store {
      var k, i: nat :| k in mm && i < |mm[k]| && lab == EntryLabel(s, k, i);
      ListAtMostTotal(mm, k);
      assert k == key && i == n;
    }
  }

  lemma OverlayStores(s: Scheme, prior: MultiMap, store: Store, next: MultiMap, emm: Store, k: string, i: nat)
    requires EntriesDistinct(s) && IsFlat(s, prior, store) && IsFlat(s, next, emm)
    requires Fits(s, Overlay(prior, next)) && Fits(s, prior) && Fits(s, next)
    requires k in Overlay(prior, next) && i < |Overlay(prior, next)[k]|
    ensures EntryLabel(s, k, i) in store + emm
    ensures (store + emm)[EntryLabel(s, k, i)] == Overlay(prior, next)[k][i]
  {
    hide EntryLabel, IsFlat, EntriesDistinct, Total;
    ListAtMostTotal(Overlay(prior, next), k);
    HitIff(s, next, emm, k, i);
    HitIff(s, prior, store, k, i);
  }

  lemma EntryOf(s: Scheme, mm: MultiMap, store: Store, lab: string) returns (k: string, i: nat)
    requires IsFlat(s, mm, store) && lab in store
    ensures k in mm && i < |mm[k]| && lab == EntryLabel(s, k, i) && store[lab] == mm[k][i]
  {
    hide EntryLabel;
    assert IsEntry(s, mm, lab, store[lab]);
    k, i :| k in mm && i < |mm[k]| && lab == EntryLabel(s, k, i) && store[lab] == mm[k][i];
  }

  lemma OverlayOnly(s: Scheme, prior: MultiMap, store: Store, next: MultiMap, emm: Store, lab: string)
    requires IsFlat(s, prior, store) && IsFlat(s, next, emm) && lab in store + emm
    ensures IsEntry(s, Overlay(prior, next), lab, (store + emm)[lab])
  {
    hide EntryLabel, IsFlat;
    var mm := Overlay(prior, next);
    if lab in emm {
      var k, i := EntryOf(s, next, emm, lab);
      assert k in mm && i < |mm[k]| && mm[k][i] == next[k][i];
    } else {
      var k, i := EntryOf(s, prior, store, lab);
      FlatHit(s, next, emm, k, i);
      assert k in mm && i < |mm[k]| && mm[k][i] == prior[k][i];
    }
  }

  lemma FlatHit(s: Scheme, mm: MultiMap, store: Store, k: string, i: nat)
    requires IsFlat(s, mm, store)
    ensures i < |Get(mm, k)| ==> EntryLabel(s, k, i) in store
  {
  }

  /** Overriding a flat store by another is flat for the overlaid multimap: this is the law of a
      repeated upload. */
  lemma FlatOverlay(s: Scheme, prior: MultiMap, store: Store, next: MultiMap, emm: Store)
    requires EntriesDistinct(s) && IsFlat(s, prior, store) && IsFlat(s, next, emm)
    requires Fits(s, Overlay(prior, next))
    ensures IsFlat(s, Overlay(prior, next), store + emm)
  {
    var mm := Overlay(prior, next);
    PartFits(s, mm, prior);
    PartFits(s, mm, next);
    forall k, i: nat | k in mm && i < |mm[k]|
      ensures EntryLabel(s, k, i) in store + emm && (store + emm)[EntryLabel(s, k, i)] == mm[k][i]
    {
      OverlayStores(s, prior, store, next, emm, k, i);
    }
    forall lab | lab in store + emm ensures IsEntry(s, mm, lab, (store + emm)[lab]) {
      OverlayOnly(s, prior, store, next, emm, lab);
    }
  }

  /** Taking the labels of one key out of a flat store takes out its whole list. */
  lemma WithoutKeySize(s: Scheme, mm: MultiMap, store: Store, key: string)
    requires EntriesDistinct(s) && LabelsDistinct(s) && IsFlat(s, mm, store) && Fits(s, mm) && key in mm
    ensures |store| == |store - LabelsBelow(s, Tag(s, key), |mm[key]|)| + |mm[key]|
  {
    hide Label, EntriesDistinct, Total;
    var labels := LabelsBelow(s, Tag(s, key), |mm[key]|);
    ListAtMostTotal(mm, key);
    forall i: nat | i < |mm[key]| ensures Label(s, Tag(s, key), i) in store {
      assert EntryLabel(s, key, i) in store;
    }
    HitsAreBounded(s, store, Tag(s, key), |mm[key]|);
    assert (store - labels).Keys == store.Keys - labels && labels <= store.Keys;
  }

  lemma WithoutKeyStores(s: Scheme, mm: MultiMap, store: Store, key: string, k: string, i: nat)
    requires EntriesDistinct(s) && IsFlat(s, mm, store) && Fits(s, mm) && key in mm
    requires k in mm && k != key && i < |mm[k]|
    ensures EntryLabel(s, k, i) in store - LabelsBelow(s, Tag(s, key), |mm[key]|)
  {
    hide Label, EntryLabel, Total, IsFlat, EntriesDistinct;
    ListAtMostTotal(mm, k);
    ListAtMostTotal(mm, key);
    HitIff(s, mm, store, k, i);
    forall j: nat | j < |mm[key]| ensures EntryLabel(s, k, i) != Label(s, Tag(s, key), j) {
      EntryLabelsDiffer(s, k, i, key, j);
    }
  }

  lemma WithoutKeyFlat(s: Scheme, mm: MultiMap, store: Store, key: string)
    requires EntriesDistinct(s) && IsFlat(s, mm, store) && Fits(s, mm) && key in mm
    ensures IsFlat(s, mm - {key}, store - LabelsBelow(s, Tag(s, key), |mm[key]|))
  {
    hide Label, EntriesDistinct, Fits;
    var rest, less := mm - {key}, store - LabelsBelow(s, Tag(s, key), |mm[key]|);
    forall l | l in less ensures IsEntry(s, rest, l, less[l]) {
      var k, i: nat :| k in mm && i < |mm[k]| && l == EntryLabel(s, k, i) && store[l] == mm[k][i];
      assert k != key;
    }
    forall k, i: nat | k in rest && i < |rest[k]|
      ensures EntryLabel(s, k, i) in less && less[EntryLabel(s, k, i)] == rest[k][i]
    {
      WithoutKeyStores(s, mm, store, key, k, i);
    }
  }

  lemma EntryLabelsDiffer(s: Scheme, k: string, i: nat, l: string, j: nat)
    requires EntriesDistinct(s) && Tag(s, k) in s.tags && Tag(s, l) in s.tags && i <= s.limit && j <= s.limit
    requires k != l
    ensures EntryLabel(s, k, i) != Label(s, Tag(s, l), j)
  {
    hide Label;
    assert EntryLabel(s, l, j) == Label(s, Tag(s, l), j);
  }

  /** Conservation: a flat store has as many rows as the multimap has list entries. */
  lemma {:induction false} FlatSize(s: Scheme, mm: MultiMap, store: Store)
    requires EntriesDistinct(s) && LabelsDistinct(s) && IsFlat(s, mm, store) && Fits(s, mm)
    ensures |store| == Total(mm)
    decreases |mm|
  {
    hide Label, EntryLabel, EntriesDistinct, LabelsDistinct;
    if mm == map[] {
      assert forall l :: l in store ==> IsEntry(s, mm, l, store[l]);
      assert store == map[];
    } else {
      var k :| k in mm;
      WithoutKeyFlat(s, mm, store, k);
      WithoutKeySize(s, mm, store, k);
      TotalSplit(mm, k);
      PartFits(s, mm, mm - {k});
      FlatSize(s, mm - {k}, store - LabelsBelow(s, Tag(s, k), |mm[k]|));
    }
  }

  // ----- walking -----

  function LabelsBelow(s: Scheme, tag: string, n: nat): set<string> {
    set i: nat | i < n :: Label(s, tag, i)
  }

  lemma {:induction false} LabelsCount(s: Scheme, tag: string, n: nat)
    requires LabelsDistinct(s) && tag in s.tags && n <= s.limit + 1
    ensures |LabelsBelow(s, tag, n)| == n
  {
    hide Label, LabelsDistinct;
    if n > 0 {
      LabelsCount(s, tag, n - 1);
      OneMoreLabel(s, tag, n - 1);
    }
  }

  lemma OneMoreLabel(s: Scheme, tag: string, n: nat)
    requires LabelsDistinct(s) && tag in s.tags && n <= s.limit
    ensures LabelsBelow(s, tag, n + 1) == LabelsBelow(s, tag, n) + {Label(s, tag, n)}
    ensures Label(s, tag, n) !in LabelsBelow(s, tag, n)
  {
    hide Label;
  }

  /** Pigeonhole: labels of one tag that have all been found are different members of the store. */
  lemma HitsAreBounded(s: Scheme, store: Store, tag: string, n: nat)
    requires LabelsDistinct(s) && tag in s.tags && n <= s.limit + 1
    requires forall i: nat :: i < n ==> Label(s, tag, i) in store
    ensures |LabelsBelow(s, tag, n)| == n <= |store|
  {
    hide Label, LabelsDistinct;
    LabelsCount(s, tag, n);
    assert LabelsBelow(s, tag, n) <= store.Keys;
    SubsetSmaller(LabelsBelow(s, tag, n), store.Keys);
  }

  lemma {:induction false} SubsetSmaller<T>(a: set<T>, b: set<T>)
    requires a <= b
    ensures |a| <= |b|
  {
    if a != {} {
      var x :| x in a;
      SubsetSmaller(a - {x}, b - {x});
    }
  }

  /** What a walk from counter `n` on collects. */
  function WalkFrom(s: Scheme, store: Store, tag: string, n: nat): seq<string>
    requires LabelsDistinct(s) && tag in s.tags && |store| <= s.limit
    requires n <= |store| && forall i: nat :: i < n ==> Label(s, tag, i) in store
    decreases |store| - n
  {
    var lab := Label(s, tag, n);
    if lab !in store then []
    else
      HitsAreBounded(s, store, tag, n + 1);
      [store[lab]] + WalkFrom(s, store, tag, n + 1)
  }

  lemma WalkFromStep(s: Scheme, store: Store, tag: string, n: nat)
    requires LabelsDistinct(s) && tag in s.tags && |store| <= s.limit
    requires n <= |store| && forall i: nat :: i < n ==> Label(s, tag, i) in store
    ensures Label(s, tag, n) !in store ==> WalkFrom(s, store, tag, n) == []
    ensures Label(s, tag, n) in store ==>
              n < |store| && WalkFrom(s, store, tag, n) == [store[Label(s, tag, n)]] + WalkFrom(s, store, tag, n + 1)
  {
    hide Label, LabelsDistinct;
    if Label(s, tag, n) in store {
      HitsAreBounded(s, store, tag, n + 1);
    }
  }

  function Walk(s: Scheme, store: Store, tag: string): seq<string>
    requires LabelsDistinct(s) && tag in s.tags && |store| <= s.limit
  {
    WalkFrom(s, store, tag, 0)
  }

  /** The counter loop of `sum_by_row`: it collects values until the first label that is missing. It
      stops on every store, since it cannot hit more labels than there are. */
  method WalkStore(s: Scheme, store: Store, tag: string) returns (values: seq<string>)
    requires LabelsDistinct(s) && tag in s.tags && |store| <= s.limit
    ensures values == Walk(s, store, tag)
    ensures |values| <= |store| && Label(s, tag, |values|) !in store
    ensures forall i: nat :: i < |values| ==> Label(s, tag, i) in store && store[Label(s, tag, i)] == values[i]
  {
    hide Label, WalkFrom, LabelsDistinct;
    values := [];
    var counter: nat := 0;
    while Label(s, tag, counter) in store
      invariant counter == |values| <= |store|
      invariant forall i: nat :: i < counter ==> Label(s, tag, i) in store && store[Label(s, tag, i)] == values[i]
      invariant Walk(s, store, tag) == values + WalkFrom(s, store, tag, counter)
      decreases |store| - counter
    {
      HitsAreBounded(s, store, tag, counter + 1);
      WalkFromStep(s, store, tag, counter);
      values := values + [store[Label(s, tag, counter)]];
      counter := counter + 1;
    }
    WalkFromStep(s, store, tag, counter);
  }

  lemma {:induction false} WalkFromFlat(s: Scheme, mm: MultiMap, store: Store, key: string, n: nat)
    requires EntriesDistinct(s) && LabelsDistinct(s) && Tag(s, key) in s.tags && |store| <= s.limit
    requires IsFlat(s, mm, store) && Fits(s, mm) && n <= |Get(mm, key)| && n <= |store|
    requires forall i: nat :: i < n ==> Label(s, Tag(s, key), i) in store
    ensures WalkFrom(s, store, Tag(s, key), n) == Get(mm, key)[n..]
    decreases |Get(mm, key)| - n
  {
    hide IsFlat, EntriesDistinct, Fits;
    HitIff(s, mm, store, key, n);
    if n < |Get(mm, key)| {
      HitsAreBounded(s, store, Tag(s, key), n + 1);
      WalkFromFlat(s, mm, store, key, n + 1);
    }
  }

  /** Looking a key up in the flat store with its tag gives exactly its list in the multimap, and
      nothing for a key the multimap does not have. */
  lemma WalkFlat(s: Scheme, mm: MultiMap, store: Store, key: string)
    requires Assumptions(s) && Tag(s, key) in s.tags && |store| <= s.limit
    requires IsFlat(s, mm, store) && Fits(s, mm)
    ensures LabelsDistinct(s) && Walk(s, store, Tag(s, key)) == Get(mm, key)
  {
    LabelsAreDistinct(s);
    EntriesAreDistinct(s);
    WalkFromFlat(s, mm, store, key, 0);
  }

  /** After a store was overridden by a new index, a walk finds the new list followed by what the old
      list had beyond it; so it finds the new list exactly when the old one was not longer. */
  lemma ReuploadLaw(s: Scheme, prior: MultiMap, store: Store, next: MultiMap, emm: Store, key: string)
    requires Assumptions(s) && Tag(s, key) in s.tags && |store + emm| <= s.limit
    requires IsFlat(s, prior, store) && IsFlat(s, next, emm) && Fits(s, Overlay(prior, next))
    ensures LabelsDistinct(s)
    ensures var found := Walk(s, store + emm, Tag(s, key));
            && found == Over(Get(next, key), Get(prior, key))
            && (found == Get(next, key) <==> |Get(prior, key)| <= |Get(next, key)|)
  {
    hide Assumptions, EntriesDistinct, LabelsDistinct, IsFlat, Tag, Walk, Overlay, Fits;
    EntriesAreDistinct(s);
    FlatOverlay(s, prior, store, next, emm);
    WalkFlat(s, Overlay(prior, next), store + emm, key);
    OverlayGet(prior, next, key);
  }
}

/** Multimaps from text keys to lists, and the plaintext multimap class. */
module MultiMaps {

  type MultiMap = map<string, seq<string>>

  /** The list of a key, empty when the key is absent. */
  function Get(mm: MultiMap, key: string): seq<string> {
    if key in mm then mm[key] else []
  }

  /** The number of list entries under all keys. */
  ghost function Total(mm: MultiMap): nat
    decreases |mm|
  {
    if mm == map[] then 0
    else
      var k :| k in mm;
      |mm[k]| + Total(mm - {k})
  }

  lemma TotalOfEmpty()
    ensures Total(map[]) == 0
  {
  }

  lemma {:induction false} TotalSplit(mm: MultiMap, key: string)
    requires key in mm
    ensures Total(mm) == |mm[key]| + Total(mm - {key})
    decreases |mm|
  {
    var k :| k in mm && Total(mm) == |mm[k]| + Total(mm - {k});
    if k != key {
      TotalSplit(mm - {k}, key);
      TotalSplit(mm - {key}, k);
      assert mm - {k} - {key} == mm - {key} - {k};
    }
  }

  lemma TotalAppend(mm: MultiMap, key: string, tail: seq<string>)
    ensures Total(mm[key := Get(mm, key) + tail]) == Total(mm) + |tail|
  {
    var nn := mm[key := Get(mm, key) + tail];
    TotalSplit(nn, key);
    assert nn - {key} == mm - {key};
    if key in mm {
      TotalSplit(mm, key);
    } else {
      assert mm - {key} == mm;
    }
  }

  lemma ListAtMostTotal(mm: MultiMap, key: string)
    ensures |Get(mm, key)| <= Total(mm)
  {
    if key in mm {
      TotalSplit(mm, key);
    }
  }

  // ----- writing one multimap over another -----

  /** `next` written over the front of `prior`: what is left of a longer list stays behind it. */
  function Over(next: seq<string>, prior: seq<string>): seq<string> {
    if |next| < |prior| then next + prior[|next|..] else next
  }

  function Overlay(prior: MultiMap, next: MultiMap): MultiMap {
    map k | k in prior.Keys + next.Keys :: Over(Get(next, k), Get(prior, k))
  }

  lemma OverlayGet(prior: MultiMap, next: MultiMap, key: string)
    ensures Get(Overlay(prior, next), key) == Over(Get(next, key), Get(prior, key))
  {
  }

  lemma OverlayElsewhere(prior: MultiMap, next: MultiMap, key: string)
    requires key !in next
    ensures Get(Overlay(prior, next), key) == Get(prior, key)
    ensures key in Overlay(prior, next) <==> key in prior
  {
    assert [] + Get(prior, key) == Get(prior, key);
  }

  /** The plaintext multimap of the client. `keys` repeats the keys of `maps` for iteration. */
  class RowMultiMap {
    var maps: MultiMap
    var keys: set<string>
    var columnsTypes: seq<string>

    ghost predicate Valid()
      reads this
    {
      keys == maps.Keys
    }

    constructor ()
      ensures Valid() && maps == map[] && columnsTypes == []
    {
      maps, keys, columnsTypes := map[], {}, [];
    }

    method SetColumnsTypes(columnsTypes: seq<string>)
      modifies this`columnsTypes
      ensures this.columnsTypes == columnsTypes
    {
      this.columnsTypes := columnsTypes;
    }

    function GetTypesByColumnsID(columnsID: nat): string
      requires columnsID < |columnsTypes|
      reads this
    {
      columnsTypes[columnsID]
    }

    /** Appends to the list of a known key, or enters a new key. */
    method Add(index: string, inputData: seq<string>)
      requires Valid()
      modifies this`maps, this`keys
      ensures Valid() && maps == old(maps)[index := Get(old(maps), index) + inputData]
    {
      if index in keys {
        for i := 0 to |inputData|
          invariant keys == old(keys) == maps.Keys
          invariant maps[index] == old(maps)[index] + inputData[..i]
          invariant forall k :: k in maps && k != index ==> maps[k] == old(maps)[k]
        {
          maps := maps[index := maps[index] + [inputData[i]]];
          assert inputData[..i + 1] == inputData[..i] + [inputData[i]];
        }
        assert inputData[..|inputData|] == inputData;
      } else {
        keys := keys + {index};
        maps := maps[index := inputData];
        assert [] + inputData == inputData;
      }
    }

    /** Every key once. The order is left open: nothing below depends on it. */
    method GetKeys() returns (result: seq<string>)
      requires Valid()
      ensures forall k :: k in result <==> k in maps
      ensures forall i, j :: 0 <= i < j < |result| ==> result[i] != result[j]
    {
      result := [];
      var rest := keys;
      while rest != {}
        invariant rest <= keys
        invariant forall k :: k in result <==> k in keys && k !in rest
        invariant forall i, j :: 0 <= i < j < |result| ==> result[i] != result[j]
        decreases |rest|
      {
        var k :| k in rest;
        result := result + [k];
        rest := rest - {k};
      }
    }
  }
}

/**
 `checkProcessedItemsAndRecord`: items are looked up by a key, the deduplicator splits the distinct keys, and
 the items are picked again by key. `keyOf` stands for reading the property and serialising it.
 */
module Deduplication {
  import opened Wrappers

  type Key = string

  datatype Output<T> = Output(unprocessed: seq<T>, processed: seq<T>)

  /** The index of the last item with each key. */
  function Lookup<T>(items: seq<T>, keyOf: T -> Key): (lookup: map<Key, nat>)
    ensures forall key :: key in lookup ==> lookup[key] < |items|
  {
    if items == [] then map[] else Lookup(items[..|items| - 1], keyOf)[keyOf(items[|items| - 1]) := |items| - 1]
  }

  /** `i` is the last place in `items` with this key. */
  ghost predicate LastWith<T>(items: seq<T>, keyOf: T -> Key, key: Key, i: nat) {
    i < |items| && keyOf(items[i]) == key && forall j :: i < j < |items| ==> keyOf(items[j]) != key
  }

  /** Some item carries this key. */
  ghost predicate HasKey<T>(items: seq<T>, keyOf: T -> Key, key: Key) {
    exists i :: 0 <= i < |items| && keyOf(items[i]) == key
  }

  lemma {:induction false} LookupIsLast<T>(items: seq<T>, keyOf: T -> Key, key: Key)
    ensures key in Lookup(items, keyOf) <==> HasKey(items, keyOf, key)
    ensures key in Lookup(items, keyOf) ==> LastWith(items, keyOf, key, Lookup(items, keyOf)[key])
  {
    if items != [] {
      var front, last := items[..|items| - 1], items[|items| - 1];
      LookupIsLast(front, keyOf, key);
      if keyOf(last) == key {
        assert keyOf(items[|items| - 1]) == key;
      } else if key in Lookup(items, keyOf) {
        var i := Lookup(items, keyOf)[key];
        assert keyOf(items[i]) == keyOf(front[i]) == key;
      } else {
        assert forall i :: 0 <= i < |front| ==> items[i] == front[i];
      }
    }
  }

  /** The items at the keys; a key that the index does not hold reads as undefined. */
  function Pick<T>(items: seq<T>, lookup: map<Key, nat>, keys: seq<Key>): (picked: seq<Option<T>>)
    requires forall key :: key in lookup ==> lookup[key] < |items|
    ensures |picked| == |keys|
  {
    seq(|keys|, k requires 0 <= k < |keys| => if keys[k] in lookup then Some(items[lookup[keys[k]]]) else None)
  }

  /** The deduplicator handed back each of the keys it was given exactly once, as new or as processed. */
  ghost predicate Partitions(given: set<Key>, unprocessed: seq<Key>, processed: seq<Key>) {
    var keys := unprocessed + processed;
    && (forall key :: key in given <==> key in keys)
    && forall j, k :: 0 <= j < k < |keys| ==> keys[j] != keys[k]
  }

  /** `item` is the last item of the input that carries its key. */
  ghost predicate IsLast<T>(items: seq<T>, keyOf: T -> Key, item: T) {
    exists i :: 0 <= i < |items| && items[i] == item && LastWith(items, keyOf, keyOf(item), i)
  }

  /** Whatever keys come back: a key of the input gives the last item that carries it, any other key nothing. */
  lemma PickedAreLast<T>(items: seq<T>, keyOf: T -> Key, keys: seq<Key>, k: nat)
    requires k < |keys|
    ensures var picked := Pick(items, Lookup(items, keyOf), keys)[k];
      && (picked.Some? <==> HasKey(items, keyOf, keys[k]))
      && (picked.Some? ==> keyOf(picked.value) == keys[k] && IsLast(items, keyOf, picked.value))
  {
    LookupIsLast(items, keyOf, keys[k]);
    if keys[k] in Lookup(items, keyOf) {
      var i := Lookup(items, keyOf)[keys[k]];
      assert items[i] == Pick(items, Lookup(items, keyOf), keys)[k].value;
    }
  }

  /** `picked` holds, for each key of `keys` and in their order, the last item that carries it. */
  ghost predicate HoldsLastOfEach<T>(items: seq<T>, keyOf: T -> Key, keys: seq<Key>, picked: seq<Option<T>>) {
    |picked| == |keys| &&
    forall k :: 0 <= k < |keys| ==>
      picked[k].Some? && keyOf(picked[k].value) == keys[k] && IsLast(items, keyOf, picked[k].value)
  }

  /**
   If the deduplicator answers with a partition of its keys, the two outputs together hold, for each distinct
   key of the input and no other, exactly one item: the last one of the input that carries the key. The items
   come in the order of the deduplicator's keys.
   */
  lemma EachKeyOnceByItsLastItem<T>(items: seq<T>, keyOf: T -> Key, unprocessed: seq<Key>, processed: seq<Key>)
    requires Partitions(Lookup(items, keyOf).Keys, unprocessed, processed)
    ensures var lookup, keys := Lookup(items, keyOf), unprocessed + processed;
      && HoldsLastOfEach(items, keyOf, keys, Pick(items, lookup, unprocessed) + Pick(items, lookup, processed))
      && (forall j, k :: 0 <= j < k < |keys| ==> keys[j] != keys[k])
      && (forall key :: key in keys <==> HasKey(items, keyOf, key))
  {
    var lookup, keys := Lookup(items, keyOf), unprocessed + processed;
    forall k | 0 <= k < |keys|
      ensures var item := Pick(items, lookup, keys)[k];
        item.Some? && keyOf(item.value) == keys[k] && IsLast(items, keyOf, item.value)
    {
      assert keys[k] in lookup;
      PickedAreLast(items, keyOf, keys, k);
    }
    assert HoldsLastOfEach(items, keyOf, keys, Pick(items, lookup, keys));
    PickBoth(items, lookup, unprocessed, processed);
    forall key ensures key in keys <==> HasKey(items, keyOf, key) { LookupIsLast(items, keyOf, key); }
  }

  lemma PickBoth<T>(items: seq<T>, lookup: map<Key, nat>, a: seq<Key>, b: seq<Key>)
    requires forall key :: key in lookup ==> lookup[key] < |items|
    ensures Pick(items, lookup, a + b) == Pick(items, lookup, a) + Pick(items, lookup, b)
  {
  }

  /** The reduction over the items and the two picks; `unprocessed` and `processed` are the deduplicator's answer. */
  method CheckProcessedItems<T>(items: seq<T>, keyOf: T -> Key, unprocessed: seq<Key>, processed: seq<Key>)
    returns (r: Output<Option<T>>)
    ensures r == Output(Pick(items, Lookup(items, keyOf), unprocessed), Pick(items, Lookup(items, keyOf), processed))
  {
    var itemLookup: map<Key, nat> := map[];
    for index := 0 to |items|
      invariant itemLookup == Lookup(items[..index], keyOf)
    {
      assert items[..index + 1][..index] == items[..index];
      itemLookup := itemLookup[keyOf(items[index]) := index];
    }
    assert items[..|items|] == items;
    r := Output(Pick(items, itemLookup, unprocessed), Pick(items, itemLookup, processed));
  }
}

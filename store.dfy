/**
 * The key-value table a load writes to (one DynamoDB table per entity),
 * abstracted as a map from the primary-key value to the stored item.
 * Every stored item carries its own key under the table's key attribute.
 */
module Store {

  /** A stored item: attribute name to text value. */
  type Item = map<string, string>

  /** Every item is stored under the value of its own key attribute. */
  predicate Keyed(items: map<string, Item>, pk: string) {
    forall k :: k in items ==> pk in items[k] && items[k][pk] == k
  }

  predicate AllHaveKey(batch: seq<Item>, pk: string) {
    forall i :: 0 <= i < |batch| ==> pk in batch[i]
  }

  /** The key values a batch of items is written under. */
  function KeysOf(batch: seq<Item>, pk: string): (r: set<string>)
    requires AllHaveKey(batch, pk)
    ensures forall i :: 0 <= i < |batch| ==> batch[i][pk] in r
  {
    set i | 0 <= i < |batch| :: batch[i][pk]
  }

  /**
   * The table after putting each item of `batch` in order; a put replaces
   * whatever was stored under the same key, so the last write wins.
   */
  function PutAll(before: map<string, Item>, batch: seq<Item>, pk: string): map<string, Item>
    requires AllHaveKey(batch, pk)
    decreases |batch|
  {
    if batch == [] then before
    else
      var last := batch[|batch| - 1];
      PutAll(before, batch[..|batch| - 1], pk)[last[pk] := last]
  }

  /** One more put extends the table by the next item of the batch. */
  lemma PutAllSnoc(before: map<string, Item>, batch: seq<Item>, i: nat, pk: string)
    requires i < |batch| && AllHaveKey(batch[..i], pk) && pk in batch[i]
    ensures AllHaveKey(batch[..i + 1], pk)
    ensures PutAll(before, batch[..i + 1], pk) == PutAll(before, batch[..i], pk)[batch[i][pk] := batch[i]]
  {
    assert batch[..i + 1][..i] == batch[..i];
  }

  /**
   * The number of leading items that carry the key attribute: the puts
   * that succeed before the first one the table rejects.
   */
  function KeyedPrefix(batch: seq<Item>, pk: string): (n: nat)
    ensures n <= |batch|
    ensures AllHaveKey(batch[..n], pk)
    ensures n < |batch| ==> pk !in batch[n]
    decreases |batch|
  {
    if batch == [] || pk !in batch[0] then 0
    else
      var n := 1 + KeyedPrefix(batch[1..], pk);
      assert forall i :: 1 <= i < n ==> batch[..n][i] == batch[1..][..n - 1][i - 1];
      n
  }

  /** The leading run of keyed items ends at the first item without the key. */
  lemma KeyedPrefixStops(batch: seq<Item>, pk: string, i: nat)
    requires i <= |batch| && AllHaveKey(batch[..i], pk)
    requires i < |batch| ==> pk !in batch[i]
    ensures KeyedPrefix(batch, pk) == i
  {
  }

  /** The key set after the puts: the old keys and the batch's keys, nothing removed. */
  lemma {:induction false} PutAllKeys(before: map<string, Item>, batch: seq<Item>, pk: string)
    requires AllHaveKey(batch, pk)
    ensures PutAll(before, batch, pk).Keys == before.Keys + KeysOf(batch, pk)
    decreases |batch|
  {
    if batch != [] {
      var init := batch[..|batch| - 1];
      PutAllKeys(before, init, pk);
      assert KeysOf(batch, pk) == KeysOf(init, pk) + {batch[|batch| - 1][pk]} by {
        forall k | k in KeysOf(batch, pk) ensures k in KeysOf(init, pk) + {batch[|batch| - 1][pk]} {
          var i :| 0 <= i < |batch| && batch[i][pk] == k;
          if i < |batch| - 1 { assert init[i] == batch[i]; }
        }
      }
    }
  }

  /** A key the batch does not write keeps its old item (or stays absent). */
  lemma {:induction false} PutAllUntouched(before: map<string, Item>, batch: seq<Item>, pk: string, k: string)
    requires AllHaveKey(batch, pk)
    requires k !in KeysOf(batch, pk)
    ensures k in PutAll(before, batch, pk) <==> k in before
    ensures k in before ==> PutAll(before, batch, pk)[k] == before[k]
    decreases |batch|
  {
    if batch != [] {
      var init := batch[..|batch| - 1];
      assert forall i :: 0 <= i < |init| ==> init[i] == batch[i];
      PutAllUntouched(before, init, pk, k);
    }
  }

  /** The item stored under a key is the last item of the batch with that key. */
  lemma {:induction false} PutAllLastWins(before: map<string, Item>, batch: seq<Item>, pk: string, i: nat)
    requires AllHaveKey(batch, pk)
    requires i < |batch|
    requires forall j :: i < j < |batch| ==> batch[j][pk] != batch[i][pk]
    ensures batch[i][pk] in PutAll(before, batch, pk)
    ensures PutAll(before, batch, pk)[batch[i][pk]] == batch[i]
    decreases |batch|
  {
    if i < |batch| - 1 {
      var init := batch[..|batch| - 1];
      assert forall j :: 0 <= j < |init| ==> init[j] == batch[j];
      PutAllLastWins(before, init, pk, i);
    }
  }

  /** Every item the batch stores is one of the batch's items. */
  lemma {:induction false} PutAllStoresBatchItems(before: map<string, Item>, batch: seq<Item>, pk: string)
    requires AllHaveKey(batch, pk)
    ensures forall i :: 0 <= i < |batch| ==>
              batch[i][pk] in PutAll(before, batch, pk) && PutAll(before, batch, pk)[batch[i][pk]] in batch
    decreases |batch|
  {
    if batch != [] {
      var init := batch[..|batch| - 1];
      var last := batch[|batch| - 1];
      PutAllStoresBatchItems(before, init, pk);
      forall i | 0 <= i < |batch|
        ensures batch[i][pk] in PutAll(before, batch, pk) && PutAll(before, batch, pk)[batch[i][pk]] in batch
      {
        if batch[i][pk] != last[pk] {
          assert init[i] == batch[i];
          var x := PutAll(before, init, pk)[init[i][pk]];
          var m :| 0 <= m < |init| && init[m] == x;
          assert batch[m] == x;
        }
      }
    }
  }

  /**
   * Delete-then-insert: when the deleted keys cover everything stored,
   * the table afterwards holds exactly the batch's keys, each mapped to one
   * of the batch's items.
   */
  lemma ReplaceAll(before: map<string, Item>, removed: set<string>, batch: seq<Item>, pk: string)
    requires AllHaveKey(batch, pk)
    requires before.Keys <= removed
    ensures PutAll(before - removed, batch, pk).Keys == KeysOf(batch, pk)
    ensures forall k :: k in PutAll(before - removed, batch, pk) ==> PutAll(before - removed, batch, pk)[k] in batch
  {
    var cleared := before - removed;
    assert cleared == map[];
    PutAllKeys(cleared, batch, pk);
    PutAllStoresBatchItems(cleared, batch, pk);
  }

  /**
   * Put-only synchronisation merges: the old keys stay, a key the batch
   * does not write keeps its item, and a written key holds the last item
   * of the batch with that key.
   */
  lemma PutAllMerges(before: map<string, Item>, batch: seq<Item>, pk: string)
    requires AllHaveKey(batch, pk)
    ensures PutAll(before, batch, pk).Keys == before.Keys + KeysOf(batch, pk)
    ensures forall k :: k in before && k !in KeysOf(batch, pk) ==> PutAll(before, batch, pk)[k] == before[k]
    ensures forall i :: 0 <= i < |batch| && (forall j :: i < j < |batch| ==> batch[j][pk] != batch[i][pk]) ==>
              PutAll(before, batch, pk)[batch[i][pk]] == batch[i]
  {
    PutAllKeys(before, batch, pk);
    forall k | k in before && k !in KeysOf(batch, pk) ensures PutAll(before, batch, pk)[k] == before[k] {
      PutAllUntouched(before, batch, pk, k);
    }
    forall i | 0 <= i < |batch| && (forall j :: i < j < |batch| ==> batch[j][pk] != batch[i][pk])
      ensures PutAll(before, batch, pk)[batch[i][pk]] == batch[i]
    {
      PutAllLastWins(before, batch, pk, i);
    }
  }

  /** Puts keep every item under its own key. */
  lemma {:induction false} PutAllKeyed(before: map<string, Item>, batch: seq<Item>, pk: string)
    requires AllHaveKey(batch, pk) && Keyed(before, pk)
    ensures Keyed(PutAll(before, batch, pk), pk)
    decreases |batch|
  {
    if batch != [] {
      PutAllKeyed(before, batch[..|batch| - 1], pk);
    }
  }

  /** An abstract DynamoDB table: its key attribute and its stored items. */
  class Table {
    const pk: string
    var items: map<string, Item>

    ghost predicate Valid()
      reads this
    {
      Keyed(items, pk)
    }

    constructor (pk: string, items: map<string, Item>)
      requires Keyed(items, pk)
      ensures Valid() && this.pk == pk && this.items == items
    {
      this.pk := pk;
      this.items := items;
    }

    /**
     * `put_item`: stores the item under its key, replacing any item there;
     * an item without the key attribute is rejected and nothing changes.
     */
    method PutItem(item: Item) returns (ok: bool)
      requires Valid()
      modifies this
      ensures Valid()
      ensures ok <==> pk in item
      ensures items == if ok then old(items)[item[pk] := item] else old(items)
    {
      ok := pk in item;
      if ok {
        items := items[item[pk] := item];
      }
    }

    /** `delete_item`: removes the key; deleting an absent key is a no-op. */
    method DeleteItem(key: string)
      requires Valid()
      modifies this
      ensures Valid()
      ensures items == old(items) - {key}
    {
      items := items - {key};
    }
  }
}

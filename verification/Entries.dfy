/** The properties of a JavaScript object as a list: each key with its value, in the order in which they were set. */
module Entries {
  datatype Entry<K, V> = Entry(key: K, value: V)

  /** `record[key] = value` */
  function Set<K(==), V>(entries: seq<Entry<K, V>>, key: K, value: V): seq<Entry<K, V>> {
    if |entries| == 0 then [Entry(key, value)]
    else if entries[0].key == key then [Entry(key, value)] + entries[1..]
    else [entries[0]] + Set(entries[1..], key, value)
  }

  predicate DistinctKeys<K(==), V>(entries: seq<Entry<K, V>>) {
    forall i, j :: 0 <= i < j < |entries| ==> entries[i].key != entries[j].key
  }

  predicate HasKey<K(==), V>(entries: seq<Entry<K, V>>, key: K) {
    exists i :: 0 <= i < |entries| && entries[i].key == key
  }

  lemma {:induction false} SetNew<K, V>(entries: seq<Entry<K, V>>, key: K, value: V)
    requires !HasKey(entries, key)
    ensures Set(entries, key, value) == entries + [Entry(key, value)]
    decreases |entries|
  {
    if |entries| > 0 {
      assert !HasKey(entries[1..], key) by {
        forall i | 0 <= i < |entries[1..]| ensures entries[1..][i].key != key {
          assert entries[1..][i] == entries[i + 1];
        }
      }
      SetNew(entries[1..], key, value);
    }
  }
}

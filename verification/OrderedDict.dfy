/** Python's insertion-ordered dictionaries, as a list of items with distinct keys. */
module OrderedDict {
  import opened Wrappers

  datatype Item<+V> = Item(key: nat, value: V)

  function Keys<V>(d: seq<Item<V>>): (keys: seq<nat>)
    ensures |keys| == |d| && forall i :: 0 <= i < |d| ==> keys[i] == d[i].key
  {
    seq(|d|, i requires 0 <= i < |d| => d[i].key)
  }

  /** Where a key is, the length of the dictionary when it is absent. */
  function IndexOf<V>(d: seq<Item<V>>, key: nat): (i: nat)
    ensures i <= |d|
    ensures i < |d| ==> d[i].key == key
    ensures forall j :: 0 <= j < i ==> d[j].key != key
  {
    if d == [] || d[0].key == key then 0 else 1 + IndexOf(d[1..], key)
  }

  function Get<V>(d: seq<Item<V>>, key: nat): Option<V> {
    var i := IndexOf(d, key);
    if i < |d| then Some(d[i].value) else None
  }

  /** Assigning to a key that is present keeps its place. */
  function Put<V>(d: seq<Item<V>>, key: nat, value: V): seq<Item<V>> {
    var i := IndexOf(d, key);
    if i < |d| then d[i := Item(key, value)] else d + [Item(key, value)]
  }

  function Remove<V>(d: seq<Item<V>>, key: nat): seq<Item<V>> {
    var i := IndexOf(d, key);
    if i < |d| then d[..i] + d[i + 1..] else d
  }

  predicate Distinct(s: seq<nat>) {
    forall i, j :: 0 <= i < j < |s| ==> s[i] != s[j]
  }

  lemma GetIff<V>(d: seq<Item<V>>, key: nat)
    ensures Get(d, key).Some? <==> key in Keys(d)
  {
    if IndexOf(d, key) < |d| {
      assert Keys(d)[IndexOf(d, key)] == key;
    } else {
      assert forall j :: 0 <= j < |d| ==> Keys(d)[j] != key;
    }
  }

  lemma GetAt<V>(d: seq<Item<V>>, at: nat)
    requires at < |d| && forall j :: 0 <= j < at ==> d[j].key != d[at].key
    ensures Get(d, d[at].key) == Some(d[at].value)
  {
    assert !(at < IndexOf(d, d[at].key));
  }

  lemma RemoveKeys<V>(d: seq<Item<V>>, key: nat)
    requires Distinct(Keys(d))
    ensures Distinct(Keys(Remove(d, key)))
    ensures forall k :: k in Keys(Remove(d, key)) <==> k in Keys(d) && k != key
  {
    var i, keys, left := IndexOf(d, key), Keys(d), Keys(Remove(d, key));
    if i < |d| {
      assert left == keys[..i] + keys[i + 1..];
      assert keys == keys[..i] + [key] + keys[i + 1..];
      assert forall j :: 0 <= j < |keys| && j != i ==> keys[j] != key;
    } else {
      assert key !in keys;
    }
  }
}

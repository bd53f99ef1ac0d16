/** An insertion-ordered map, as a sequence of items with distinct keys: the oldest item comes first. */
module InsertionMap {
  import opened Options

  datatype Item<+V> = Item(key: string, value: V)

  ghost predicate Distinct<V>(m: seq<Item<V>>) {
    forall i, j :: 0 <= i < j < |m| ==> m[i].key != m[j].key
  }

  function IndexOf<V>(m: seq<Item<V>>, key: string): (i: nat)
    ensures i <= |m|
    ensures i < |m| ==> m[i].key == key
    ensures forall j :: 0 <= j < i ==> m[j].key != key
  {
    if m == [] || m[0].key == key then 0 else 1 + IndexOf(m[1..], key)
  }

  function Find<V>(m: seq<Item<V>>, key: string): Option<V> {
    var i := IndexOf(m, key);
    if i < |m| then Some(m[i].value) else None
  }

  function RemoveAt<T>(s: seq<T>, i: nat): seq<T>
    requires i < |s|
  {
    s[..i] + s[i + 1..]
  }

  function Delete<V>(m: seq<Item<V>>, key: string): seq<Item<V>> {
    var i := IndexOf(m, key);
    if i < |m| then RemoveAt(m, i) else m
  }

  // Setting a key that is present keeps its place; a new key goes to the end.
  function Put<V>(m: seq<Item<V>>, key: string, value: V): seq<Item<V>> {
    var i := IndexOf(m, key);
    if i < |m| then m[i := Item(key, value)] else m + [Item(key, value)]
  }

  // Setting a key changes what is found for that key only; one that is present keeps its place.
  lemma PutIsExact<V>(m: seq<Item<V>>, key: string, value: V, other: string)
    requires Distinct(m)
    ensures Distinct(Put(m, key, value))
    ensures Find(Put(m, key, value), other) == if other == key then Some(value) else Find(m, other)
    ensures Find(m, key).Some? ==> IndexOf(Put(m, key, value), key) == IndexOf(m, key)
    ensures Find(m, key).None? ==> IndexOf(Put(m, key, value), key) == |m|
  {
    var i := IndexOf(m, key);
    var r := Put(m, key, value);
    if i < |m| {
      FindIs(r, i);
      var j := IndexOf(m, other);
      if j < |m| { FindIs(r, j); }
    } else {
      AppendIsExact(m, key, value, other);
      AppendIsExact(m, key, value, key);
      FindIs(r, |m|);
    }
  }

  lemma FindIs<V>(m: seq<Item<V>>, i: nat)
    requires Distinct(m) && i < |m|
    ensures IndexOf(m, m[i].key) == i && Find(m, m[i].key) == Some(m[i].value)
  {
    var j := IndexOf(m, m[i].key);
    assert j <= i;
  }

  lemma DeleteIsExact<V>(m: seq<Item<V>>, key: string, other: string)
    requires Distinct(m)
    ensures Distinct(Delete(m, key))
    ensures Find(Delete(m, key), key) == None
    ensures other != key ==> Find(Delete(m, key), other) == Find(m, other)
  {
    var k, i := IndexOf(m, key), IndexOf(m, other);
    if k < |m| {
      DeletedKey(m, k);
      if other != key {
        if i < |m| { OtherKey(m, k, i); } else { AbsentKey(m, k, other); }
      }
    }
  }

  lemma RemovedAt<T>(s: seq<T>, k: nat, j: nat)
    requires k < |s| && j < |s| - 1
    ensures RemoveAt(s, k)[j] == s[if j < k then j else j + 1]
  {
  }

  lemma DeletedKey<V>(m: seq<Item<V>>, k: nat)
    requires Distinct(m) && k < |m|
    ensures Distinct(RemoveAt(m, k)) && Find(RemoveAt(m, k), m[k].key).None?
  {
    var d := RemoveAt(m, k);
    forall a, b | 0 <= a < b < |d| ensures d[a].key != d[b].key {
      RemovedAt(m, k, a);
      RemovedAt(m, k, b);
    }
    forall j | 0 <= j < |d| ensures d[j].key != m[k].key {
      RemovedAt(m, k, j);
    }
  }

  lemma OtherKey<V>(m: seq<Item<V>>, k: nat, i: nat)
    requires Distinct(m) && k < |m| && i < |m| && i != k
    ensures Find(RemoveAt(m, k), m[i].key) == Some(m[i].value)
  {
    var j := if i < k then i else i - 1;
    DeletedKey(m, k);
    RemovedAt(m, k, j);
    FindIs(RemoveAt(m, k), j);
  }

  lemma AbsentKey<V>(m: seq<Item<V>>, k: nat, key: string)
    requires k < |m| && IndexOf(m, key) == |m|
    ensures Find(RemoveAt(m, k), key).None?
  {
    forall j | 0 <= j < |RemoveAt(m, k)| ensures RemoveAt(m, k)[j].key != key {
      RemovedAt(m, k, j);
    }
  }

  lemma AppendIsExact<V>(m: seq<Item<V>>, key: string, value: V, other: string)
    requires Distinct(m) && Find(m, key) == None
    ensures Distinct(m + [Item(key, value)])
    ensures Find(m + [Item(key, value)], other) == if other == key then Some(value) else Find(m, other)
  {
    var d := m + [Item(key, value)];
    assert forall j :: 0 <= j < |m| ==> m[j].key != key;
    if other == key {
      FindIs(d, |m|);
    } else {
      var i := IndexOf(m, other);
      if i < |m| {
        assert d[i] == m[i];
        FindIs(d, i);
      }
    }
  }

  lemma DropIsExact<V>(m: seq<Item<V>>, n: nat, key: string)
    requires Distinct(m) && n <= |m|
    ensures Distinct(m[n..])
    ensures Find(m[n..], key) == if IndexOf(m, key) < n then None else Find(m, key)
  {
    var i := IndexOf(m, key);
    if n <= i < |m| {
      KeptByDrop(m, n, i);
    } else {
      DroppedOrAbsent(m, n, key);
    }
  }

  lemma KeptByDrop<V>(m: seq<Item<V>>, n: nat, i: nat)
    requires Distinct(m) && n <= i < |m|
    ensures Find(m[n..], m[i].key) == Some(m[i].value)
  {
    assert m[n..][i - n] == m[i];
    FindIs(m[n..], i - n);
  }

  lemma DroppedOrAbsent<V>(m: seq<Item<V>>, n: nat, key: string)
    requires Distinct(m) && n <= |m| && (IndexOf(m, key) < n || IndexOf(m, key) == |m|)
    ensures Find(m[n..], key).None?
  {
    var i := IndexOf(m, key);
    forall j | n <= j < |m| ensures m[j].key != key {
      if i < |m| { assert m[i].key != m[j].key; }
    }
    assert forall j :: 0 <= j < |m[n..]| ==> m[n..][j] == m[j + n];
  }
}

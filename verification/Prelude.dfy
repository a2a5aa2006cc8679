/** Options and insertion-ordered maps, shared by every module. */
module Prelude {

  datatype Option<+T> = None | Some(value: T)

  /** One entry of an insertion-ordered map. */
  datatype Entry<K, V> = Entry(key: K, value: V)

  /** An insertion-ordered map (Rust's IndexMap), as the sequence of its entries. */
  type IndexMap<K, V> = seq<Entry<K, V>>

  ghost predicate UniqueKeys<K, V>(m: IndexMap<K, V>) {
    forall i, j :: 0 <= i < j < |m| ==> m[i].key != m[j].key
  }

  ghost predicate HasKey<K, V>(m: IndexMap<K, V>, key: K) {
    exists i :: 0 <= i < |m| && m[i].key == key
  }

  /** The value stored under a key. */
  function Get<K(==), V>(m: IndexMap<K, V>, key: K): (r: Option<V>)
    ensures r.Some? <==> HasKey(m, key)
    ensures r.Some? ==> exists i :: 0 <= i < |m| && m[i].key == key && m[i].value == r.value
  {
    if m == [] then None
    else if m[0].key == key then assert m[0].key == key; Some(m[0].value)
    else
      var rest := Get(m[1..], key);
      assert rest.Some? ==> exists i :: 0 <= i < |m[1..]| && m[1..][i].key == key && m[1..][i].value == rest.value && m[i + 1] == m[1..][i];
      assert HasKey(m, key) ==> exists i :: 0 <= i < |m| && m[i].key == key && i >= 1 && m[1..][i - 1] == m[i];
      rest
  }

  /** With unique keys, every entry is what a look-up of its key returns. */
  lemma GetEntry<K, V>(m: IndexMap<K, V>, i: nat)
    requires UniqueKeys(m) && i < |m|
    ensures Get(m, m[i].key) == Some(m[i].value)
  {
    var r := Get(m, m[i].key);
    assert HasKey(m, m[i].key);
    var j :| 0 <= j < |m| && m[j].key == m[i].key && m[j].value == r.value;
  }

  /** Look-ups of other keys do not see an added entry. */
  lemma {:induction false} GetElsewhere<K, V>(m: IndexMap<K, V>, e: Entry<K, V>, key: K)
    requires key != e.key
    ensures Get(m + [e], key) == Get(m, key)
  {
    if m == [] {
      assert m + [e] == [e];
      assert [e][1..] == [];
    } else {
      assert (m + [e])[1..] == m[1..] + [e];
      if m[0].key != key { GetElsewhere(m[1..], e, key); }
    }
  }

  lemma AppendAssociates<T>(a: seq<T>, b: seq<T>, c: seq<T>)
    ensures (a + b) + c == a + (b + c)
  {
  }
}

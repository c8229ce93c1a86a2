/** A JavaScript object as the source uses it: string keys with values, iterated in
    insertion order (what `Object.values` and the spread operator see for keys that
    are not array indices). Assigning an existing key keeps its place; a new key goes
    last. */
module JsRecord {
  import opened Wrappers

  datatype Entry<V> = Entry(key: string, val: V)

  type Rec<V> = seq<Entry<V>>

  function Keys<V>(r: Rec<V>): (ks: seq<string>)
    ensures |ks| == |r| && forall k :: 0 <= k < |r| ==> ks[k] == r[k].key
  {
    if r == [] then [] else [r[0].key] + Keys(r[1..])
  }

  predicate UniqueKeys<V>(r: Rec<V>) {
    forall i, j :: 0 <= i < j < |r| ==> r[i].key != r[j].key
  }

  /** `obj[key]`, with None for undefined. */
  function Get<V>(r: Rec<V>, key: string): Option<V> {
    if r == [] then None
    else if r[0].key == key then Some(r[0].val)
    else Get(r[1..], key)
  }

  lemma GetAt<V>(r: Rec<V>, i: nat)
    requires UniqueKeys(r) && i < |r|
    ensures Get(r, r[i].key) == Some(r[i].val)
  {
    if i > 0 {
      GetAt(r[1..], i - 1);
    }
  }

  /** `obj[key] = val` (or `{ ...obj, [key]: val }`). */
  function Set<V>(r: Rec<V>, key: string, val: V): (r': Rec<V>)
    ensures key in Keys(r) ==> Keys(r') == Keys(r)
    ensures key !in Keys(r) ==> Keys(r') == Keys(r) + [key]
    ensures forall i :: 0 <= i < |r| && r[i].key != key ==> r'[i] == r[i]
  {
    if r == [] then [Entry(key, val)]
    else if r[0].key == key then [Entry(key, val)] + r[1..]
    else
      var rest := Set(r[1..], key, val);
      assert ([r[0]] + rest)[1..] == rest;
      [r[0]] + rest
  }

  /** After `obj[key] = val`, reading `key` gives `val` and every other key reads as before. */
  lemma {:induction false} SetGet<V>(r: Rec<V>, key: string, val: V)
    ensures Get(Set(r, key, val), key) == Some(val)
    ensures forall k :: k != key ==> Get(Set(r, key, val), k) == Get(r, k)
  {
    if r != [] && r[0].key != key {
      SetGet(r[1..], key, val);
      assert Set(r, key, val) == [r[0]] + Set(r[1..], key, val);
    }
  }

  /** Assignment never creates a duplicate key. */
  lemma SetUnique<V>(r: Rec<V>, key: string, val: V)
    requires UniqueKeys(r)
    ensures UniqueKeys(Set(r, key, val))
  {
    var r' := Set(r, key, val);
    var ks, ks' := Keys(r), Keys(r');
    forall i, j | 0 <= i < j < |r'| ensures r'[i].key != r'[j].key {
      assert r'[i].key == ks'[i] && r'[j].key == ks'[j];
      if key !in ks && j == |r| {
        assert ks'[i] == ks[i];
        assert ks[i] in ks;
      } else {
        assert ks'[i] == ks[i] && ks'[j] == ks[j];
      }
    }
  }

  /** `const { [key]: _, ...rest } = obj`. */
  function Delete<V>(r: Rec<V>, key: string): (r': Rec<V>)
    ensures Get(r', key).None?
    ensures forall k :: k != key ==> Get(r', k) == Get(r, k)
    ensures |r'| <= |r|
  {
    if r == [] then []
    else if r[0].key == key then Delete(r[1..], key)
    else [r[0]] + Delete(r[1..], key)
  }

  function Values<V>(r: Rec<V>): (vs: seq<V>)
    ensures |vs| == |r| && forall k :: 0 <= k < |r| ==> vs[k] == r[k].val
  {
    seq(|r|, k requires 0 <= k < |r| => r[k].val)
  }
}

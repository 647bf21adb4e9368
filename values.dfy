/*
 * The Python values both parsers build: None, str, dict and list. A dict is
 * kept as its entries in insertion order, which is the order Python iterates
 * them in; assigning to a key that is already present keeps its position.
 */
module Values {

  datatype Option<+T> = None | Some(value: T)

  datatype Result<+T, +E> = Ok(value: T) | Err(error: E)

  /** A key/value pair of attribute text (`Pair` in src/xmlparse.cpp, an item of `attrs` in the handler). */
  datatype Pair = Pair(key: string, value: string)

  datatype Value =
    | Null
    | Str(text: string)
    | Dict(entries: seq<(string, Value)>)
    | List(items: seq<Value>)

  type Entries = seq<(string, Value)>

  /** The keys of a dict in insertion order. */
  function Keys(es: Entries): (ks: seq<string>)
    ensures |ks| == |es|
    ensures forall j :: 0 <= j < |es| ==> ks[j] == es[j].0
  {
    if es == [] then [] else [es[0].0] + Keys(es[1..])
  }

  /** No key occurs twice: what a Python dict guarantees. */
  predicate UniqueKeys(es: Entries) {
    forall j, k :: 0 <= j < k < |es| ==> es[j].0 != es[k].0
  }

  /** `d.get(key)`: the value stored under key, if any. */
  function Get(es: Entries, key: string): (r: Option<Value>)
    ensures r.None? <==> key !in Keys(es)
  {
    if es == [] then None
    else if es[0].0 == key then Some(es[0].1)
    else Get(es[1..], key)
  }

  /**
   * `d[key] = v`: replaces the value of a present key in place, or appends a
   * new entry at the end.
   */
  function Set(es: Entries, key: string, v: Value): (r: Entries)
    ensures Get(r, key) == Some(v)
    ensures forall k :: k != key ==> Get(r, k) == Get(es, k)
  {
    if es == [] then [(key, v)]
    else if es[0].0 == key then [(key, v)] + es[1..]
    else
      var t := Set(es[1..], key, v);
      assert ([es[0]] + t)[1..] == t;
      [es[0]] + t
  }

  /** Assignment keeps the order of the keys, appending a key that was absent. */
  lemma {:induction false} SetKeys(es: Entries, key: string, v: Value)
    ensures Keys(Set(es, key, v)) == if key in Keys(es) then Keys(es) else Keys(es) + [key]
  {
    if es != [] && es[0].0 != key {
      var t := Set(es[1..], key, v);
      assert ([es[0]] + t)[1..] == t;
      SetKeys(es[1..], key, v);
      assert Keys(es) == [es[0].0] + Keys(es[1..]);
    }
  }

  /** Assignment keeps keys unique. */
  lemma SetUnique(es: Entries, key: string, v: Value)
    requires UniqueKeys(es)
    ensures UniqueKeys(Set(es, key, v))
  {
    var r := Set(es, key, v);
    SetKeys(es, key, v);
    var ks, rs := Keys(es), Keys(r);
    forall j, k | 0 <= j < k < |r|
      ensures r[j].0 != r[k].0
    {
      assert r[j].0 == rs[j] && r[k].0 == rs[k];
      if k < |es| {
        assert rs[j] == ks[j] && rs[k] == ks[k];
        assert es[j].0 == ks[j] && es[k].0 == ks[k];
      } else {
        assert rs[k] == key && key !in ks && rs[j] == ks[j];
      }
    }
  }

  /** In a dict with unique keys, an entry's value is what Get finds for its key. */
  lemma {:induction false} GetEntry(es: Entries, j: nat)
    requires UniqueKeys(es) && j < |es|
    ensures Get(es, es[j].0) == Some(es[j].1)
  {
    if j > 0 {
      assert UniqueKeys(es[1..]);
      GetEntry(es[1..], j - 1);
    }
  }

  /** Assigning to an absent key appends its entry. */
  lemma {:induction false} SetAbsent(es: Entries, key: string, v: Value)
    requires key !in Keys(es)
    ensures Set(es, key, v) == es + [(key, v)]
  {
    if es != [] {
      KeysTail(es, key);
      calc {
        Set(es, key, v);
        [es[0]] + Set(es[1..], key, v);
      == { SetAbsent(es[1..], key, v); }
        [es[0]] + (es[1..] + [(key, v)]);
      == { SliceAppend(es, (key, v)); }
        es + [(key, v)];
      }
    }
  }

  lemma SliceAppend(es: Entries, e: (string, Value))
    requires es != []
    ensures [es[0]] + (es[1..] + [e]) == es + [e]
  {
  }

  /** A key absent from a non-empty dict is not its first key and is absent from the rest. */
  lemma KeysTail(es: Entries, key: string)
    requires es != [] && key !in Keys(es)
    ensures es[0].0 != key && key !in Keys(es[1..])
  {
    assert Keys(es)[0] == es[0].0;
  }

  /** Assigning to the key of the last entry, present nowhere else, replaces that entry. */
  lemma {:induction false} SetLast(es: Entries, key: string, u: Value, v: Value)
    requires key !in Keys(es)
    ensures Set(es + [(key, u)], key, v) == es + [(key, v)]
  {
    if es == [] {
      assert [] + [(key, u)] == [(key, u)];
    } else {
      KeysTail(es, key);
      assert (es + [(key, u)])[1..] == es[1..] + [(key, u)];
      SetLast(es[1..], key, u, v);
      assert [es[0]] + (es[1..] + [(key, v)]) == es + [(key, v)];
    }
  }

  /**
   * `{prefix + key: value for key, value in attrs}`: the attributes of an
   * element as a dict, keys prefixed, inserted in order (a later duplicate
   * key overwrites the earlier value in its position).
   */
  function PrefixedDict(attrs: seq<Pair>, prefix: string): (r: Entries)
    ensures UniqueKeys(r)
  {
    if attrs == [] then []
    else
      var d := PrefixedDict(attrs[..|attrs| - 1], prefix);
      SetUnique(d, prefix + attrs[|attrs| - 1].key, Str(attrs[|attrs| - 1].value));
      Set(d, prefix + attrs[|attrs| - 1].key, Str(attrs[|attrs| - 1].value))
  }

  /** The prefixed attribute keys, in document order. */
  function PrefixedKeys(attrs: seq<Pair>, prefix: string): (ks: seq<string>)
    ensures |ks| == |attrs|
    ensures forall j :: 0 <= j < |attrs| ==> ks[j] == prefix + attrs[j].key
  {
    if attrs == [] then [] else PrefixedKeys(attrs[..|attrs| - 1], prefix) + [prefix + attrs[|attrs| - 1].key]
  }

  /** The attribute dict holds exactly the prefixed keys, each with a string value. */
  lemma {:induction false} PrefixedDictKeys(attrs: seq<Pair>, prefix: string, k: string)
    ensures Get(PrefixedDict(attrs, prefix), k).Some? <==> k in PrefixedKeys(attrs, prefix)
    ensures Get(PrefixedDict(attrs, prefix), k).Some? ==> Get(PrefixedDict(attrs, prefix), k).value.Str?
  {
    if attrs != [] {
      var init := attrs[..|attrs| - 1];
      PrefixedDictKeys(init, prefix, k);
      assert PrefixedKeys(attrs, prefix) == PrefixedKeys(init, prefix) + [prefix + attrs[|attrs| - 1].key];
    }
  }

  /** A key maps to the value of the last attribute that carries it. */
  lemma {:induction false} PrefixedDictLast(attrs: seq<Pair>, prefix: string, j: nat)
    requires j < |attrs|
    requires forall l :: j < l < |attrs| ==> attrs[l].key != attrs[j].key
    ensures Get(PrefixedDict(attrs, prefix), prefix + attrs[j].key) == Some(Str(attrs[j].value))
  {
    var init := attrs[..|attrs| - 1];
    var last := attrs[|attrs| - 1];
    if j < |attrs| - 1 {
      assert (prefix + last.key)[|prefix|..] == last.key;
      assert (prefix + attrs[j].key)[|prefix|..] == attrs[j].key;
      assert init[j] == attrs[j];
      PrefixedDictLast(init, prefix, j);
    }
  }
}

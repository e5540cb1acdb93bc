/** Finite sets and maps as lists in some order, which is how the engine ranges over its maps. */
module Listings {

  /** The list names exactly these keys, each once. */
  ghost predicate Lists<T, K(!new)>(list: seq<T>, key: T -> K, keys: set<K>) {
    && (forall i :: 0 <= i < |list| ==> key(list[i]) in keys)
    && (forall k :: k in keys ==> exists i :: 0 <= i < |list| && key(list[i]) == k)
    && (forall i, j :: 0 <= i < j < |list| ==> key(list[i]) != key(list[j]))
  }

  function Itself<T>(x: T): T { x }

  function ElementsOf<K>(list: seq<K>): set<K> {
    set k | k in list
  }

  /** The map that the list fills in; later entries overwrite earlier ones. */
  function FromList<T, K, V>(list: seq<T>, key: T -> K, val: T -> V): map<K, V>
    decreases |list|
  {
    if list == [] then map[]
    else FromList(list[..|list| - 1], key, val)[key(list[|list| - 1]) := val(list[|list| - 1])]
  }

  lemma {:induction false} FromListWithin<T, K, V>(list: seq<T>, key: T -> K, val: T -> V, m: map<K, V>)
    requires forall i :: 0 <= i < |list| ==> key(list[i]) in m && m[key(list[i])] == val(list[i])
    ensures forall k :: k in FromList(list, key, val) ==> k in m && FromList(list, key, val)[k] == m[k]
    ensures forall i :: 0 <= i < |list| ==> key(list[i]) in FromList(list, key, val)
    decreases |list|
  {
    if list != [] {
      FromListWithin(list[..|list| - 1], key, val, m);
    }
  }

  /** A list of a map's keys with their values fills in the map. */
  lemma FromListIs<T, K(!new), V>(list: seq<T>, key: T -> K, val: T -> V, m: map<K, V>)
    requires Lists(list, key, m.Keys)
    requires forall i :: 0 <= i < |list| ==> m[key(list[i])] == val(list[i])
    ensures FromList(list, key, val) == m
  {
    FromListWithin(list, key, val, m);
    forall k | k in m ensures k in FromList(list, key, val) {
      var i :| 0 <= i < |list| && key(list[i]) == k;
    }
  }

  lemma {:induction false} FromListValues<T, K, V>(list: seq<T>, key: T -> K, val: T -> V, k: K)
    ensures k in FromList(list, key, val) <==> exists i :: 0 <= i < |list| && key(list[i]) == k
    ensures k in FromList(list, key, val) ==> exists i :: 0 <= i < |list| && key(list[i]) == k && FromList(list, key, val)[k] == val(list[i])
    decreases |list|
  {
    if list != [] {
      var front := list[..|list| - 1];
      FromListValues(front, key, val, k);
      if k in FromList(front, key, val) {
        var i :| 0 <= i < |front| && key(front[i]) == k && FromList(front, key, val)[k] == val(front[i]);
        assert list[i] == front[i];
      }
      forall i | 0 <= i < |front| && key(list[i]) == k ensures k in FromList(front, key, val) {
        assert front[i] == list[i];
      }
    }
  }

  lemma ListsSnoc<T, K(!new)>(list: seq<T>, key: T -> K, keys: set<K>, x: T)
    requires Lists(list, key, keys) && key(x) !in keys
    ensures Lists(list + [x], key, keys + {key(x)})
  {
    var longer := list + [x];
    forall k | k in keys + {key(x)} ensures exists i :: 0 <= i < |longer| && key(longer[i]) == k {
      if k in keys {
        var i :| 0 <= i < |list| && key(list[i]) == k;
        assert key(longer[i]) == k;
      } else {
        assert key(longer[|list|]) == k;
      }
    }
  }

  lemma ListsCons<T, K(!new)>(list: seq<T>, key: T -> K, keys: set<K>, x: T)
    requires Lists(list, key, keys) && key(x) !in keys
    ensures Lists([x] + list, key, keys + {key(x)})
  {
    var longer := [x] + list;
    assert forall i :: 0 < i < |longer| ==> longer[i] == list[i - 1];
    forall k | k in keys + {key(x)} ensures exists i :: 0 <= i < |longer| && key(longer[i]) == k {
      if k in keys {
        var i :| 0 <= i < |list| && key(list[i]) == k;
        assert key(longer[i + 1]) == k;
      } else {
        assert key(longer[0]) == k;
      }
    }
  }

  lemma ListsFront<T, K(!new)>(list: seq<T>, key: T -> K, keys: set<K>)
    requires Lists(list, key, keys) && list != []
    ensures Lists(list[..|list| - 1], key, keys - {key(list[|list| - 1])})
  {
    var front, k := list[..|list| - 1], key(list[|list| - 1]);
    forall x | x in keys - {k} ensures exists i :: 0 <= i < |front| && key(front[i]) == x {
      var i :| 0 <= i < |list| && key(list[i]) == x;
      assert key(front[i]) == x;
    }
  }

  lemma {:induction false} ListedCount<T, K(!new)>(list: seq<T>, key: T -> K, keys: set<K>)
    requires Lists(list, key, keys)
    ensures |list| == |keys|
    decreases |list|
  {
    if list == [] {
      assert keys == {};
    } else {
      ListsFront(list, key, keys);
      ListedCount(list[..|list| - 1], key, keys - {key(list[|list| - 1])});
    }
  }

  lemma ListedElements<K(!new)>(list: seq<K>, keys: set<K>)
    requires Lists(list, Itself, keys)
    ensures ElementsOf(list) == keys
  {
    forall k | k in keys ensures k in list {
      var i :| 0 <= i < |list| && Itself(list[i]) == k;
    }
    forall k | k in list ensures k in keys {
      var i :| 0 <= i < |list| && list[i] == k;
      assert Itself(list[i]) in keys;
    }
  }

  /** Every set can be listed. */
  lemma {:induction false} ListingExists<K(!new)>(keys: set<K>) returns (list: seq<K>)
    ensures Lists(list, Itself, keys)
    decreases keys
  {
    if keys == {} {
      list := [];
    } else {
      var k :| k in keys;
      var front := ListingExists(keys - {k});
      ListsSnoc(front, Itself, keys - {k}, k);
      assert keys - {k} + {k} == keys;
      list := front + [k];
    }
  }

  /** The elements of a set in some order. */
  method ListSet<K(==, !new)>(keys: set<K>) returns (list: seq<K>)
    ensures Lists(list, Itself, keys)
  {
    list := [];
    var todo := keys;
    while todo != {}
      invariant todo <= keys && Lists(list, Itself, keys - todo)
      decreases todo
    {
      var k :| k in todo;
      ListsSnoc(list, Itself, keys - todo, k);
      assert keys - (todo - {k}) == keys - todo + {k};
      list := list + [k];
      todo := todo - {k};
    }
    assert keys - {} == keys;
  }
}

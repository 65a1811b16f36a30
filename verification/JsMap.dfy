/**
 JavaScript's `Map`: keys in the order they were first set, each with the value it was last set to.
 Building one from a list of entries and reading its values is the deduplication idiom of the
 assessment code.
 */
module JsMap {
  datatype JsMap<K(==, !new), V> = JsMap(keys: seq<K>, vals: map<K, V>) {
    ghost predicate Valid() {
      && (forall k :: k in keys <==> k in vals)
      && (forall i, j :: 0 <= i < j < |keys| ==> keys[i] != keys[j])
    }

    function Set(k: K, v: V): (r: JsMap<K, V>)
      ensures Valid() ==> r.Valid()
    {
      JsMap(if k in vals then keys else keys + [k], vals[k := v])
    }

    function Values(): seq<V>
      requires Valid()
    {
      seq(|keys|, i requires 0 <= i < |keys| => vals[keys[i]])
    }

    function Items(): (r: seq<(K, V)>)
      requires Valid()
    {
      seq(|keys|, i requires 0 <= i < |keys| => (keys[i], vals[keys[i]]))
    }
  }

  function Empty<K(==, !new), V>(): JsMap<K, V> {
    JsMap([], map[])
  }

  /** The entries set one after the other. */
  function SetAll<K(==, !new), V>(m: JsMap<K, V>, entries: seq<(K, V)>): (r: JsMap<K, V>)
    requires m.Valid()
    ensures r.Valid()
  {
    if entries == [] then m
    else
      var last := entries[|entries| - 1];
      SetAll(m, entries[..|entries| - 1]).Set(last.0, last.1)
  }

  function FromEntries<K(==, !new), V>(entries: seq<(K, V)>): (r: JsMap<K, V>)
    ensures r.Valid()
  {
    SetAll(Empty(), entries)
  }

  /** The last value a list of entries gives each of its keys. */
  function LastOf<K(==, !new), V>(entries: seq<(K, V)>): map<K, V> {
    if entries == [] then map[]
    else LastOf(entries[..|entries| - 1])[entries[|entries| - 1].0 := entries[|entries| - 1].1]
  }

  lemma {:induction false} SetAllLast<K(!new), V>(m: JsMap<K, V>, entries: seq<(K, V)>)
    requires m.Valid() && entries != []
    ensures var last := entries[|entries| - 1];
      SetAll(m, entries) == SetAll(m, entries[..|entries| - 1]).Set(last.0, last.1)
  {
  }

  lemma {:induction false} NoEntries<K(!new), V>(m: JsMap<K, V>)
    requires m.Valid()
    ensures SetAll(m, []) == m && LastOf<K, V>([]) == map[]
  {
  }

  lemma {:induction false} LastOfLast<K(!new), V>(entries: seq<(K, V)>)
    requires entries != []
    ensures var last := entries[|entries| - 1]; LastOf(entries) == LastOf(entries[..|entries| - 1])[last.0 := last.1]
  {
  }

  lemma UpdateOfSum<K, V>(a: map<K, V>, b: map<K, V>, k: K, v: V)
    ensures (a + b)[k := v] == a + b[k := v]
  {
  }

  lemma {:induction false} LastWins<K(!new), V>(m: JsMap<K, V>, entries: seq<(K, V)>)
    requires m.Valid()
    ensures SetAll(m, entries).vals == m.vals + LastOf(entries)
  {
    hide SetAll, LastOf;
    if entries == [] {
      NoEntries(m);
    } else {
      var init, last := entries[..|entries| - 1], entries[|entries| - 1];
      SetAllLast(m, entries);
      LastOfLast(entries);
      LastWins(m, init);
      UpdateOfSum(m.vals, LastOf(init), last.0, last.1);
    }
  }

  /** Entries whose keys are all there keep the order. */
  lemma {:induction false} KnownKeysKeepOrder<K(!new), V>(m: JsMap<K, V>, entries: seq<(K, V)>)
    requires m.Valid() && LastOf(entries).Keys <= m.vals.Keys
    ensures SetAll(m, entries).keys == m.keys
  {
    hide SetAll, LastOf;
    if entries == [] {
      NoEntries(m);
    } else {
      var init := entries[..|entries| - 1];
      SetAllLast(m, entries);
      LastOfLast(entries);
      assert LastOf(init).Keys <= LastOf(entries).Keys;
      KnownKeysKeepOrder(m, init);
      LastWins(m, init);
    }
  }

  lemma {:induction false} SetAllConcat<K(!new), V>(m: JsMap<K, V>, a: seq<(K, V)>, b: seq<(K, V)>)
    requires m.Valid()
    ensures SetAll(m, a + b) == SetAll(SetAll(m, a), b)
  {
    if b == [] {
      assert a + b == a;
    } else {
      SetAllConcat(m, a, b[..|b| - 1]);
      assert (a + b)[..|a + b| - 1] == a + b[..|b| - 1];
    }
  }

  /** Setting the same entries again changes nothing. */
  lemma {:induction false} SetAllTwice<K(!new), V>(m: JsMap<K, V>, entries: seq<(K, V)>)
    requires m.Valid()
    ensures SetAll(SetAll(m, entries), entries) == SetAll(m, entries)
  {
    hide SetAll, LastOf;
    var once := SetAll(m, entries);
    LastWins(m, entries);
    LastWins(once, entries);
    KnownKeysKeepOrder(once, entries);
  }

  predicate Agrees<K(!new), V(==)>(a: map<K, V>, b: map<K, V>, keys: seq<K>) {
    forall i :: 0 <= i < |keys| ==> keys[i] in a && keys[i] in b && a[keys[i]] == b[keys[i]]
  }

  lemma AgreesMore<K(!new), V>(a: map<K, V>, b: map<K, V>, keys: seq<K>, k: K)
    requires Agrees(a, b, keys) && k !in keys && k in b
    ensures Agrees(a[k := b[k]], b, keys + [k])
  {
  }

  lemma SameKeys<K(!new), V>(m: JsMap<K, V>, k: K)
    requires m.Valid()
    ensures k in m.vals <==> k in m.keys
  {
  }

  lemma ItemsMore<K(!new), V>(m: JsMap<K, V>, n: nat)
    requires m.Valid() && 0 < n <= |m.keys|
    ensures m.keys[n - 1] in m.vals && m.keys[n - 1] !in m.keys[..n - 1]
    ensures m.keys[..n] == m.keys[..n - 1] + [m.keys[n - 1]]
    ensures m.Items()[..n][..n - 1] == m.Items()[..n - 1]
      && m.Items()[..n][n - 1] == (m.keys[n - 1], m.vals[m.keys[n - 1]])
  {
  }

  lemma FromNoItems<K(!new), V>(m: JsMap<K, V>)
    requires m.Valid()
    ensures FromEntries(m.Items()[..0]).keys == m.keys[..0]
    ensures Agrees(FromEntries(m.Items()[..0]).vals, m.vals, m.keys[..0])
  {
    hide LastOf;
    NoEntries(Empty<K, V>());
  }

  lemma FromEntriesLast<K(!new), V>(entries: seq<(K, V)>)
    requires entries != []
    ensures var last := entries[|entries| - 1];
      FromEntries(entries) == FromEntries(entries[..|entries| - 1]).Set(last.0, last.1)
  {
    SetAllLast(Empty<K, V>(), entries);
  }

  /** Setting one more key of `m` to its value there. */
  lemma SetMore<K(!new), V>(a: JsMap<K, V>, m: JsMap<K, V>, keys: seq<K>, k: K)
    requires a.Valid() && a.keys == keys && Agrees(a.vals, m.vals, keys) && k !in keys && k in m.vals
    ensures a.Set(k, m.vals[k]).keys == keys + [k] && Agrees(a.Set(k, m.vals[k]).vals, m.vals, keys + [k])
  {
    SameKeys(a, k);
    hide Agrees;
    AgreesMore(a.vals, m.vals, keys, k);
  }

  /** Rebuilding a map from its own entries gives it back. */
  lemma {:induction false} FromItems<K(!new), V>(m: JsMap<K, V>, n: nat)
    requires m.Valid() && n <= |m.keys|
    ensures FromEntries(m.Items()[..n]).keys == m.keys[..n]
    ensures Agrees(FromEntries(m.Items()[..n]).vals, m.vals, m.keys[..n])
  {
    if n == 0 {
      FromNoItems(m);
    } else {
      hide SetAll, LastOf, FromEntries, Agrees, JsMap.Valid, JsMap.Items, JsMap.Set;
      var items, k := m.Items()[..n], m.keys[n - 1];
      ItemsMore(m, n);
      FromEntriesLast(items);
      FromItems(m, n - 1);
      SetMore(FromEntries(m.Items()[..n - 1]), m, m.keys[..n - 1], k);
    }
  }

  lemma RebuildIsIdentity<K(!new), V>(m: JsMap<K, V>)
    requires m.Valid()
    ensures FromEntries(m.Items()) == m
  {
    hide FromEntries;
    FromItems(m, |m.keys|);
    assert m.Items()[..|m.keys|] == m.Items() && m.keys[..|m.keys|] == m.keys;
    assert FromEntries(m.Items()).vals == m.vals;
  }

  /** The values are the ones some key was last set to. */
  lemma ValuesAreLast<K(!new), V(!new)>(m: JsMap<K, V>)
    requires m.Valid()
    ensures forall v :: v in m.Values() <==> exists k :: k in m.vals && m.vals[k] == v
  {
    forall v
      ensures v in m.Values() <==> exists k :: k in m.vals && m.vals[k] == v
    {
      if v in m.Values() {
        var i :| 0 <= i < |m.Values()| && m.Values()[i] == v;
        assert m.keys[i] in m.vals;
      }
      if k :| k in m.vals && m.vals[k] == v {
        var i :| 0 <= i < |m.keys| && m.keys[i] == k;
        assert m.Values()[i] == v;
      }
    }
  }

  lemma {:induction false} LastOfConcat<K(!new), V>(a: seq<(K, V)>, b: seq<(K, V)>)
    ensures LastOf(a + b) == LastOf(a) + LastOf(b)
  {
    if b == [] {
      assert a + b == a;
    } else {
      LastOfConcat(a, b[..|b| - 1]);
      assert (a + b)[..|a + b| - 1] == a + b[..|b| - 1];
    }
  }
}

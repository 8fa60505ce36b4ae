/** Re-keying a counted table at close: selected keys leave before any returns, so no key is capped twice. */
module KeyCap {
  import opened Orders
  import opened Sums
  import opened BoundedTable

  /** Where a key ends up. */
  function Recap<K>(selected: K -> bool, cap: K -> K): K -> K { k => if selected(k) then cap(k) else k }

  /** Each key of the re-keyed table counts everything that ends up there. */
  ghost predicate Recapped<K>(table: map<K, nat>, keys: set<K>, move: K -> K, r: map<K, nat>) {
    && r.Keys == Image(keys, move)
    && forall k :: k in r ==> r[k] == SetSum(Fiber(keys, move, k), CountOf(table))
  }

  lemma Moved<K>(table: map<K, nat>, keys: set<K>, move: K -> K, r: map<K, nat>, key: K)
    requires Recapped(table, keys, move, r) && key in table && key !in keys
    ensures var to := move(key); Recapped(table, keys + {key}, move,
                                          r[to := (if to in r then r[to] else 0) + table[key]])
  {
    var to := move(key);
    assert Image(keys + {key}, move) == Image(keys, move) + {to};
    forall k ensures Fiber(keys + {key}, move, k) == if k == to then Fiber(keys, move, k) + {key}
        else Fiber(keys, move, k) {}
    SetSumAdd(Fiber(keys, move, to), key, CountOf(table));
    if to !in r { assert Fiber(keys, move, to) == {} by
        { assert forall k :: k in keys ==> move(k) in Image(keys, move); } }
    hide Image, Fiber;
  }

  lemma Kept<K>(table: map<K, nat>, keys: set<K>, move: K -> K)
    requires keys <= table.Keys && forall k :: k in keys ==> move(k) == k
    ensures Recapped(table, keys, move, map k | k in keys :: table[k])
  {
    assert Image(keys, move) == keys;
    forall k | k in keys ensures SetSum(Fiber(keys, move, k), CountOf(table)) == table[k] {
      assert Fiber(keys, move, k) == {k};
      SetSumAdd({}, k, CountOf(table));
      assert {} + {k} == {k};
    }
  }

  method CapKeys<K(==,!new)>(table: map<K, nat>, selected: K -> bool, cap: K -> K) returns (r: map<K, nat>)
    ensures Recapped(table, table.Keys, Recap(selected, cap), r)
  {
    hide Recapped, Image, Fiber;
    var nodes: set<K>;
    r, nodes := Extract(table, selected);
    ghost var move := Recap(selected, cap);
    assert r == map k | k in table.Keys - nodes :: table[k];
    Kept(table, table.Keys - nodes, move);
    var left := nodes;
    while left != {}
      invariant left <= nodes && Recapped(table, table.Keys - left, move, r)
      decreases left
    {
      var key :| key in left;
      Moved(table, table.Keys - left, move, r, key);
      assert table.Keys - (left - {key}) == table.Keys - left + {key};
      var to := cap(key);
      if to in r {
        r := r[to := r[to] + table[key]];
      } else {
        r := r[to := table[key]];
      }
      left := left - {key};
    }
    assert table.Keys - left == table.Keys;
  }

  /** Takes every selected key out of the table first. */
  method Extract<K(==,!new)>(table: map<K, nat>, selected: K -> bool) returns (rest: map<K, nat>, nodes: set<K>)
    ensures nodes == (set k | k in table && selected(k)) && rest == map k | k in table && k !in nodes :: table[k]
  {
    rest, nodes := table, {};
    var left := table.Keys;
    while left != {}
      invariant left <= table.Keys && nodes == (set k | k in table && k !in left && selected(k))
      invariant rest == map k | k in table && k !in nodes :: table[k]
      decreases left
    {
      var key :| key in left;
      if selected(key) {
        nodes, rest := nodes + {key}, rest - {key};
      }
      left := left - {key};
    }
  }

  /** Re-keying loses no count. */
  lemma RecapKeepsTotal<K>(table: map<K, nat>, move: K -> K, r: map<K, nat>)
    requires Recapped(table, table.Keys, move, r)
    ensures SetSum(r.Keys, CountOf(r)) == SetSum(table.Keys, CountOf(table))
  {
    FiberSum(table.Keys, move, CountOf(table));
    SetSumSame(r.Keys, CountOf(r), FiberTotal(table.Keys, move, CountOf(table)));
  }

  /** No iteration order of the table can change what re-keying gives. */
  lemma RecapUnique<K>(table: map<K, nat>, move: K -> K, r: map<K, nat>, r': map<K, nat>)
    requires Recapped(table, table.Keys, move, r) && Recapped(table, table.Keys, move, r')
    ensures r == r'
  {}
}

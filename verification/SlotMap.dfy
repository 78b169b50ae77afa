/** Two parallel arrays, keys and values, as one map. */
module SlotMap {
  import opened SendQueue

  ghost predicate Distinct(keys: seq<Fd>) {
    forall i, j :: 0 <= i < j < |keys| ==> keys[i] != keys[j]
  }

  ghost function ToMap<V>(keys: seq<Fd>, vals: seq<V>): map<Fd, V>
    requires |keys| == |vals|
    decreases |keys|
  {
    if keys == [] then map[]
    else ToMap(keys[..|keys| - 1], vals[..|keys| - 1])[keys[|keys| - 1] := vals[|keys| - 1]]
  }

  lemma {:induction false} KeysOf<V>(keys: seq<Fd>, vals: seq<V>)
    requires |keys| == |vals|
    ensures forall fd :: fd in ToMap(keys, vals) <==> fd in keys
    decreases |keys|
  {
    if keys == [] {
    } else {
      var n := |keys| - 1;
      KeysOf(keys[..n], vals[..n]);
      assert keys == keys[..n] + [keys[n]];
    }
  }

  lemma {:induction false} ValueAt<V>(keys: seq<Fd>, vals: seq<V>, i: nat)
    requires |keys| == |vals| && Distinct(keys) && i < |keys|
    ensures keys[i] in ToMap(keys, vals) && ToMap(keys, vals)[keys[i]] == vals[i]
    decreases |keys|
  {
    var n := |keys| - 1;
    if i == n {
    } else {
      ValueAt(keys[..n], vals[..n], i);
    }
  }

  /** Appending at a shared index is insertion. */
  lemma AppendIsInsertion<V>(keys: seq<Fd>, vals: seq<V>, fd: Fd, v: V)
    requires |keys| == |vals|
    ensures ToMap(keys + [fd], vals + [v]) == ToMap(keys, vals)[fd := v]
  {
  }

  lemma UpdateIsUpdate<V>(keys: seq<Fd>, vals: seq<V>, i: nat, v: V)
    requires |keys| == |vals| && Distinct(keys) && i < |keys|
    ensures ToMap(keys, vals[i := v]) == ToMap(keys, vals)[keys[i] := v]
  {
    var m, m' := ToMap(keys, vals), ToMap(keys, vals[i := v]);
    KeysOf(keys, vals);
    KeysOf(keys, vals[i := v]);
    forall fd | fd in keys ensures m'[fd] == m[keys[i] := v][fd] {
      var k :| 0 <= k < |keys| && keys[k] == fd;
      ValueAt(keys, vals, k);
      ValueAt(keys, vals[i := v], k);
    }
    SameMap(m', m[keys[i] := v]);
  }

  lemma SameMap<V>(m: map<Fd, V>, m': map<Fd, V>)
    requires forall g :: g in m <==> g in m'
    requires forall g :: g in m ==> m[g] == m'[g]
    ensures m == m'
  {
    forall g ensures g in m.Keys <==> g in m'.Keys {
      assert g in m <==> g in m';
    }
    assert m.Keys == m'.Keys;
    assert forall g :: g in m ==> m[g] == m'[g];
  }

  /** Swap-removal at a shared index is removal. */
  lemma SwapRemoveIsRemoval<V>(keys: seq<Fd>, vals: seq<V>, i: nat)
    requires |keys| == |vals| && Distinct(keys) && i < |keys|
    ensures Distinct(SwapRemove(keys, i))
    ensures ToMap(SwapRemove(keys, i), SwapRemove(vals, i)) == ToMap(keys, vals) - {keys[i]}
  {
    var keys', vals' := SwapRemove(keys, i), SwapRemove(vals, i);
    SwapRemovedKeys(keys, i);
    KeysOf(keys, vals);
    KeysOf(keys', vals');
    forall fd | fd in keys' ensures ToMap(keys', vals')[fd] == ToMap(keys, vals)[fd] {
      SwapRemovedValue(keys, vals, i, fd);
    }
    SameMap(ToMap(keys', vals'), ToMap(keys, vals) - {keys[i]});
  }

  lemma SwapRemovedKeys(keys: seq<Fd>, i: nat)
    requires Distinct(keys) && i < |keys|
    ensures Distinct(SwapRemove(keys, i))
    ensures forall fd :: fd in SwapRemove(keys, i) <==> fd in keys && fd != keys[i]
  {
    var keys' := SwapRemove(keys, i);
    forall fd | fd in keys && fd != keys[i] ensures fd in keys' {
      var k :| 0 <= k < |keys| && keys[k] == fd;
      assert keys'[if k == |keys'| then i else k] == fd;
    }
    forall fd | fd in keys' ensures fd in keys && fd != keys[i] {
      var k :| 0 <= k < |keys'| && keys'[k] == fd;
      assert keys[if k == i then |keys'| else k] == fd;
    }
  }

  lemma SwapRemovedValue<V>(keys: seq<Fd>, vals: seq<V>, i: nat, fd: Fd)
    requires |keys| == |vals| && Distinct(keys) && i < |keys|
    requires fd in SwapRemove(keys, i)
    ensures var m, m' := ToMap(keys, vals), ToMap(SwapRemove(keys, i), SwapRemove(vals, i));
            fd in m && fd in m' && m'[fd] == m[fd]
  {
    var keys', vals' := SwapRemove(keys, i), SwapRemove(vals, i);
    var k :| 0 <= k < |keys'| && keys'[k] == fd;
    SwapRemovedKeys(keys, i);
    ValueAt(keys', vals', k);
    ValueAt(keys, vals, if k == i then |keys'| else k);
  }

  // ----- arrays that may hold a key twice -----

  /** Distinct keys are those that occur at most once. */
  lemma {:induction false} DistinctCounts(keys: seq<Fd>)
    ensures Distinct(keys) <==> forall fd :: multiset(keys)[fd] <= 1
    decreases |keys|
  {
    if keys == [] {
    } else {
      var n := |keys| - 1;
      DistinctCounts(keys[..n]);
      assert keys == keys[..n] + [keys[n]];
      assert multiset(keys[..n])[keys[n]] > 0 <==> keys[n] in keys[..n];
      forall fd ensures multiset(keys)[fd] == multiset(keys[..n])[fd] + if fd == keys[n] then 1 else 0 {
      }
    }
  }

  ghost function Zip<V>(keys: seq<Fd>, vals: seq<V>): seq<(Fd, V)>
    requires |keys| == |vals|
  {
    seq(|keys|, i requires 0 <= i < |keys| => (keys[i], vals[i]))
  }

  /** Each key has lost as many entries as gone says, or all it had; the entries
      of the other keys are the same. */
  ghost predicate Loses<V(!new)>(keys: seq<Fd>, vals: seq<V>, keys': seq<Fd>, vals': seq<V>, gone: multiset<Fd>)
    requires |keys| == |vals| && |keys'| == |vals'|
  {
    && multiset(keys') == multiset(keys) - gone
    && forall fd, v :: fd !in gone ==> multiset(Zip(keys', vals'))[(fd, v)] == multiset(Zip(keys, vals))[(fd, v)]
  }

  lemma SwapRemoveLoses<V(!new)>(keys: seq<Fd>, vals: seq<V>, i: nat)
    requires |keys| == |vals| && i < |keys|
    ensures Loses(keys, vals, SwapRemove(keys, i), SwapRemove(vals, i), multiset{keys[i]})
  {
    SwapRemoveMultiset(keys, i);
    SwapRemoveMultiset(Zip(keys, vals), i);
    assert Zip(SwapRemove(keys, i), SwapRemove(vals, i)) == SwapRemove(Zip(keys, vals), i);
  }

  lemma LosesAbsent<V(!new)>(keys: seq<Fd>, vals: seq<V>, gone: multiset<Fd>)
    requires |keys| == |vals| && forall fd :: fd in gone ==> fd !in keys
    ensures Loses(keys, vals, keys, vals, gone)
  {
    forall fd ensures multiset(keys)[fd] == (multiset(keys) - gone)[fd] {
      assert fd in multiset(keys) <==> fd in keys;
    }
    assert multiset(keys) == multiset(keys) - gone;
  }

  lemma LosesBoth<V(!new)>(keys: seq<Fd>, vals: seq<V>, keys': seq<Fd>, vals': seq<V>, keys'': seq<Fd>, vals'': seq<V>,
                           x: multiset<Fd>, y: multiset<Fd>)
    requires |keys| == |vals| && |keys'| == |vals'| && |keys''| == |vals''|
    requires Loses(keys, vals, keys', vals', x) && Loses(keys', vals', keys'', vals'', y)
    ensures Loses(keys, vals, keys'', vals'', x + y)
  {
    assert multiset(keys) - x - y == multiset(keys) - (x + y);
  }

  /** Over distinct keys this is removal from the map. */
  lemma LosesIsRemoval<V(!new)>(keys: seq<Fd>, vals: seq<V>, keys': seq<Fd>, vals': seq<V>,
                                gone: multiset<Fd>, fds: set<Fd>)
    requires |keys| == |vals| && |keys'| == |vals'| && Distinct(keys)
    requires Loses(keys, vals, keys', vals', gone) && forall fd :: fd in fds <==> fd in gone
    ensures Distinct(keys') && ToMap(keys', vals') == ToMap(keys, vals) - fds
  {
    DistinctCounts(keys);
    DistinctCounts(keys');
    KeysOf(keys, vals);
    KeysOf(keys', vals');
    forall fd ensures fd in keys' <==> fd in keys && fd !in gone {
      assert fd in keys' <==> multiset(keys')[fd] > 0;
      assert fd in keys <==> multiset(keys)[fd] > 0;
    }
    forall fd | fd in keys' ensures ToMap(keys', vals')[fd] == ToMap(keys, vals)[fd] {
      SameValue(keys, vals, keys', vals', fd);
    }
    SameMap(ToMap(keys', vals'), ToMap(keys, vals) - fds);
  }

  lemma SameValue<V(!new)>(keys: seq<Fd>, vals: seq<V>, keys': seq<Fd>, vals': seq<V>, fd: Fd)
    requires |keys| == |vals| && |keys'| == |vals'| && Distinct(keys) && Distinct(keys')
    requires fd in keys'
    requires forall v :: multiset(Zip(keys', vals'))[(fd, v)] == multiset(Zip(keys, vals))[(fd, v)]
    ensures fd in ToMap(keys, vals) && fd in ToMap(keys', vals')
    ensures ToMap(keys', vals')[fd] == ToMap(keys, vals)[fd]
  {
    var k' :| 0 <= k' < |keys'| && keys'[k'] == fd;
    assert Zip(keys', vals')[k'] == (fd, vals'[k']);
    assert multiset(Zip(keys', vals'))[(fd, vals'[k'])] > 0;
    assert (fd, vals'[k']) in Zip(keys, vals);
    var k :| 0 <= k < |keys| && Zip(keys, vals)[k] == (fd, vals'[k']);
    ValueAt(keys', vals', k');
    ValueAt(keys, vals, k);
  }
}

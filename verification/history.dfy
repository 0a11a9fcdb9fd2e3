/** The deduplicating append of the incremental backfill: the old table loses
    every row whose (time, city) key occurs in the new batch, and the batch is
    appended after what is left. */
module History {
  import opened Seqs
  import opened Records

  /** Rows of `t` whose key is not in `ks`, in their original order. */
  function RemoveKeys(t: seq<Observation>, ks: set<Key>): (r: seq<Observation>)
    ensures forall i :: 0 <= i < |r| ==> KeyOf(r[i]) !in ks
  {
    Filter(t, (o: Observation) => KeyOf(o) !in ks)
  }

  /** Old rows not superseded by the batch, then the batch. */
  function Upsert(hist: seq<Observation>, batch: seq<Observation>): (r: seq<Observation>)
    ensures |batch| <= |r| <= |hist| + |batch|
    ensures r[|r| - |batch|..] == batch
    ensures forall i :: 0 <= i < |r| - |batch| ==> r[i] in hist && KeyOf(r[i]) !in Keys(batch)
    ensures forall i :: 0 <= i < |hist| && KeyOf(hist[i]) !in Keys(batch) ==> hist[i] in r[..|r| - |batch|]
    ensures Keys(r) == Keys(hist) + Keys(batch)
  {
    var kept := RemoveKeys(hist, Keys(batch));
    var r := kept + batch;
    assert r[..|kept|] == kept;
    KeysConcat(kept, batch);
    RemoveKeysKeys(hist, Keys(batch));
    r
  }

  lemma KeysConcat(a: seq<Observation>, b: seq<Observation>)
    ensures Keys(a + b) == Keys(a) + Keys(b)
  {
    var c := a + b;
    forall k | k in Keys(c) ensures k in Keys(a) + Keys(b) {
      var i :| 0 <= i < |c| && KeyOf(c[i]) == k;
      if i >= |a| {
        assert c[i] == b[i - |a|];
      }
    }
    forall k | k in Keys(a) ensures k in Keys(c) {
      var i :| 0 <= i < |a| && KeyOf(a[i]) == k;
      assert c[i] == a[i];
    }
    forall k | k in Keys(b) ensures k in Keys(c) {
      var i :| 0 <= i < |b| && KeyOf(b[i]) == k;
      assert c[|a| + i] == b[i];
    }
  }

  /** Removing keys removes exactly those keys. */
  lemma RemoveKeysKeys(t: seq<Observation>, ks: set<Key>)
    ensures Keys(RemoveKeys(t, ks)) == Keys(t) - ks
  {
    var kept := RemoveKeys(t, ks);
    forall k | k in Keys(t) - ks ensures k in Keys(kept) {
      var i :| 0 <= i < |t| && KeyOf(t[i]) == k;
      var j :| 0 <= j < |kept| && kept[j] == t[i];
    }
    forall k | k in Keys(kept) ensures k in Keys(t) {
      var i :| 0 <= i < |kept| && KeyOf(kept[i]) == k;
      var j :| 0 <= j < |t| && t[j] == kept[i];
    }
  }

  /** The surviving old rows keep their relative order. */
  lemma UpsertKeepsOrder(hist: seq<Observation>, batch: seq<Observation>)
    ensures var r := Upsert(hist, batch); IsSubsequence(r[..|r| - |batch|], hist)
  {
    var r := Upsert(hist, batch);
    var kept := RemoveKeys(hist, Keys(batch));
    assert r[..|r| - |batch|] == kept;
    FilterIsSubsequence(hist, (o: Observation) => KeyOf(o) !in Keys(batch));
  }

  /** Last writer wins: a row of the result whose key the batch carries is a batch row. */
  lemma UpsertLastWriterWins(hist: seq<Observation>, batch: seq<Observation>)
    ensures forall o :: o in Upsert(hist, batch) && KeyOf(o) in Keys(batch) ==> o in batch
  {
  }

  /** The table as a keyed store: each key maps to the last row carrying it. */
  function ToMap(t: seq<Observation>): (m: map<Key, Observation>)
    ensures m.Keys == Keys(t)
  {
    if t == [] then map[]
    else
      var m := ToMap(t[..|t| - 1])[KeyOf(t[|t| - 1]) := t[|t| - 1]];
      assert Keys(t) == Keys(t[..|t| - 1]) + {KeyOf(t[|t| - 1])} by {
        forall k | k in Keys(t) ensures k in Keys(t[..|t| - 1]) + {KeyOf(t[|t| - 1])} {
          var i :| 0 <= i < |t| && KeyOf(t[i]) == k;
          if i < |t| - 1 { assert t[..|t| - 1][i] == t[i]; }
        }
      }
      m
  }

  lemma {:induction false} ToMapConcat(a: seq<Observation>, b: seq<Observation>)
    ensures ToMap(a + b) == ToMap(a) + ToMap(b)
    decreases |b|
  {
    if b != [] {
      var b' := b[..|b| - 1];
      assert (a + b)[..|a + b| - 1] == a + b';
      ToMapConcat(a, b');
    } else {
      assert a + b == a;
    }
  }

  lemma RemoveKeysLast(init: seq<Observation>, x: Observation, ks: set<Key>)
    ensures RemoveKeys(init + [x], ks) == RemoveKeys(init, ks) + (if KeyOf(x) in ks then [] else [x])
  {
    RemoveKeysConcat(init, [x], ks);
    assert RemoveKeys([x], ks) == (if KeyOf(x) in ks then [] else [x]);
  }

  lemma ToMapLast(init: seq<Observation>, x: Observation)
    ensures ToMap(init + [x]) == ToMap(init)[KeyOf(x) := x]
  {
    assert (init + [x])[..|init + [x]| - 1] == init;
  }

  lemma UpdateThenRemove<K, V>(m: map<K, V>, k: K, v: V, ks: set<K>)
    ensures k in ks ==> m[k := v] - ks == m - ks
    ensures k !in ks ==> (m - ks)[k := v] == m[k := v] - ks
  {
  }

  lemma {:induction false} ToMapRemoveKeys(t: seq<Observation>, ks: set<Key>)
    ensures ToMap(RemoveKeys(t, ks)) == ToMap(t) - ks
    decreases |t|
  {
    if t != [] {
      var init, x := t[..|t| - 1], t[|t| - 1];
      assert t == init + [x];
      ToMapRemoveKeys(init, ks);
      RemoveKeysLast(init, x, ks);
      ToMapLast(init, x);
      UpdateThenRemove(ToMap(init), KeyOf(x), x, ks);
      if KeyOf(x) in ks {
        assert RemoveKeys(t, ks) == RemoveKeys(init, ks);
      } else {
        assert RemoveKeys(t, ks) == RemoveKeys(init, ks) + [x];
        ToMapLast(RemoveKeys(init, ks), x);
      }
    }
  }

  /** Read as keyed stores, the upsert is map union with the batch winning:
      every batch key gets the batch's (last) row, every other old key keeps
      its old row. */
  lemma UpsertIsMapUnion(hist: seq<Observation>, batch: seq<Observation>)
    ensures ToMap(Upsert(hist, batch)) == ToMap(hist) + ToMap(batch)
  {
    var ks := Keys(batch);
    var kept := RemoveKeys(hist, ks);
    ToMapConcat(kept, batch);
    ToMapRemoveKeys(hist, ks);
    MapUnionMinus(ToMap(hist), ToMap(batch), ks);
  }

  lemma MapUnionMinus<K, V>(h: map<K, V>, b: map<K, V>, ks: set<K>)
    requires b.Keys == ks
    ensures (h - ks) + b == h + b
  {
  }

  /** Applying the same batch twice gives the table of applying it once. */
  lemma UpsertIdempotent(hist: seq<Observation>, batch: seq<Observation>)
    ensures Upsert(Upsert(hist, batch), batch) == Upsert(hist, batch)
  {
    var ks := Keys(batch);
    var kept := RemoveKeys(hist, ks);
    RemoveKeysConcat(kept, batch, ks);
    RemoveKeysNone(kept, ks);
    RemoveKeysAll(batch, ks);
  }

  lemma RemoveKeysConcat(a: seq<Observation>, b: seq<Observation>, ks: set<Key>)
    ensures RemoveKeys(a + b, ks) == RemoveKeys(a, ks) + RemoveKeys(b, ks)
  {
    FilterConcat(a, b, (o: Observation) => KeyOf(o) !in ks);
  }

  lemma {:induction false} RemoveKeysNone(t: seq<Observation>, ks: set<Key>)
    requires forall i :: 0 <= i < |t| ==> KeyOf(t[i]) !in ks
    ensures RemoveKeys(t, ks) == t
  {
    if t != [] {
      RemoveKeysNone(t[1..], ks);
      assert t == [t[0]] + t[1..];
    }
  }

  lemma {:induction false} RemoveKeysAll(t: seq<Observation>, ks: set<Key>)
    requires Keys(t) <= ks
    ensures RemoveKeys(t, ks) == []
  {
    if t != [] {
      assert KeyOf(t[0]) in Keys(t);
      assert Keys(t[1..]) <= Keys(t) by {
        forall k | k in Keys(t[1..]) ensures k in Keys(t) {
          var i :| 0 <= i < |t[1..]| && KeyOf(t[1..][i]) == k;
          assert t[1..][i] == t[i + 1];
        }
      }
      RemoveKeysAll(t[1..], ks);
    }
  }

  /** With unique keys on both sides the result has unique keys, and holds
      the old rows minus the overlap plus the batch. */
  lemma UpsertUnique(hist: seq<Observation>, batch: seq<Observation>)
    requires UniqueKeys(hist) && UniqueKeys(batch)
    ensures UniqueKeys(Upsert(hist, batch))
    ensures |Upsert(hist, batch)| == |hist| - |Keys(hist) * Keys(batch)| + |batch|
  {
    var ks := Keys(batch);
    var kept := RemoveKeys(hist, ks);
    var r := kept + batch;
    RemoveKeysUnique(hist, ks);
    RemoveKeysCount(hist, ks);
    forall i, j | 0 <= i < j < |r| ensures KeyOf(r[i]) != KeyOf(r[j]) {
      if j >= |kept| && i < |kept| {
        assert r[j] == batch[j - |kept|];
        assert KeyOf(r[j]) in ks;
      } else if i >= |kept| {
        assert r[i] == batch[i - |kept|] && r[j] == batch[j - |kept|];
      }
    }
  }

  /** Keys and uniqueness of a table with one row put in front. */
  lemma KeysCons(o: Observation, t: seq<Observation>)
    ensures Keys([o] + t) == {KeyOf(o)} + Keys(t)
    ensures UniqueKeys([o] + t) <==> KeyOf(o) !in Keys(t) && UniqueKeys(t)
  {
    var c := [o] + t;
    assert c[0] == o;
    forall x | x in Keys(c) ensures x in {KeyOf(o)} + Keys(t) {
      var i :| 0 <= i < |c| && KeyOf(c[i]) == x;
      if i > 0 { assert t[i - 1] == c[i]; }
    }
    forall x | x in Keys(t) ensures x in Keys(c) {
      var i :| 0 <= i < |t| && KeyOf(t[i]) == x;
      assert c[i + 1] == t[i];
    }
    if UniqueKeys(c) {
      forall i, j | 0 <= i < j < |t| ensures KeyOf(t[i]) != KeyOf(t[j]) {
        assert c[i + 1] == t[i] && c[j + 1] == t[j];
      }
      forall i | 0 <= i < |t| ensures KeyOf(t[i]) != KeyOf(o) {
        assert c[i + 1] == t[i];
        assert KeyOf(c[0]) != KeyOf(c[i + 1]);
      }
    }
    if KeyOf(o) !in Keys(t) && UniqueKeys(t) {
      forall i, j | 0 <= i < j < |c| ensures KeyOf(c[i]) != KeyOf(c[j]) {
        assert c[j] == t[j - 1];
        if i > 0 { assert c[i] == t[i - 1]; }
      }
    }
  }

  lemma {:induction false} RemoveKeysUnique(t: seq<Observation>, ks: set<Key>)
    requires UniqueKeys(t)
    ensures UniqueKeys(RemoveKeys(t, ks))
  {
    if t != [] {
      assert t == [t[0]] + t[1..];
      KeysCons(t[0], t[1..]);
      RemoveKeysUnique(t[1..], ks);
      var rest := RemoveKeys(t[1..], ks);
      if KeyOf(t[0]) !in ks {
        assert RemoveKeys(t, ks) == [t[0]] + rest;
        assert KeyOf(t[0]) !in Keys(rest) by {
          forall i | 0 <= i < |rest| ensures KeyOf(rest[i]) != KeyOf(t[0]) {
            var j :| 0 <= j < |t[1..]| && t[1..][j] == rest[i];
          }
        }
        KeysCons(t[0], rest);
      }
    }
  }

  /** Filtering a table with unique keys removes exactly the rows of the overlap. */
  lemma {:induction false} RemoveKeysCount(t: seq<Observation>, ks: set<Key>)
    requires UniqueKeys(t)
    ensures |RemoveKeys(t, ks)| == |t| - |Keys(t) * ks|
  {
    if t == [] {
      assert Keys(t) == {};
    } else {
      assert t == [t[0]] + t[1..];
      KeysCons(t[0], t[1..]);
      RemoveKeysCount(t[1..], ks);
      var k := KeyOf(t[0]);
      if k in ks {
        assert Keys(t) * ks == {k} + Keys(t[1..]) * ks;
      } else {
        assert Keys(t) * ks == Keys(t[1..]) * ks;
      }
    }
  }
}

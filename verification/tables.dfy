/** `std::map<std::string, V>` as its in-order contents: the (key, value)
    pairs with strictly ascending keys, which is the sequence a range-for over
    the map visits. `find` and `insert` are the two map operations the core
    uses. */
module Tables {
  import opened Bytes
  import opened KeyOrder

  type Table<V> = seq<(bytes, V)>

  datatype Option<V> = None | Some(value: V)

  /** The keys ascend strictly: the ordering invariant of a `std::map`. */
  predicate Ascending<V>(t: Table<V>) {
    forall i, j {:trigger Less(t[i].0, t[j].0)} :: 0 <= i < j < |t| ==> Less(t[i].0, t[j].0)
  }

  /** Some pair of the table carries `key`. */
  predicate HasKey<V>(t: Table<V>, key: bytes) {
    exists i :: 0 <= i < |t| && t[i].0 == key
  }

  /** Every key of the table comes after `k`. */
  predicate Above<V>(t: Table<V>, k: bytes) {
    forall i :: 0 <= i < |t| ==> Less(k, t[i].0)
  }

  /** `std::map::find`: the value stored under `key`, if the key is there. */
  function Lookup<V>(t: Table<V>, key: bytes): (r: Option<V>)
    ensures r.Some? <==> HasKey(t, key)
    ensures r.Some? ==> (key, r.value) in t
  {
    if |t| == 0 then None
    else if t[0].0 == key then Some(t[0].1)
    else
      var r := Lookup(t[1..], key);
      assert HasKey(t, key) ==> HasKey(t[1..], key) by {
        if HasKey(t, key) {
          var i :| 0 <= i < |t| && t[i].0 == key;
          assert t[1..][i - 1].0 == key;
        }
      }
      assert HasKey(t[1..], key) ==> HasKey(t, key) by {
        if HasKey(t[1..], key) {
          var i :| 0 <= i < |t[1..]| && t[1..][i].0 == key;
          assert t[i + 1].0 == key;
        }
      }
      r
  }

  /** `std::map::insert`: a key not yet present is added at its place in the
      order; a key already present keeps the value it has. */
  function Insert<V>(t: Table<V>, key: bytes, v: V): (r: Table<V>)
    ensures |r| == |t| || |r| == |t| + 1
  {
    if |t| == 0 then [(key, v)]
    else if t[0].0 == key then t
    else if Less(key, t[0].0) then [(key, v)] + t
    else [t[0]] + Insert(t[1..], key, v)
  }

  /** `insert` applied to each pair in turn, as the builders' loops do. */
  function InsertEach<V>(t: Table<V>, items: Table<V>): (r: Table<V>)
    ensures |r| >= |t|
    decreases |items|
  {
    if |items| == 0 then t
    else InsertEach(Insert(t, items[0].0, items[0].1), items[1..])
  }

  // ---------------------------------------------------------------------------
  // Properties

  lemma AscendingSlice<V>(t: Table<V>, a: nat, b: nat)
    requires Ascending(t) && a <= b <= |t|
    ensures Ascending(t[a..b])
  {
    forall i, j | 0 <= i < j < b - a
      ensures Less(t[a..b][i].0, t[a..b][j].0)
    {
      assert t[a..b][i] == t[a + i] && t[a..b][j] == t[a + j];
    }
  }

  /** No key above `k` is `k`. */
  lemma AboveLacks<V>(t: Table<V>, k: bytes)
    requires Above(t, k)
    ensures !HasKey(t, k)
  {
    if HasKey(t, k) {
      var i :| 0 <= i < |t| && t[i].0 == k;
      LessIrreflexive(k);
    }
  }

  /** The keys after the head of an ascending table are above the head. */
  lemma TailAbove<V>(t: Table<V>)
    requires Ascending(t) && |t| > 0
    ensures Above(t[1..], t[0].0)
  {
    forall i | 0 <= i < |t[1..]|
      ensures Less(t[0].0, t[1..][i].0)
    {
      assert t[1..][i] == t[i + 1];
    }
  }

  /** An inserted key above `k` keeps the whole table above `k`. */
  lemma {:induction false} InsertAbove<V>(t: Table<V>, k: bytes, key: bytes, v: V)
    requires Above(t, k) && Less(k, key)
    ensures Above(Insert(t, key, v), k)
  {
    if |t| > 0 && t[0].0 != key && !Less(key, t[0].0) {
      var r := Insert(t[1..], key, v);
      InsertAbove(t[1..], k, key, v);
      forall i | 0 <= i < |[t[0]] + r|
        ensures Less(k, ([t[0]] + r)[i].0)
      {
        if i > 0 {
          assert ([t[0]] + r)[i] == r[i - 1];
        }
      }
    }
  }

  /** `insert` keeps the keys ascending. */
  lemma {:induction false} InsertAscending<V>(t: Table<V>, key: bytes, v: V)
    requires Ascending(t)
    ensures Ascending(Insert(t, key, v))
  {
    if |t| == 0 || t[0].0 == key {
    } else if Less(key, t[0].0) {
      var r := [(key, v)] + t;
      forall i, j | 0 <= i < j < |r|
        ensures Less(r[i].0, r[j].0)
      {
        if i == 0 {
          if j > 1 {
            LessTransitive(key, t[0].0, t[j - 1].0);
          }
        } else {
          assert r[i] == t[i - 1] && r[j] == t[j - 1];
        }
      }
    } else {
      LessTotal(key, t[0].0);
      AscendingSlice(t, 1, |t|);
      InsertAscending(t[1..], key, v);
      TailAbove(t);
      InsertAbove(t[1..], t[0].0, key, v);
      var s := Insert(t[1..], key, v);
      var r := [t[0]] + s;
      forall i, j | 0 <= i < j < |r|
        ensures Less(r[i].0, r[j].0)
      {
        assert r[j] == s[j - 1];
        if i > 0 {
          assert r[i] == s[i - 1];
        }
      }
    }
  }

  /** What `find` sees after `insert`: the new value under a key that was
      missing, and otherwise exactly what it saw before. */
  lemma {:induction false} InsertLookup<V>(t: Table<V>, key: bytes, v: V, x: bytes)
    requires Ascending(t)
    ensures Lookup(Insert(t, key, v), x) == if x == key && !HasKey(t, key) then Some(v) else Lookup(t, x)
  {
    if |t| == 0 || t[0].0 == key {
    } else if Less(key, t[0].0) {
      if x == key {
        TailAbove(t);
        forall i | 0 <= i < |t|
          ensures Less(key, t[i].0)
        {
          if i > 0 {
            assert t[1..][i - 1] == t[i];
            LessTransitive(key, t[0].0, t[i].0);
          }
        }
        AboveLacks(t, key);
      }
      assert ([(key, v)] + t)[1..] == t;
    } else {
      AscendingSlice(t, 1, |t|);
      InsertLookup(t[1..], key, v, x);
      assert ([t[0]] + Insert(t[1..], key, v))[1..] == Insert(t[1..], key, v);
      if x == key {
        assert HasKey(t, key) <==> HasKey(t[1..], key);
      }
    }
  }

  /** `InsertLookup` for every key at once. */
  lemma InsertLookupAll<V>(t: Table<V>, key: bytes, v: V)
    requires Ascending(t)
    ensures forall x :: Lookup(Insert(t, key, v), x) == if x == key && !HasKey(t, key) then Some(v) else Lookup(t, x)
  {
    forall x
      ensures Lookup(Insert(t, key, v), x) == if x == key && !HasKey(t, key) then Some(v) else Lookup(t, x)
    {
      InsertLookup(t, key, v, x);
    }
  }

  /** Inserting pairs one by one keeps the keys ascending. */
  lemma {:induction false} InsertEachAscending<V>(t: Table<V>, items: Table<V>)
    requires Ascending(t)
    ensures Ascending(InsertEach(t, items))
    decreases |items|
  {
    if |items| > 0 {
      InsertAscending(t, items[0].0, items[0].1);
      InsertEachAscending(Insert(t, items[0].0, items[0].1), items[1..]);
    }
  }

  /** Inserting a key the table already holds changes nothing; inserting a
      new key adds exactly one pair. */
  lemma {:induction false} InsertSize<V>(t: Table<V>, key: bytes, v: V)
    requires Ascending(t)
    ensures HasKey(t, key) ==> Insert(t, key, v) == t
    ensures !HasKey(t, key) ==> |Insert(t, key, v)| == |t| + 1
  {
    if |t| == 0 || t[0].0 == key {
    } else if Less(key, t[0].0) {
      if HasKey(t, key) {
        var i :| 0 <= i < |t| && t[i].0 == key;
        LessTransitive(key, t[0].0, t[i].0);
        LessIrreflexive(key);
      }
    } else {
      AscendingSlice(t, 1, |t|);
      InsertSize(t[1..], key, v);
      assert HasKey(t, key) <==> HasKey(t[1..], key);
      assert t == [t[0]] + t[1..];
    }
  }

  /** In an ascending table every stored key finds its own value. */
  lemma {:induction false} LookupStored<V>(t: Table<V>, i: nat)
    requires Ascending(t) && i < |t|
    ensures Lookup(t, t[i].0) == Some(t[i].1)
  {
    if i > 0 {
      LessIrreflexive(t[0].0);
      AscendingSlice(t, 1, |t|);
      LookupStored(t[1..], i - 1);
      assert t[1..][i - 1] == t[i];
    }
  }

  /** A key above every key of the table is inserted at the end. */
  lemma {:induction false} InsertLast<V>(t: Table<V>, key: bytes, v: V)
    requires Ascending(t + [(key, v)])
    ensures Insert(t, key, v) == t + [(key, v)]
  {
    if |t| > 0 {
      var u := t + [(key, v)];
      assert u[0] == t[0] && u[|t|] == (key, v);
      LessAsymmetric(t[0].0, key);
      LessIrreflexive(key);
      AscendingSlice(u, 1, |u|);
      assert u[1..] == t[1..] + [(key, v)];
      InsertLast(t[1..], key, v);
      assert t == [t[0]] + t[1..];
    }
  }

  /** Inserting the pairs of an ascending table one by one, in order, rebuilds
      it: the pair at position k goes after the k pairs before it. */
  lemma InsertInOrder<V>(t: Table<V>, k: nat)
    requires Ascending(t) && k < |t|
    ensures Insert(t[..k], t[k].0, t[k].1) == t[..k + 1]
  {
    AscendingSlice(t, 0, k + 1);
    assert t[..k + 1] == t[..k] + [(t[k].0, t[k].1)];
    InsertLast(t[..k], t[k].0, t[k].1);
  }

  /** Inserting an ascending table's pairs in order after a prefix they all
      follow appends them. */
  lemma {:induction false} InsertEachAppends<V>(t: Table<V>, items: Table<V>)
    requires Ascending(t + items)
    ensures InsertEach(t, items) == t + items
    decreases |items|
  {
    if |items| > 0 {
      var u := t + items;
      AscendingSlice(u, 0, |t| + 1);
      assert u[..|t| + 1] == t + [(items[0].0, items[0].1)];
      InsertLast(t, items[0].0, items[0].1);
      assert (t + [items[0]]) + items[1..] == u;
      InsertEachAppends(t + [items[0]], items[1..]);
    }
  }
}

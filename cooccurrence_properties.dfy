// What the two co-occurrence indices promise about the table they are built from,
// proved from the reference connection in CooccurrenceSpec.

module CooccurrenceProperties {
  import opened Ratings
  import opened Combinations
  import opened CooccurrenceSpec

  /** The row that puts id `id` in the group with key `key`: (user key, item id) for
      the item index, (user id, item key) for the user index. */
  function Cell(v: Variant, key: int, id: int): Rating
  {
    if v == ItemIndex then Rating(key, id) else Rating(id, key)
  }

  /** An id occurs in a group's partner column once per matching row of the table. */
  lemma PartnerCount(v: Variant, rows: seq<Rating>, key: int, id: int)
    ensures Count(Partners(v, GroupRows(v, rows, key)), id) == multiset(rows)[Cell(v, key, id)]
  {
    if v == ItemIndex {
      ItemsOfUserCount(rows, key, id);
    } else {
      UsersOfItemCount(rows, key, id);
    }
  }

  /** Every row's key is among the keys the outer loop visits. */
  lemma CellKey(v: Variant, rows: seq<Rating>, key: int, id: int)
    requires Cell(v, key, id) in rows
    ensures key in GroupKeys(GroupColumn(v, rows))
  {
    var i :| 0 <= i < |rows| && rows[i] == Cell(v, key, id);
    assert GroupColumn(v, rows)[i] == key;
  }

  /** A group contributes to pair `k` exactly when both of k's distinct ids occur in it. */
  lemma CopiesPositive(v: Variant, rows: seq<Rating>, key: int, k: Pair)
    ensures Copies(v, rows, key, k) > 0 <==>
              k.0 < k.1 && Cell(v, key, k.0) in rows && Cell(v, key, k.1) in rows
  {
    PartnerCount(v, rows, key, k.0);
    PartnerCount(v, rows, key, k.1);
    var ps := Partners(v, GroupRows(v, rows, key));
    var ca, cb := Count(ps, k.0), Count(ps, k.1);
    TimesPositive(ca, cb);
    TimesPositive(2 * Times(ca, cb), Times(ca, cb));
  }

  // ---------------------------------------------------------------------------
  // Which keys exist.

  /** A key exists exactly when some group holds both of its ids, smaller first. */
  lemma IndexKeys(v: Variant, rows: seq<Rating>, k: Pair)
    ensures k in BuildIndex(v, rows) <==>
              k.0 < k.1 && exists key :: Cell(v, key, k.0) in rows && Cell(v, key, k.1) in rows
  {
    var keys := GroupKeys(GroupColumn(v, rows));
    var spread := Spread(v, rows, keys, k);
    FoldKeys(v, map[], rows, keys, k);
    if k in BuildIndex(v, rows) {
      var key := spread[0];
      SpreadCount(v, rows, keys, k, key);
      assert key in keys && Copies(v, rows, key, k) > 0;
      CopiesPositive(v, rows, key, k);
    }
    if k.0 < k.1 && exists key :: Cell(v, key, k.0) in rows && Cell(v, key, k.1) in rows {
      var key :| Cell(v, key, k.0) in rows && Cell(v, key, k.1) in rows;
      CopiesPositive(v, rows, key, k);
      CellKey(v, rows, key, k.0);
      SpreadCount(v, rows, keys, k, key);
      assert key in spread;
    }
  }

  /** Every key has its smaller id first: no self-pair, no reversed duplicate. */
  lemma KeysCanonical(v: Variant, rows: seq<Rating>)
    ensures forall k :: k in BuildIndex(v, rows) ==> k.0 < k.1
  {
    forall k | k in BuildIndex(v, rows) ensures k.0 < k.1 {
      IndexKeys(v, rows, k);
    }
  }

  /** Item index: (a, b) is a key exactly when a < b and some user rated both. */
  lemma ItemIndexKeys(rows: seq<Rating>, a: int, b: int)
    ensures (a, b) in BuildIndex(ItemIndex, rows) <==>
              a < b && exists u :: Rating(u, a) in rows && Rating(u, b) in rows
  {
    IndexKeys(ItemIndex, rows, (a, b));
    if exists u :: Rating(u, a) in rows && Rating(u, b) in rows {
      var u :| Rating(u, a) in rows && Rating(u, b) in rows;
      assert Cell(ItemIndex, u, a) in rows && Cell(ItemIndex, u, b) in rows;
    }
  }

  /** User index: (x, y) is a key exactly when x < y and some item was rated by both. */
  lemma UserIndexKeys(rows: seq<Rating>, x: int, y: int)
    ensures (x, y) in BuildIndex(UserIndex, rows) <==>
              x < y && exists g :: Rating(x, g) in rows && Rating(y, g) in rows
  {
    IndexKeys(UserIndex, rows, (x, y));
    if exists g :: Rating(x, g) in rows && Rating(y, g) in rows {
      var g :| Rating(x, g) in rows && Rating(y, g) in rows;
      assert Cell(UserIndex, g, x) in rows && Cell(UserIndex, g, y) in rows;
    }
  }

  // ---------------------------------------------------------------------------
  // What each list holds.

  /** Dropping the last key of a strictly increasing list keeps it increasing and drops
      exactly that key. */
  lemma DropLastKey(keys: seq<int>, x: int)
    requires Increasing(keys) && keys != []
    ensures Increasing(keys[..|keys| - 1])
    ensures x in keys <==> x in keys[..|keys| - 1] || x == keys[|keys| - 1]
    ensures x in keys[..|keys| - 1] ==> x < keys[|keys| - 1]
  {
    var init := keys[..|keys| - 1];
    assert keys == init + [keys[|keys| - 1]];
    if x in init {
      var i :| 0 <= i < |init| && init[i] == x;
      assert keys[i] == x;
    }
  }

  /** Appending a run of `n` copies of `key` adds `n` to the count of `key` only. */
  lemma CountRun(a: seq<int>, key: int, n: nat, x: int)
    ensures Count(a + Repeat(key, n), x) == Count(a, x) + (if x == key then n else 0)
  {
    RepeatCount(key, n, x);
    assert multiset(a + Repeat(key, n)) == multiset(a) + multiset(Repeat(key, n));
  }

  lemma {:induction false} SpreadCount(v: Variant, rows: seq<Rating>, keys: seq<int>, k: Pair, x: int)
    requires Increasing(keys)
    ensures Count(Spread(v, rows, keys, k), x) == if x in keys then Copies(v, rows, x, k) else 0
  {
    if keys != [] {
      var init, key := keys[..|keys| - 1], keys[|keys| - 1];
      DropLastKey(keys, x);
      SpreadCount(v, rows, init, k, x);
      CountRun(Spread(v, rows, init, k), key, Copies(v, rows, key, k), x);
    }
  }

  /** The list of pair `k` holds group key `x` exactly `Copies` times. */
  lemma IndexCount(v: Variant, rows: seq<Rating>, k: Pair, x: int)
    ensures Count(Get(BuildIndex(v, rows), k), x) == Copies(v, rows, x, k)
  {
    var keys := GroupKeys(GroupColumn(v, rows));
    FoldGet(v, map[], rows, keys, k);
    SpreadCount(v, rows, keys, k, x);
    if x !in keys && Copies(v, rows, x, k) > 0 {
      CopiesPositive(v, rows, x, k);
      CellKey(v, rows, x, k.0);
    }
  }

  lemma ItemIndexCopies(rows: seq<Rating>, u: int, a: int, b: int)
    requires a < b
    ensures Copies(ItemIndex, rows, u, (a, b)) ==
              2 * Times(multiset(rows)[Rating(u, a)], multiset(rows)[Rating(u, b)])
  {
    PartnerCount(ItemIndex, rows, u, a);
    PartnerCount(ItemIndex, rows, u, b);
  }

  lemma UserIndexCopies(rows: seq<Rating>, g: int, x: int, y: int)
    requires x < y
    ensures var mx, my := multiset(rows)[Rating(x, g)], multiset(rows)[Rating(y, g)];
            Copies(UserIndex, rows, g, (x, y)) == Times(2 * Times(mx, my), Times(mx, my))
  {
    PartnerCount(UserIndex, rows, g, x);
    PartnerCount(UserIndex, rows, g, y);
  }

  /** Item index: user u appears in the list of (a, b) twice per pair of u's rows on a
      and on b, once for each order in which the product visits the two positions. */
  lemma ItemIndexCount(rows: seq<Rating>, u: int, a: int, b: int)
    requires a < b
    ensures Count(Get(BuildIndex(ItemIndex, rows), (a, b)), u) ==
              2 * Times(multiset(rows)[Rating(u, a)], multiset(rows)[Rating(u, b)])
  {
    IndexCount(ItemIndex, rows, (a, b), u);
    ItemIndexCopies(rows, u, a, b);
  }

  /** User index: item g appears in the list of (x, y) once per joined row for each of
      the two ordered visits: 2 * (mx * my) * (mx * my) with mx, my the numbers of rows
      (x, g) and (y, g). */
  lemma UserIndexCount(rows: seq<Rating>, g: int, x: int, y: int)
    requires x < y
    ensures var mx, my := multiset(rows)[Rating(x, g)], multiset(rows)[Rating(y, g)];
            Count(Get(BuildIndex(UserIndex, rows), (x, y)), g) ==
              Times(2 * Times(mx, my), Times(mx, my))
  {
    IndexCount(UserIndex, rows, (x, y), g);
    UserIndexCopies(rows, g, x, y);
  }

  /** With no duplicate ratings, a user who rated both a and b appears exactly twice
      in the list of (a, b). */
  lemma ItemIndexUniqueRatings(rows: seq<Rating>, u: int, a: int, b: int)
    requires forall r :: multiset(rows)[r] <= 1
    requires a < b && Rating(u, a) in rows && Rating(u, b) in rows
    ensures Count(Get(BuildIndex(ItemIndex, rows), (a, b)), u) == 2
  {
    ItemIndexCount(rows, u, a, b);
    assert multiset(rows)[Rating(u, a)] == 1 && multiset(rows)[Rating(u, b)] == 1;
  }

  /** With no duplicate ratings, an item rated by both x and y appears exactly twice
      in the list of (x, y). */
  lemma UserIndexUniqueRatings(rows: seq<Rating>, g: int, x: int, y: int)
    requires forall r :: multiset(rows)[r] <= 1
    requires x < y && Rating(x, g) in rows && Rating(y, g) in rows
    ensures Count(Get(BuildIndex(UserIndex, rows), (x, y)), g) == 2
  {
    UserIndexCount(rows, g, x, y);
    assert multiset(rows)[Rating(x, g)] == 1 && multiset(rows)[Rating(y, g)] == 1;
  }

  /** Item index: every value in the list of (a, b) is a user who rated both a and b. */
  lemma ItemIndexMembers(rows: seq<Rating>, k: Pair, u: int)
    requires u in Get(BuildIndex(ItemIndex, rows), k)
    ensures Rating(u, k.0) in rows && Rating(u, k.1) in rows
  {
    IndexCount(ItemIndex, rows, k, u);
    CopiesPositive(ItemIndex, rows, u, k);
  }

  /** User index: every value in the list of (x, y) is an item both x and y rated. */
  lemma UserIndexMembers(rows: seq<Rating>, k: Pair, g: int)
    requires g in Get(BuildIndex(UserIndex, rows), k)
    ensures Rating(k.0, g) in rows && Rating(k.1, g) in rows
  {
    IndexCount(UserIndex, rows, k, g);
    CopiesPositive(UserIndex, rows, g, k);
  }

  // ---------------------------------------------------------------------------
  // Order and growth of the lists.

  ghost predicate NonDecreasing(s: seq<int>)
  {
    forall i, j :: 0 <= i <= j < |s| ==> s[i] <= s[j]
  }

  lemma {:induction false} SpreadSorted(v: Variant, rows: seq<Rating>, keys: seq<int>, k: Pair)
    requires Increasing(keys)
    ensures NonDecreasing(Spread(v, rows, keys, k))
    ensures forall e :: e in Spread(v, rows, keys, k) ==> e in keys
  {
    if keys != [] {
      var init, key := keys[..|keys| - 1], keys[|keys| - 1];
      assert Increasing(init);
      SpreadSorted(v, rows, init, k);
      var a, r := Spread(v, rows, init, k), Repeat(key, Copies(v, rows, key, k));
      assert forall e :: e in a ==> e < key by {
        forall e | e in a ensures e < key {
          var i :| 0 <= i < |init| && init[i] == e;
          assert keys[i] == e;
        }
      }
      forall i, j | 0 <= i <= j < |a + r| ensures (a + r)[i] <= (a + r)[j] {
        if j < |a| {
        } else if i < |a| {
          assert a[i] in a;
        }
      }
    }
  }

  /** Groups are visited in ascending key order, so every list is non-decreasing. */
  lemma IndexSorted(v: Variant, rows: seq<Rating>, k: Pair)
    ensures NonDecreasing(Get(BuildIndex(v, rows), k))
  {
    var keys := GroupKeys(GroupColumn(v, rows));
    FoldGet(v, map[], rows, keys, k);
    SpreadSorted(v, rows, keys, k);
  }

  lemma {:induction false} SpreadPrefix(v: Variant, rows: seq<Rating>, keys: seq<int>, i: nat, k: Pair)
    requires i <= |keys|
    ensures Spread(v, rows, keys[..i], k) <= Spread(v, rows, keys, k)
  {
    if i < |keys| {
      var init := keys[..|keys| - 1];
      assert init[..i] == keys[..i];
      SpreadPrefix(v, rows, init, i, k);
    } else {
      assert keys[..i] == keys;
    }
  }

  /** Lists are append-only: after any number of groups, every key already created is
      still there and its list is a prefix of the final one. */
  lemma AppendOnly(v: Variant, rows: seq<Rating>, keys: seq<int>, i: nat, k: Pair)
    requires i <= |keys|
    requires k in Fold(v, map[], rows, keys[..i])
    ensures k in Fold(v, map[], rows, keys)
    ensures Fold(v, map[], rows, keys[..i])[k] <= Fold(v, map[], rows, keys)[k]
  {
    FoldGet(v, map[], rows, keys[..i], k);
    FoldGet(v, map[], rows, keys, k);
    SpreadPrefix(v, rows, keys, i, k);
    FoldKeys(v, map[], rows, keys[..i], k);
    FoldKeys(v, map[], rows, keys, k);
  }

  // ---------------------------------------------------------------------------
  // Groups that contribute nothing.

  /** All values of the column are the same id (true of any column of fewer than two rows). */
  predicate SingleId(s: seq<int>)
  {
    forall i, j :: 0 <= i < |s| && 0 <= j < |s| ==> s[i] == s[j]
  }

  /** A group whose rows all carry the same partner id, in particular a group of fewer
      than two rows, leaves the dictionary unchanged. */
  lemma SingleIdGroup(v: Variant, m: Index, rows: seq<Rating>, key: int)
    requires SingleId(Partners(v, GroupRows(v, rows, key)))
    ensures GroupStep(v, m, rows, key) == m
  {
    var ps := Partners(v, GroupRows(v, rows, key));
    var r := GroupStep(v, m, rows, key);
    forall k ensures Copies(v, rows, key, k) == 0 {
      if k.0 < k.1 {
        assert !(k.0 in ps && k.1 in ps);
        TimesPositive(Count(ps, k.0), Count(ps, k.1));
      }
    }
    forall k ensures (k in r <==> k in m) && (k in m ==> r[k] == m[k]) {
      GroupStepGet(v, m, rows, key, k);
      GroupStepKeys(v, m, rows, key, k);
      assert Repeat(key, 0) == [];
    }
  }
}

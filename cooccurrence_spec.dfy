// What the two co-occurrence indices compute, stated twice: once as folds that follow
// the operators' loops step by step (Visits, GroupStep, Fold, BuildIndex), and once
// declaratively, group by group (Copies, Spread). FoldGet and FoldKeys connect the two.

module CooccurrenceSpec {
  import opened Ratings
  import opened Combinations

  /** A pair key; canonical keys have the smaller id first. */
  type Pair = (int, int)

  /** The co-occurrence dictionary: pair key to accumulated list of values. */
  type Index = map<Pair, seq<int>>

  /** `tuple(sorted(pair))`. */
  function Canon(x: int, y: int): (k: Pair)
    ensures k.0 <= k.1
    ensures k == (x, y) || k == (y, x)
  {
    if x <= y then (x, y) else (y, x)
  }

  /** The list stored under `k`, or the empty list when `k` is absent. */
  function Get(m: Index, k: Pair): seq<int>
  {
    if k in m then m[k] else []
  }

  /** Get-or-create then extend: the new key starts with `chunk`, an existing list is
      extended by it, and no other key changes. */
  function Append(m: Index, k: Pair, chunk: seq<int>): (r: Index)
    ensures r.Keys == m.Keys + {k}
    ensures forall k' :: Get(r, k') == Get(m, k') + (if k' == k then chunk else [])
  {
    if k in m then m[k := m[k] + chunk] else m[k := chunk]
  }

  // ---------------------------------------------------------------------------
  // The payload one visit of a pair appends.

  /** Item index: the group's user. User index: the group's rows, from which the two
      users' rows are selected and inner-joined on the item column. */
  datatype Payload = GroupUser(user: int) | JoinedItems(group: seq<Rating>)

  /** The item ids of the inner join of `a` and `b` on the item column, left rows in
      order, each matched with every right row of the same item. */
  function JoinItems(a: seq<Rating>, b: seq<Rating>): (js: seq<int>)
    ensures forall g :: g in js ==> g in ItemIds(a) && g in ItemIds(b)
  {
    if a == [] then []
    else
      var last := a[|a| - 1];
      JoinItems(a[..|a| - 1], b) + Repeat(last.item, Count(ItemIds(b), last.item))
  }

  lemma {:induction false} CountAll(s: seq<int>, g: int)
    requires forall i :: 0 <= i < |s| ==> s[i] == g
    ensures Count(s, g) == |s|
  {
    if s != [] {
      assert s == s[..|s| - 1] + [s[|s| - 1]];
      CountAll(s[..|s| - 1], g);
    }
  }

  lemma ItemsAll(b: seq<Rating>, g: int)
    requires forall r :: r in b ==> r.item == g
    ensures Count(ItemIds(b), g) == |b|
  {
    forall i | 0 <= i < |b| ensures ItemIds(b)[i] == g {
      assert b[i] in b;
    }
    CountAll(ItemIds(b), g);
  }

  /** Inside one item group the join yields the group's item once per pair of rows. */
  lemma {:induction false} JoinWithinGroup(a: seq<Rating>, b: seq<Rating>, g: int)
    requires forall r :: r in a ==> r.item == g
    requires forall r :: r in b ==> r.item == g
    ensures JoinItems(a, b) == Repeat(g, Times(|a|, |b|))
  {
    if a != [] {
      var init := a[..|a| - 1];
      assert forall r :: r in init ==> r in a;
      JoinWithinGroup(init, b, g);
      assert a[|a| - 1] in a;
      var n := |b|;
      ItemsAll(b, g);
      assert JoinItems(a, b) == Repeat(g, Times(|init|, n)) + Repeat(g, n);
      RepeatAdd(g, Times(|init|, n), n);
    }
  }

  /** What one visit of the canonical pair `k` appends. */
  function Chunk(p: Payload, k: Pair): seq<int>
  {
    match p
    case GroupUser(u) => [u]
    case JoinedItems(grp) => JoinItems(RowsOfUser(grp, k.0), RowsOfUser(grp, k.1))
  }

  /** Every value the payload can append is the group key `g`. */
  ghost predicate Tagged(p: Payload, g: int)
  {
    match p
    case GroupUser(u) => u == g
    case JoinedItems(grp) => forall r :: r in grp ==> r.item == g
  }

  /** How many values one visit of `k` appends. */
  function Weight(p: Payload, k: Pair): nat
  {
    match p
    case GroupUser(_) => 1
    case JoinedItems(grp) => Times(Count(UserIds(grp), k.0), Count(UserIds(grp), k.1))
  }

  lemma ChunkIsRepeat(p: Payload, g: int, k: Pair)
    requires Tagged(p, g)
    ensures Chunk(p, k) == Repeat(g, Weight(p, k))
  {
    match p
    case GroupUser(u) =>
      assert Repeat(g, 1) == [g];
    case JoinedItems(grp) =>
      RowsOfUserLength(grp, k.0);
      RowsOfUserLength(grp, k.1);
      JoinWithinGroup(RowsOfUser(grp, k.0), RowsOfUser(grp, k.1), g);
  }

  // ---------------------------------------------------------------------------
  // The inner loop: one visit per pair of the cartesian product.

  /** One iteration of the inner loop: drop self-pairs, sort, append. */
  function Visit(m: Index, p: Payload, xy: Pair): (r: Index)
    ensures m.Keys <= r.Keys
    ensures forall k :: k in r && k !in m ==> k.0 < k.1
  {
    if xy.0 != xy.1 then
      var k := Canon(xy.0, xy.1);
      Append(m, k, Chunk(p, k))
    else m
  }

  /** The inner loop over the pairs `ps`, in order. */
  function Visits(m: Index, p: Payload, ps: seq<Pair>): (r: Index)
    ensures m.Keys <= r.Keys
    ensures forall k :: k in r && k !in m ==> k.0 < k.1
  {
    if ps == [] then m
    else Visit(Visits(m, p, ps[..|ps| - 1]), p, ps[|ps| - 1])
  }

  /** How many of the pairs in `ps` land on key `k`: both orders of its two ids. */
  function Hits(ps: seq<Pair>, k: Pair): nat
  {
    if k.0 < k.1 then multiset(ps)[k] + multiset(ps)[(k.1, k.0)] else 0
  }

  /** Whether one visit of `xy` lands on key `k`. */
  predicate Lands(xy: Pair, k: Pair)
  {
    xy.0 != xy.1 && Canon(xy.0, xy.1) == k
  }

  lemma HitsLast(ps: seq<Pair>, k: Pair)
    requires ps != []
    ensures Hits(ps, k) == Hits(ps[..|ps| - 1], k) + (if Lands(ps[|ps| - 1], k) then 1 else 0)
  {
    assert ps == ps[..|ps| - 1] + [ps[|ps| - 1]];
  }

  lemma VisitEffect(prev: Index, p: Payload, g: int, xy: Pair, k: Pair)
    requires Tagged(p, g)
    ensures Get(Visit(prev, p, xy), k) == Get(prev, k) + (if Lands(xy, k) then Repeat(g, Weight(p, k)) else [])
    ensures k in Visit(prev, p, xy) <==> k in prev || Lands(xy, k)
  {
    if Lands(xy, k) {
      ChunkIsRepeat(p, g, k);
    }
  }

  /** The list after one more visit, in terms of the list before it. */
  lemma VisitsLast(m: Index, p: Payload, g: int, ps: seq<Pair>, k: Pair)
    requires Tagged(p, g) && ps != []
    ensures Get(Visits(m, p, ps), k) ==
              Get(Visits(m, p, ps[..|ps| - 1]), k) +
              (if Lands(ps[|ps| - 1], k) then Repeat(g, Weight(p, k)) else [])
  {
    VisitEffect(Visits(m, p, ps[..|ps| - 1]), p, g, ps[|ps| - 1], k);
  }

  /** `h` runs of `w` copies, then one more run or none. */
  lemma ExtendRepeat(s: seq<int>, g: int, h: nat, w: nat, more: bool)
    ensures s + Repeat(g, Times(h, w)) + (if more then Repeat(g, w) else []) ==
            s + Repeat(g, Times(h + (if more then 1 else 0), w))
  {
    if more {
      RepeatAdd(g, Times(h, w), w);
      assert Times(h + 1, w) == Times(h, w) + w;
    } else {
      assert s + Repeat(g, Times(h, w)) + [] == s + Repeat(g, Times(h, w));
    }
  }

  /** Visiting `ps` appends `Weight` copies of the group key per hit. */
  lemma {:induction false} VisitsGet(m: Index, p: Payload, g: int, ps: seq<Pair>, k: Pair)
    requires Tagged(p, g)
    ensures Get(Visits(m, p, ps), k) == Get(m, k) + Repeat(g, Times(Hits(ps, k), Weight(p, k)))
  {
    if ps == [] {
      assert Repeat(g, 0) == [];
    } else {
      var init, xy := ps[..|ps| - 1], ps[|ps| - 1];
      var h, w, more := Hits(init, k), Weight(p, k), Lands(xy, k);
      calc {
        Get(Visits(m, p, ps), k);
      ==  { VisitsLast(m, p, g, ps, k); }
        Get(Visits(m, p, init), k) + (if more then Repeat(g, w) else []);
      ==  { VisitsGet(m, p, g, init, k); }
        Get(m, k) + Repeat(g, Times(h, w)) + (if more then Repeat(g, w) else []);
      ==  { ExtendRepeat(Get(m, k), g, h, w, more); }
        Get(m, k) + Repeat(g, Times(h + (if more then 1 else 0), w));
      ==  { HitsLast(ps, k); }
        Get(m, k) + Repeat(g, Times(Hits(ps, k), w));
      }
    }
  }

  /** Visiting `ps` creates exactly the keys that some visit lands on. */
  lemma {:induction false} VisitsKeys(m: Index, p: Payload, g: int, ps: seq<Pair>, k: Pair)
    requires Tagged(p, g)
    ensures k in Visits(m, p, ps) <==> k in m || Hits(ps, k) > 0
  {
    if ps != [] {
      var init, xy := ps[..|ps| - 1], ps[|ps| - 1];
      VisitsKeys(m, p, g, init, k);
      HitsLast(ps, k);
      VisitEffect(Visits(m, p, init), p, g, xy, k);
    }
  }

  // ---------------------------------------------------------------------------
  // The outer loop: one step per group, groups in ascending key order.

  /** The user index groups by item and pairs users; the item index groups by user and
      pairs items. */
  datatype Variant = UserIndex | ItemIndex

  /** The column `groupby` splits on. */
  function GroupColumn(v: Variant, rows: seq<Rating>): seq<int>
  {
    if v == ItemIndex then UserIds(rows) else ItemIds(rows)
  }

  /** The rows of the group with key `key`, in table order. */
  function GroupRows(v: Variant, rows: seq<Rating>, key: int): seq<Rating>
  {
    if v == ItemIndex then RowsOfUser(rows, key) else RowsOfItem(rows, key)
  }

  /** The ids that are paired inside a group: its items or its users. */
  function Partners(v: Variant, grp: seq<Rating>): seq<int>
  {
    if v == ItemIndex then ItemIds(grp) else UserIds(grp)
  }

  function PayloadOf(v: Variant, key: int, grp: seq<Rating>): Payload
  {
    if v == ItemIndex then GroupUser(key) else JoinedItems(grp)
  }

  /** One iteration of the outer loop: a group with more than one ROW visits every
      ordered pair of positions of its partner column. */
  function GroupStep(v: Variant, m: Index, rows: seq<Rating>, key: int): (r: Index)
    ensures m.Keys <= r.Keys
    ensures forall k :: k in r && k !in m ==> k.0 < k.1
  {
    var grp := GroupRows(v, rows, key);
    var ps := Partners(v, grp);
    if |ps| > 1 then Visits(m, PayloadOf(v, key, grp), Product(ps, ps)) else m
  }

  /** The outer loop over the group keys `keys`, in order. */
  function Fold(v: Variant, m: Index, rows: seq<Rating>, keys: seq<int>): (r: Index)
    ensures m.Keys <= r.Keys
    ensures forall k :: k in r && k !in m ==> k.0 < k.1
  {
    if keys == [] then m
    else GroupStep(v, Fold(v, m, rows, keys[..|keys| - 1]), rows, keys[|keys| - 1])
  }

  /** One more group key, in the prefix form the outer loop's invariant uses. */
  lemma FoldStep(v: Variant, m: Index, rows: seq<Rating>, keys: seq<int>, i: nat)
    requires i < |keys|
    ensures Fold(v, m, rows, keys[..i + 1]) ==
              GroupStep(v, Fold(v, m, rows, keys[..i]), rows, keys[i])
  {
    assert keys[..i + 1][..i] == keys[..i];
  }

  /** The dictionary an uninterrupted run builds from the table `rows`. */
  function BuildIndex(v: Variant, rows: seq<Rating>): (r: Index)
    ensures forall k :: k in r ==> k.0 < k.1
  {
    Fold(v, map[], rows, GroupKeys(GroupColumn(v, rows)))
  }

  // ---------------------------------------------------------------------------
  // The declarative reference.

  /** How many copies of `key` the group with that key adds to the list of pair `k`:
      two ordered visits per pair of positions holding k's two ids, each appending
      one value (item index) or one value per joined row pair (user index). */
  function Copies(v: Variant, rows: seq<Rating>, key: int, k: Pair): nat
  {
    var ps := Partners(v, GroupRows(v, rows, key));
    var ca, cb := Count(ps, k.0), Count(ps, k.1);
    if k.0 >= k.1 then 0
    else if v == ItemIndex then 2 * Times(ca, cb)
    else Times(2 * Times(ca, cb), Times(ca, cb))
  }

  /** The list of pair `k` group by group: each group key repeated `Copies` times. */
  function Spread(v: Variant, rows: seq<Rating>, keys: seq<int>, k: Pair): seq<int>
  {
    if keys == [] then []
    else
      var key := keys[|keys| - 1];
      Spread(v, rows, keys[..|keys| - 1], k) + Repeat(key, Copies(v, rows, key, k))
  }

  /** Two distinct ids cannot both occur in a column of fewer than two rows. */
  lemma ShortColumn(ps: seq<int>, a: int, b: int)
    requires |ps| <= 1 && a != b
    ensures Times(Count(ps, a), Count(ps, b)) == 0
  {
    if ps != [] {
      assert ps == [ps[0]];
    }
  }

  /** In the self-product of a column, a canonical pair of distinct ids is landed on
      twice per pair of positions holding them. */
  lemma SelfProductHits(ps: seq<int>, k: Pair)
    ensures Hits(Product(ps, ps), k) == if k.0 < k.1 then 2 * Times(Count(ps, k.0), Count(ps, k.1)) else 0
  {
    if k.0 < k.1 {
      ProductCount(ps, ps, k.0, k.1);
      ProductCount(ps, ps, k.1, k.0);
      TimesCommutes(Count(ps, k.1), Count(ps, k.0));
    }
  }

  /** The visits of one group land on `k` `Copies` times over, counting the values
      each visit appends. */
  lemma GroupCopies(v: Variant, rows: seq<Rating>, key: int, k: Pair)
    ensures var grp := GroupRows(v, rows, key);
            var ps := Partners(v, grp);
            |ps| > 1 ==>
              Times(Hits(Product(ps, ps), k), Weight(PayloadOf(v, key, grp), k)) == Copies(v, rows, key, k)
    ensures var ps := Partners(v, GroupRows(v, rows, key));
            |ps| <= 1 ==> Copies(v, rows, key, k) == 0
  {
    var grp := GroupRows(v, rows, key);
    var ps := Partners(v, grp);
    var ca, cb := Count(ps, k.0), Count(ps, k.1);
    SelfProductHits(ps, k);
    if k.0 < k.1 {
      if |ps| > 1 {
        var h := Hits(Product(ps, ps), k);
        if v == ItemIndex {
          TimesCommutes(h, 1);
        } else {
          assert Weight(PayloadOf(v, key, grp), k) == Times(ca, cb);
        }
      } else {
        ShortColumn(ps, k.0, k.1);
      }
    }
  }

  /** One group appends exactly its `Copies` of the group key to every pair's list. */
  lemma GroupStepGet(v: Variant, m: Index, rows: seq<Rating>, key: int, k: Pair)
    ensures Get(GroupStep(v, m, rows, key), k) == Get(m, k) + Repeat(key, Copies(v, rows, key, k))
  {
    var grp := GroupRows(v, rows, key);
    var ps := Partners(v, grp);
    GroupCopies(v, rows, key, k);
    if |ps| > 1 {
      assert Tagged(PayloadOf(v, key, grp), key);
      VisitsGet(m, PayloadOf(v, key, grp), key, Product(ps, ps), k);
    } else {
      assert Repeat(key, 0) == [];
    }
  }

  /** One group creates exactly the keys it appends a value to. */
  lemma GroupStepKeys(v: Variant, m: Index, rows: seq<Rating>, key: int, k: Pair)
    ensures k in GroupStep(v, m, rows, key) <==> k in m || Copies(v, rows, key, k) > 0
  {
    var grp := GroupRows(v, rows, key);
    var ps := Partners(v, grp);
    GroupCopies(v, rows, key, k);
    if |ps| > 1 {
      var p := PayloadOf(v, key, grp);
      assert Tagged(p, key);
      VisitsKeys(m, p, key, Product(ps, ps), k);
      SelfProductHits(ps, k);
      var ca, cb := Count(ps, k.0), Count(ps, k.1);
      var h, w := Hits(Product(ps, ps), k), Weight(p, k);
      TimesPositive(h, w);
      TimesPositive(ca, cb);
      assert h > 0 ==> w > 0;
    }
  }

  /** The outer loop's result is the starting dictionary extended by the reference. */
  lemma {:induction false} FoldGet(v: Variant, m: Index, rows: seq<Rating>, keys: seq<int>, k: Pair)
    ensures Get(Fold(v, m, rows, keys), k) == Get(m, k) + Spread(v, rows, keys, k)
  {
    if keys != [] {
      var init, key := keys[..|keys| - 1], keys[|keys| - 1];
      FoldGet(v, m, rows, init, k);
      GroupStepGet(v, Fold(v, m, rows, init), rows, key, k);
    }
  }

  /** The outer loop creates exactly the keys whose reference list is non-empty. */
  lemma {:induction false} FoldKeys(v: Variant, m: Index, rows: seq<Rating>, keys: seq<int>, k: Pair)
    ensures k in Fold(v, m, rows, keys) <==> k in m || |Spread(v, rows, keys, k)| > 0
  {
    if keys != [] {
      var init, key := keys[..|keys| - 1], keys[|keys| - 1];
      var prev := Fold(v, m, rows, init);
      FoldKeys(v, m, rows, init, k);
      GroupStepKeys(v, prev, rows, key, k);
    }
  }
}

// Five ratings: two users sharing two items and a third user alone on a third item.
// The ids are kept symbolic, ordered u1 < u2 < u3 and i1 < i2 < i3; the instance
// (1, 2, 3), (10, 20, 30) follows.

module CooccurrenceExamples {
  import opened Ratings
  import opened CooccurrenceSpec
  import opened CooccurrenceProperties

  /** (u1,i1), (u1,i2), (u2,i1), (u2,i2), (u3,i3) as (user, item) rows. */
  function Sample(u1: int, u2: int, u3: int, i1: int, i2: int, i3: int): seq<Rating>
  {
    [Rating(u1, i1), Rating(u1, i2), Rating(u2, i1), Rating(u2, i2), Rating(u3, i3)]
  }

  /** The instance (1,10), (1,20), (2,10), (2,20), (3,30). */
  function ExampleRows(): seq<Rating>
  {
    Sample(1, 2, 3, 10, 20, 30)
  }

  /** Group keys of a column shaped a, b, a, b, c with a < b < c. */
  lemma KeysOfAlternating(a: int, b: int, c: int)
    requires a < b < c
    ensures GroupKeys([a, b, a, b, c]) == [a, b, c]
  {
    GroupKeysUnique([a, b, a, b, c], [a, b, c]);
  }

  /** Group keys of a column shaped a, a, b, b, c with a < b < c. */
  lemma KeysOfPaired(a: int, b: int, c: int)
    requires a < b < c
    ensures GroupKeys([a, a, b, b, c]) == [a, b, c]
  {
    GroupKeysUnique([a, a, b, b, c], [a, b, c]);
  }

  lemma SampleMember(u1: int, u2: int, u3: int, i1: int, i2: int, i3: int, u: int, g: int)
    ensures Rating(u, g) in Sample(u1, u2, u3, i1, i2, i3) <==>
              (u, g) == (u1, i1) || (u, g) == (u1, i2) || (u, g) == (u2, i1) ||
              (u, g) == (u2, i2) || (u, g) == (u3, i3)
  {
  }

  lemma SampleColumns(u1: int, u2: int, u3: int, i1: int, i2: int, i3: int)
    ensures UserIds(Sample(u1, u2, u3, i1, i2, i3)) == [u1, u1, u2, u2, u3]
    ensures ItemIds(Sample(u1, u2, u3, i1, i2, i3)) == [i1, i2, i1, i2, i3]
  {
  }

  /** How often each rating the examples need occurs among the sample rows. */
  lemma SampleMultiplicities(u1: int, u2: int, u3: int, i1: int, i2: int, i3: int)
    requires u1 < u2 < u3 && i1 < i2 < i3
    ensures var m := multiset(Sample(u1, u2, u3, i1, i2, i3));
            m[Rating(u1, i1)] == 1 && m[Rating(u1, i2)] == 1 &&
            m[Rating(u2, i1)] == 1 && m[Rating(u2, i2)] == 1 &&
            m[Rating(u3, i1)] == 0 && m[Rating(u3, i2)] == 0 &&
            m[Rating(u1, i3)] == 0 && m[Rating(u2, i3)] == 0
  {
    var rows := Sample(u1, u2, u3, i1, i2, i3);
    assert multiset(rows) == multiset{Rating(u1, i1), Rating(u1, i2), Rating(u2, i1),
                                      Rating(u2, i2), Rating(u3, i3)};
  }

  /** The list of a pair over three group keys, one `Repeat` per key. */
  lemma SpreadOfThree(v: Variant, rows: seq<Rating>, a: int, b: int, c: int, k: Pair)
    ensures Spread(v, rows, [a, b, c], k) ==
              Repeat(a, Copies(v, rows, a, k)) + Repeat(b, Copies(v, rows, b, k))
              + Repeat(c, Copies(v, rows, c, k))
  {
    var ra, rb := Repeat(a, Copies(v, rows, a, k)), Repeat(b, Copies(v, rows, b, k));
    assert Spread(v, rows, [a], k) == ra by {
      assert [a][..0] == [];
    }
    assert Spread(v, rows, [a, b], k) == ra + rb by {
      assert [a, b][..1] == [a];
    }
    assert [a, b, c][..2] == [a, b];
  }

  lemma RepeatSmall(x: int)
    ensures Repeat(x, 0) == [] && Repeat(x, 2) == [x, x]
  {
  }

  /** The list of a pair in an index whose grouping column has three distinct keys, the
      first two contributing two copies each and the third none. */
  lemma IndexOverThree(v: Variant, rows: seq<Rating>, a: int, b: int, c: int, k: Pair)
    requires GroupKeys(GroupColumn(v, rows)) == [a, b, c]
    requires Copies(v, rows, a, k) == 2 && Copies(v, rows, b, k) == 2
    requires Copies(v, rows, c, k) == 0
    ensures Get(BuildIndex(v, rows), k) == [a, a, b, b]
  {
    FoldGet(v, map[], rows, [a, b, c], k);
    SpreadOfThree(v, rows, a, b, c, k);
    RepeatSmall(a);
    RepeatSmall(b);
    RepeatSmall(c);
  }

  // ---------------------------------------------------------------------------
  // Item index.

  lemma SampleItemKeys(u1: int, u2: int, u3: int, i1: int, i2: int, i3: int, k: Pair)
    requires u1 < u2 < u3 && i1 < i2 < i3
    ensures k in BuildIndex(ItemIndex, Sample(u1, u2, u3, i1, i2, i3)) <==> k == (i1, i2)
  {
    var rows := Sample(u1, u2, u3, i1, i2, i3);
    ItemIndexKeys(rows, k.0, k.1);
    if k == (i1, i2) {
      SampleMember(u1, u2, u3, i1, i2, i3, u1, i1);
      SampleMember(u1, u2, u3, i1, i2, i3, u1, i2);
    } else if k.0 < k.1 && exists u :: Rating(u, k.0) in rows && Rating(u, k.1) in rows {
      var u :| Rating(u, k.0) in rows && Rating(u, k.1) in rows;
      SampleMember(u1, u2, u3, i1, i2, i3, u, k.0);
      SampleMember(u1, u2, u3, i1, i2, i3, u, k.1);
    }
  }

  lemma SampleItemCopies(u1: int, u2: int, u3: int, i1: int, i2: int, i3: int)
    requires u1 < u2 < u3 && i1 < i2 < i3
    ensures var rows := Sample(u1, u2, u3, i1, i2, i3);
            Copies(ItemIndex, rows, u1, (i1, i2)) == 2 &&
            Copies(ItemIndex, rows, u2, (i1, i2)) == 2 &&
            Copies(ItemIndex, rows, u3, (i1, i2)) == 0
  {
    var rows := Sample(u1, u2, u3, i1, i2, i3);
    SampleMultiplicities(u1, u2, u3, i1, i2, i3);
    ItemIndexCopies(rows, u1, i1, i2);
    ItemIndexCopies(rows, u2, i1, i2);
    ItemIndexCopies(rows, u3, i1, i2);
  }

  lemma SampleItemList(u1: int, u2: int, u3: int, i1: int, i2: int, i3: int)
    requires u1 < u2 < u3 && i1 < i2 < i3
    ensures Get(BuildIndex(ItemIndex, Sample(u1, u2, u3, i1, i2, i3)), (i1, i2)) ==
              [u1, u1, u2, u2]
  {
    var rows := Sample(u1, u2, u3, i1, i2, i3);
    assert GroupKeys(GroupColumn(ItemIndex, rows)) == [u1, u2, u3] by {
      SampleColumns(u1, u2, u3, i1, i2, i3);
      KeysOfPaired(u1, u2, u3);
    }
    SampleItemCopies(u1, u2, u3, i1, i2, i3);
    IndexOverThree(ItemIndex, rows, u1, u2, u3, (i1, i2));
  }

  /** Item index of the sample: both users visit (i1, i2) twice, user u3 alone on i3
      contributes nothing. */
  lemma ItemIndexSample(u1: int, u2: int, u3: int, i1: int, i2: int, i3: int)
    requires u1 < u2 < u3 && i1 < i2 < i3
    ensures BuildIndex(ItemIndex, Sample(u1, u2, u3, i1, i2, i3)) ==
              map[(i1, i2) := [u1, u1, u2, u2]]
  {
    var index := BuildIndex(ItemIndex, Sample(u1, u2, u3, i1, i2, i3));
    forall k ensures k in index <==> k == (i1, i2) {
      SampleItemKeys(u1, u2, u3, i1, i2, i3, k);
    }
    SampleItemList(u1, u2, u3, i1, i2, i3);
  }

  lemma ItemIndexExample()
    ensures BuildIndex(ItemIndex, ExampleRows()) == map[(10, 20) := [1, 1, 2, 2]]
  {
    ItemIndexSample(1, 2, 3, 10, 20, 30);
  }

  // ---------------------------------------------------------------------------
  // User index.

  lemma SampleUserKeys(u1: int, u2: int, u3: int, i1: int, i2: int, i3: int, k: Pair)
    requires u1 < u2 < u3 && i1 < i2 < i3
    ensures k in BuildIndex(UserIndex, Sample(u1, u2, u3, i1, i2, i3)) <==> k == (u1, u2)
  {
    var rows := Sample(u1, u2, u3, i1, i2, i3);
    UserIndexKeys(rows, k.0, k.1);
    if k == (u1, u2) {
      SampleMember(u1, u2, u3, i1, i2, i3, u1, i1);
      SampleMember(u1, u2, u3, i1, i2, i3, u2, i1);
    } else if k.0 < k.1 && exists g :: Rating(k.0, g) in rows && Rating(k.1, g) in rows {
      var g :| Rating(k.0, g) in rows && Rating(k.1, g) in rows;
      SampleMember(u1, u2, u3, i1, i2, i3, k.0, g);
      SampleMember(u1, u2, u3, i1, i2, i3, k.1, g);
    }
  }

  lemma SampleUserCopies(u1: int, u2: int, u3: int, i1: int, i2: int, i3: int)
    requires u1 < u2 < u3 && i1 < i2 < i3
    ensures var rows := Sample(u1, u2, u3, i1, i2, i3);
            Copies(UserIndex, rows, i1, (u1, u2)) == 2 &&
            Copies(UserIndex, rows, i2, (u1, u2)) == 2 &&
            Copies(UserIndex, rows, i3, (u1, u2)) == 0
  {
    var rows := Sample(u1, u2, u3, i1, i2, i3);
    SampleMultiplicities(u1, u2, u3, i1, i2, i3);
    UserIndexCopies(rows, i1, u1, u2);
    UserIndexCopies(rows, i2, u1, u2);
    UserIndexCopies(rows, i3, u1, u2);
  }

  lemma SampleUserList(u1: int, u2: int, u3: int, i1: int, i2: int, i3: int)
    requires u1 < u2 < u3 && i1 < i2 < i3
    ensures Get(BuildIndex(UserIndex, Sample(u1, u2, u3, i1, i2, i3)), (u1, u2)) ==
              [i1, i1, i2, i2]
  {
    var rows := Sample(u1, u2, u3, i1, i2, i3);
    assert GroupKeys(GroupColumn(UserIndex, rows)) == [i1, i2, i3] by {
      SampleColumns(u1, u2, u3, i1, i2, i3);
      KeysOfAlternating(i1, i2, i3);
    }
    SampleUserCopies(u1, u2, u3, i1, i2, i3);
    IndexOverThree(UserIndex, rows, i1, i2, i3, (u1, u2));
  }

  /** User index of the sample: users u1 and u2 meet in the groups of items i1 and i2,
      and each group appends its item twice. */
  lemma UserIndexSample(u1: int, u2: int, u3: int, i1: int, i2: int, i3: int)
    requires u1 < u2 < u3 && i1 < i2 < i3
    ensures BuildIndex(UserIndex, Sample(u1, u2, u3, i1, i2, i3)) ==
              map[(u1, u2) := [i1, i1, i2, i2]]
  {
    var index := BuildIndex(UserIndex, Sample(u1, u2, u3, i1, i2, i3));
    forall k ensures k in index <==> k == (u1, u2) {
      SampleUserKeys(u1, u2, u3, i1, i2, i3, k);
    }
    SampleUserList(u1, u2, u3, i1, i2, i3);
  }

  lemma UserIndexExample()
    ensures BuildIndex(UserIndex, ExampleRows()) == map[(1, 2) := [10, 10, 20, 20]]
  {
    UserIndexSample(1, 2, 3, 10, 20, 30);
  }
}

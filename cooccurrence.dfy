// The two co-occurrence operators: the skip gate, the fetch of the ratings table, the
// nested loops that fill the dictionary, and the single persist at the end.

module CooccurrenceOperators {
  import opened Wrappers
  import opened Ratings
  import opened Combinations
  import opened CooccurrenceSpec
  import opened CooccurrenceProperties
  import opened ArtifactStore

  /** Why a run raised instead of building the index. */
  datatype Error =
    | SourceMissing   // `_get_data` finds nothing at the source endpoint
    | NotATable       // the source holds something `groupby` cannot split

  /** What `execute` ends with: `None` after a skip, the dictionary after a build, or an
      exception that propagates to the caller. */
  datatype Outcome = Skipped | Built(index: Index) | Raised(error: Error)

  /** `_skip`: the destination already exists and the run is not forced. */
  predicate Skips(destination: string, force: bool, contents: map<string, Value>)
  {
    destination in contents && !force
  }

  /** The outcome of one uncached run of variant `v` against a store holding `contents`. */
  function Envelope(v: Variant, source: string, destination: string, force: bool,
                    contents: map<string, Value>): (r: Outcome)
    ensures r.Skipped? <==> Skips(destination, force, contents)
    ensures r.Raised? <==>
              !Skips(destination, force, contents) &&
              (source !in contents || !contents[source].Table?)
    ensures r.Built? ==> forall k :: k in r.index ==> k.0 < k.1
  {
    if Skips(destination, force, contents) then Skipped
    else if source !in contents then Raised(SourceMissing)
    else if !contents[source].Table? then Raised(NotATable)
    else
      KeysCanonical(v, contents[source].rows);
      Built(BuildIndex(v, contents[source].rows))
  }

  /** The store after a run that ended with `r`: only a build writes, and it writes the
      destination alone. */
  function After(destination: string, contents: map<string, Value>, r: Outcome)
    : (s: map<string, Value>)
    ensures r.Built? ==> destination in s && s[destination] == Cooccurrences(r.index)
    ensures forall e :: e != destination ==> (e in s <==> e in contents)
    ensures forall e :: e != destination && e in contents ==> s[e] == contents[e]
    ensures !r.Built? ==> s == contents
  {
    if r.Built? then contents[destination := Cooccurrences(r.index)] else contents
  }

  /** A build persists exactly the dictionary it returns. */
  lemma PersistsWhatItReturns(v: Variant, source: string, destination: string, force: bool,
                              contents: map<string, Value>)
    requires source in contents && contents[source].Table?
    requires !Skips(destination, force, contents)
    ensures var r := Envelope(v, source, destination, force, contents);
            r == Built(BuildIndex(v, contents[source].rows)) &&
            After(destination, contents, r)[destination] == Cooccurrences(r.index)
  {
  }

  /** Once a build has persisted its index, an unforced run against the same destination
      skips and leaves the store alone. */
  lemma SecondRunSkips(v: Variant, w: Variant, source: string, destination: string,
                       contents: map<string, Value>)
    requires Envelope(v, source, destination, false, contents).Built?
    ensures var s := After(destination, contents, Envelope(v, source, destination, false, contents));
            Envelope(w, source, destination, false, s) == Skipped &&
            After(destination, s, Skipped) == s
  {
  }

  // ---------------------------------------------------------------------------
  // The inner loops, over the self-product of one group's partner column.

  /** Item index, user `user`'s group: every pair of distinct items gets `user` appended
      under its sorted key. */
  method AppendItemPairs(cooccurrence: Index, user: int, itemPairs: seq<Pair>)
    returns (result: Index)
    ensures result == Visits(cooccurrence, GroupUser(user), itemPairs)
  {
    result := cooccurrence;
    for p := 0 to |itemPairs|
      invariant result == Visits(cooccurrence, GroupUser(user), itemPairs[..p])
    {
      assert itemPairs[..p + 1][..p] == itemPairs[..p];
      var itemPair := itemPairs[p];
      if itemPair.0 != itemPair.1 {
        var key := Canon(itemPair.0, itemPair.1);
        if key !in result {
          result := result[key := [user]];
        } else {
          result := result[key := result[key] + [user]];
        }
      }
    }
    assert itemPairs[..|itemPairs|] == itemPairs;
  }

  /** User index, one item's group `ratings`: every pair of distinct users gets the items
      of the inner join of their rows on the item column. */
  method ExtendUserPairs(cooccurrence: Index, ratings: seq<Rating>, userPairs: seq<Pair>)
    returns (result: Index)
    ensures result == Visits(cooccurrence, JoinedItems(ratings), userPairs)
  {
    result := cooccurrence;
    for p := 0 to |userPairs|
      invariant result == Visits(cooccurrence, JoinedItems(ratings), userPairs[..p])
    {
      assert userPairs[..p + 1][..p] == userPairs[..p];
      ghost var before := result;
      var userPair := Canon(userPairs[p].0, userPairs[p].1);
      if userPair.0 != userPair.1 {
        // The Python code selects and merges on the literal "userId" and "movieId" columns
        // here, not on the configured ones.
        var a := RowsOfUser(ratings, userPair.0);
        var b := RowsOfUser(ratings, userPair.1);
        var commonItems := JoinItems(a, b);
        if userPair !in result {
          result := result[userPair := commonItems];
        } else {
          result := result[userPair := result[userPair] + commonItems];
        }
      }
      assert result == Visit(before, JoinedItems(ratings), userPairs[p]);
    }
    assert userPairs[..|userPairs|] == userPairs;
  }

  /** The body of `ItemCooccurrenceIndex.execute`'s `try`: group the rows by user, in
      ascending user order, and pair up the items of every group of two or more rows. */
  method BuildItemIndex(rows: seq<Rating>) returns (cooccurrence: Index)
    ensures cooccurrence == BuildIndex(ItemIndex, rows)
  {
    cooccurrence := map[];
    var users := GroupKeys(UserIds(rows));
    for gi := 0 to |users|
      invariant cooccurrence == Fold(ItemIndex, map[], rows, users[..gi])
    {
      var user := users[gi];
      ghost var before := cooccurrence;
      var items := ItemIds(RowsOfUser(rows, user));
      if |items| > 1 {
        var itemPairs := Product(items, items);
        cooccurrence := AppendItemPairs(cooccurrence, user, itemPairs);
      }
      assert cooccurrence == GroupStep(ItemIndex, before, rows, user);
      FoldStep(ItemIndex, map[], rows, users, gi);
    }
    assert users[..|users|] == users;
  }

  /** The body of `UserCooccurrenceIndex.execute`'s `try`: group the rows by item, in
      ascending item order, and pair up the users of every group of two or more rows. */
  method BuildUserIndex(rows: seq<Rating>) returns (cooccurrence: Index)
    ensures cooccurrence == BuildIndex(UserIndex, rows)
  {
    cooccurrence := map[];
    var items := GroupKeys(ItemIds(rows));
    for gi := 0 to |items|
      invariant cooccurrence == Fold(UserIndex, map[], rows, items[..gi])
    {
      var item := items[gi];
      ghost var before := cooccurrence;
      var ratings := RowsOfItem(rows, item);
      var users := UserIds(ratings);
      if |users| > 1 {
        var userPairs := Product(users, users);
        cooccurrence := ExtendUserPairs(cooccurrence, ratings, userPairs);
      }
      assert cooccurrence == GroupStep(UserIndex, before, rows, item);
      FoldStep(UserIndex, map[], rows, items, gi);
    }
    assert items[..|items|] == items;
  }

  // ---------------------------------------------------------------------------

  /** `ItemCooccurrenceIndex`: for each user, every pair of distinct items the user rated
      gets the user appended. */
  class ItemCooccurrenceIndex {
    const source: string
    const destination: string
    const uservar: string
    const itemvar: string
    const force: bool
    const store: Store
    /** The `@cache` entry of `execute()`: the first completed run's outcome. */
    var memo: Option<Outcome>

    constructor(store: Store, source: string, destination: string,
                uservar: string := "userId", itemvar: string := "movieId",
                force: bool := false)
      ensures this.store == store && this.source == source
      ensures this.destination == destination && this.force == force
      ensures this.uservar == uservar && this.itemvar == itemvar
      ensures memo == None
    {
      this.store := store;
      this.source := source;
      this.destination := destination;
      this.uservar := uservar;
      this.itemvar := itemvar;
      this.force := force;
      memo := None;
    }

    method Execute() returns (r: Outcome)
      modifies this, store
      ensures old(memo).Some? ==>
                r == old(memo).value && memo == old(memo) &&
                store.contents == old(store.contents)
      ensures old(memo).None? ==>
                r == Envelope(ItemIndex, source, destination, force, old(store.contents)) &&
                store.contents == After(destination, old(store.contents), r) &&
                memo == (if r.Raised? then None else Some(r))
    {
      if memo.Some? {
        return memo.value;
      }
      if Skips(destination, force, store.contents) {
        r := Skipped;
        memo := Some(r);
        return;
      }
      if source !in store.contents {
        return Raised(SourceMissing);
      }
      var data := store.contents[source];
      if !data.Table? {
        return Raised(NotATable);
      }
      var rows := data.rows;
      var cooccurrence := BuildItemIndex(rows);
      store.Put(destination, Cooccurrences(cooccurrence));
      r := Built(cooccurrence);
      memo := Some(r);
    }
  }

  /** `UserCooccurrenceIndex`: for each item, every pair of distinct users who rated it
      gets the item once per matching pair of their rows. */
  class UserCooccurrenceIndex {
    const source: string
    const destination: string
    const uservar: string
    const itemvar: string
    const force: bool
    const store: Store
    /** The `@cache` entry of `execute()`: the first completed run's outcome. */
    var memo: Option<Outcome>

    constructor(store: Store, source: string, destination: string,
                uservar: string := "userId", itemvar: string := "movieId",
                force: bool := false)
      ensures this.store == store && this.source == source
      ensures this.destination == destination && this.force == force
      ensures this.uservar == uservar && this.itemvar == itemvar
      ensures memo == None
    {
      this.store := store;
      this.source := source;
      this.destination := destination;
      this.uservar := uservar;
      this.itemvar := itemvar;
      this.force := force;
      memo := None;
    }

    method Execute() returns (r: Outcome)
      modifies this, store
      ensures old(memo).Some? ==>
                r == old(memo).value && memo == old(memo) &&
                store.contents == old(store.contents)
      ensures old(memo).None? ==>
                r == Envelope(UserIndex, source, destination, force, old(store.contents)) &&
                store.contents == After(destination, old(store.contents), r) &&
                memo == (if r.Raised? then None else Some(r))
    {
      if memo.Some? {
        return memo.value;
      }
      if Skips(destination, force, store.contents) {
        r := Skipped;
        memo := Some(r);
        return;
      }
      if source !in store.contents {
        return Raised(SourceMissing);
      }
      var data := store.contents[source];
      if !data.Table? {
        return Raised(NotATable);
      }
      var rows := data.rows;
      var cooccurrence := BuildUserIndex(rows);
      store.Put(destination, Cooccurrences(cooccurrence));
      r := Built(cooccurrence);
      memo := Some(r);
    }
  }
}

// The ratings table as the co-occurrence operators see it: an ordered sequence of
// rows, each projected on the operator's user column and item column.

module Ratings {

  /** One row of the ratings table (the rating value and timestamp are unused). */
  datatype Rating = Rating(user: int, item: int)

  /** Number of occurrences of `x` in `xs`. */
  function Count(xs: seq<int>, x: int): nat
  {
    multiset(xs)[x]
  }

  /** The product of two counts, by repeated addition (keeps proofs about counts linear). */
  function Times(a: nat, b: nat): nat
  {
    if a == 0 then 0 else Times(a - 1, b) + b
  }

  lemma {:induction false} TimesPositive(a: nat, b: nat)
    ensures Times(a, b) > 0 <==> a > 0 && b > 0
  {
    if a > 0 {
      TimesPositive(a - 1, b);
    }
  }

  lemma {:induction false} TimesCommutes(a: nat, b: nat)
    ensures Times(a, b) == Times(b, a)
  {
    if a > 0 && b > 0 {
      TimesCommutes(a - 1, b);
      TimesCommutes(a, b - 1);
      TimesCommutes(a - 1, b - 1);
    } else if a > 0 {
      TimesCommutes(a - 1, b);
    } else if b > 0 {
      TimesCommutes(a, b - 1);
    }
  }

  /** `n` copies of `x`. */
  function Repeat(x: int, n: nat): (r: seq<int>)
    ensures |r| == n
    ensures forall i :: 0 <= i < n ==> r[i] == x
  {
    seq(n, _ => x)
  }

  lemma RepeatAdd(x: int, a: nat, b: nat)
    ensures Repeat(x, a) + Repeat(x, b) == Repeat(x, a + b)
  {
    assert forall i :: 0 <= i < a + b ==> (Repeat(x, a) + Repeat(x, b))[i] == x;
  }

  lemma RepeatCount(x: int, n: nat, y: int)
    ensures Count(Repeat(x, n), y) == if x == y then n else 0
  {
    if n > 0 {
      RepeatAdd(x, n - 1, 1);
      RepeatCount(x, n - 1, y);
      assert multiset(Repeat(x, n)) == multiset(Repeat(x, n - 1)) + multiset{x};
    } else {
      assert Repeat(x, n) == [];
    }
  }

  /** The user column of `rows` (`ratings[uservar].values`). */
  function UserIds(rows: seq<Rating>): (us: seq<int>)
    ensures |us| == |rows|
    ensures forall i :: 0 <= i < |rows| ==> us[i] == rows[i].user
  {
    seq(|rows|, i requires 0 <= i < |rows| => rows[i].user)
  }

  /** The item column of `rows` (`ratings[itemvar].values`). */
  function ItemIds(rows: seq<Rating>): (its: seq<int>)
    ensures |its| == |rows|
    ensures forall i :: 0 <= i < |rows| ==> its[i] == rows[i].item
  {
    seq(|rows|, i requires 0 <= i < |rows| => rows[i].item)
  }

  /** The rows of user `u`, in table order: one group of `groupby(uservar)`. */
  function RowsOfUser(rows: seq<Rating>, u: int): (g: seq<Rating>)
    ensures forall r :: r in g ==> r.user == u && r in rows
  {
    if rows == [] then []
    else
      var last := rows[|rows| - 1];
      RowsOfUser(rows[..|rows| - 1], u) + (if last.user == u then [last] else [])
  }

  /** The rows of item `g`, in table order: one group of `groupby(itemvar)`. */
  function RowsOfItem(rows: seq<Rating>, g: int): (grp: seq<Rating>)
    ensures forall r :: r in grp ==> r.item == g && r in rows
  {
    if rows == [] then []
    else
      var last := rows[|rows| - 1];
      RowsOfItem(rows[..|rows| - 1], g) + (if last.item == g then [last] else [])
  }

  lemma ColumnsAppend(a: seq<Rating>, b: seq<Rating>)
    ensures UserIds(a + b) == UserIds(a) + UserIds(b)
    ensures ItemIds(a + b) == ItemIds(a) + ItemIds(b)
  {
  }

  lemma LastRowCount(rows: seq<Rating>, r: Rating)
    requires rows != []
    ensures multiset(rows)[r] ==
              multiset(rows[..|rows| - 1])[r] + (if rows[|rows| - 1] == r then 1 else 0)
  {
    assert rows == rows[..|rows| - 1] + [rows[|rows| - 1]];
  }

  /** Within user `u`'s group, item `a` occurs once per row (u, a) of the whole table. */
  lemma {:induction false} ItemsOfUserCount(rows: seq<Rating>, u: int, a: int)
    ensures Count(ItemIds(RowsOfUser(rows, u)), a) == multiset(rows)[Rating(u, a)]
  {
    if rows != [] {
      var init, last := rows[..|rows| - 1], rows[|rows| - 1];
      var tail := if last.user == u then [last] else [];
      var front := RowsOfUser(init, u);
      ItemsOfUserCount(init, u, a);
      LastRowCount(rows, Rating(u, a));
      assert RowsOfUser(rows, u) == front + tail;
      ColumnsAppend(front, tail);
      assert Count(ItemIds(tail), a) == if last == Rating(u, a) then 1 else 0;
      assert multiset(ItemIds(front) + ItemIds(tail)) == multiset(ItemIds(front)) + multiset(ItemIds(tail));
    }
  }

  /** Within item `g`'s group, user `x` occurs once per row (x, g) of the whole table. */
  lemma {:induction false} UsersOfItemCount(rows: seq<Rating>, g: int, x: int)
    ensures Count(UserIds(RowsOfItem(rows, g)), x) == multiset(rows)[Rating(x, g)]
  {
    if rows != [] {
      var init, last := rows[..|rows| - 1], rows[|rows| - 1];
      var tail := if last.item == g then [last] else [];
      var front := RowsOfItem(init, g);
      UsersOfItemCount(init, g, x);
      LastRowCount(rows, Rating(x, g));
      assert RowsOfItem(rows, g) == front + tail;
      ColumnsAppend(front, tail);
      assert Count(UserIds(tail), x) == if last == Rating(x, g) then 1 else 0;
      assert multiset(UserIds(front) + UserIds(tail)) == multiset(UserIds(front)) + multiset(UserIds(tail));
    }
  }

  /** Selecting user `x`'s rows keeps exactly as many rows as `x` has in the group. */
  lemma {:induction false} RowsOfUserLength(grp: seq<Rating>, x: int)
    ensures |RowsOfUser(grp, x)| == Count(UserIds(grp), x)
  {
    if grp != [] {
      var init, last := grp[..|grp| - 1], grp[|grp| - 1];
      RowsOfUserLength(init, x);
      assert UserIds(grp) == UserIds(init) + [last.user];
    }
  }

  // ---------------------------------------------------------------------------
  // Group keys: `groupby` visits the distinct keys of a column in ascending order.

  ghost predicate Increasing(s: seq<int>)
  {
    forall i, j :: 0 <= i < j < |s| ==> s[i] < s[j]
  }

  /** The head of a strictly increasing list is below everything after it. */
  lemma DropHead(s: seq<int>)
    requires Increasing(s) && s != []
    ensures Increasing(s[1..])
    ensures forall y :: y in s[1..] <==> y in s && y != s[0]
    ensures forall y :: y in s[1..] ==> s[0] < y
  {
    forall y | y in s[1..] ensures s[0] < y {
      var i :| 0 <= i < |s[1..]| && s[1..][i] == y;
      assert s[i + 1] == y;
    }
    assert s == [s[0]] + s[1..];
  }

  /** Putting a value below all of `s` in front keeps it strictly increasing. */
  lemma ConsIncreasing(x: int, s: seq<int>)
    requires Increasing(s) && forall y :: y in s ==> x < y
    ensures Increasing([x] + s)
  {
    var r := [x] + s;
    forall i, j | 0 <= i < j < |r| ensures r[i] < r[j] {
      assert r[j] == s[j - 1] && s[j - 1] in s;
      if i > 0 {
        assert r[i] == s[i - 1];
      }
    }
  }

  /** Inserts `x` into the strictly increasing `s`, unless it is already there. */
  function Insert(s: seq<int>, x: int): (r: seq<int>)
    requires Increasing(s)
    ensures Increasing(r)
    ensures forall k :: k in r <==> k in s || k == x
    decreases |s|
  {
    if s == [] then [x]
    else if x < s[0] then
      DropHead(s);
      ConsIncreasing(x, s);
      [x] + s
    else if x == s[0] then s
    else
      DropHead(s);
      var rest := Insert(s[1..], x);
      ConsIncreasing(s[0], rest);
      assert s == [s[0]] + s[1..];
      [s[0]] + rest
  }


  /** The distinct values of a column in ascending order: the keys `groupby` visits. */
  function GroupKeys(col: seq<int>): (keys: seq<int>)
    ensures Increasing(keys)
    ensures forall x :: x in keys <==> x in col
  {
    if col == [] then []
    else
      var init := col[..|col| - 1];
      var r := Insert(GroupKeys(init), col[|col| - 1]);
      assert forall x :: x in col <==> x in init || x == col[|col| - 1];
      r
  }

  /** Two strictly increasing lists with the same members are the same list. */
  lemma {:induction false} IncreasingUnique(s: seq<int>, t: seq<int>)
    requires Increasing(s) && Increasing(t)
    requires forall x :: x in s <==> x in t
    ensures s == t
    decreases |s|
  {
    assert s != [] ==> s[0] in s && s[0] in t;
    assert t != [] ==> t[0] in t && t[0] in s;
    if s != [] && t != [] {
      DropHead(s);
      DropHead(t);
      assert s[0] == t[0] by {
        assert s[0] in t[1..] || s[0] == t[0];
        assert t[0] in s[1..] || s[0] == t[0];
      }
      IncreasingUnique(s[1..], t[1..]);
      assert s == [s[0]] + s[1..] && t == [t[0]] + t[1..];
    }
  }


  /** `GroupKeys` is the only strictly increasing list of a column's distinct values. */
  lemma GroupKeysUnique(col: seq<int>, keys: seq<int>)
    requires Increasing(keys)
    requires forall x :: x in keys <==> x in col
    ensures GroupKeys(col) == keys
  {
    IncreasingUnique(GroupKeys(col), keys);
  }

}

// The cartesian product of two arrays, as the library's `cartesian_product` gives it
// after transposition: every ordered pair of positions, row-major.
module Combinations {
  import opened Ratings

  /** The pairs (x, ys[j]) for every position j of ys. */
  function Row(x: int, ys: seq<int>): (r: seq<(int, int)>)
    ensures |r| == |ys|
    ensures forall j :: 0 <= j < |ys| ==> r[j] == (x, ys[j])
  {
    seq(|ys|, j requires 0 <= j < |ys| => (x, ys[j]))
  }

  /** The pairs (xs[i], ys[j]) for every ordered pair of positions (i, j). */
  function Product(xs: seq<int>, ys: seq<int>): (ps: seq<(int, int)>)
    ensures forall p :: p in ps ==> p.0 in xs && p.1 in ys
  {
    if xs == [] then []
    else Product(xs[..|xs| - 1], ys) + Row(xs[|xs| - 1], ys)
  }

  lemma {:induction false} RowCount(x: int, ys: seq<int>, a: int, b: int)
    ensures multiset(Row(x, ys))[(a, b)] == if x == a then Count(ys, b) else 0
  {
    if ys != [] {
      var init := ys[..|ys| - 1];
      assert Row(x, ys) == Row(x, init) + [(x, ys[|ys| - 1])];
      assert ys == init + [ys[|ys| - 1]];
      RowCount(x, init, a, b);
    }
  }

  /** The pair (a, b) occurs once per position of a in xs and position of b in ys. */
  lemma {:induction false} ProductCount(xs: seq<int>, ys: seq<int>, a: int, b: int)
    ensures multiset(Product(xs, ys))[(a, b)] == Times(Count(xs, a), Count(ys, b))
  {
    if xs != [] {
      var init, x := xs[..|xs| - 1], xs[|xs| - 1];
      var c, d := Count(init, a), Count(ys, b);
      var p, q := multiset(Product(init, ys))[(a, b)], multiset(Row(x, ys))[(a, b)];
      assert p == Times(c, d) by { ProductCount(init, ys, a, b); }
      assert q == if x == a then d else 0 by { RowCount(x, ys, a, b); }
      assert Count(xs, a) == c + (if x == a then 1 else 0) by {
        assert xs == init + [x];
        assert multiset(xs) == multiset(init) + multiset{x};
      }
      assert multiset(Product(xs, ys))[(a, b)] == p + q by {
        assert Product(xs, ys) == Product(init, ys) + Row(x, ys);
        assert multiset(Product(xs, ys)) == multiset(Product(init, ys)) + multiset(Row(x, ys));
      }
      assert Times(c + 1, d) == Times(c, d) + d;
    }
  }

}

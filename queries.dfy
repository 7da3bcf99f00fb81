/**
 * The read-only views: the leaderboard (a stable sort by total earnings,
 * highest first, cut to ten) and the administrator's pending listing.
 */
module Queries {
  import opened Records

  /** How many users the leaderboard shows. */
  const BoardSize: nat := 10

  predicate NonIncreasing(s: seq<User>) {
    forall i, j :: 0 <= i < j < |s| ==> s[i].earningsTotal >= s[j].earningsTotal
  }

  /** The users of `s` whose total earnings are `e`, in their order in `s`. */
  function Ties(s: seq<User>, e: real): seq<User> {
    if s == [] then []
    else (if s[0].earningsTotal == e then [s[0]] else []) + Ties(s[1..], e)
  }

  lemma {:induction false} TiesAppend(a: seq<User>, b: seq<User>, e: real)
    ensures Ties(a + b, e) == Ties(a, e) + Ties(b, e)
    decreases |a|
  {
    if a == [] {
      assert a + b == b;
    } else {
      TiesAppend(a[1..], b, e);
      assert (a + b)[1..] == a[1..] + b;
    }
  }

  /**
   * Place `x` into a list sorted highest first, after every entry that earns
   * strictly more and before every entry that earns the same.
   */
  function Insert(x: User, s: seq<User>): (r: seq<User>)
    ensures |r| == |s| + 1
  {
    if s == [] || x.earningsTotal >= s[0].earningsTotal then [x] + s
    else [s[0]] + Insert(x, s[1..])
  }

  /** Python's `sorted(users, key=earnings_total, reverse=True)`. */
  function SortByEarnings(s: seq<User>): (r: seq<User>)
    ensures |r| == |s|
  {
    if s == [] then [] else Insert(s[0], SortByEarnings(s[1..]))
  }

  /** Inserting adds `x` and keeps every other entry: the result is a permutation of `[x] + s`. */
  lemma {:induction false} InsertPermutes(x: User, s: seq<User>)
    ensures multiset(Insert(x, s)) == multiset(s) + multiset{x}
    decreases |s|
  {
    if s != [] && x.earningsTotal < s[0].earningsTotal {
      InsertPermutes(x, s[1..]);
      assert s == [s[0]] + s[1..];
    }
  }

  lemma {:induction false} InsertSorted(x: User, s: seq<User>)
    requires NonIncreasing(s)
    ensures NonIncreasing(Insert(x, s))
    ensures Insert(x, s) != [] && (Insert(x, s)[0] == x || (s != [] && Insert(x, s)[0] == s[0]))
    decreases |s|
  {
    if s != [] && x.earningsTotal < s[0].earningsTotal {
      InsertSorted(x, s[1..]);
      var r := Insert(x, s[1..]);
      // The head of `r` is `x` or `s[1]`, and both earn no more than `s[0]`.
      assert s[0].earningsTotal >= r[0].earningsTotal;
      forall j | 0 < j < |[s[0]] + r| ensures s[0].earningsTotal >= ([s[0]] + r)[j].earningsTotal {
        assert r[0].earningsTotal >= r[j - 1].earningsTotal;
      }
    }
  }

  /** Inserting `x` in front of its equals keeps every group of equal earners in order. */
  lemma {:induction false} InsertStable(x: User, s: seq<User>, e: real)
    requires NonIncreasing(s)
    ensures Ties(Insert(x, s), e) == Ties([x] + s, e)
    decreases |s|
  {
    if s != [] && x.earningsTotal < s[0].earningsTotal {
      InsertStable(x, s[1..], e);
      TiesAppend([s[0]], Insert(x, s[1..]), e);
      TiesAppend([x], s[1..], e);
      TiesAppend([x, s[0]], s[1..], e);
      TiesAppend([x], [s[0]], e);
      TiesAppend([s[0]], [x] + s[1..], e);
      assert [x, s[0]] + s[1..] == [x] + s;
      assert [s[0]] + ([x] + s[1..]) == [s[0], x] + s[1..];
    }
  }

  /**
   * The sort is a permutation of its input, highest earner first, and stable:
   * users with equal totals keep their original relative order.
   */
  lemma {:induction false} SortByEarningsCorrect(s: seq<User>)
    ensures multiset(SortByEarnings(s)) == multiset(s)
    ensures |SortByEarnings(s)| == |s|
    ensures NonIncreasing(SortByEarnings(s))
    ensures forall e :: Ties(SortByEarnings(s), e) == Ties(s, e)
    decreases |s|
  {
    if s != [] {
      SortByEarningsCorrect(s[1..]);
      var rest := SortByEarnings(s[1..]);
      InsertPermutes(s[0], rest);
      InsertSorted(s[0], rest);
      assert s == [s[0]] + s[1..];
      assert |SortByEarnings(s)| == |multiset(SortByEarnings(s))|;
      forall e ensures Ties(SortByEarnings(s), e) == Ties(s, e) {
        InsertStable(s[0], rest, e);
        TiesAppend([s[0]], rest, e);
        TiesAppend([s[0]], s[1..], e);
      }
    }
  }

  /** `sorted(...)[:10]`: the users shown on the leaderboard, best first. */
  function Leaderboard(users: seq<User>): (board: seq<User>)
    ensures |board| == if |users| < BoardSize then |users| else BoardSize
  {
    var sorted := SortByEarnings(users);
    sorted[..if |sorted| < BoardSize then |sorted| else BoardSize]
  }

  /**
   * The leaderboard shows the ten best earners (all users when there are fewer),
   * highest first; nobody left off earns more than the last one shown; and users
   * with equal totals appear in the order they were registered.
   */
  lemma LeaderboardCorrect(users: seq<User>)
    ensures var board := Leaderboard(users);
      && |board| == (if |users| < BoardSize then |users| else BoardSize)
      && NonIncreasing(board)
      && multiset(board) <= multiset(users)
      && (forall x :: x in users && x !in board ==> x.earningsTotal <= board[|board| - 1].earningsTotal)
      && (forall e :: Ties(board, e) <= Ties(users, e))
  {
    SortByEarningsCorrect(users);
    var sorted := SortByEarnings(users);
    var board := Leaderboard(users);
    var rest := sorted[|board|..];
    assert sorted == board + rest;
    assert multiset(sorted) == multiset(board) + multiset(rest);
    assert NonIncreasing(board) by {
      forall i, j | 0 <= i < j < |board| ensures board[i].earningsTotal >= board[j].earningsTotal {
        assert board[i] == sorted[i] && board[j] == sorted[j];
      }
    }
    forall x | x in users && x !in board ensures x.earningsTotal <= board[|board| - 1].earningsTotal {
      assert x in multiset(users);
      assert x in multiset(sorted);
      LeftOffEarnsNoMore(sorted, |board|, x);
    }
    forall e ensures Ties(board, e) <= Ties(users, e) {
      TiesAppend(board, rest, e);
    }
  }

  /** An entry of a sorted list outside its first `n` earns no more than the `n`-th. */
  lemma LeftOffEarnsNoMore(sorted: seq<User>, n: nat, x: User)
    requires NonIncreasing(sorted) && 0 < n <= |sorted|
    requires x in sorted && x !in sorted[..n]
    ensures x.earningsTotal <= sorted[n - 1].earningsTotal
  {
    var j :| 0 <= j < |sorted| && sorted[j] == x;
    assert j >= n;
  }

  /** The users whose pending balance reaches `minPayout`, in their order in `s`. */
  function PendingUsers(s: seq<User>, minPayout: real): (owed: seq<User>)
    ensures |owed| <= |s|
    ensures forall x :: x in owed ==> x in s && x.earningsPending >= minPayout
  {
    if s == [] then []
    else
      assert s == s[..|s| - 1] + [s[|s| - 1]];
      PendingUsers(s[..|s| - 1], minPayout)
      + (if s[|s| - 1].earningsPending >= minPayout then [s[|s| - 1]] else [])
  }

  /** The pending listing holds exactly the users owed at least `minPayout`: nobody owed is missed. */
  lemma {:induction false} PendingUsersExact(s: seq<User>, minPayout: real)
    ensures forall x :: x in PendingUsers(s, minPayout) <==> x in s && x.earningsPending >= minPayout
    decreases |s|
  {
    if s != [] {
      PendingUsersExact(s[..|s| - 1], minPayout);
      assert s == s[..|s| - 1] + [s[|s| - 1]];
    }
  }

  /** The listing takes each entry of `s` at most as often as `s` holds it. */
  lemma {:induction false} PendingUsersSubmultiset(s: seq<User>, minPayout: real)
    ensures multiset(PendingUsers(s, minPayout)) <= multiset(s)
    decreases |s|
  {
    if s != [] {
      PendingUsersSubmultiset(s[..|s| - 1], minPayout);
      assert s == s[..|s| - 1] + [s[|s| - 1]];
    }
  }

  /** Listing a duplicate-free input lists nobody twice. */
  lemma {:induction false} PendingUsersNoDuplicates(s: seq<User>, minPayout: real)
    requires NoDuplicates(s)
    ensures NoDuplicates(PendingUsers(s, minPayout))
    decreases |s|
  {
    if s != [] {
      var init := s[..|s| - 1];
      PendingUsersNoDuplicates(init, minPayout);
      assert s[|s| - 1] !in init by {
        forall i | 0 <= i < |init| ensures init[i] != s[|s| - 1] {
          assert init[i] == s[i];
        }
      }
      assert s[|s| - 1] !in PendingUsers(init, minPayout);
    }
  }

  /** Which amount a listing shows next to each name. */
  datatype Column = TotalEarnings | PendingEarnings

  /** One line of a listing: a display name and an amount. */
  datatype Row = Row(name: string, amount: real)

  function RowOf(u: User, column: Column): Row {
    Row(DisplayName(u), if column == TotalEarnings then u.earningsTotal else u.earningsPending)
  }

  /** The lines of a listing, one per user, in order. */
  function Rows(s: seq<User>, column: Column): (rows: seq<Row>)
    ensures |rows| == |s|
    ensures forall i :: 0 <= i < |s| ==> rows[i] == RowOf(s[i], column)
  {
    if s == [] then [] else Rows(s[..|s| - 1], column) + [RowOf(s[|s| - 1], column)]
  }

  lemma RowsAppend(s: seq<User>, x: User, column: Column)
    ensures Rows(s + [x], column) == Rows(s, column) + [RowOf(x, column)]
  {
    assert (s + [x])[..|s|] == s;
  }
}

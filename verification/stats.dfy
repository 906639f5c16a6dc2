/**
 GET /api/stats: one aggregate query over the players with positive earnings
 (COUNT, SUM, MAX, AVG and two filtered COUNTs), each result passed through
 Python's `int(value or 0)`.
 */
module Stats {
  import opened Players
  import opened Ranking

  /** The `global_stats` object of the response. */
  datatype GlobalStats = GlobalStats(
    totalPlayers: nat,
    totalMoneyEarned: int,
    totalClicks: int,
    highestEarnings: int,
    mostClicks: int,
    bestStreakGlobal: int,
    averageMoney: int,
    averageClicks: int,
    activePlayers: nat,
    dailyActivePlayers: nat)

  /** The three integer columns the aggregates read. */
  datatype Column = Money | Clicks | Streak

  function Value(row: Row, c: Column): int
  {
    match c
    case Money => row.totalMoney
    case Clicks => row.totalClicks
    case Streak => row.bestStreak
  }

  /** The rows of the listed ids, in list order. */
  function Rows(t: Table, ids: seq<string>): (rows: seq<Row>)
    requires forall i :: 0 <= i < |ids| ==> ids[i] in t
    ensures |rows| == |ids|
    ensures forall i :: 0 <= i < |ids| ==> rows[i] == t[ids[i]]
  {
    seq(|ids|, i requires 0 <= i < |ids| => t[ids[i]])
  }

  /** The sum of one column over the rows. */
  function Sum(rows: seq<Row>, c: Column): int
  {
    if rows == [] then 0 else Value(rows[0], c) + Sum(rows[1..], c)
  }

  /** SQL SUM: NULL over no rows. */
  function SqlSum(rows: seq<Row>, c: Column): (s: Option<int>)
    ensures s.None? <==> rows == []
    ensures s.GetOr(0) == Sum(rows, c)
  {
    if rows == [] then None else Some(Sum(rows, c))
  }

  /** SQL MAX: NULL over no rows, otherwise the largest value, which some row holds. */
  function SqlMax(rows: seq<Row>, c: Column): (m: Option<int>)
    ensures m.None? <==> rows == []
    ensures m.Some? ==> forall i :: 0 <= i < |rows| ==> Value(rows[i], c) <= m.value
    ensures m.Some? ==> exists i :: 0 <= i < |rows| && Value(rows[i], c) == m.value
  {
    if rows == [] then None
    else
      match SqlMax(rows[1..], c)
      case None => Some(Value(rows[0], c))
      case Some(rest) =>
        if Value(rows[0], c) >= rest then Some(Value(rows[0], c)) else Some(rest)
  }

  /** SQL AVG of an integer column: an exact quotient, NULL over no rows. */
  function SqlAvg(rows: seq<Row>, c: Column): (a: Option<real>)
    ensures a.None? <==> rows == []
    ensures a.Some? ==> a.value * |rows| as real == Sum(rows, c) as real
  {
    if rows == [] then None else Some(Sum(rows, c) as real / |rows| as real)
  }

  /** COUNT(*) FILTER (WHERE updated_at > threshold). */
  function CountSince(rows: seq<Row>, threshold: int): (n: nat)
    ensures n <= |rows|
    ensures n == |rows| <==> forall i :: 0 <= i < |rows| ==> rows[i].updatedAt > threshold
    ensures n == 0 <==> forall i :: 0 <= i < |rows| ==> rows[i].updatedAt <= threshold
  {
    if rows == [] then 0
    else (if rows[0].updatedAt > threshold then 1 else 0) + CountSince(rows[1..], threshold)
  }

  /** Python's int() on a number: truncation toward zero. */
  function Truncate(x: real): (n: int)
    ensures x >= 0.0 ==> n as real <= x < n as real + 1.0
    ensures x < 0.0 ==> n as real - 1.0 < x <= n as real
  {
    if x >= 0.0 then x.Floor else -((-x).Floor)
  }

  /** Integer division rounding toward zero, as C and Java divide. */
  function TruncDiv(a: int, n: int): int
    requires n > 0
  {
    if a >= 0 then a / n else -((-a) / n)
  }

  /** `m` is the largest value of column `c` among the ranked players, and one of them holds it. */
  ghost predicate IsMaxOver(t: Table, c: Column, m: int)
  {
    && (forall id :: id in Population(t) ==> Value(t[id], c) <= m)
    && (exists id :: id in Population(t) && Value(t[id], c) == m)
  }

  /** MAX over the ranking is the maximum over the population it enumerates. */
  lemma MaxOverPopulation(t: Table, c: Column)
    requires Population(t) != {}
    ensures SqlMax(Rows(t, Ranked(t, Population(t))), c).Some?
    ensures IsMaxOver(t, c, SqlMax(Rows(t, Ranked(t, Population(t))), c).value)
  {
    var ids := Ranked(t, Population(t));
    var rows := Rows(t, ids);
    var m := SqlMax(rows, c);
    forall id | id in Population(t)
      ensures Value(t[id], c) <= m.value
    {
      var i :| 0 <= i < |ids| && ids[i] == id;
      assert rows[i] == t[id];
    }
    var i :| 0 <= i < |rows| && Value(rows[i], c) == m.value;
    assert ids[i] in Population(t);
  }

  /**
   The SELECT of the statistics query over a bag of rows, each column passed
   through `int(value or 0)`: COUNT, two SUMs, three MAXes, two AVGs and the
   1 hour and 24 hour activity counts.
   */
  function Aggregate(rows: seq<Row>, now: int): (s: GlobalStats)
    ensures s.totalPlayers == |rows|
    ensures s.totalMoneyEarned == Sum(rows, Money) && s.totalClicks == Sum(rows, Clicks)
    ensures s.activePlayers <= s.dailyActivePlayers <= s.totalPlayers
    ensures rows == [] ==> s == GlobalStats(0, 0, 0, 0, 0, 0, 0, 0, 0, 0)
    ensures rows != [] ==>
              && s.highestEarnings == SqlMax(rows, Money).value
              && s.mostClicks == SqlMax(rows, Clicks).value
              && s.bestStreakGlobal == SqlMax(rows, Streak).value
              && s.averageMoney == TruncDiv(s.totalMoneyEarned, s.totalPlayers)
              && s.averageClicks == TruncDiv(s.totalClicks, s.totalPlayers)
  {
    var s := GlobalStats(
      |rows|,
      SqlSum(rows, Money).GetOr(0),
      SqlSum(rows, Clicks).GetOr(0),
      SqlMax(rows, Money).GetOr(0),
      SqlMax(rows, Clicks).GetOr(0),
      SqlMax(rows, Streak).GetOr(0),
      Truncate(SqlAvg(rows, Money).GetOr(0.0)),
      Truncate(SqlAvg(rows, Clicks).GetOr(0.0)),
      CountSince(rows, now - OneHour),
      CountSince(rows, now - OneDay));
    CountSinceMonotone(rows, now - OneHour, now - OneDay);
    if rows != [] then
      TruncateIsTruncDiv(s.totalMoneyEarned, |rows|);
      TruncateIsTruncDiv(s.totalClicks, |rows|);
      s
    else
      s
  }

  /**
   GET /api/stats: the aggregates over the players with positive earnings
   (listed in ranking order; the aggregates do not depend on the order, as
   AggregatesIgnoreOrder shows).
   */
  function Global(t: Table, now: int): (s: GlobalStats)
    ensures s.totalPlayers == |Population(t)|
    ensures s.totalMoneyEarned == Sum(Rows(t, Ranked(t, Population(t))), Money)
    ensures s.totalClicks == Sum(Rows(t, Ranked(t, Population(t))), Clicks)
    ensures s.activePlayers <= s.dailyActivePlayers <= s.totalPlayers
    ensures s.totalPlayers == 0 ==> s == GlobalStats(0, 0, 0, 0, 0, 0, 0, 0, 0, 0)
    ensures s.totalPlayers > 0 ==>
              && IsMaxOver(t, Money, s.highestEarnings)
              && IsMaxOver(t, Clicks, s.mostClicks)
              && IsMaxOver(t, Streak, s.bestStreakGlobal)
    ensures s.totalPlayers > 0 ==> s.totalMoneyEarned >= s.totalPlayers
    ensures s.totalPlayers > 0 ==> s.averageMoney == s.totalMoneyEarned / s.totalPlayers
    ensures s.totalPlayers > 0 ==> s.averageClicks == TruncDiv(s.totalClicks, s.totalPlayers)
  {
    var rows := Rows(t, Ranked(t, Population(t)));
    RankedRows(t);
    Aggregate(rows, now)
  }

  /** What the rows of the ranked population tell the aggregates about the table. */
  lemma RankedRows(t: Table)
    ensures var rows := Rows(t, Ranked(t, Population(t)));
            && |rows| == |Population(t)|
            && (rows != [] ==>
                  && IsMaxOver(t, Money, SqlMax(rows, Money).value)
                  && IsMaxOver(t, Clicks, SqlMax(rows, Clicks).value)
                  && IsMaxOver(t, Streak, SqlMax(rows, Streak).value)
                  && Sum(rows, Money) >= |rows|)
  {
    var ids := Ranked(t, Population(t));
    var rows := Rows(t, ids);
    if rows != [] {
      MaxOverPopulation(t, Money);
      MaxOverPopulation(t, Clicks);
      MaxOverPopulation(t, Streak);
      RankedRowsEarn(t, ids, rows);
    }
  }

  /** Every ranked row has positive earnings, so together they earn at least one per row. */
  lemma RankedRowsEarn(t: Table, ids: seq<string>, rows: seq<Row>)
    requires forall i :: 0 <= i < |ids| ==> ids[i] in t && ids[i] in Population(t)
    requires |rows| == |ids| && forall i :: 0 <= i < |ids| ==> rows[i] == t[ids[i]]
    ensures Sum(rows, Money) >= |rows|
  {
    forall i | 0 <= i < |rows|
      ensures rows[i].totalMoney > 0
    {
      assert ids[i] in Population(t);
    }
    SumPositive(rows);
  }

  lemma GlobalIsAggregate(t: Table, now: int)
    ensures Global(t, now) == Aggregate(Rows(t, Ranked(t, Population(t))), now)
  {
  }

  /** One more row in the bag adds one to the count and its values to the sums. */
  lemma AggregateOfOneMore(rows: seq<Row>, more: seq<Row>, row: Row, now: int)
    requires multiset(more) == multiset(rows + [row])
    ensures Aggregate(more, now).totalPlayers == Aggregate(rows, now).totalPlayers + 1
    ensures Aggregate(more, now).totalMoneyEarned == Aggregate(rows, now).totalMoneyEarned + row.totalMoney
    ensures Aggregate(more, now).totalClicks == Aggregate(rows, now).totalClicks + row.totalClicks
  {
    assert |more| == |multiset(more)| == |rows + [row]|;
    SumIgnoresOrder(more, rows + [row], Money);
    SumIgnoresOrder(more, rows + [row], Clicks);
    SumConcat(rows, [row], Money);
    SumConcat(rows, [row], Clicks);
  }

  /** A later threshold admits no more rows than an earlier one. */
  lemma {:induction false} CountSinceMonotone(rows: seq<Row>, later: int, earlier: int)
    requires earlier <= later
    ensures CountSince(rows, later) <= CountSince(rows, earlier)
  {
    if rows != [] {
      CountSinceMonotone(rows[1..], later, earlier);
    }
  }

  /** Positive earnings sum to at least one per row. */
  lemma {:induction false} SumPositive(rows: seq<Row>)
    requires forall i :: 0 <= i < |rows| ==> rows[i].totalMoney > 0
    ensures Sum(rows, Money) >= |rows|
  {
    if rows != [] {
      SumPositive(rows[1..]);
    }
  }

  /** int(a / n) over the exact quotient is integer division rounding toward zero. */
  lemma TruncateIsTruncDiv(a: int, n: int)
    requires n > 0
    ensures Truncate(a as real / n as real) == TruncDiv(a, n)
  {
    if a >= 0 {
      FloorOfQuotient(a, n);
    } else {
      FloorOfQuotient(-a, n);
      assert -(a as real / n as real) == (-a) as real / n as real;
    }
  }

  lemma FloorOfQuotient(a: int, n: int)
    requires a >= 0 && n > 0
    ensures (a as real / n as real).Floor == a / n
  {
    var q, m := a / n, a % n;
    assert a == q * n + m && 0 <= m < n;
    var x := a as real / n as real;
    assert x * n as real == a as real;
    assert q as real * n as real <= x * n as real;
    assert x * n as real < (q + 1) as real * n as real;
  }

  lemma {:induction false} SumConcat(a: seq<Row>, b: seq<Row>, c: Column)
    ensures Sum(a + b, c) == Sum(a, c) + Sum(b, c)
  {
    if a == [] {
      assert a + b == b;
    } else {
      assert (a + b)[1..] == a[1..] + b;
      SumConcat(a[1..], b, c);
    }
  }

  lemma {:induction false} CountConcat(a: seq<Row>, b: seq<Row>, threshold: int)
    ensures CountSince(a + b, threshold) == CountSince(a, threshold) + CountSince(b, threshold)
  {
    if a == [] {
      assert a + b == b;
    } else {
      assert (a + b)[1..] == a[1..] + b;
      CountConcat(a[1..], b, threshold);
    }
  }

  /** Taking the same element out of two equal bags leaves equal bags. */
  lemma RemoveMatching<T>(a: seq<T>, b: seq<T>, k: int)
    requires multiset(a) == multiset(b)
    requires a != [] && 0 <= k < |b| && b[k] == a[0]
    ensures multiset(a[1..]) == multiset(b[..k] + b[k + 1..])
    ensures b == b[..k] + [a[0]] + b[k + 1..]
  {
    var x := a[0];
    assert b == b[..k] + [x] + b[k + 1..];
    assert a == [x] + a[1..];
    assert multiset(b) == multiset(b[..k]) + multiset([x]) + multiset(b[k + 1..]);
    assert multiset(b[..k] + b[k + 1..]) == multiset(b[..k]) + multiset(b[k + 1..]);
    assert multiset(a) == multiset([x]) + multiset(a[1..]);
    assert multiset(a[1..]) == multiset(a) - multiset([x]);
    assert multiset(b[..k] + b[k + 1..]) == multiset(b) - multiset([x]);
  }

  /** SUM sees a bag of rows: reordering the rows does not change it. */
  lemma {:induction false} SumIgnoresOrder(a: seq<Row>, b: seq<Row>, c: Column)
    requires multiset(a) == multiset(b)
    ensures Sum(a, c) == Sum(b, c)
    decreases |a|
  {
    if a == [] {
      assert |b| == |multiset(b)| == 0;
    } else {
      var x := a[0];
      assert x in multiset(b);
      var k :| 0 <= k < |b| && b[k] == x;
      RemoveMatching(a, b, k);
      SumIgnoresOrder(a[1..], b[..k] + b[k + 1..], c);
      SumConcat(b[..k] + [x], b[k + 1..], c);
      SumConcat(b[..k], [x], c);
      SumConcat(b[..k], b[k + 1..], c);
    }
  }

  /** The filtered COUNT sees a bag of rows: reordering the rows does not change it. */
  lemma {:induction false} CountIgnoresOrder(a: seq<Row>, b: seq<Row>, threshold: int)
    requires multiset(a) == multiset(b)
    ensures CountSince(a, threshold) == CountSince(b, threshold)
    decreases |a|
  {
    if a == [] {
      assert |b| == |multiset(b)| == 0;
    } else {
      var x := a[0];
      assert x in multiset(b);
      var k :| 0 <= k < |b| && b[k] == x;
      RemoveMatching(a, b, k);
      CountIgnoresOrder(a[1..], b[..k] + b[k + 1..], threshold);
      CountConcat(b[..k] + [x], b[k + 1..], threshold);
      CountConcat(b[..k], [x], threshold);
      CountConcat(b[..k], b[k + 1..], threshold);
    }
  }

  /** MAX sees a bag of rows: reordering the rows does not change it. */
  lemma MaxIgnoresOrder(a: seq<Row>, b: seq<Row>, c: Column)
    requires multiset(a) == multiset(b)
    ensures SqlMax(a, c) == SqlMax(b, c)
  {
    if a == [] {
      assert b == [];
    } else {
      assert a[0] in multiset(b);
      var ma, mb := SqlMax(a, c).value, SqlMax(b, c).value;
      var i :| 0 <= i < |a| && Value(a[i], c) == ma;
      assert a[i] in multiset(b);
      var l :| 0 <= l < |b| && b[l] == a[i];
      assert ma <= mb;
      var j :| 0 <= j < |b| && Value(b[j], c) == mb;
      assert b[j] in multiset(a);
      var m :| 0 <= m < |a| && a[m] == b[j];
      assert mb <= ma;
    }
  }

  /** A list without repeats holds each of its members exactly once. */
  lemma {:induction false} DistinctMultiplicity(ids: seq<string>, x: string)
    requires Distinct(ids)
    ensures multiset(ids)[x] == if x in ids then 1 else 0
  {
    if ids != [] {
      assert ids == [ids[0]] + ids[1..];
      assert Distinct(ids[1..]) by {
        forall i, j | 0 <= i < j < |ids[1..]|
          ensures ids[1..][i] != ids[1..][j]
        {
          assert ids[1..][i] == ids[i + 1] && ids[1..][j] == ids[j + 1];
        }
      }
      DistinctMultiplicity(ids[1..], x);
      assert ids[0] !in ids[1..];
    }
  }

  /** Two repeat-free lists of the same ids hold the same bag of rows. */
  lemma SameIdsSameRows(t: Table, a: seq<string>, b: seq<string>)
    requires Distinct(a) && Distinct(b)
    requires forall x :: x in a <==> x in b
    requires forall i :: 0 <= i < |a| ==> a[i] in t
    requires forall i :: 0 <= i < |b| ==> b[i] in t
    ensures multiset(Rows(t, a)) == multiset(Rows(t, b))
  {
    forall x
      ensures multiset(a)[x] == multiset(b)[x]
    {
      DistinctMultiplicity(a, x);
      DistinctMultiplicity(b, x);
    }
    assert multiset(a) == multiset(b);
    RowsOfPermutation(t, a, b);
  }

  lemma PermutationStaysInTable(t: Table, a: seq<string>, b: seq<string>)
    requires multiset(a) == multiset(b)
    requires forall i :: 0 <= i < |a| ==> a[i] in t
    ensures forall i :: 0 <= i < |b| ==> b[i] in t
  {
    forall i | 0 <= i < |b|
      ensures b[i] in t
    {
      assert b[i] in multiset(a);
    }
  }

  /** Taking one id out of a list takes its row out of the list's rows. */
  lemma RowsWithout(t: Table, b: seq<string>, k: nat)
    requires k < |b|
    requires forall i :: 0 <= i < |b| ==> b[i] in t
    ensures multiset(Rows(t, b)) == multiset(Rows(t, b[..k] + b[k + 1..])) + multiset{t[b[k]]}
  {
    var rows := Rows(t, b);
    assert Rows(t, b[..k] + b[k + 1..]) == rows[..k] + rows[k + 1..];
    assert rows == rows[..k] + [rows[k]] + rows[k + 1..];
  }

  /** The first id's row followed by the rest's rows. */
  lemma RowsHead(t: Table, a: seq<string>)
    requires a != []
    requires forall i :: 0 <= i < |a| ==> a[i] in t
    ensures multiset(Rows(t, a)) == multiset(Rows(t, a[1..])) + multiset{t[a[0]]}
  {
    var rows := Rows(t, a);
    assert Rows(t, a[1..]) == rows[1..];
    assert rows == [rows[0]] + rows[1..];
  }

  lemma {:induction false} RowsOfPermutation(t: Table, a: seq<string>, b: seq<string>)
    requires multiset(a) == multiset(b)
    requires forall i :: 0 <= i < |a| ==> a[i] in t
    requires forall i :: 0 <= i < |b| ==> b[i] in t
    ensures multiset(Rows(t, a)) == multiset(Rows(t, b))
    decreases |a|
  {
    if a == [] {
      assert |b| == |multiset(b)| == 0;
    } else {
      assert a[0] in multiset(b);
      var k :| 0 <= k < |b| && b[k] == a[0];
      var rest := b[..k] + b[k + 1..];
      RemoveMatching(a, b, k);
      PermutationStaysInTable(t, a[1..], rest);
      RowsOfPermutation(t, a[1..], rest);
      RowsHead(t, a);
      RowsWithout(t, b, k);
    }
  }

  /**
   The aggregates do not depend on the order the population is read in:
   any repeat-free listing of the ranked players gives the same sums, maxima
   and activity counts as the one the model uses.
   */
  lemma AggregatesIgnoreOrder(t: Table, ids: seq<string>, c: Column, threshold: int)
    requires Distinct(ids)
    requires forall x :: x in ids <==> x in Population(t)
    ensures forall i :: 0 <= i < |ids| ==> ids[i] in t
    ensures var ranked := Rows(t, Ranked(t, Population(t)));
            && Sum(Rows(t, ids), c) == Sum(ranked, c)
            && SqlMax(Rows(t, ids), c) == SqlMax(ranked, c)
            && CountSince(Rows(t, ids), threshold) == CountSince(ranked, threshold)
  {
    var r := Ranked(t, Population(t));
    SortedIsDistinct(t, r);
    assert forall i :: 0 <= i < |ids| ==> ids[i] in t by {
      forall i | 0 <= i < |ids|
        ensures ids[i] in t
      {
        assert ids[i] in ids;
      }
    }
    SameIdsSameRows(t, ids, r);
    SumIgnoresOrder(Rows(t, ids), Rows(t, r), c);
    CountIgnoresOrder(Rows(t, ids), Rows(t, r), threshold);
    MaxIgnoresOrder(Rows(t, ids), Rows(t, r), c);
  }

  /** Over a repeat-free list, the filtered COUNT is the number of distinct ids that pass the filter. */
  lemma {:induction false} CountIsCard(t: Table, ids: seq<string>, threshold: int)
    requires Distinct(ids)
    requires forall i :: 0 <= i < |ids| ==> ids[i] in t
    ensures CountSince(Rows(t, ids), threshold)
            == |set p | p in ids && p in t && t[p].updatedAt > threshold|
  {
    var all := set p | p in ids && p in t && t[p].updatedAt > threshold;
    if ids != [] {
      var tail := ids[1..];
      assert Distinct(tail) by {
        forall i, j | 0 <= i < j < |tail|
          ensures tail[i] != tail[j]
        {
          assert tail[i] == ids[i + 1] && tail[j] == ids[j + 1];
        }
      }
      CountIsCard(t, tail, threshold);
      assert Rows(t, ids)[1..] == Rows(t, tail);
      var rest := set p | p in tail && p in t && t[p].updatedAt > threshold;
      assert ids[0] !in tail;
      if t[ids[0]].updatedAt > threshold {
        assert all == rest + {ids[0]};
      } else {
        assert all == rest;
      }
    }
  }

  /**
   The activity counts agree with the leaderboard's status labels: active
   players are those labelled online, daily active ones those not offline.
   */
  lemma ActivityMatchesStatus(t: Table, now: int)
    ensures Global(t, now).activePlayers
            == |set p | p in Population(t) && StatusAt(t[p].updatedAt, now) == Online|
    ensures Global(t, now).dailyActivePlayers
            == |set p | p in Population(t) && StatusAt(t[p].updatedAt, now) != Offline|
  {
    var r := Ranked(t, Population(t));
    SortedIsDistinct(t, r);
    CountIsCard(t, r, now - OneHour);
    CountIsCard(t, r, now - OneDay);
    assert (set p | p in r && p in t && t[p].updatedAt > now - OneHour)
        == (set p | p in Population(t) && StatusAt(t[p].updatedAt, now) == Online);
    assert (set p | p in r && p in t && t[p].updatedAt > now - OneDay)
        == (set p | p in Population(t) && StatusAt(t[p].updatedAt, now) != Offline);
  }
}

/**
 The ranking views of the `players` table: GET /api/leaderboard and
 GET /api/player/{id}/rank.

 Both rank the players with positive earnings by money descending, then
 clicks descending. SQL leaves rows equal on both columns in no particular
 order; this model fixes one total order by breaking such ties on
 `player_id` ascending, and uses that one order for both views.
 */
module Ranking {
  import opened Order
  import opened Players

  /** Seconds in the 1 hour and 24 hour windows of the activity status. */
  const OneHour: int := 3600
  const OneDay: int := 86400

  /** The leaderboard's `limit` query parameter when none is given. */
  const DefaultLimit: nat := 10

  /** The columns a row is ranked by, plus the id as the final tie-break. */
  datatype Key = Key(money: int, clicks: int, id: string)

  /**
   Strict ranking order: `x` is listed before `y`. A player listed earlier
   never has less money, nor, at equal money, fewer clicks; more money, or
   equal money and more clicks, always lists first.
   */
  predicate Ahead(x: Key, y: Key)
    ensures Ahead(x, y) ==> x.money >= y.money
    ensures Ahead(x, y) && x.money == y.money ==> x.clicks >= y.clicks
    ensures x.money > y.money ==> Ahead(x, y)
    ensures x.money == y.money && x.clicks > y.clicks ==> Ahead(x, y)
  {
    || x.money > y.money
    || (x.money == y.money && x.clicks > y.clicks)
    || (x.money == y.money && x.clicks == y.clicks && StrLess(x.id, y.id))
  }

  function KeyOf(t: Table, id: string): Key
    requires id in t
  {
    Key(t[id].totalMoney, t[id].totalClicks, id)
  }

  lemma AheadIrreflexive(x: Key)
    ensures !Ahead(x, x)
  {
    StrLessIrreflexive(x.id);
  }

  lemma AheadAsymmetric(x: Key, y: Key)
    requires Ahead(x, y)
    ensures !Ahead(y, x)
  {
    if x.money == y.money && x.clicks == y.clicks {
      StrLessAsymmetric(x.id, y.id);
    }
  }

  lemma AheadTransitive(x: Key, y: Key, z: Key)
    requires Ahead(x, y) && Ahead(y, z)
    ensures Ahead(x, z)
  {
    if x.money == y.money == z.money && x.clicks == y.clicks == z.clicks {
      StrLessTransitive(x.id, y.id, z.id);
    }
  }

  lemma AheadTotal(x: Key, y: Key)
    requires x.id != y.id
    ensures Ahead(x, y) || Ahead(y, x)
  {
    StrLessTotal(x.id, y.id);
  }

  /** The rows `WHERE total_money > 0`: the only ones ever ranked or aggregated. */
  function Population(t: Table): (p: set<string>)
    ensures p <= t.Keys
    ensures forall id :: id in p <==> id in t && t[id].totalMoney > 0
  {
    set id | id in t && t[id].totalMoney > 0
  }

  /** `k` comes before every other member of `s`. */
  predicate IsFirst(t: Table, s: set<string>, k: string)
    requires s <= t.Keys
  {
    k in s && forall j :: j in s && j != k ==> Ahead(KeyOf(t, k), KeyOf(t, j))
  }

  /** Every non-empty set of ids has a first member. */
  lemma {:induction false} FirstExists(t: Table, s: set<string>)
    requires s <= t.Keys && s != {}
    ensures exists k :: IsFirst(t, s, k)
    decreases |s|
  {
    var x :| x in s;
    if s == {x} {
      assert IsFirst(t, s, x);
    } else {
      FirstExists(t, s - {x});
      var m :| IsFirst(t, s - {x}, m);
      AheadTotal(KeyOf(t, x), KeyOf(t, m));
      if Ahead(KeyOf(t, m), KeyOf(t, x)) {
        assert IsFirst(t, s, m);
      } else {
        forall j | j in s && j != x
          ensures Ahead(KeyOf(t, x), KeyOf(t, j))
        {
          if j != m {
            AheadTransitive(KeyOf(t, x), KeyOf(t, m), KeyOf(t, j));
          }
        }
        assert IsFirst(t, s, x);
      }
    }
  }

  /** No two members of a set are both first. */
  lemma FirstUnique(t: Table, s: set<string>, k1: string, k2: string)
    requires s <= t.Keys
    requires IsFirst(t, s, k1) && IsFirst(t, s, k2)
    ensures k1 == k2
  {
    if k1 != k2 {
      AheadAsymmetric(KeyOf(t, k1), KeyOf(t, k2));
    }
  }

  lemma FirstUniqueAll(t: Table, s: set<string>)
    requires s <= t.Keys
    ensures forall k1, k2 :: IsFirst(t, s, k1) && IsFirst(t, s, k2) ==> k1 == k2
  {
    forall k1, k2 | IsFirst(t, s, k1) && IsFirst(t, s, k2)
      ensures k1 == k2
    {
      FirstUnique(t, s, k1, k2);
    }
  }

  /** `ids` lists members of `t` strictly in ranking order. */
  ghost predicate Sorted(t: Table, ids: seq<string>)
  {
    && (forall i :: 0 <= i < |ids| ==> ids[i] in t)
    && forall i, j :: 0 <= i < j < |ids| ==> Ahead(KeyOf(t, ids[i]), KeyOf(t, ids[j]))
  }

  /**
   The members of `s` in ranking order, built by repeatedly taking the first
   remaining member. This is the ORDER BY shared by the leaderboard and the
   rank query.
   */
  function Ranked(t: Table, s: set<string>): (r: seq<string>)
    requires s <= t.Keys
    ensures |r| == |s|
    ensures forall i :: 0 <= i < |r| ==> r[i] in s
    ensures forall k :: k in s ==> k in r
    ensures Sorted(t, r)
    decreases s
  {
    if s == {} then []
    else
      FirstExists(t, s);
      FirstUniqueAll(t, s);
      var k :| IsFirst(t, s, k);
      [k] + Ranked(t, s - {k})
  }

  /** A strictly sorted list has no repeated id. */
  lemma SortedDistinct(t: Table, ids: seq<string>, i: int, j: int)
    requires Sorted(t, ids)
    requires 0 <= i < j < |ids|
    ensures ids[i] != ids[j]
  {
    AheadIrreflexive(KeyOf(t, ids[i]));
  }

  /** No id is listed twice. */
  ghost predicate Distinct(ids: seq<string>)
  {
    forall i, j :: 0 <= i < j < |ids| ==> ids[i] != ids[j]
  }

  /** A ranking never lists a player twice. */
  lemma SortedIsDistinct(t: Table, ids: seq<string>)
    requires Sorted(t, ids)
    ensures Distinct(ids)
  {
    forall i, j | 0 <= i < j < |ids|
      ensures ids[i] != ids[j]
    {
      SortedDistinct(t, ids, i, j);
    }
  }

  /** A list without repeats has as many distinct elements as entries. */
  lemma {:induction false} DistinctCard(ids: seq<string>)
    requires Distinct(ids)
    ensures |set i | 0 <= i < |ids| :: ids[i]| == |ids|
  {
    if ids != [] {
      var n := |ids| - 1;
      DistinctCard(ids[..n]);
      var front := set i | 0 <= i < n :: ids[..n][i];
      assert (set i | 0 <= i < |ids| :: ids[i]) == front + {ids[n]};
      assert ids[n] !in front;
    }
  }

  /**
   ROW_NUMBER() OVER (ORDER BY total_money DESC, total_clicks DESC) of a
   ranked player: one more than the number of ranked players listed before it.
   */
  function RowNumber(t: Table, id: string): (n: nat)
    requires id in Population(t)
    ensures 1 <= n <= |Population(t)|
  {
    var ahead := set q | q in Population(t) && Ahead(KeyOf(t, q), KeyOf(t, id));
    AheadIrreflexive(KeyOf(t, id));
    var rest := Population(t) - ahead;
    assert id in rest;
    assert Population(t) == ahead + rest && ahead !! rest;
    1 + |ahead|
  }

  /** The row number of a ranked player is its 1-based position in the ranking. */
  lemma RowNumberIsPosition(t: Table, i: int)
    requires 0 <= i < |Ranked(t, Population(t))|
    ensures RowNumber(t, Ranked(t, Population(t))[i]) == i + 1
  {
    var r := Ranked(t, Population(t));
    AheadIsBefore(t, r, i);
    SortedIsDistinct(t, r[..i]);
    DistinctCard(r[..i]);
  }

  /** In a sorted listing of the population, the players ahead of the (i+1)-th are exactly the first i. */
  lemma AheadIsBefore(t: Table, r: seq<string>, i: int)
    requires Lists(Population(t), r) && Sorted(t, r)
    requires 0 <= i < |r|
    ensures (set q | q in Population(t) && Ahead(KeyOf(t, q), KeyOf(t, r[i])))
            == (set j | 0 <= j < i :: r[..i][j])
    ensures Sorted(t, r[..i])
  {
    var p := Population(t);
    var id := r[i];
    var ahead := set q | q in p && Ahead(KeyOf(t, q), KeyOf(t, id));
    var before := set j | 0 <= j < i :: r[..i][j];
    forall q | q in ahead
      ensures q in before
    {
      var j :| 0 <= j < |r| && r[j] == q;
      if j == i {
        AheadIrreflexive(KeyOf(t, id));
      } else if j > i {
        AheadAsymmetric(KeyOf(t, id), KeyOf(t, q));
      }
      assert r[..i][j] == q;
    }
    forall q | q in before
      ensures q in ahead
    {
      var j :| 0 <= j < i && r[..i][j] == q;
      assert r[j] == q;
    }
  }

  /** Activity label derived from `updated_at`, relative to the statement time. */
  datatype Status = Online | Recent | Offline

  /** CASE WHEN updated_at > NOW() - 1 hour THEN online WHEN > NOW() - 24 hours THEN recent ELSE offline. */
  function StatusAt(updatedAt: int, now: int): (s: Status)
    ensures s == Online <==> now - updatedAt < OneHour
    ensures s == Recent <==> OneHour <= now - updatedAt < OneDay
    ensures s == Offline <==> OneDay <= now - updatedAt
  {
    if updatedAt > now - OneHour then Online
    else if updatedAt > now - OneDay then Recent
    else Offline
  }

  /** array_length(column, 1): NULL for a NULL array and for the empty array '{}'. */
  function ArrayLength(c: Option<seq<string>>): (n: Option<nat>)
    ensures n.None? <==> c.GetOr([]) == []
    ensures n.Some? ==> n.value == |c.value| >= 1
  {
    match c
    case None => None
    case Some(items) => if |items| == 0 then None else Some(|items|)
  }

  /** The per-player count reported by the leaderboard is the length of the list a read returns. */
  lemma ArrayCountIsLength(c: Option<seq<string>>)
    ensures ArrayLength(c).GetOr(0) == |c.GetOr([])|
  {
  }

  /** One leaderboard row. `lastActive` is `updated_at` before ISO rendering. */
  datatype Entry = Entry(
    rank: nat,
    playerId: string,
    totalMoney: int,
    totalClicks: int,
    bestStreak: int,
    achievementCount: nat,
    powerUpCount: nat,
    status: Status,
    lastActive: int)

  /** The leaderboard response without its generation timestamp. */
  datatype Board = Board(leaderboard: seq<Entry>, totalPlayers: nat)

  function MakeEntry(t: Table, id: string, rank: nat, now: int): Entry
    requires id in t
  {
    var row := t[id];
    Entry(rank, id, row.totalMoney, row.totalClicks, row.bestStreak,
          ArrayLength(row.achievements).GetOr(0), ArrayLength(row.ownedPowerUps).GetOr(0),
          StatusAt(row.updatedAt, now), row.updatedAt)
  }

  function Min(a: nat, b: nat): nat
  {
    if a <= b then a else b
  }

  /** The entry reports the stored row of its player, annotated as the endpoint does. */
  ghost predicate Describes(t: Table, e: Entry, now: int)
  {
    && e.playerId in t
    && var row := t[e.playerId];
    && e.totalMoney == row.totalMoney > 0
    && e.totalClicks == row.totalClicks
    && e.bestStreak == row.bestStreak
    && e.achievementCount == |row.achievements.GetOr([])|
    && e.powerUpCount == |row.ownedPowerUps.GetOr([])|
    && e.status == StatusAt(row.updatedAt, now)
    && e.lastActive == row.updatedAt
  }

  /** Entries never increase in (money, clicks), compared lexicographically. */
  ghost predicate NonIncreasing(lb: seq<Entry>)
  {
    forall i, j :: 0 <= i < j < |lb| ==>
      || lb[i].totalMoney > lb[j].totalMoney
      || (lb[i].totalMoney == lb[j].totalMoney && lb[i].totalClicks >= lb[j].totalClicks)
  }

  /** The annotated entries of a ranked prefix, entry i carrying rank i + 1. */
  function Entries(t: Table, ids: seq<string>, now: int): (lb: seq<Entry>)
    requires forall i :: 0 <= i < |ids| ==> ids[i] in t && t[ids[i]].totalMoney > 0
    ensures |lb| == |ids|
    ensures forall i :: 0 <= i < |ids| ==> lb[i].playerId == ids[i] && lb[i].rank == i + 1
    ensures forall i :: 0 <= i < |ids| ==> Describes(t, lb[i], now)
  {
    var lb := seq(|ids|, i requires 0 <= i < |ids| => MakeEntry(t, ids[i], i + 1, now));
    forall i | 0 <= i < |ids|
      ensures Describes(t, lb[i], now)
    {
      ArrayCountIsLength(t[ids[i]].achievements);
      ArrayCountIsLength(t[ids[i]].ownedPowerUps);
    }
    lb
  }

  /**
   GET /api/leaderboard?limit=N: the first N ranked players, each annotated
   with its 1-based rank, its two array counts and its activity status, plus
   the number of players with positive earnings.
   */
  function Leaderboard(t: Table, limit: nat, now: int): (b: Board)
    ensures b.totalPlayers == |Population(t)|
    ensures |b.leaderboard| == Min(limit, |Population(t)|) <= limit
    ensures forall i :: 0 <= i < |b.leaderboard| ==> b.leaderboard[i].rank == i + 1
    ensures forall i :: 0 <= i < |b.leaderboard| ==> Describes(t, b.leaderboard[i], now)
    ensures NonIncreasing(b.leaderboard)
  {
    var p := Population(t);
    var r := Ranked(t, p);
    var entries := Entries(t, r[..Min(limit, |r|)], now);
    assert NonIncreasing(entries) by {
      forall i, j | 0 <= i < j < |entries|
        ensures || entries[i].totalMoney > entries[j].totalMoney
                || (entries[i].totalMoney == entries[j].totalMoney
                    && entries[i].totalClicks >= entries[j].totalClicks)
      {
        assert Ahead(KeyOf(t, r[i]), KeyOf(t, r[j]));
      }
    }
    Board(entries, |p|)
  }

  /** The leaderboard lists the top of the ranking: entry i is the (i+1)-th ranked player. */
  lemma LeaderboardIsRankingPrefix(t: Table, limit: nat, now: int, i: int)
    requires 0 <= i < |Leaderboard(t, limit, now).leaderboard|
    ensures Leaderboard(t, limit, now).leaderboard[i].playerId == Ranked(t, Population(t))[i]
  {
  }

  /**
   Nobody is left out unfairly: a ranked player missing from the leaderboard
   ranks behind every player on it.
   */
  lemma LeaderboardIsTop(t: Table, limit: nat, now: int, q: string)
    requires q in Population(t)
    requires forall i :: 0 <= i < |Leaderboard(t, limit, now).leaderboard| ==>
               Leaderboard(t, limit, now).leaderboard[i].playerId != q
    ensures forall i :: 0 <= i < |Leaderboard(t, limit, now).leaderboard| ==>
              Ahead(KeyOf(t, Leaderboard(t, limit, now).leaderboard[i].playerId), KeyOf(t, q))
  {
    var lb := Leaderboard(t, limit, now).leaderboard;
    var r := Ranked(t, Population(t));
    var k :| 0 <= k < |r| && r[k] == q;
    if k < |lb| {
      LeaderboardIsRankingPrefix(t, limit, now, k);
      assert false;
    }
    forall i | 0 <= i < |lb|
      ensures Ahead(KeyOf(t, lb[i].playerId), KeyOf(t, q))
    {
      LeaderboardIsRankingPrefix(t, limit, now, i);
    }
  }

  /** No player appears twice on the leaderboard. */
  lemma LeaderboardDistinct(t: Table, limit: nat, now: int, i: int, j: int)
    requires 0 <= i < j < |Leaderboard(t, limit, now).leaderboard|
    ensures Leaderboard(t, limit, now).leaderboard[i].playerId
            != Leaderboard(t, limit, now).leaderboard[j].playerId
  {
    LeaderboardIsRankingPrefix(t, limit, now, i);
    LeaderboardIsRankingPrefix(t, limit, now, j);
    SortedDistinct(t, Ranked(t, Population(t)), i, j);
  }

  /** GET /api/player/{id}/rank on success, before percentile rounding. */
  datatype RankInfo = RankInfo(playerId: string, rank: nat, totalPlayers: nat, percentile: real, earnings: int)

  /** A rank response: the info, or an error carrying its HTTP status. */
  datatype RankResult = Found(info: RankInfo) | Error(status: nat)

  /** (total - rank) / total * 100, over the reals, 0 when total is 0. */
  function Percentile(rank: nat, total: nat): (pct: real)
    ensures 1 <= rank <= total ==> 0.0 <= pct < 100.0
  {
    if total > 0 then (total - rank) as real / total as real * 100.0 else 0.0
  }

  /**
   GET /api/player/{id}/rank as written: the lookup misses for an id that is
   absent or has no positive earnings, and the 404 raised then is caught by the
   handler's catch-all and answered with 500.
   */
  function PlayerRankAsWritten(t: Table, id: string): (r: RankResult)
    ensures r.Found? <==> id in t && t[id].totalMoney > 0
    ensures r.Error? ==> r.status == 500
  {
    if id in Population(t) then
      var rank := RowNumber(t, id);
      var total := |Population(t)|;
      Found(RankInfo(id, rank, total, Percentile(rank, total), t[id].totalMoney))
    else
      Error(500)
  }

  /**
   GET /api/player/{id}/rank as its authors evidently meant it: a miss is
   answered with the 404 "Player not found or no earnings" it raises, and a
   hit is answered exactly as the code answers it.
   */
  function PlayerRank(t: Table, id: string): (r: RankResult)
    ensures r.Found? <==> id in t && t[id].totalMoney > 0
    ensures r.Error? ==> r.status == 404
    ensures r.Found? ==> r == PlayerRankAsWritten(t, id)
    ensures r.Found? ==> && r.info.playerId == id
                         && 1 <= r.info.rank <= r.info.totalPlayers
                         && r.info.totalPlayers == |Population(t)|
                         && r.info.earnings == t[id].totalMoney > 0
                         && 0.0 <= r.info.percentile < 100.0
  {
    match PlayerRankAsWritten(t, id)
    case Found(info) => Found(info)
    case Error(_) => Error(404)
  }

  /**
   The discrepancy, on the smallest input: on an empty table the rank query
   of any id answers 500 where its own code raises 404.
   */
  lemma RankMissAnswers500(id: string)
    ensures PlayerRankAsWritten(map[], id) == Error(500)
    ensures PlayerRank(map[], id) == Error(404)
  {
  }

  /** The rank query and the leaderboard agree: a found rank is the player's leaderboard position. */
  lemma RankIsLeaderboardPosition(t: Table, id: string, limit: nat, now: int)
    requires PlayerRank(t, id).Found?
    requires limit >= PlayerRank(t, id).info.rank
    ensures var rank := PlayerRank(t, id).info.rank;
            var lb := Leaderboard(t, limit, now).leaderboard;
            && rank <= |lb|
            && lb[rank - 1].playerId == id
            && lb[rank - 1].rank == rank
  {
    var r := Ranked(t, Population(t));
    var k :| 0 <= k < |r| && r[k] == id;
    RowNumberIsPosition(t, k);
  }

  /** Conversely, every leaderboard entry carries the rank the rank query reports for it. */
  lemma LeaderboardEntryHasItsRank(t: Table, limit: nat, now: int, i: int)
    requires 0 <= i < |Leaderboard(t, limit, now).leaderboard|
    ensures var e := Leaderboard(t, limit, now).leaderboard[i];
            && PlayerRank(t, e.playerId).Found?
            && PlayerRank(t, e.playerId).info.rank == e.rank
            && PlayerRank(t, e.playerId).info.earnings == e.totalMoney
  {
    RowNumberIsPosition(t, i);
  }

  /** `ids` lists exactly the members of `s`. */
  ghost predicate Lists(s: set<string>, ids: seq<string>)
  {
    && (forall i :: 0 <= i < |ids| ==> ids[i] in s)
    && (forall k :: k in s ==> k in ids)
  }

  /** The head of a sorted listing of a set is the set's first member. */
  lemma SortedHeadIsFirst(t: Table, s: set<string>, ids: seq<string>)
    requires s <= t.Keys && s != {}
    requires Lists(s, ids) && Sorted(t, ids)
    ensures ids != [] && IsFirst(t, s, ids[0])
  {
    var k :| k in s;
    assert k in ids;
    forall j | j in s && j != ids[0]
      ensures Ahead(KeyOf(t, ids[0]), KeyOf(t, j))
    {
      var m :| 0 <= m < |ids| && ids[m] == j;
    }
  }

  /** The tail of a sorted listing of a set lists the rest of the set, sorted. */
  lemma SortedTailLists(t: Table, s: set<string>, ids: seq<string>)
    requires s <= t.Keys && ids != []
    requires Lists(s, ids) && Sorted(t, ids)
    ensures Lists(s - {ids[0]}, ids[1..]) && Sorted(t, ids[1..])
  {
    var rest := ids[1..];
    forall i | 0 <= i < |rest|
      ensures rest[i] in s - {ids[0]}
    {
      SortedDistinct(t, ids, 0, i + 1);
    }
    forall k | k in s - {ids[0]}
      ensures k in rest
    {
      var m :| 0 <= m < |ids| && ids[m] == k;
      assert rest[m - 1] == k;
    }
  }

  /**
   The ranking is the only strictly sorted listing of the set: any listing of
   exactly the members of `s` in ranking order equals it.
   */
  lemma {:induction false} RankedUnique(t: Table, s: set<string>, ids: seq<string>)
    requires s <= t.Keys
    requires Lists(s, ids) && Sorted(t, ids)
    ensures ids == Ranked(t, s)
    decreases s
  {
    if s == {} {
      assert ids == [];
    } else {
      SortedHeadIsFirst(t, s, ids);
      SortedTailLists(t, s, ids);
      var first := ids[0];
      RankedUnique(t, s - {first}, ids[1..]);
      FirstUniqueAll(t, s);
      assert Ranked(t, s) == [first] + Ranked(t, s - {first});
      assert ids == [first] + ids[1..];
    }
  }
}

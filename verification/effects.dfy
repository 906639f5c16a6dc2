/**
 How the three writes move the three read views. The views only look at the
 players with positive earnings, so a write is visible in them exactly when
 it changes that population or one of its rows.
 */
module Effects {
  import opened Players
  import opened Ranking
  import opened Stats

  /** Two tables that agree on the ranked population and its rows. */
  ghost predicate SameRanked(t1: Table, t2: Table)
  {
    && Population(t1) == Population(t2)
    && forall k :: k in Population(t1) ==> t1[k] == t2[k]
  }

  /** The ranking depends only on the ranked rows. */
  lemma RankedFrame(t1: Table, t2: Table)
    requires SameRanked(t1, t2)
    ensures Ranked(t1, Population(t1)) == Ranked(t2, Population(t2))
  {
    var p := Population(t1);
    var r := Ranked(t1, p);
    assert Sorted(t2, r) by {
      forall i, j | 0 <= i < j < |r|
        ensures Ahead(KeyOf(t2, r[i]), KeyOf(t2, r[j]))
      {
        assert KeyOf(t1, r[i]) == KeyOf(t2, r[i]) && KeyOf(t1, r[j]) == KeyOf(t2, r[j]);
      }
    }
    RankedUnique(t2, p, r);
  }

  /** Tables that agree on the ranked rows show the same leaderboard, statistics and ranks. */
  lemma ViewsFrame(t1: Table, t2: Table, limit: nat, now: int, q: string)
    requires SameRanked(t1, t2)
    ensures Leaderboard(t1, limit, now) == Leaderboard(t2, limit, now)
    ensures Global(t1, now) == Global(t2, now)
    ensures PlayerRank(t1, q) == PlayerRank(t2, q)
  {
    LeaderboardFrame(t1, t2, limit, now);
    StatsFrame(t1, t2, now);
    RankFrame(t1, t2, q);
  }

  lemma LeaderboardFrame(t1: Table, t2: Table, limit: nat, now: int)
    requires SameRanked(t1, t2)
    ensures Leaderboard(t1, limit, now) == Leaderboard(t2, limit, now)
  {
    RankedFrame(t1, t2);
    var r := Ranked(t1, Population(t1));
    var ids := r[..Min(limit, |r|)];
    EntriesFrame(t1, t2, ids, now);
  }

  /** Entries read only the rows of the ids they list. */
  lemma EntriesFrame(t1: Table, t2: Table, ids: seq<string>, now: int)
    requires forall i :: 0 <= i < |ids| ==> ids[i] in t1 && t1[ids[i]].totalMoney > 0
    requires forall i :: 0 <= i < |ids| ==> ids[i] in t2 && t2[ids[i]] == t1[ids[i]]
    ensures Entries(t1, ids, now) == Entries(t2, ids, now)
  {
    var a, b := Entries(t1, ids, now), Entries(t2, ids, now);
    forall i | 0 <= i < |ids|
      ensures a[i] == b[i]
    {
      assert a[i] == MakeEntry(t1, ids[i], i + 1, now);
      assert b[i] == MakeEntry(t2, ids[i], i + 1, now);
    }
  }

  lemma StatsFrame(t1: Table, t2: Table, now: int)
    requires SameRanked(t1, t2)
    ensures Global(t1, now) == Global(t2, now)
  {
    RankedFrame(t1, t2);
    var r := Ranked(t1, Population(t1));
    assert Rows(t1, r) == Rows(t2, r);
  }

  lemma RankFrame(t1: Table, t2: Table, q: string)
    requires SameRanked(t1, t2)
    ensures PlayerRank(t1, q) == PlayerRank(t2, q)
  {
    if q in Population(t1) {
      assert (set k | k in Population(t1) && Ahead(KeyOf(t1, k), KeyOf(t1, q)))
          == (set k | k in Population(t2) && Ahead(KeyOf(t2, k), KeyOf(t2, q)));
    }
  }

  /** A read, even one that creates a row, changes no leaderboard, statistic or rank. */
  lemma GetKeepsViews(t: Table, id: string, n: int, limit: nat, now: int, q: string)
    ensures var t1 := GetPlayer(t, id, n).table;
            && Leaderboard(t1, limit, now) == Leaderboard(t, limit, now)
            && Global(t1, now) == Global(t, now)
            && PlayerRank(t1, q) == PlayerRank(t, q)
  {
    var t1 := GetPlayer(t, id, n).table;
    assert SameRanked(t1, t);
    ViewsFrame(t1, t, limit, now, q);
  }

  /** A reset takes the player out of the ranked population, so its rank is no longer found. */
  lemma ResetLeavesRanking(t: Table, id: string, n: int)
    ensures var t1 := ResetPlayer(t, id, n).table;
            && Population(t1) == Population(t) - {id}
            && PlayerRank(t1, id) == Error(404)
  {
    var t1 := ResetPlayer(t, id, n).table;
    assert id !in Population(t1);
  }

  /** Resetting a player who was not ranked changes no leaderboard, statistic or rank. */
  lemma ResetUnrankedKeepsViews(t: Table, id: string, n: int, limit: nat, now: int, q: string)
    requires id !in Population(t)
    ensures var t1 := ResetPlayer(t, id, n).table;
            && Leaderboard(t1, limit, now) == Leaderboard(t, limit, now)
            && Global(t1, now) == Global(t, now)
            && PlayerRank(t1, q) == PlayerRank(t, q)
  {
    var t1 := ResetPlayer(t, id, n).table;
    assert SameRanked(t1, t);
    ViewsFrame(t1, t, limit, now, q);
  }

  /** A save ranks the player exactly when the saved earnings are positive, at those earnings. */
  lemma SaveRanksByEarnings(t: Table, id: string, d: PlayerData, n: int)
    ensures var t1 := SavePlayer(t, id, d, n).table;
            && (d.totalMoney > 0 ==> Population(t1) == Population(t) + {id})
            && (d.totalMoney <= 0 ==> Population(t1) == Population(t) - {id})
            && (PlayerRank(t1, id).Found? <==> d.totalMoney > 0)
            && (PlayerRank(t1, id).Found? ==> PlayerRank(t1, id).info.earnings == d.totalMoney)
  {
  }

  /** Saving a newly ranked player adds exactly its row to the bag the aggregates read. */
  lemma SaveNewPlayerRows(t: Table, id: string, d: PlayerData, n: int)
    requires id !in Population(t)
    requires d.totalMoney > 0
    ensures var t1 := SavePlayer(t, id, d, n).table;
            multiset(Rows(t1, Ranked(t1, Population(t1))))
            == multiset(Rows(t, Ranked(t, Population(t))) + [t1[id]])
  {
    var t1 := SavePlayer(t, id, d, n).table;
    var p := Population(t);
    assert Population(t1) == p + {id};
    BagOfAppend(t, t1, p, Ranked(t, p), Ranked(t1, p + {id}), id);
  }

  /**
   Two sorted listings, of `p` in `t` and of `p` plus a fresh `id` in a table
   that agrees with `t` on `p`, read the same rows plus the row of `id`.
   */
  lemma BagOfAppend(t: Table, t1: Table, p: set<string>, r: seq<string>, r1: seq<string>, id: string)
    requires Lists(p, r) && Sorted(t, r)
    requires Lists(p + {id}, r1) && Sorted(t1, r1)
    requires id !in p && id in t1
    requires forall k :: k in p ==> k in t1 && t1[k] == t[k]
    ensures multiset(Rows(t1, r1)) == multiset(Rows(t, r) + [t1[id]])
  {
    SortedIsDistinct(t, r);
    SortedIsDistinct(t1, r1);
    AppendFresh(r, id);
    RowsOfAppend(t, t1, r, id);
    SameIdsSameRows(t1, r + [id], r1);
  }

  /** Appending an id the list does not hold keeps it repeat-free. */
  lemma AppendFresh(r: seq<string>, id: string)
    requires Distinct(r) && id !in r
    ensures Distinct(r + [id])
  {
  }

  /** Rows of a list extended by one id, read in a table that agrees on the list. */
  lemma RowsOfAppend(t: Table, t1: Table, r: seq<string>, id: string)
    requires forall i :: 0 <= i < |r| ==> r[i] in t && r[i] in t1 && t1[r[i]] == t[r[i]]
    requires id in t1
    ensures Rows(t1, r + [id]) == Rows(t, r) + [t1[id]]
  {
  }

  /**
   Saving a newly ranked player adds one player, its earnings and its clicks
   to the global totals.
   */
  lemma SaveNewPlayerStats(t: Table, id: string, d: PlayerData, n: int, now: int)
    requires id !in Population(t)
    requires d.totalMoney > 0
    ensures var before := Global(t, now);
            var after := Global(SavePlayer(t, id, d, n).table, now);
            && after.totalPlayers == before.totalPlayers + 1
            && after.totalMoneyEarned == before.totalMoneyEarned + d.totalMoney
            && after.totalClicks == before.totalClicks + d.totalClicks
  {
    var t1 := SavePlayer(t, id, d, n).table;
    SaveNewPlayerRows(t, id, d, n);
    GlobalIsAggregate(t, now);
    GlobalIsAggregate(t1, now);
    AggregateOfOneMore(Rows(t, Ranked(t, Population(t))), Rows(t1, Ranked(t1, Population(t1))), t1[id], now);
  }
}

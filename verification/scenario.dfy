/**
 A worked run of the endpoints: alice is read (and so created), then saved;
 bob is saved; then the leaderboard, the statistics and alice's rank are read.
 */
module Scenario {
  import opened Players
  import opened Ranking
  import opened Stats

  const Alice: string := "alice"
  const Bob: string := "bob"

  function AliceData(): PlayerData
  {
    PlayerData(100, 50, 5, ["double_tap"], ["first_click"])
  }

  function BobData(): PlayerData
  {
    PlayerData(200, 30, 2, [], [])
  }

  /** The table after the three writes, read at times n0, n1 and n2. */
  function Played(n0: int, n1: int, n2: int): Table
  {
    var t0 := GetPlayer(map[], Alice, n0).table;
    var t1 := SavePlayer(t0, Alice, AliceData(), n1).table;
    SavePlayer(t1, Bob, BobData(), n2).table
  }

  lemma PlayedRows(n0: int, n1: int, n2: int)
    ensures Played(n0, n1, n2)
            == map[Alice := Row(100, 50, 5, Some(["double_tap"]), Some(["first_click"]), n0, n1),
                   Bob := Row(200, 30, 2, Some([]), Some([]), n2, n2)]
  {
  }

  /** Both are ranked, bob first. */
  lemma PlayedRanking(n0: int, n1: int, n2: int)
    ensures Population(Played(n0, n1, n2)) == {Alice, Bob}
    ensures Ranked(Played(n0, n1, n2), Population(Played(n0, n1, n2))) == [Bob, Alice]
  {
    var t := Played(n0, n1, n2);
    PlayedRows(n0, n1, n2);
    var p := Population(t);
    assert p == {Alice, Bob};
    var order := [Bob, Alice];
    assert Ahead(KeyOf(t, Bob), KeyOf(t, Alice));
    assert Lists(p, order);
    RankedUnique(t, p, order);
  }

  /** bob leads with 200 and alice follows with 100, one upgrade and one achievement. */
  lemma AliceAndBobLeaderboard(n0: int, n1: int, n2: int, now: int)
    ensures var lb := Leaderboard(Played(n0, n1, n2), DefaultLimit, now);
            && |lb.leaderboard| == 2
            && lb.totalPlayers == 2
            && lb.leaderboard[0].playerId == Bob && lb.leaderboard[0].rank == 1
            && lb.leaderboard[1].playerId == Alice && lb.leaderboard[1].rank == 2
            && lb.leaderboard[1].achievementCount == 1 && lb.leaderboard[1].powerUpCount == 1
  {
    PlayedRows(n0, n1, n2);
    PlayedRanking(n0, n1, n2);
    LeaderboardIsRankingPrefix(Played(n0, n1, n2), DefaultLimit, now, 0);
    LeaderboardIsRankingPrefix(Played(n0, n1, n2), DefaultLimit, now, 1);
  }

  /** The statistics count two players earning 300 together. */
  lemma AliceAndBobStats(n0: int, n1: int, n2: int, now: int)
    ensures Global(Played(n0, n1, n2), now).totalPlayers == 2
    ensures Global(Played(n0, n1, n2), now).totalMoneyEarned == 300
  {
    var t := Played(n0, n1, n2);
    PlayedRanking(n0, n1, n2);
    GlobalIsAggregate(t, now);
    var rows := Rows(t, [Bob, Alice]);
    PlayedRows(n0, n1, n2);
    assert rows[0].totalMoney == 200 && rows[1].totalMoney == 100;
    SumOfTwo(rows, Money);
  }

  lemma SumOfTwo(rows: seq<Row>, c: Column)
    requires |rows| == 2
    ensures Sum(rows, c) == Value(rows[0], c) + Value(rows[1], c)
  {
    assert rows[1..][1..] == [];
    assert Sum(rows[1..][1..], c) == 0;
    assert Sum(rows[1..], c) == Value(rows[1], c);
  }

  /**
   alice's rank is 2 of 2, which the code's formula (total - rank) / total * 100
   turns into a percentile of 0.
   */
  lemma AliceRank(n0: int, n1: int, n2: int)
    ensures PlayerRank(Played(n0, n1, n2), Alice) == Found(RankInfo(Alice, 2, 2, 0.0, 100))
  {
    PlayedRows(n0, n1, n2);
    PlayedRanking(n0, n1, n2);
    RowNumberIsPosition(Played(n0, n1, n2), 1);
  }
}

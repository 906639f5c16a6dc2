# Player table of the clicker game backend

This project models the player-data core of the game's HTTP backend
(`server.py`): the one PostgreSQL table `players`, and the six endpoints
that read and write it.

- **get-or-create** (`GET /api/player/{id}`): returns the stored row, or inserts a zero row and returns that.
- **save** (`POST /api/player/{id}/save`): an upsert that overwrites the five game columns.
- **reset** (`DELETE /api/player/{id}/reset`): zeroes an existing row and never inserts one.
- **leaderboard** (`GET /api/leaderboard`): the first `limit` players with positive earnings, with rank, array counts and activity status.
- **global statistics** (`GET /api/stats`): COUNT, SUM, MAX, AVG and two filtered COUNTs over the players with positive earnings.
- **player rank** (`GET /api/player/{id}/rank`): ROW_NUMBER position, total and percentile.

The table is an immutable `map` from `player_id` to its row, and every
endpoint is a pure function of the table. The statement's `NOW()` or
`CURRENT_TIMESTAMP` is a parameter `now`, in whole seconds. A nullable
`text[]` column is an `Option<seq<string>>`, and Python's `x or []` /
`x or 0` is `Option.GetOr`.

Modules:

- `Order` (order.dfy): lexicographic order on strings. It is used only to break ranking ties.
- `Players` (players.dfy): the row, the request and response records, and get-or-create, save and reset.
- `Ranking` (ranking.dfy):
  - the ranking order and the ranked listing `Ranked`;
  - ROW_NUMBER;
  - the activity status;
  - the leaderboard;
  - the rank endpoint, both as written and as corrected.
- `Stats` (stats.dfy): the aggregate query and Python's `int(value or 0)` conversions.
- `Effects` (effects.dfy): how each write moves the three read views.
- `Scenario` (scenario.dfy): a worked run with two players.

Ordering: SQL leaves rows that tie on `(total_money, total_clicks)` in no
particular order. The model breaks such ties on `player_id` ascending and
uses the same order for the leaderboard and for the rank query. The rank
query's ROW_NUMBER can agree with the leaderboard position only when both
queries use one shared order.

The rank endpoint has one defect that the model corrects. A miss raises
404 "Player not found or no earnings" (server.py:310). That raise sits
inside the handler's `try`, so the catch-all turns it into a 500
(server.py:326-328). `PlayerRankAsWritten` models the 500. The rest of the
model uses the corrected `PlayerRank`, which answers 404 (see Findings).

A separate, plausible failure is not modelled: every positional read may
fail under the configured cursor. "## Left out" describes it.

Two consequences of the code, as written, are worth stating:

- **Ties get distinct ranks.** `ROW_NUMBER()` (server.py:299) gives tied players distinct ranks, so the rank is a position and not a dense rank.
- **The last player gets percentile 0.** The percentile is `(total - rank) / total * 100` (server.py:317). The last of two players gets `(2 - 2) / 2 * 100 = 0.0`, which `Scenario.AliceRank` proves.

## Model

| member | source | states |
|---|---|---|
| Players.GetPlayer | server.py:66-115 | A known id returns its stored row, with NULL arrays read as empty, and leaves the table unchanged. An unknown id gains a zero row with both timestamps at `now` and is returned as the zero record. Either way the table grows by at most that one key and no other row changes. |
| Players.SavePlayer | server.py:117-151 | Upsert: afterwards the row holds exactly the five saved values and `updated_at = now`. `created_at` is kept for an existing id and set to `now` for a new one. The key set becomes the old keys plus the id, no other row changes, and the answer is success with "Data saved successfully". |
| Players.ResetPlayer | server.py:153-174 | An unknown id leaves the table as it was; reset never inserts. A known id is set to zero counters and empty arrays with `updated_at = now`, keeping `created_at`. No other row changes, and success is reported either way. |
| Players.SaveThenGet | server.py:124-134 | A read after a save returns exactly the saved payload and changes nothing. |
| Players.SaveIdempotent | server.py:124-134 | Saving the same payload twice, at any two instants, gives the table one save gives, except that `updated_at` holds the second save's time. |
| Players.SaveOverwrites | server.py:127-133 | Last write wins: two saves leave the table the second save alone would leave, except for the id's `created_at`. So every reader sees what the second save alone would give. |
| Players.GetIsStable | server.py:89-107 | The second of two reads returns the same record as the first and changes nothing. The first read created the row if it was missing. |
| Players.ResetThenGet | server.py:160-165 | After a reset, a read returns the zero record whether or not the id existed. |
| Ranking.Population | server.py:199-200 | The ranked players are exactly the stored ids whose `total_money` is positive. |
| Ranking.Ahead | server.py:201 | A player listed earlier never has less money, nor fewer clicks at equal money. More money, or equal money and more clicks, always lists first; full ties fall back to `player_id`. |
| Ranking.AheadTotal | server.py:201 | Any two distinct players are ordered one way or the other: money descending, then clicks descending, then id. |
| Ranking.AheadTransitive | server.py:201 | The ranking order is transitive. |
| Ranking.Ranked | server.py:199-202 | The listing holds each ranked player exactly once, in ranking order. |
| Ranking.RankedUnique | server.py:199-202 | Any sorted listing of the same players is the model's listing, so the order is fully determined. |
| Ranking.RowNumber | server.py:294-306 | ROW_NUMBER of a ranked player is one more than the number of players ahead of it, between 1 and the number of ranked players. |
| Ranking.RowNumberIsPosition | server.py:294-306 | The (i+1)-th player of the ranking has ROW_NUMBER i+1. |
| Ranking.StatusAt | server.py:194-198 | Status is online under one hour since `updated_at`, recent from one hour up to 24 hours, and offline from 24 hours on. |
| Ranking.ArrayLength | server.py:190-191 | `array_length(column, 1)` is NULL exactly for a NULL array or the empty array `'{}'`, and otherwise the array's length, at least 1. |
| Ranking.ArrayCountIsLength | server.py:190-191 | `array_length(...) or 0` equals the length of the list a read returns, including for NULL and empty arrays. |
| Ranking.Leaderboard | server.py:176-230 | The board has min(limit, ranked) entries and reports the ranked count. Entry i has rank i+1 and reports its player's stored row, array counts and status. Entries never increase in (money, clicks). |
| Ranking.LeaderboardIsRankingPrefix | server.py:199-210 | Entry i is the (i+1)-th player of the ranking. |
| Ranking.LeaderboardIsTop | server.py:199-202 | A ranked player missing from the board ranks behind every player on it. |
| Ranking.LeaderboardDistinct | server.py:208-219 | No player is listed twice on the board. |
| Ranking.Percentile | server.py:317 | For a rank between 1 and the total, the percentile lies in [0, 100). |
| Ranking.PlayerRankAsWritten | server.py:286-328 | As the code is written, with rows read positionally, a rank is found exactly when the id is stored with positive earnings, and every miss answers 500. |
| Ranking.PlayerRank | server.py:286-328 | A rank is found exactly when the id is stored with positive earnings, and a miss answers 404. A found answer is the code's answer: a rank between 1 and the ranked count, that count, the stored earnings and a percentile in [0, 100). |
| Ranking.RankIsLeaderboardPosition | server.py:294-306 | With a large enough limit, a found rank r is the leaderboard entry at position r, and that entry names the player. |
| Ranking.LeaderboardEntryHasItsRank | server.py:208-210 | Every leaderboard entry carries the rank and the earnings the rank query reports for its player. |
| Ranking.RankMissAnswers500 | server.py:309-328 | On an empty table, the code as written answers 500 where the intended answer is 404. |
| Stats.SqlSum | server.py:249-250 | SUM is NULL exactly over no rows, and `SUM or 0` is the column sum. |
| Stats.SqlMax | server.py:251-253 | MAX is NULL exactly over no rows. Otherwise it bounds every row and some row attains it. |
| Stats.SqlAvg | server.py:254-255 | AVG is NULL exactly over no rows, and otherwise the exact quotient: the average times the row count is the column sum. |
| Stats.CountSince | server.py:256-257 | `COUNT(*) FILTER (WHERE updated_at > threshold)` is at most the row count. It equals the row count exactly when every row passes the filter, and is 0 exactly when none does. |
| Stats.Truncate | server.py:272-273 | Python's `int()` truncates toward zero. |
| Stats.TruncateIsTruncDiv | server.py:272-273 | `int(AVG)` is the integer quotient of the sum by the count, rounded toward zero. |
| Stats.Aggregate | server.py:246-275 | The count is the number of rows and the sums are the column sums. The activity counts satisfy active ≤ daily ≤ total. Over no rows everything is 0. Otherwise the maxima are the column maxima and the averages are the truncated quotients. |
| Stats.Global | server.py:238-278 | `total_players` is the ranked count. `total_money_earned` and `total_clicks` are the sums of those columns over the ranked players' rows. The maxima are the largest values among ranked players, held by one of them. Money earned is at least the player count, and `average_money` is its floor quotient. `average_clicks` is the truncated quotient. An empty population gives all zeros. |
| Stats.AggregateOfOneMore | server.py:248-250 | One more row in the bag adds one to the count and its values to both sums. |
| Stats.CountSinceMonotone | server.py:256-257 | The 1-hour count never exceeds the 24-hour count. |
| Stats.SumIgnoresOrder | server.py:249-250 | SUM depends only on the bag of rows. |
| Stats.CountIgnoresOrder | server.py:256-257 | The filtered COUNT depends only on the bag of rows. |
| Stats.MaxIgnoresOrder | server.py:251-253 | MAX depends only on the bag of rows. |
| Stats.AggregatesIgnoreOrder | server.py:246-260 | Any repeat-free listing of the ranked players gives the same sums, maxima and activity counts as the model's listing. |
| Stats.CountIsCard | server.py:256-257 | Over a repeat-free list, the filtered COUNT equals the number of distinct ids that pass the filter. |
| Stats.ActivityMatchesStatus | server.py:256-257 | `active_players` counts the ranked players the leaderboard labels online. `daily_active_players` counts those not labelled offline. |
| Effects.RankedFrame | server.py:199-201 | The ranking depends only on the rows of the ranked players. |
| Effects.ViewsFrame | server.py:199-200 | Tables that agree on the ranked rows show the same leaderboard, statistics and ranks. |
| Effects.GetKeepsViews | server.py:89-94 | A read, including one that inserts a zero row, changes no leaderboard, statistic or rank. |
| Effects.ResetLeavesRanking | server.py:160-165 | A reset removes the player from the ranked population, and its rank query then misses (404). |
| Effects.ResetUnrankedKeepsViews | server.py:160-165 | Resetting a player who was not ranked changes no leaderboard, statistic or rank. |
| Effects.SaveRanksByEarnings | server.py:124-134 | After a save, the player is ranked exactly when the saved earnings are positive, and a found rank reports those earnings. |
| Effects.SaveNewPlayerRows | server.py:124-134 | Saving a newly ranked player adds exactly its row to the bag the aggregates read. |
| Effects.SaveNewPlayerStats | server.py:124-134 | Saving a newly ranked player adds one player, its earnings and its clicks to the global totals. |
| Scenario.PlayedRows | server.py:89-134 | After read-alice, save-alice and save-bob, the table holds exactly the two saved rows with their timestamps. |
| Scenario.PlayedRanking | server.py:199-201 | In that table bob, with 200, ranks ahead of alice, with 100. |
| Scenario.AliceAndBobLeaderboard | server.py:176-230 | The default board has two entries: bob at rank 1, then alice at rank 2 with one achievement and one upgrade. |
| Scenario.AliceAndBobStats | server.py:238-278 | The statistics count 2 players and 300 money earned. |
| Scenario.AliceRank | server.py:286-325 | alice's rank is 2 of 2, with percentile 0 and earnings 100. |

## Left out

- Connection handling is not modelled. This covers opening a connection (and the 503 answer when that fails), commit, rollback and closing. Each endpoint is one atomic step on the table.
- Database failures and their 500 answers are not modelled, except the rank miss. Concurrent requests are not modelled either, including two first reads of one id racing to insert it. The model is sequential.
- The 500 for an INSERT ... RETURNING that returns no row is left out, because an insert that succeeds always returns its row.
- Request validation by the web framework is left out. The payload's fields are taken as already typed.
- CORS, logging, the static file routes and the server start-up are left out, because they do not touch the table.
- Timestamps are whole seconds, not datetimes. The `last_active` and `last_updated` fields are not rendered in ISO form, and `last_updated` (the server's clock) is left out.
- The schema is assumed: `player_id` is the primary key, and `created_at`/`updated_at` default to the statement time on insert. Integers are unbounded, because the column widths are not visible.
- Rows are read positionally, as the code evidently intends. The code itself may not manage this. The connection's cursor factory is `RealDictCursor` (server.py:43), whose rows are dicts keyed by column name. Indexing them by position (`result[0]`, `stats[0]`, at server.py:81, 101, 211, 224, 266 and 315) would then raise `KeyError`, and each handler's catch-all would answer 500. Read that way, every GET endpoint answers 500 as written, and get-or-create still commits its insert before failing (server.py:97). The driver's source is not part of this model, so this is left as a plausible reading and not modelled. Every member, `PlayerRankAsWritten` included, assumes positional access works.
- Error detail strings are left out. Only the HTTP status is modelled.
- Ranking.PlayerRank: the percentile is the exact real value, and its bound [0, 100) is for that unrounded value. The response's `round(percentile, 1)` (server.py:323) is not modelled, and it can reach 100.0. For rank 1 of 10,000 players, 99.99 rounds to 100.0.
- Ranking.Leaderboard: `limit` is a natural number. A negative limit, which the database rejects, is not modelled.
- Ranking.Ranked: ties on (money, clicks) are broken by `player_id`. The database may list such ties in any order, so the model shows one of the orders the code allows.
- Stats.SqlAvg: the average is the exact quotient. The database's decimal rounding of AVG beyond its scale is not modelled.

## Findings

| source | as written | input that shows it | evidently intended | confidence | as-written member | corrected member |
|---|---|---|---|---|---|---|
| server.py:309-328 | The 404 "Player not found or no earnings" is raised inside the `try`, and the catch-all `except Exception` turns it into a 500. `RankMissAnswers500` exhibits it. | a rank query for any id on an empty table, or for an id whose earnings are 0 | answer 404 for a player who is absent or has no earnings | high, not executed | Ranking.PlayerRankAsWritten | Ranking.PlayerRank |

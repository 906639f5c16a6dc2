/**
 The `players` table and the three endpoints that read or write one row of it:
 get-or-create (GET /api/player/{id}), save (POST /api/player/{id}/save) and
 reset (DELETE /api/player/{id}/reset).

 The table is an immutable map from `player_id` to its row; every endpoint is a
 pure function from the table before the statement to the table after it.
 Timestamps are whole seconds and the statement's CURRENT_TIMESTAMP is the
 `now` parameter.
 */
module Players {

  /** A nullable SQL value: None is NULL. */
  datatype Option<+T> = None | Some(value: T) {

    /** Python's `value or default` on a column that is NULL or already holds the default. */
    function GetOr(default: T): T
    {
      match this
      case None => default
      case Some(v) => v
    }
  }

  /** One stored row. The two text[] columns are nullable. */
  datatype Row = Row(
    totalMoney: int,
    totalClicks: int,
    bestStreak: int,
    ownedPowerUps: Option<seq<string>>,
    achievements: Option<seq<string>>,
    createdAt: int,
    updatedAt: int)

  type Table = map<string, Row>

  /** The body of a save request (`PlayerData`). */
  datatype PlayerData = PlayerData(
    totalMoney: int,
    totalClicks: int,
    bestStreak: int,
    ownedPowerUps: seq<string>,
    achievements: seq<string>)

  /** The record returned by get-or-create (`PlayerResponse`). */
  datatype PlayerResponse = PlayerResponse(
    playerId: string,
    totalMoney: int,
    totalClicks: int,
    bestStreak: int,
    ownedPowerUps: seq<string>,
    achievements: seq<string>)

  /** The `{"success": ..., "message": ...}` body of save and reset. */
  datatype Ack = Ack(success: bool, message: string)

  /** Outcome of get-or-create: the table afterwards and the record returned. */
  datatype Fetched = Fetched(table: Table, player: PlayerResponse)

  /** Outcome of save and reset: the table afterwards and the acknowledgement. */
  datatype Written = Written(table: Table, ack: Ack)

  const SavedMessage: string := "Data saved successfully"
  const ResetMessage: string := "Player data reset successfully"

  /** How a stored row is rendered as a `PlayerResponse`. */
  function Respond(id: string, row: Row): PlayerResponse
  {
    PlayerResponse(id, row.totalMoney, row.totalClicks, row.bestStreak,
                   row.ownedPowerUps.GetOr([]), row.achievements.GetOr([]))
  }

  /** True iff the row holds exactly the five values of a save payload. */
  predicate Holds(row: Row, d: PlayerData)
  {
    && row.totalMoney == d.totalMoney
    && row.totalClicks == d.totalClicks
    && row.bestStreak == d.bestStreak
    && row.ownedPowerUps == Some(d.ownedPowerUps)
    && row.achievements == Some(d.achievements)
  }

  /** True iff the row holds the zero state: counters 0 and both arrays '{}'. */
  predicate IsZero(row: Row)
  {
    && row.totalMoney == 0
    && row.totalClicks == 0
    && row.bestStreak == 0
    && row.ownedPowerUps == Some([])
    && row.achievements == Some([])
  }

  /** True iff the response is the zero record of `id`. */
  predicate IsZeroResponse(p: PlayerResponse, id: string)
  {
    p == PlayerResponse(id, 0, 0, 0, [], [])
  }

  /** True iff `t2` agrees with `t1` on every row other than `id`. */
  ghost predicate OthersUnchanged(t1: Table, t2: Table, id: string)
  {
    forall k :: k != id ==> (k in t1 <==> k in t2) && (k in t1 ==> t1[k] == t2[k])
  }

  /**
   GET /api/player/{id}: SELECT the row; when there is none, INSERT
   (id, 0, 0, 0, '{}', '{}') with the timestamp columns at their default
   (the statement time) and return the inserted row.
   */
  function GetPlayer(t: Table, id: string, now: int): (r: Fetched)
    ensures id in r.table && r.player == Respond(id, r.table[id])
    ensures r.player.playerId == id
    ensures id in t ==> r.table == t
    ensures id in t ==> r.player.ownedPowerUps == t[id].ownedPowerUps.GetOr([])
    ensures id in t ==> r.player.achievements == t[id].achievements.GetOr([])
    ensures id !in t ==> IsZeroResponse(r.player, id)
    ensures id !in t ==> IsZero(r.table[id]) && r.table[id].createdAt == now && r.table[id].updatedAt == now
    ensures id !in t ==> r.table.Keys == t.Keys + {id} && |r.table| == |t| + 1
    ensures OthersUnchanged(t, r.table, id)
  {
    if id in t then
      Fetched(t, Respond(id, t[id]))
    else
      var row := Row(0, 0, 0, Some([]), Some([]), now, now);
      Fetched(t[id := row], Respond(id, row))
  }

  /**
   POST /api/player/{id}/save: INSERT ... ON CONFLICT (player_id) DO UPDATE.
   A new id is inserted with the payload and default timestamps; an existing
   id has all five columns overwritten and `updated_at` refreshed, keeping
   `created_at`.
   */
  function SavePlayer(t: Table, id: string, d: PlayerData, now: int): (r: Written)
    ensures r.ack.success && r.ack.message == SavedMessage
    ensures r.table.Keys == t.Keys + {id}
    ensures Holds(r.table[id], d) && r.table[id].updatedAt == now
    ensures id in t ==> r.table[id].createdAt == t[id].createdAt
    ensures id !in t ==> r.table[id].createdAt == now
    ensures OthersUnchanged(t, r.table, id)
  {
    var created := if id in t then t[id].createdAt else now;
    var row := Row(d.totalMoney, d.totalClicks, d.bestStreak,
                   Some(d.ownedPowerUps), Some(d.achievements), created, now);
    Written(t[id := row], Ack(true, SavedMessage))
  }

  /**
   DELETE /api/player/{id}/reset: UPDATE ... WHERE player_id = id. Zero rows
   match an unknown id, so nothing is inserted, and success is reported either way.
   */
  function ResetPlayer(t: Table, id: string, now: int): (r: Written)
    ensures r.ack.success && r.ack.message == ResetMessage
    ensures id !in t ==> r.table == t
    ensures r.table.Keys == t.Keys
    ensures id in t ==> IsZero(r.table[id]) && r.table[id].updatedAt == now
    ensures id in t ==> r.table[id].createdAt == t[id].createdAt
    ensures OthersUnchanged(t, r.table, id)
  {
    if id in t then
      var row := t[id].(totalMoney := 0, totalClicks := 0, bestStreak := 0,
                        ownedPowerUps := Some([]), achievements := Some([]),
                        updatedAt := now);
      Written(t[id := row], Ack(true, ResetMessage))
    else
      Written(t, Ack(true, ResetMessage))
  }

  /** What a reader can observe of the table: every row rendered as a response. */
  function Snapshot(t: Table): map<string, PlayerResponse>
  {
    map k | k in t :: Respond(k, t[k])
  }

  /** A read of a saved id returns exactly the saved payload and changes nothing. */
  lemma SaveThenGet(t: Table, id: string, d: PlayerData, saved: int, read: int)
    ensures var t1 := SavePlayer(t, id, d, saved).table;
            var g := GetPlayer(t1, id, read);
            && g.table == t1
            && g.player == PlayerResponse(id, d.totalMoney, d.totalClicks, d.bestStreak,
                                          d.ownedPowerUps, d.achievements)
  {
  }

  /**
   Saving the same payload twice gives the table one save gives, except that
   `updated_at` carries the second save's time.
   */
  lemma SaveIdempotent(t: Table, id: string, d: PlayerData, n1: int, n2: int)
    ensures var once := SavePlayer(t, id, d, n1).table;
            SavePlayer(once, id, d, n2).table == once[id := once[id].(updatedAt := n2)]
  {
  }

  /**
   Last write wins: a second save hides the first one entirely from readers;
   the two tables differ only in the id's `created_at`.
   */
  lemma SaveOverwrites(t: Table, id: string, d1: PlayerData, d2: PlayerData, n1: int, n2: int)
    ensures var once := SavePlayer(t, id, d2, n2).table;
            var twice := SavePlayer(SavePlayer(t, id, d1, n1).table, id, d2, n2).table;
            && twice == once[id := once[id].(createdAt := twice[id].createdAt)]
            && Snapshot(twice) == Snapshot(once)
  {
    var once := SavePlayer(t, id, d2, n2).table;
    var twice := SavePlayer(SavePlayer(t, id, d1, n1).table, id, d2, n2).table;
    assert twice == once[id := once[id].(createdAt := twice[id].createdAt)];
    forall k | k in twice
      ensures Respond(k, twice[k]) == Respond(k, once[k])
    {
    }
  }

  /** A first read creates one row; a second read returns the same record and changes nothing. */
  lemma GetIsStable(t: Table, id: string, n1: int, n2: int)
    ensures var g1 := GetPlayer(t, id, n1);
            var g2 := GetPlayer(g1.table, id, n2);
            g2.table == g1.table && g2.player == g1.player
  {
  }

  /** After a reset, whether or not the id existed, a read returns the zero record. */
  lemma ResetThenGet(t: Table, id: string, n1: int, n2: int)
    ensures IsZeroResponse(GetPlayer(ResetPlayer(t, id, n1).table, id, n2).player, id)
  {
  }
}

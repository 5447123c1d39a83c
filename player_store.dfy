/**
 * The `grivyzom_players` table as the player manager and the message
 * handlers see it through the database manager: one row per UUID, each row
 * a full player record. Each SQL statement the plugin issues is a function
 * from the table before to the table after; whether the statement runs at
 * all (a connection that is down, an SQLException) is decided by the
 * caller, which passes that outcome in.
 */
module PlayerStore {
  import opened JavaBase
  import opened Float64
  import opened PlayerModel
  import Uuids

  type Rows = map<Uuids.Uuid, PlayerData>

  /** Every row sits under its own UUID, as the primary key `uuid` guarantees. */
  predicate WellKeyed(rows: Rows) {
    forall u | u in rows :: rows[u].uuid == u
  }

  /** An `UPDATE ... WHERE uuid = ?`: no row appears or disappears, and no other row changes. */
  predicate OnlyRowChanged(before: Rows, after: Rows, id: Uuids.Uuid) {
    before.Keys == after.Keys && forall u | u in before && u != id :: after[u] == before[u]
  }

  const DEFAULT_RANK: JString := J("default")

  /**
   * What a new row holds in the columns `INSERT_PLAYER` does not write
   * (last server, playtime, coins, gems, rank, permissions, data): the
   * defaults of the table's definition, which the plugin does not state.
   */
  datatype ColumnDefaults = ColumnDefaults(
    lastServer: Option<JString>, totalPlaytime: int64, coins: Double, gems: int32,
    rankId: JString, permissions: Option<JString>, data: Option<JString>)

  /** The values the new-player record `loadOrCreatePlayer` builds has in those columns. */
  const RECORD_DEFAULTS: ColumnDefaults := ColumnDefaults(None, 0, POS_ZERO, 0, DEFAULT_RANK, None, None)

  /** A new player's record: the name as display name, joined now, online, and `c` elsewhere. */
  function NewRow(id: Uuids.Uuid, username: JString, now: int64, c: ColumnDefaults): PlayerData {
    PlayerData(id, username, username, now, now, c.lastServer, c.totalPlaytime, c.coins, c.gems,
               c.rankId, c.permissions, c.data, true)
  }

  /** The record `loadOrCreatePlayer` builds for a UUID the table does not hold. */
  function NewPlayer(id: Uuids.Uuid, username: JString, now: int64): PlayerData {
    NewRow(id, username, now, RECORD_DEFAULTS)
  }

  /**
   * The row `INSERT_PLAYER` adds and the record built beside it agree
   * exactly when the table's column defaults are the record's values.
   */
  lemma NewRowMatchesRecord(id: Uuids.Uuid, username: JString, now: int64, c: ColumnDefaults)
    ensures NewRow(id, username, now, c) == NewPlayer(id, username, now) <==> c == RECORD_DEFAULTS
  {
    if NewRow(id, username, now, c) == NewPlayer(id, username, now) {
      assert c.lastServer == RECORD_DEFAULTS.lastServer;
    }
  }

  /**
   * `INSERT_PLAYER`: a new row holding the six written columns and the
   * table's defaults `c` in the others, or, for a UUID already present
   * (`ON DUPLICATE KEY UPDATE`), that row with the name, display name, last
   * join and online flag replaced.
   */
  function InsertPlayer(rows: Rows, id: Uuids.Uuid, username: JString, now: int64, c: ColumnDefaults): (r: Rows)
    ensures r.Keys == rows.Keys + {id}
    ensures forall u | u in rows && u != id :: r[u] == rows[u]
    ensures id !in rows ==> r[id] == NewRow(id, username, now, c)
    ensures id in rows ==>
      r[id] == rows[id].(username := username, displayName := username, lastJoin := now, isOnline := true)
    ensures WellKeyed(rows) ==> WellKeyed(r)
  {
    if id in rows then
      rows[id := rows[id].(username := username, displayName := username, lastJoin := now, isOnline := true)]
    else rows[id := NewRow(id, username, now, c)]
  }

  /** `UPDATE_PLAYER_ONLINE_STATUS`. */
  function SetOnlineStatus(rows: Rows, id: Uuids.Uuid, online: bool, now: int64): (r: Rows)
    ensures OnlyRowChanged(rows, r, id)
    ensures id in rows ==> r[id] == rows[id].(isOnline := online, lastJoin := now)
    ensures WellKeyed(rows) ==> WellKeyed(r)
  {
    if id in rows then rows[id := rows[id].(isOnline := online, lastJoin := now)] else rows
  }

  /** `UPDATE_PLAYER_SERVER`. */
  function SetLastServer(rows: Rows, id: Uuids.Uuid, server: JString): (r: Rows)
    ensures OnlyRowChanged(rows, r, id)
    ensures id in rows ==> r[id] == rows[id].(lastServer := Some(server))
    ensures WellKeyed(rows) ==> WellKeyed(r)
  {
    if id in rows then rows[id := rows[id].(lastServer := Some(server))] else rows
  }

  /** A row after `UPDATE_PLAYER_DATA` with the values of record `d`. */
  function SavedRow(row: PlayerData, d: PlayerData): PlayerData {
    row.(coins := d.coins, gems := d.gems, rankId := d.rankId, permissions := d.permissions,
         data := d.data, totalPlaytime := d.totalPlaytime)
  }

  /** `UPDATE_PLAYER_DATA` for record `d` (what `savePlayerData` issues). */
  function SaveRecord(rows: Rows, d: PlayerData): (r: Rows)
    ensures OnlyRowChanged(rows, r, d.uuid)
    ensures d.uuid in rows ==> r[d.uuid] == SavedRow(rows[d.uuid], d)
    ensures WellKeyed(rows) ==> WellKeyed(r)
  {
    if d.uuid in rows then rows[d.uuid := SavedRow(rows[d.uuid], d)] else rows
  }

  /** `UPDATE grivyzom_players SET coins = ? WHERE uuid = ?`. */
  function SetCoins(rows: Rows, id: Uuids.Uuid, coins: Double): (r: Rows)
    ensures OnlyRowChanged(rows, r, id)
    ensures id in rows ==> r[id] == rows[id].(coins := coins)
    ensures WellKeyed(rows) ==> WellKeyed(r)
  {
    if id in rows then rows[id := rows[id].(coins := coins)] else rows
  }

  /** `UPDATE grivyzom_players SET gems = ? WHERE uuid = ?`. */
  function SetGems(rows: Rows, id: Uuids.Uuid, gems: int32): (r: Rows)
    ensures OnlyRowChanged(rows, r, id)
    ensures id in rows ==> r[id] == rows[id].(gems := gems)
    ensures WellKeyed(rows) ==> WellKeyed(r)
  {
    if id in rows then rows[id := rows[id].(gems := gems)] else rows
  }

  /** `UPDATE grivyzom_players SET rank_id = ? WHERE uuid = ?`. */
  function SetRank(rows: Rows, id: Uuids.Uuid, rank: JString): (r: Rows)
    ensures OnlyRowChanged(rows, r, id)
    ensures id in rows ==> r[id] == rows[id].(rankId := rank)
    ensures WellKeyed(rows) ==> WellKeyed(r)
  {
    if id in rows then rows[id := rows[id].(rankId := rank)] else rows
  }

  /** Every UUID of the ranking has a row. */
  predicate RankedRows(rows: Rows, ranking: seq<Uuids.Uuid>) {
    forall i | 0 <= i < |ranking| :: ranking[i] in rows
  }

  /**
   * The order `ORDER BY coins DESC` may return the table in: every UUID of
   * the table exactly once, with coins never increasing (ties in any order).
   */
  predicate IsCoinRanking(rows: Rows, ranking: seq<Uuids.Uuid>) {
    (forall u | u in rows :: u in ranking)
    && RankedRows(rows, ranking)
    && (forall i, j | 0 <= i < j < |ranking| :: ranking[i] != ranking[j])
    && (forall i, j | 0 <= i < j < |ranking| :: Ge(rows[ranking[i]].coins, rows[ranking[j]].coins))
  }

  /** The table: the one piece of state the statements above change. */
  class PlayerTable {
    var rows: Rows

    constructor (rows: Rows)
      ensures this.rows == rows
    {
      this.rows := rows;
    }
  }
}

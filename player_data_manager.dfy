/**
 * The player manager: a cache of live player records keyed by UUID, kept
 * in front of the `grivyzom_players` table. Each asynchronous task of the
 * manager is one sequential method here; `now` readings and the outcome of
 * every SQL statement (ran, or threw an SQLException) are parameters.
 */
module Managers {
  import opened JavaBase
  import opened Float64
  import opened PlayerModel
  import opened PlayerStore
  import Uuids

  /**
   * `loadOrCreatePlayer`: the stored record when the SELECT finds one, else
   * the new-player record after inserting it, where the table fills the
   * columns the INSERT leaves out from `columns`. `None` when the SELECT or
   * the INSERT throws. The result holds the table afterwards and the record.
   */
  function LoadOrCreate(rows: Rows, id: Uuids.Uuid, username: JString, now: int64, selectOk: bool, insertOk: bool,
                        columns: ColumnDefaults)
    : Option<(Rows, PlayerData)>
  {
    if !selectOk then None
    else if id in rows then Some((rows, rows[id]))
    else if !insertOk then None
    else Some((InsertPlayer(rows, id, username, now, columns), NewPlayer(id, username, now)))
  }

  /**
   * A load succeeds exactly when the SELECT runs and either finds the row or
   * the INSERT runs, and no other row changes. A returning player is loaded
   * as stored, so the record carries the stored online flag and last join.
   * A new player gets the defaults: display name = user name, first join =
   * last join = now, no last server, no playtime, no coins or gems, rank
   * "default", online; the new row holds the table's own defaults in the
   * columns the INSERT leaves out, so it equals the record exactly when
   * those are the record's values.
   */
  lemma LoadedRecordMatchesStore(rows: Rows, id: Uuids.Uuid, username: JString, now: int64, selectOk: bool, insertOk: bool,
                                 columns: ColumnDefaults)
    requires WellKeyed(rows)
    ensures LoadOrCreate(rows, id, username, now, selectOk, insertOk, columns).Some? <==> selectOk && (id in rows || insertOk)
    ensures match LoadOrCreate(rows, id, username, now, selectOk, insertOk, columns)
      case None => true
      case Some((after, d)) =>
        WellKeyed(after) && after.Keys == rows.Keys + {id} && id in after && d.uuid == id
        && (forall u | u in rows && u != id :: after[u] == rows[u])
        && (id in rows ==> after == rows && d == rows[id])
        && (id !in rows ==>
              d.displayName == username && d.username == username && d.firstJoin == now && d.lastJoin == now
              && d.lastServer == None && d.totalPlaytime == 0 && d.coins == POS_ZERO && d.gems == 0
              && d.rankId == DEFAULT_RANK && d.isOnline
              && after[id] == NewRow(id, username, now, columns)
              && (after[id] == d <==> columns == RECORD_DEFAULTS))
  {
    if selectOk && id !in rows && insertOk {
      NewRowMatchesRecord(id, username, now, columns);
    }
  }

  /**
   * The disconnect task: save the cached record (when there is one), then
   * mark the row offline, then evict. A statement that throws ends the task
   * there. The result is the table afterwards and whether the entry was evicted.
   */
  function Disconnect(rows: Rows, cached: Option<PlayerData>, id: Uuids.Uuid, now: int64, saveOk: bool, statusOk: bool)
    : (Rows, bool)
  {
    if cached.Some? && !saveOk then (rows, false)
    else
      var saved := if cached.Some? then SaveRecord(rows, cached.value) else rows;
      if !statusOk then (saved, false) else (SetOnlineStatus(saved, id, false, now), true)
  }

  /**
   * The entry is evicted exactly when both statements ran; only the player's
   * own row changes; and after an eviction that row holds the record's
   * balances, rank, permissions, data and playtime, and reads offline.
   */
  lemma DisconnectOutcome(rows: Rows, d: PlayerData, now: int64, saveOk: bool, statusOk: bool)
    requires WellKeyed(rows) && d.uuid in rows
    ensures Disconnect(rows, Some(d), d.uuid, now, saveOk, statusOk).1 <==> saveOk && statusOk
    ensures OnlyRowChanged(rows, Disconnect(rows, Some(d), d.uuid, now, saveOk, statusOk).0, d.uuid)
    ensures saveOk && statusOk ==>
      Disconnect(rows, Some(d), d.uuid, now, saveOk, statusOk).0[d.uuid]
        == SavedRow(rows[d.uuid], d).(isOnline := false, lastJoin := now)
  {
  }

  /**
   * Balances survive a clean disconnect and the next login: the record the
   * login loads has the coins, gems, rank, permissions, data and playtime
   * the disconnect saved, and it is loaded with the offline flag the
   * disconnect stored.
   */
  lemma BalancesSurviveRelogin(rows: Rows, d: PlayerData, leftAt: int64, username: JString, now: int64, insertOk: bool,
                               columns: ColumnDefaults)
    requires WellKeyed(rows) && d.uuid in rows
    ensures var after := Disconnect(rows, Some(d), d.uuid, leftAt, true, true).0;
      var loaded := LoadOrCreate(after, d.uuid, username, now, true, insertOk, columns);
      loaded.Some? && loaded.value.0 == after
      && loaded.value.1.coins == d.coins && loaded.value.1.gems == d.gems && loaded.value.1.rankId == d.rankId
      && loaded.value.1.permissions == d.permissions && loaded.value.1.data == d.data
      && loaded.value.1.totalPlaytime == d.totalPlaytime
      && !loaded.value.1.isOnline && loaded.value.1.lastJoin == leftAt
  {
    DisconnectOutcome(rows, d, leftAt, true, true);
  }

  /** The table after `saveAllOnlinePlayers` saved the records of `keys` (the ones whose save ran). */
  function SaveAll(rows: Rows, snap: map<Uuids.Uuid, PlayerData>, keys: set<Uuids.Uuid>): Rows {
    map k | k in rows :: if k in keys && k in snap then SavedRow(rows[k], snap[k]) else rows[k]
  }

  /** Saves of different players commute: saving one more record extends the set saved, in any order. */
  lemma SaveAllStep(rows: Rows, snap: map<Uuids.Uuid, PlayerData>, keys: set<Uuids.Uuid>, k: Uuids.Uuid)
    requires k in snap && snap[k].uuid == k && k !in keys
    ensures SaveRecord(SaveAll(rows, snap, keys), snap[k]) == SaveAll(rows, snap, keys + {k})
  {
    var before := SaveAll(rows, snap, keys);
    var lhs, rhs := SaveRecord(before, snap[k]), SaveAll(rows, snap, keys + {k});
    assert lhs.Keys == rhs.Keys;
    forall u | u in lhs
      ensures lhs[u] == rhs[u]
    {
      if u == k {
        assert before[k] == rows[k];
      }
    }
  }

  /**
   * One more record visited: a save that runs extends the saved set and its
   * count, a save that throws extends the error count, and the other count
   * and the table stay as they were.
   */
  lemma SaveAllAdvance(rows: Rows, snap: map<Uuids.Uuid, PlayerData>, done: set<Uuids.Uuid>, failing: set<Uuids.Uuid>,
                       k: Uuids.Uuid, saved: nat, errors: nat)
    requires k in snap && snap[k].uuid == k && k !in done
    requires saved == |done - failing| && errors == |done * failing|
    ensures k !in failing ==>
      SaveRecord(SaveAll(rows, snap, done - failing), snap[k]) == SaveAll(rows, snap, (done + {k}) - failing)
    ensures k in failing ==> SaveAll(rows, snap, done - failing) == SaveAll(rows, snap, (done + {k}) - failing)
    ensures (if k in failing then saved else saved + 1) == |(done + {k}) - failing|
    ensures (if k in failing then errors + 1 else errors) == |(done + {k}) * failing|
  {
    if k !in failing {
      SaveAllStep(rows, snap, done - failing, k);
      assert (done + {k}) - failing == (done - failing) + {k};
      assert (done + {k}) * failing == done * failing;
    } else {
      assert (done + {k}) - failing == done - failing;
      assert (done + {k}) * failing == (done * failing) + {k};
    }
  }

  lemma SaveAllOfNothing(rows: Rows, snap: map<Uuids.Uuid, PlayerData>)
    ensures SaveAll(rows, snap, {}) == rows
  {
  }

  /** Moving one key from the keys still to visit to the keys visited. */
  lemma MoveKey(keys: set<Uuids.Uuid>, done: set<Uuids.Uuid>, remaining: set<Uuids.Uuid>, k: Uuids.Uuid)
    requires done + remaining == keys && done !! remaining && k in remaining
    ensures (done + {k}) + (remaining - {k}) == keys && (done + {k}) !! (remaining - {k}) && k !in done
  {
  }

  /** Saving records that sit under their own UUIDs keeps every row under its own UUID. */
  lemma SaveAllWellKeyed(rows: Rows, snap: map<Uuids.Uuid, PlayerData>, keys: set<Uuids.Uuid>)
    requires WellKeyed(rows)
    ensures WellKeyed(SaveAll(rows, snap, keys))
  {
  }

  lemma Partition(a: set<Uuids.Uuid>, f: set<Uuids.Uuid>)
    ensures |a - f| + |a * f| == |a|
  {
    assert a == (a - f) + (a * f);
    assert (a - f) * (a * f) == {};
  }

  /** The gems of the records `keys` hold, summed exactly (in no particular order). */
  ghost function GemSum(snap: map<Uuids.Uuid, PlayerData>, keys: set<Uuids.Uuid>): int
    requires keys <= snap.Keys
    decreases keys
  {
    if keys == {} then 0
    else
      var k :| k in keys;
      snap[k].gems + GemSum(snap, keys - {k})
  }

  /** The sum does not depend on which record is taken first. */
  lemma {:induction false} GemSumRemove(snap: map<Uuids.Uuid, PlayerData>, keys: set<Uuids.Uuid>, k: Uuids.Uuid)
    requires keys <= snap.Keys && k in keys
    ensures GemSum(snap, keys) == snap[k].gems + GemSum(snap, keys - {k})
    decreases keys
  {
    var j :| j in keys && GemSum(snap, keys) == snap[j].gems + GemSum(snap, keys - {j});
    if j != k {
      GemSumRemove(snap, keys - {j}, k);
      GemSumRemove(snap, keys - {k}, j);
      assert keys - {j} - {k} == keys - {k} - {j};
    }
  }

  /** The figures `getPlayerStats` reports; its coin total is not part of this model. */
  datatype PlayerStats = PlayerStats(onlinePlayers: int, totalGems: int32)

  /** The rows `getTopPlayersByCoins` returns, in the order the ranking lists them. */
  function RowsOf(rows: Rows, ks: seq<Uuids.Uuid>): (r: seq<PlayerData>)
    requires forall i | 0 <= i < |ks| :: ks[i] in rows
    ensures |r| == |ks|
  {
    if ks == [] then [] else [rows[ks[0]]] + RowsOf(rows, ks[1..])
  }

  function Min(a: int, b: int): int {
    if a < b then a else b
  }

  /**
   * `SELECT ... ORDER BY coins DESC LIMIT limit` over a table returned in
   * `ranking` order; a negative limit is an SQL error and, like a failed
   * query, leaves the list empty.
   */
  function TopRows(rows: Rows, ranking: seq<Uuids.Uuid>, limit: int, ok: bool): seq<PlayerData>
    requires RankedRows(rows, ranking)
  {
    if !ok || limit < 0 then [] else RowsOf(rows, ranking[..Min(limit, |ranking|)])
  }

  lemma {:induction false} RowsOfIndex(rows: Rows, ks: seq<Uuids.Uuid>, i: int)
    requires forall j | 0 <= j < |ks| :: ks[j] in rows
    requires 0 <= i < |ks|
    ensures RowsOf(rows, ks)[i] == rows[ks[i]]
  {
    if i > 0 {
      RowsOfIndex(rows, ks[1..], i - 1);
    }
  }

  /**
   * Over a coin ranking the top list has `min(limit, |table|)` rows (none on
   * a failed query or a negative limit), coins never increase along it, its
   * rows are distinct rows of the table, and every row left out has no more
   * coins than any row in the list.
   */
  lemma TopRowsAreTop(rows: Rows, ranking: seq<Uuids.Uuid>, limit: int, ok: bool)
    requires IsCoinRanking(rows, ranking)
    ensures var t := TopRows(rows, ranking, limit, ok);
      |t| == (if !ok || limit < 0 then 0 else Min(limit, |ranking|))
    ensures var t := TopRows(rows, ranking, limit, ok);
      forall i | 0 <= i < |t| :: ranking[i] in rows && t[i] == rows[ranking[i]]
    ensures var t := TopRows(rows, ranking, limit, ok);
      forall i, j | 0 <= i < j < |t| :: Ge(t[i].coins, t[j].coins)
    ensures var t := TopRows(rows, ranking, limit, ok);
      forall i, u | 0 <= i < |t| && u in rows && u !in ranking[..|t|] :: Ge(t[i].coins, rows[u].coins)
  {
    var t := TopRows(rows, ranking, limit, ok);
    var n := if !ok || limit < 0 then 0 else Min(limit, |ranking|);
    forall i | 0 <= i < |t|
      ensures t[i] == rows[ranking[i]]
    {
      RowsOfIndex(rows, ranking[..n], i);
    }
    assert forall j | 0 <= j < |t| :: ranking[..|t|][j] == ranking[j];
    forall i, u | 0 <= i < |t| && u in rows && u !in ranking[..|t|]
      ensures Ge(t[i].coins, rows[u].coins)
    {
      var j :| 0 <= j < |ranking| && ranking[j] == u;
      assert i < j;
    }
  }

  /** The player manager: `playerCache` in front of the table. */
  class PlayerDataManager {
    var playerCache: map<Uuids.Uuid, GrivyzomPlayer>
    /** The `grivyzom_players` table, reached through the database manager. */
    const table: PlayerTable

    /** Every cached record sits under its own UUID, and so does every row. */
    ghost predicate Valid()
      reads this, table
    {
      (forall u | u in playerCache :: playerCache[u].uuid == u) && WellKeyed(table.rows)
    }

    /** The cached record objects. */
    function Records(): set<GrivyzomPlayer>
      reads this
    {
      playerCache.Values
    }

    /** The contents of every cached record, by UUID. */
    function Snapshot(): (r: map<Uuids.Uuid, PlayerData>)
      reads this, playerCache.Values
      ensures r.Keys == playerCache.Keys
      ensures forall u | u in r :: r[u].uuid == playerCache[u].uuid
    {
      map u | u in playerCache :: playerCache[u].Data()
    }

    constructor (table: PlayerTable)
      requires WellKeyed(table.rows)
      ensures Valid() && playerCache == map[] && this.table == table
    {
      playerCache := map[];
      this.table := table;
    }

    /** `loadOrCreatePlayer`: a fresh record object, and the INSERT for a new player. */
    method LoadOrCreatePlayer(id: Uuids.Uuid, username: JString, now: int64, selectOk: bool, insertOk: bool,
                              columns: ColumnDefaults)
      returns (r: Option<GrivyzomPlayer>)
      modifies table
      ensures match LoadOrCreate(old(table.rows), id, username, now, selectOk, insertOk, columns)
        case None => r.None? && table.rows == old(table.rows)
        case Some((after, d)) => r.Some? && fresh(r.value) && r.value.Data() == d && table.rows == after
    {
      if !selectOk {
        return None;
      }
      if id in table.rows {
        var p := new GrivyzomPlayer(table.rows[id]);
        return Some(p);
      }
      if !insertOk {
        return None;
      }
      table.rows := InsertPlayer(table.rows, id, username, now, columns);
      var p := new GrivyzomPlayer(NewPlayer(id, username, now));
      return Some(p);
    }

    /**
     * The login task: load or create the record, cache it (replacing any
     * entry for the UUID), then mark the row online. Nothing changes when
     * the load throws; a failing status update leaves the entry cached.
     */
    method OnPlayerLogin(id: Uuids.Uuid, username: JString, loadedAt: int64, statusAt: int64,
                         selectOk: bool, insertOk: bool, statusOk: bool, columns: ColumnDefaults)
      requires Valid()
      modifies this, table
      ensures Valid()
      ensures match LoadOrCreate(old(table.rows), id, username, loadedAt, selectOk, insertOk, columns)
        case None =>
          playerCache == old(playerCache) && table.rows == old(table.rows)
        case Some((after, d)) =>
          id in playerCache && fresh(playerCache[id])
          && playerCache == old(playerCache)[id := playerCache[id]] && playerCache[id].Data() == d
          && table.rows == (if statusOk then SetOnlineStatus(after, id, true, statusAt) else after)
    {
      LoadedRecordMatchesStore(table.rows, id, username, loadedAt, selectOk, insertOk, columns);
      var loaded := LoadOrCreatePlayer(id, username, loadedAt, selectOk, insertOk, columns);
      if loaded.Some? {
        playerCache := playerCache[id := loaded.value];
        if statusOk {
          table.rows := SetOnlineStatus(table.rows, id, true, statusAt);
        }
      }
    }

    /** `savePlayerData`: the UPDATE with the record's balances, rank, permissions, data and playtime. */
    method SavePlayerData(player: GrivyzomPlayer, ok: bool) returns (saved: bool)
      modifies table
      ensures saved == ok
      ensures table.rows == if ok then SaveRecord(old(table.rows), player.Data()) else old(table.rows)
    {
      if ok {
        table.rows := SaveRecord(table.rows, player.Data());
      }
      saved := ok;
    }

    /**
     * The disconnect task: save (only a cached player), mark offline, evict;
     * a statement that throws skips the rest, so the entry stays cached.
     */
    method OnPlayerDisconnect(id: Uuids.Uuid, now: int64, saveOk: bool, statusOk: bool)
      requires Valid()
      modifies this, table
      ensures Valid()
      ensures var (after, evicted) := Disconnect(old(table.rows), if id in old(playerCache) then Some(old(playerCache[id].Data())) else None,
                                                 id, now, saveOk, statusOk);
        table.rows == after
        && playerCache == (if evicted then old(playerCache) - {id} else old(playerCache))
    {
      if id in playerCache {
        var saved := SavePlayerData(playerCache[id], saveOk);
        if !saved {
          return;
        }
      }
      if !statusOk {
        return;
      }
      table.rows := SetOnlineStatus(table.rows, id, false, now);
      playerCache := playerCache - {id};
    }

    /**
     * The server-switch task: the row's `last_server` first; the cached
     * record follows only when that write ran and the player is cached.
     */
    method OnServerConnect(id: Uuids.Uuid, server: JString, ok: bool)
      requires Valid()
      modifies table, Records()
      ensures Valid() && playerCache == old(playerCache)
      ensures table.rows == if ok then SetLastServer(old(table.rows), id, server) else old(table.rows)
      ensures ok && id in playerCache ==> playerCache[id].Data() == old(playerCache[id].Data()).(lastServer := Some(server))
      ensures forall u | u in playerCache && (u != id || !ok) :: playerCache[u].Data() == old(playerCache[u].Data())
    {
      if !ok {
        return;
      }
      table.rows := SetLastServer(table.rows, id, server);
      if id in playerCache {
        var cached := playerCache[id];
        cached.SetLastServer(server);
      }
    }

    /**
     * The periodic save: one UPDATE per cached record, in whatever order the
     * cache yields them; the saves of `failing` throw and are counted as
     * errors. The cache itself does not change.
     */
    method SaveAllOnlinePlayers(failing: set<Uuids.Uuid>) returns (saved: nat, errors: nat)
      requires Valid()
      modifies table
      ensures Valid()
      ensures saved + errors == |playerCache|
      ensures saved == |playerCache.Keys - failing| && errors == |playerCache.Keys * failing|
      ensures table.rows == SaveAll(old(table.rows), old(Snapshot()), playerCache.Keys - failing)
    {
      var remaining := playerCache.Keys;
      ghost var keys, done := remaining, {};
      ghost var snap, rows0 := Snapshot(), table.rows;
      saved, errors := 0, 0;
      SaveAllOfNothing(rows0, snap);
      while remaining != {}
        invariant done + remaining == keys && done !! remaining
        invariant saved == |done - failing| && errors == |done * failing|
        invariant table.rows == SaveAll(rows0, snap, done - failing)
        decreases remaining
      {
        var k :| k in remaining;
        var player := playerCache[k];
        assert player.Data() == snap[k];
        SaveAllAdvance(rows0, snap, done, failing, k, saved, errors);
        MoveKey(keys, done, remaining, k);
        var ok := SavePlayerData(player, k !in failing);
        if ok {
          saved := saved + 1;
        } else {
          errors := errors + 1;
        }
        remaining := remaining - {k};
        done := done + {k};
      }
      assert done == keys;
      Partition(done, failing);
      SaveAllWellKeyed(rows0, snap, done - failing);
    }

    /**
     * `getPlayer`: the cached object itself when the UUID is cached (the
     * table is not read); otherwise a fresh record from the row, or nothing
     * when the query throws or finds no row.
     */
    method GetPlayer(id: Uuids.Uuid, queryOk: bool) returns (r: Option<GrivyzomPlayer>)
      requires Valid()
      ensures id in playerCache ==> r == Some(playerCache[id])
      ensures id !in playerCache ==> (r.Some? <==> queryOk && id in table.rows)
      ensures id !in playerCache && r.Some? ==> fresh(r.value) && r.value.Data() == table.rows[id]
      ensures r.Some? ==> r.value.uuid == id
    {
      if id in playerCache {
        return Some(playerCache[id]);
      }
      if queryOk && id in table.rows {
        var p := new GrivyzomPlayer(table.rows[id]);
        return Some(p);
      }
      return None;
    }

    /**
     * `getPlayerByUsername`: a cached record whose name equals `name`
     * ignoring case under the JDK's case tables `cm`; only when there is
     * none, a fresh record from a row the query's `username = ?` selects,
     * which compares as the column's collation `sqlEquals` does, or nothing.
     */
    method GetPlayerByUsername(name: JString, queryOk: bool, cm: CaseMapping, sqlEquals: (JString, JString) -> bool)
      returns (r: Option<GrivyzomPlayer>)
      requires Valid()
      ensures (exists u | u in playerCache :: EqualsIgnoreCase(cm, playerCache[u].username, name)) ==>
        r.Some? && r.value in playerCache.Values && EqualsIgnoreCase(cm, r.value.username, name)
      ensures (forall u | u in playerCache :: !EqualsIgnoreCase(cm, playerCache[u].username, name)) ==>
        (r.Some? <==> queryOk && exists u | u in table.rows :: sqlEquals(table.rows[u].username, name))
      ensures (forall u | u in playerCache :: !EqualsIgnoreCase(cm, playerCache[u].username, name)) && r.Some? ==>
        fresh(r.value) && exists u | u in table.rows :: r.value.Data() == table.rows[u] && sqlEquals(table.rows[u].username, name)
    {
      var keys := playerCache.Keys;
      while keys != {}
        invariant keys <= playerCache.Keys
        invariant forall u | u in playerCache && u !in keys :: !EqualsIgnoreCase(cm, playerCache[u].username, name)
        decreases keys
      {
        var k :| k in keys;
        if EqualsIgnoreCase(cm, playerCache[k].username, name) {
          return Some(playerCache[k]);
        }
        keys := keys - {k};
      }
      if !queryOk {
        return None;
      }
      if u :| u in table.rows && sqlEquals(table.rows[u].username, name) {
        var p := new GrivyzomPlayer(table.rows[u]);
        return Some(p);
      }
      return None;
    }

    /**
     * `updatePlayerCoins`: the UPDATE first; the cached record follows only
     * when the UPDATE ran and the player is cached; true exactly when the
     * UPDATE ran. No other record or row changes.
     */
    method UpdatePlayerCoins(id: Uuids.Uuid, coins: Double, ok: bool) returns (r: bool)
      requires Valid()
      modifies table, Records()
      ensures Valid() && playerCache == old(playerCache)
      ensures r == ok
      ensures table.rows == if ok then SetCoins(old(table.rows), id, coins) else old(table.rows)
      ensures ok && id in playerCache ==> playerCache[id].Data() == old(playerCache[id].Data()).(coins := coins)
      ensures forall u | u in playerCache && (u != id || !ok) :: playerCache[u].Data() == old(playerCache[u].Data())
    {
      if !ok {
        return false;
      }
      table.rows := SetCoins(table.rows, id, coins);
      if id in playerCache {
        var cached := playerCache[id];
        cached.SetCoins(coins);
      }
      return true;
    }

    /** `updatePlayerGems`, the same steps as `updatePlayerCoins` for the gem count. */
    method UpdatePlayerGems(id: Uuids.Uuid, gems: int32, ok: bool) returns (r: bool)
      requires Valid()
      modifies table, Records()
      ensures Valid() && playerCache == old(playerCache)
      ensures r == ok
      ensures table.rows == if ok then SetGems(old(table.rows), id, gems) else old(table.rows)
      ensures ok && id in playerCache ==> playerCache[id].Data() == old(playerCache[id].Data()).(gems := gems)
      ensures forall u | u in playerCache && (u != id || !ok) :: playerCache[u].Data() == old(playerCache[u].Data())
    {
      if !ok {
        return false;
      }
      table.rows := SetGems(table.rows, id, gems);
      if id in playerCache {
        var cached := playerCache[id];
        cached.SetGems(gems);
      }
      return true;
    }

    /**
     * `getTopPlayersByCoins`: a fresh record per returned row, in the order
     * the query returns them; the table comes back in `ranking` order.
     */
    method GetTopPlayersByCoins(limit: int32, queryOk: bool, ranking: seq<Uuids.Uuid>) returns (top: seq<GrivyzomPlayer>)
      requires RankedRows(table.rows, ranking)
      ensures |top| == |TopRows(table.rows, ranking, limit, queryOk)|
      ensures forall i | 0 <= i < |top| :: fresh(top[i]) && top[i].Data() == TopRows(table.rows, ranking, limit, queryOk)[i]
    {
      var rows := table.rows;
      top := [];
      if !queryOk || limit < 0 {
        return;
      }
      var n := Min(limit, |ranking|);
      var i := 0;
      while i < n
        invariant 0 <= i <= n && |top| == i
        invariant forall j | 0 <= j < i :: fresh(top[j])
        invariant forall j | 0 <= j < i :: top[j].Data() == rows[ranking[j]]
      {
        var p := new GrivyzomPlayer(rows[ranking[i]]);
        top := top + [p];
        i := i + 1;
      }
      forall j | 0 <= j < n
        ensures TopRows(rows, ranking, limit, queryOk)[j] == rows[ranking[j]]
      {
        RowsOfIndex(rows, ranking[..n], j);
      }
    }

    /**
     * `getPlayerStats`: the number of cached records, and their gems summed
     * as Java `int`s (wrapping), in whatever order the cache yields them.
     */
    method GetPlayerStats() returns (s: PlayerStats)
      ensures s.onlinePlayers == |playerCache|
      ensures s.totalGems == Wrap32(GemSum(Snapshot(), playerCache.Keys))
    {
      var remaining := playerCache.Keys;
      var total: int32 := 0;
      ghost var snap := Snapshot();
      ghost var exact := 0;
      while remaining != {}
        invariant remaining <= playerCache.Keys
        invariant exact + GemSum(snap, remaining) == GemSum(snap, playerCache.Keys)
        invariant total == Wrap32(exact)
        decreases remaining
      {
        var k :| k in remaining;
        GemSumRemove(snap, remaining, k);
        Wrap32Add(exact, playerCache[k].gems);
        total := Wrap32(total + playerCache[k].gems);
        exact := exact + playerCache[k].gems;
        remaining := remaining - {k};
      }
      s := PlayerStats(|playerCache|, total);
    }
  }
}

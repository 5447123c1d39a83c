/**
 * The state side of `PluginMessageManager`: the listener that reads an
 * incoming plugin message, runs the case it names against the player
 * manager and the table, and the replies and broadcasts it sends back.
 *
 * The Velocity proxy is reduced to what these methods use of it: where a
 * message came from, the list of registered servers with their connected
 * players, and the record of plugin messages sent (`sent`). Outcomes the
 * database decides (whether a query or an UPDATE throws, the order
 * `ORDER BY coins DESC` returns) and whether the proxy has the player
 * online arrive as an `Env` value.
 */
module PluginMessaging {
  import opened JavaBase
  import opened DataStreams
  import opened PlayerModel
  import opened PlayerStore
  import opened Managers
  import opened Messaging
  import Uuids
  import Float64

  /** Where a plugin message came from: a backend server's connection, or a player's client. */
  datatype Source = ServerConnection(server: JString) | PlayerClient

  /** One `sendPluginMessage`: to which server, on which channel, with which bytes. */
  datatype Outgoing = Outgoing(server: JString, channel: JString, data: seq<u8>)

  /** A player on the proxy: the server connection they have, if any. */
  datatype ProxyPlayer = ProxyPlayer(currentServer: Option<JString>)

  /** A registered server and its connected players, in the order the proxy lists them. */
  datatype RegisteredServer = RegisteredServer(name: JString, playersConnected: seq<ProxyPlayer>)

  /**
   * What the outside world decides while a message is served: whether the
   * player lookup query runs, whether the UPDATE runs, whether the proxy
   * has the player online, and the coin order the table is returned in.
   */
  datatype Env = Env(queryOk: bool, updateOk: bool, online: bool, ranking: seq<Uuids.Uuid>)

  // ----- Replies -----

  /** The writes `fs` sent as one message: none when one of the writes throws. */
  function Message(server: JString, channel: JString, fs: seq<Field>): seq<Outgoing> {
    var bytes := EncodeFields(fs);
    if bytes.Ok? then [Outgoing(server, channel, bytes.value)] else []
  }

  /** `sendPlayerDataResponse`: one message on the core channel, or none when a write throws. */
  function PlayerDataReply(server: JString, d: PlayerData): seq<Outgoing> {
    Message(server, GRIVYZOM_CHANNEL, PlayerDataFields(d))
  }

  /** A reply for a player that was found; nothing for one that was not. */
  function FoundReply(server: JString, found: Option<PlayerData>): seq<Outgoing> {
    if found.Some? then PlayerDataReply(server, found.value) else []
  }

  /** `sendTopPlayersResponse`: one message on the economy channel, or none when a write throws. */
  function TopPlayersReply(server: JString, ds: seq<PlayerData>): seq<Outgoing> {
    Message(server, ECONOMY_CHANNEL, TopPlayersFields(ds))
  }

  /** A player-data reply is addressed to the asking server and reads back as the player's values. */
  lemma PlayerDataReplyReadsBack(server: JString, d: PlayerData)
    ensures forall m | m in PlayerDataReply(server, d) ::
      m.server == server && m.channel == GRIVYZOM_CHANNEL && ReadPlayerData(m.data) == Some(ViewOf(d))
  {
    var bytes := EncodeFields(PlayerDataFields(d));
    if bytes.Ok? {
      ReadPlayerDataResponse(d, bytes.value);
    }
  }

  /** A top-players reply is addressed to the asking server and reads back as the list's entries, in order. */
  lemma TopPlayersReplyReadsBack(server: JString, ds: seq<PlayerData>)
    requires |ds| < TWO_31
    ensures forall m | m in TopPlayersReply(server, ds) ::
      && m.server == server && m.channel == ECONOMY_CHANNEL
      && ReadTopPlayers(m.data).Some? && |ReadTopPlayers(m.data).value| == |ds|
      && forall i | 0 <= i < |ds| :: ReadTopPlayers(m.data).value[i] == EntryOf(ds[i])
  {
    var bytes := EncodeFields(TopPlayersFields(ds));
    if bytes.Ok? {
      ReadTopPlayersResponse(ds, bytes.value);
    }
  }

  // ----- Effects of one request -----

  /**
   * What `getPlayer` hands over for `id`, given the table and the contents
   * of the cached records: the cached record, else the row when the query runs.
   */
  function Fetched(rows: Rows, cached: map<Uuids.Uuid, PlayerData>, id: Uuids.Uuid, queryOk: bool): Option<PlayerData> {
    if id in cached then Some(cached[id])
    else if queryOk && id in rows then Some(rows[id])
    else None
  }

  /** The table after a request: only the three updates write, and only when the UPDATE runs. */
  function RowsAfter(r: Request, rows: Rows, env: Env): Rows {
    match r
    case UpdateCoins(id, coins) => if env.updateOk then SetCoins(rows, id, coins) else rows
    case UpdateGems(id, gems) => if env.updateOk then SetGems(rows, id, gems) else rows
    case UpdateRank(id, rank) => if env.updateOk then SetRank(rows, id, rank) else rows
    case _ => rows
  }

  /**
   * A cached record after a request: the coin and gem updates follow a
   * successful UPDATE; the rank follows it only when the proxy also has the
   * player online.
   */
  function RecordAfter(r: Request, u: Uuids.Uuid, d: PlayerData, env: Env): PlayerData {
    match r
    case UpdateCoins(id, coins) => if env.updateOk && u == id then d.(coins := coins) else d
    case UpdateGems(id, gems) => if env.updateOk && u == id then d.(gems := gems) else d
    case UpdateRank(id, rank) => if env.updateOk && env.online && u == id then d.(rankId := rank) else d
    case _ => d
  }

  /** The messages a request sends back to the server that asked. */
  function RepliesTo(server: JString, r: Request, rows: Rows, cached: map<Uuids.Uuid, PlayerData>, env: Env): seq<Outgoing>
    requires RankedRows(rows, env.ranking)
  {
    match r
    case GetPlayerData(id) => FoundReply(server, Fetched(rows, cached, id, env.queryOk))
    case SyncPlayerData(id) => FoundReply(server, Fetched(rows, cached, id, env.queryOk))
    case GetTopPlayers(limit) => TopPlayersReply(server, TopRows(rows, env.ranking, limit, env.queryOk))
    case _ => []
  }

  /**
   * The lookups change nothing; each update touches the row and the cached
   * record of its own player and no other, and sends nothing back.
   */
  lemma RequestTouchesOnlyItsPlayer(r: Request, rows: Rows, u: Uuids.Uuid, d: PlayerData, env: Env)
    ensures r.GetPlayerData? || r.SyncPlayerData? || r.GetTopPlayers? ==>
      RowsAfter(r, rows, env) == rows && RecordAfter(r, u, d, env) == d
    ensures r.UpdateCoins? || r.UpdateGems? || r.UpdateRank? ==>
      OnlyRowChanged(rows, RowsAfter(r, rows, env), r.id) && (u != r.id ==> RecordAfter(r, u, d, env) == d)
    ensures WellKeyed(rows) ==> WellKeyed(RowsAfter(r, rows, env))
    ensures !env.updateOk ==> RowsAfter(r, rows, env) == rows && RecordAfter(r, u, d, env) == d
  {
  }

  // ----- Broadcasts -----

  /**
   * What `broadcastMessage` sends for one server: the payload, to the
   * connection of the server's first connected player, when there is such a
   * player with a connection and every write succeeded.
   */
  function FirstPlayerSend(s: RegisteredServer, payload: Result<seq<u8>, IoError>): seq<Outgoing> {
    if s.playersConnected == [] || payload.Err? || s.playersConnected[0].currentServer.None? then []
    else [Outgoing(s.playersConnected[0].currentServer.value, GRIVYZOM_CHANNEL, payload.value)]
  }

  /** The sends of a whole broadcast, server by server in the proxy's order. */
  function BroadcastSends(servers: seq<RegisteredServer>, payload: Result<seq<u8>, IoError>): seq<Outgoing> {
    if servers == [] then []
    else BroadcastSends(servers[..|servers| - 1], payload) + FirstPlayerSend(servers[|servers| - 1], payload)
  }

  /** A server whose first connected player has a connection. */
  predicate Reachable(s: RegisteredServer) {
    s.playersConnected != [] && s.playersConnected[0].currentServer.Some?
  }

  /** How many of the servers are reachable. */
  function ReachableCount(servers: seq<RegisteredServer>): nat {
    if servers == [] then 0
    else ReachableCount(servers[..|servers| - 1]) + (if Reachable(servers[|servers| - 1]) then 1 else 0)
  }

  /**
   * A broadcast sends nothing when a write throws; otherwise it sends the
   * payload on the core channel once per reachable server, each time to a
   * connection of a player of that server, and never more than once per server.
   */
  lemma {:induction false} BroadcastShape(servers: seq<RegisteredServer>, payload: Result<seq<u8>, IoError>)
    ensures payload.Err? ==> BroadcastSends(servers, payload) == []
    ensures payload.Ok? ==> |BroadcastSends(servers, payload)| == ReachableCount(servers)
    ensures ReachableCount(servers) <= |servers|
    ensures forall m | m in BroadcastSends(servers, payload) ::
      && payload.Ok? && m.channel == GRIVYZOM_CHANNEL && m.data == payload.value
      && exists s | s in servers :: Reachable(s) && m.server == s.playersConnected[0].currentServer.value
  {
    if servers != [] {
      var init := servers[..|servers| - 1];
      BroadcastShape(init, payload);
      forall m | m in BroadcastSends(servers, payload)
        ensures exists s | s in servers :: Reachable(s) && m.server == s.playersConnected[0].currentServer.value
      {
        if m in BroadcastSends(init, payload) {
          var s :| s in init && Reachable(s) && m.server == s.playersConnected[0].currentServer.value;
          assert s in servers;
        } else {
          assert m in FirstPlayerSend(servers[|servers| - 1], payload);
          assert servers[|servers| - 1] in servers;
        }
      }
    }
  }

  /**
   * `notifyPlayerUpdate`'s payload reads back as three strings: the message
   * type, the UUID text (which parses back to the UUID) and the update type.
   */
  lemma PlayerUpdatePayload(id: Uuids.Uuid, updateType: JString)
    requires Payload(PLAYER_UPDATE, [Uuids.ToString(id), updateType]).Ok?
    ensures var bytes := Payload(PLAYER_UPDATE, [Uuids.ToString(id), updateType]).value;
      ReadsFields(StrKinds(3), bytes, [Str(PLAYER_UPDATE), Str(Uuids.ToString(id)), Str(updateType)], |bytes|)
    ensures Uuids.FromString(Uuids.ToString(id)) == Some(id)
  {
    ReadPayload(PLAYER_UPDATE, [Uuids.ToString(id), updateType]);
    StrsOfThree(PLAYER_UPDATE, Uuids.ToString(id), updateType);
    Uuids.FromStringToString(id);
  }

  lemma StrsOfThree(a: JString, b: JString, c: JString)
    ensures Strs([a] + [b, c]) == [Str(a), Str(b), Str(c)]
  {
    assert Strs([c]) == [Str(c)] + Strs([]);
    assert Strs([b, c]) == [Str(b)] + Strs([c]);
    var none: seq<JString> := [];
    assert ([a] + [b, c])[1..] == [b, c] && [b, c][1..] == [c] && [c][1..] == none;
  }

  /** `notifyMaintenance`'s payload always encodes, and reads back as "MAINTENANCE" then "START" exactly when starting. */
  lemma MaintenancePayload(starting: bool)
    ensures Payload(MAINTENANCE, [if starting then START else END]).Ok?
    ensures var bytes := Payload(MAINTENANCE, [if starting then START else END]).value;
      ReadsFields(StrKinds(2), bytes, [Str(MAINTENANCE), Str(if starting then START else END)], |bytes|)
    ensures START != END
  {
    var word := if starting then START else END;
    var none: seq<JString> := [];
    assert ([MAINTENANCE] + [word])[1..] == [word] && [word][1..] == none;
    assert Strs([word]) == [Str(word)] + Strs([]);
    assert Strs([MAINTENANCE] + [word]) == [Str(MAINTENANCE), Str(word)];
    ShortStringsEncode([Str(MAINTENANCE), Str(word)]);
    ReadPayload(MAINTENANCE, [word]);
    assert START[0] != END[0];
  }

  /** Writes of strings of at most 21845 code units never throw. */
  lemma {:induction false} ShortStringsEncode(fs: seq<Field>)
    requires forall i | 0 <= i < |fs| :: fs[i].Str? && |fs[i].s| <= 21845
    ensures EncodeFields(fs).Ok?
  {
    if fs != [] {
      ShortStringsEncode(fs[1..]);
    }
  }

  // ----- The manager -----

  class PluginMessageManager {
    /** The player manager, with the table behind it. */
    const players: PlayerDataManager
    /** Every plugin message sent so far, in order. */
    var sent: seq<Outgoing>

    ghost predicate Valid()
      reads this, players, players.table
    {
      players.Valid()
    }

    constructor (players: PlayerDataManager)
      requires players.Valid()
      ensures Valid() && this.players == players && sent == []
    {
      this.players := players;
      sent := [];
    }

    /**
     * `onPluginMessage`: a message not from a backend server is dropped;
     * otherwise the type string is read, and the channel's handler, if any,
     * reads its case's fields and serves the request. The outcome is what
     * `ParseMessage` says; only a request that was read in full and whose
     * UUID parsed changes anything.
     */
    method OnPluginMessage(source: Source, channel: JString, data: seq<u8>, env: Env) returns (outcome: Parsed)
      requires Valid() && RankedRows(players.table.rows, env.ranking)
      modifies this, players.table, players.Records()
      ensures Valid() && players.playerCache == old(players.playerCache)
      ensures outcome == ParseMessage(source.ServerConnection?, channel, data)
      ensures outcome.Handle? ==>
        (source.ServerConnection? &&
         Served(outcome.request, env, RepliesTo(source.server, outcome.request, old(players.table.rows), old(players.Snapshot()), env)))
      ensures !outcome.Handle? ==> Untouched()
    {
      outcome := ReadMessage(source.ServerConnection?, channel, data);
      if outcome.Handle? {
        assert forall u | u in players.playerCache :: players.playerCache[u].Data() == old(players.playerCache[u].Data());
        assert players.Snapshot() == old(players.Snapshot());
        Serve(source.server, outcome.request, env);
      }
    }

    /**
     * The reading half of `onPluginMessage` and its handlers: the type
     * string, then the case's fields of the channel's handler.
     */
    static method ReadMessage(fromServer: bool, channel: JString, data: seq<u8>) returns (p: Parsed)
      ensures p == ParseMessage(fromServer, channel, data)
    {
      if !fromServer {
        return Ignored;
      }
      var input := new DataInput(data);
      var tag := input.Read(KStr);
      if tag.Err? {
        return Failed(tag.error);
      }
      var route := Route(channel);
      if route.None? {
        return Ignored;
      }
      ghost var n := ReadField(KStr, data).value.1;
      ParseAfterTag(channel, route.value, tag.value.s, data, n, input.Remaining());
      p := ReadBody(route.value, tag.value.s, input);
    }

    /**
     * The state after serving `r`: the table and the cached records as the
     * request says, and `replies` sent.
     */
    twostate predicate Served(new r: Request, new env: Env, new replies: seq<Outgoing>)
      reads this, players, players.table, players.playerCache.Values
    {
      && players.table.rows == RowsAfter(r, old(players.table.rows), env)
      && (forall u | u in players.playerCache && u in old(players.playerCache) ::
            players.playerCache[u].Data() == RecordAfter(r, u, old(players.playerCache[u].Data()), env))
      && sent == old(sent) + replies
    }

    /** The table and the cached records are as they were, and `replies` were sent. */
    twostate predicate Replied(new replies: seq<Outgoing>)
      reads this, players, players.table, players.playerCache.Values
    {
      && sent == old(sent) + replies && players.table.rows == old(players.table.rows)
      && forall u | u in players.playerCache && u in old(players.playerCache) ::
           players.playerCache[u].Data() == old(players.playerCache[u].Data())
    }

    /** Nothing the manager can see has changed. */
    twostate predicate Untouched()
      reads this, players, players.table, players.playerCache.Values
    {
      && sent == old(sent) && players.table.rows == old(players.table.rows)
      && forall u | u in players.playerCache && u in old(players.playerCache) ::
           players.playerCache[u].Data() == old(players.playerCache[u].Data())
    }

    /**
     * The switch of `handleEconomyMessage`, `handleRankupMessage` or
     * `handlePvPMessage` (the handler `h`) over the type string: a type that
     * is not one of its cases reads nothing more.
     */
    static method ReadBody(h: Handler, tag: JString, input: DataInput) returns (p: Parsed)
      requires input.Valid()
      modifies input
      ensures p == ParseBody(h, tag, old(input.Remaining()))
    {
      var t := RequestTypeOf(h, tag);
      if t.None? {
        return Ignored;
      }
      p := ReadCase(input, t.value);
    }

    /** One case's reads, in order, and then the UUID conversion; a failing read ends the case. */
    static method ReadCase(input: DataInput, t: RequestType) returns (p: Parsed)
      requires input.Valid()
      modifies input
      ensures input.Valid()
      ensures p == ParseCase(t, old(input.Remaining()))
    {
      ghost var b := input.Remaining();
      var first := input.Read(FieldKinds(t)[0]);
      if first.Err? {
        CaseFirstFails(t, b);
        return Failed(first.error);
      }
      ghost var n := ReadField(FieldKinds(t)[0], b).value.1;
      if |FieldKinds(t)| == 1 {
        CaseOfOneRead(t, b, first.value, n);
        return Build(t, [first.value]);
      }
      p := ReadSecond(input, t, b, first.value, n);
    }

    /** The second read of a two-read case, from where the first stopped. */
    static method ReadSecond(input: DataInput, t: RequestType, ghost b: seq<u8>, f: Field, ghost n: nat) returns (p: Parsed)
      requires input.Valid() && |FieldKinds(t)| == 2
      requires ReadsField(FieldKinds(t)[0], b, f, n) && n <= |b| && input.Remaining() == b[n..]
      modifies input
      ensures input.Valid()
      ensures p == ParseCase(t, b)
    {
      ghost var rest := input.Remaining();
      var second := input.Read(FieldKinds(t)[1]);
      if second.Err? {
        CaseSecondFails(t, b, f, n, rest);
        return Failed(second.error);
      }
      CaseOfTwoReads(t, b, f, n, rest, second.value, ReadField(FieldKinds(t)[1], rest).value.1);
      return Build(t, [f, second.value]);
    }

    /** Serving one request: the lookups reply, the updates write. */
    method Serve(server: JString, r: Request, env: Env)
      requires Valid() && RankedRows(players.table.rows, env.ranking)
      modifies this, players.table, players.Records()
      ensures Valid() && players.playerCache == old(players.playerCache)
      ensures Served(r, env, RepliesTo(server, r, old(players.table.rows), old(players.Snapshot()), env))
    {
      ghost var replies := RepliesTo(server, r, players.table.rows, players.Snapshot(), env);
      match r
      case GetPlayerData(id) =>
        assert replies == FoundReply(server, Fetched(players.table.rows, players.Snapshot(), id, env.queryOk));
        ServeLookup(server, r, env);
      case SyncPlayerData(id) =>
        assert replies == FoundReply(server, Fetched(players.table.rows, players.Snapshot(), id, env.queryOk));
        ServeLookup(server, r, env);
      case UpdateCoins(id, coins) =>
        assert replies == [];
        ServeCoins(id, coins, env);
      case UpdateGems(id, gems) =>
        assert replies == [];
        ServeGems(id, gems, env);
      case GetTopPlayers(limit) =>
        assert replies == TopPlayersReply(server, TopRows(players.table.rows, env.ranking, limit, env.queryOk));
        ServeTop(server, limit, env);
      case UpdateRank(id, rank) =>
        assert replies == [];
        UpdateRank(id, rank, env);
    }

    /** `GET_PLAYER_DATA` and `SYNC_PLAYER_DATA`. */
    method ServeLookup(server: JString, r: Request, env: Env)
      requires Valid() && (r.GetPlayerData? || r.SyncPlayerData?)
      modifies this
      ensures Replied(FoundReply(server, Fetched(old(players.table.rows), old(players.Snapshot()), r.id, env.queryOk)))
    {
      ServePlayerData(server, r.id, env.queryOk);
    }

    /** `UPDATE_COINS`. */
    method ServeCoins(id: Uuids.Uuid, coins: Float64.Double, env: Env)
      requires Valid()
      modifies players.table, players.Records()
      ensures Valid() && players.playerCache == old(players.playerCache)
      ensures Served(UpdateCoins(id, coins), env, [])
    {
      var _ := players.UpdatePlayerCoins(id, coins, env.updateOk);
    }

    /** `UPDATE_GEMS`. */
    method ServeGems(id: Uuids.Uuid, gems: int32, env: Env)
      requires Valid()
      modifies players.table, players.Records()
      ensures Valid() && players.playerCache == old(players.playerCache)
      ensures Served(UpdateGems(id, gems), env, [])
    {
      var _ := players.UpdatePlayerGems(id, gems, env.updateOk);
    }

    /** `GET_TOP_PLAYERS`: the top of the coin ranking, sent back to the server that asked; nothing else changes. */
    method ServeTop(server: JString, limit: int32, env: Env)
      requires RankedRows(players.table.rows, env.ranking)
      modifies this
      ensures Replied(TopPlayersReply(server, TopRows(old(players.table.rows), env.ranking, limit, env.queryOk)))
    {
      ghost var ds := TopRows(players.table.rows, env.ranking, limit, env.queryOk);
      var top := players.GetTopPlayersByCoins(limit, env.queryOk, env.ranking);
      assert Untouched();
      SendTopPlayersResponse(server, top, ds);
    }

    /** `GET_PLAYER_DATA` and `SYNC_PLAYER_DATA`: look the player up and, when found, reply with the data. */
    method ServePlayerData(server: JString, id: Uuids.Uuid, queryOk: bool)
      requires Valid()
      modifies this
      ensures sent == old(sent) + FoundReply(server, Fetched(old(players.table.rows), old(players.Snapshot()), id, queryOk))
    {
      var found := players.GetPlayer(id, queryOk);
      if found.Some? {
        SendPlayerDataResponse(server, found.value);
      }
    }

    /**
     * `UPDATE_RANK`: the UPDATE; when it runs and the proxy has the player
     * online, the record `getPlayer` hands over takes the new rank (a cached
     * one is the player's own record, a fresh one is thrown away).
     */
    method UpdateRank(id: Uuids.Uuid, rank: JString, env: Env)
      requires Valid()
      modifies players.table, players.Records()
      ensures Valid() && players.playerCache == old(players.playerCache)
      ensures players.table.rows == if env.updateOk then SetRank(old(players.table.rows), id, rank) else old(players.table.rows)
      ensures forall u | u in players.playerCache ::
        players.playerCache[u].Data() == if env.updateOk && env.online && u == id
          then old(players.playerCache[u].Data()).(rankId := rank) else old(players.playerCache[u].Data())
    {
      if !env.updateOk {
        return;
      }
      players.table.rows := SetRank(players.table.rows, id, rank);
      if env.online {
        var found := players.GetPlayer(id, env.queryOk);
        if found.Some? {
          found.value.SetRankId(rank);
        }
      }
    }

    /** `sendPlayerDataResponse`: the ten writes, then the message to the server that asked. */
    method SendPlayerDataResponse(server: JString, player: GrivyzomPlayer)
      modifies this
      ensures sent == old(sent) + PlayerDataReply(server, player.Data())
    {
      SendFields(server, GRIVYZOM_CHANNEL, PlayerDataFields(player.Data()));
    }

    /** A fresh stream, the writes `fs` in order, and the message when none of them threw. */
    method SendFields(server: JString, channel: JString, fs: seq<Field>)
      modifies this
      ensures sent == old(sent) + Message(server, channel, fs)
    {
      var output := new DataOutput();
      var ok := WriteAll(output, fs);
      assert [] + fs == fs;
      if ok {
        sent := sent + [Outgoing(server, channel, output.bytes)];
      }
    }

    /**
     * `sendTopPlayersResponse`: the type and the list size, then five
     * writes per player in list order, then the message on the economy
     * channel. `ds` are the players' values.
     */
    method SendTopPlayersResponse(server: JString, top: seq<GrivyzomPlayer>, ghost ds: seq<PlayerData>)
      requires HoldValues(top, ds)
      modifies this
      ensures sent == old(sent) + TopPlayersReply(server, ds)
    {
      var ok, bytes := WriteTopPlayers(top, ds);
      if ok {
        sent := sent + [Outgoing(server, ECONOMY_CHANNEL, bytes)];
      }
    }

    /**
     * `broadcastMessage`: for every registered server in order, the type and
     * the data are written afresh and sent to the connection of the server's
     * first connected player, if it has one.
     */
    method BroadcastMessage(servers: seq<RegisteredServer>, messageType: JString, data: seq<JString>)
      modifies this
      ensures sent == old(sent) + BroadcastSends(servers, Payload(messageType, data))
    {
      var i := 0;
      while i < |servers|
        invariant 0 <= i <= |servers|
        invariant sent == old(sent) + BroadcastSends(servers[..i], Payload(messageType, data))
      {
        assert servers[..i + 1][..i] == servers[..i] && servers[..i + 1][i] == servers[i];
        var connected := servers[i].playersConnected;
        if connected != [] {
          var player := connected[0];
          var output := new DataOutput();
          var fs := Strs([messageType] + data);
          var ok := WriteAll(output, fs);
          assert [] + fs == fs;
          if ok && player.currentServer.Some? {
            sent := sent + [Outgoing(player.currentServer.value, GRIVYZOM_CHANNEL, output.bytes)];
          }
        }
        i := i + 1;
      }
      assert servers[..|servers|] == servers;
    }

    /** `notifyPlayerUpdate`: a broadcast of "PLAYER_UPDATE", the UUID text and the update type. */
    method NotifyPlayerUpdate(servers: seq<RegisteredServer>, id: Uuids.Uuid, updateType: JString)
      modifies this
      ensures sent == old(sent) + BroadcastSends(servers, Payload(PLAYER_UPDATE, [Uuids.ToString(id), updateType]))
    {
      BroadcastMessage(servers, PLAYER_UPDATE, [Uuids.ToString(id), updateType]);
    }

    /** `notifyMaintenance`: a broadcast of "MAINTENANCE" and "START" or "END". */
    method NotifyMaintenance(servers: seq<RegisteredServer>, starting: bool)
      modifies this
      ensures sent == old(sent) + BroadcastSends(servers, Payload(MAINTENANCE, [if starting then START else END]))
    {
      BroadcastMessage(servers, MAINTENANCE, [if starting then START else END]);
    }
  }

  /** The player records `top` hold the values `ds`, in order. */
  ghost predicate HoldValues(top: seq<GrivyzomPlayer>, ds: seq<PlayerData>)
    reads top
  {
    |top| == |ds| && forall i | 0 <= i < |top| :: top[i].Data() == ds[i]
  }

  /** The writes of `sendTopPlayersResponse` on a fresh stream: whether none threw, and the bytes. */
  method WriteTopPlayers(top: seq<GrivyzomPlayer>, ghost ds: seq<PlayerData>) returns (ok: bool, bytes: seq<u8>)
    requires HoldValues(top, ds)
    ensures ok <==> EncodeFields(TopPlayersFields(ds)).Ok?
    ensures ok ==> bytes == EncodeFields(TopPlayersFields(ds)).value
  {
    var output := new DataOutput();
    WriteHeader(output, top, ds);
    ok := WriteEntriesAfter(output, top, ds);
    bytes := output.bytes;
  }

  /** The type string and the list size, written first: they never throw, and the players are left as they were. */
  method WriteHeader(output: DataOutput, top: seq<GrivyzomPlayer>, ghost ds: seq<PlayerData>)
    requires output.Valid() && output.written == [] && HoldValues(top, ds)
    modifies output
    ensures output.Valid() && output.written == [Str(TOP_PLAYERS_RESPONSE), Int(ListSize(|top|))]
    ensures HoldValues(top, ds)
  {
    var header := [Str(TOP_PLAYERS_RESPONSE), Int(ListSize(|top|))];
    TopHeaderEncodes(ListSize(|top|));
    var written := WriteAll(output, header);
    assert [] + header == header;
  }

  /** The header of a top-players reply never throws, whatever the list size. */
  lemma TopHeaderEncodes(n: int32)
    ensures EncodeFields([] + [Str(TOP_PLAYERS_RESPONSE), Int(n)]).Ok?
  {
    var header := [Str(TOP_PLAYERS_RESPONSE), Int(n)];
    assert [] + header == header;
    HeaderEncodes(TOP_PLAYERS_RESPONSE, n);
  }

  lemma HeaderEncodes(tag: JString, n: int32)
    requires |tag| <= 21845
    ensures EncodeFields([Str(tag), Int(n)]).Ok?
  {
    ShortStringsEncode([Str(tag)]);
    assert [Str(tag), Int(n)][1..] == [Int(n)] && [Int(n)][1..] == [];
  }

  /** The entries' writes once the header is written. */
  method WriteEntriesAfter(output: DataOutput, top: seq<GrivyzomPlayer>, ghost ds: seq<PlayerData>) returns (ok: bool)
    requires output.Valid() && output.written == [Str(TOP_PLAYERS_RESPONSE), Int(ListSize(|top|))] && HoldValues(top, ds)
    modifies output
    ensures ok <==> EncodeFields(TopPlayersFields(ds)).Ok?
    ensures ok ==> output.bytes == EncodeFields(TopPlayersFields(ds)).value
  {
    ghost var written := output.written;
    ok := WriteEntries(output, top, ds);
    EntriesWritten(ds, written, ok, output.written, output.bytes);
  }

  /** The header written, the entries' writes decide the reply. */
  lemma EntriesWritten(ds: seq<PlayerData>, start: seq<Field>, ok: bool, written: seq<Field>, bytes: seq<u8>)
    requires start == [Str(TOP_PLAYERS_RESPONSE), Int(ListSize(|ds|))]
    requires ok <==> EncodeFields(start + EntriesFields(ds)).Ok?
    requires ok ==> written == start + EntriesFields(ds) && Encodes(written, bytes)
    ensures ok <==> EncodeFields(TopPlayersFields(ds)).Ok?
    ensures ok ==> bytes == EncodeFields(TopPlayersFields(ds)).value
  {
  }

  /** The five writes of each player of `top` in list order, stopping at the first that throws. */
  method WriteEntries(output: DataOutput, top: seq<GrivyzomPlayer>, ghost ds: seq<PlayerData>) returns (ok: bool)
    requires output.Valid()
    requires HoldValues(top, ds)
    modifies output
    ensures output.Valid()
    ensures ok <==> EncodeFields(old(output.written) + EntriesFields(ds)).Ok?
    ensures ok ==> output.written == old(output.written) + EntriesFields(ds)
  {
    ghost var start := output.written;
    var i := 0;
    while i < |top|
      invariant 0 <= i <= |top| && output.Valid()
      invariant output.written == start + EntriesFields(ds[..i])
    {
      ok := WriteAll(output, EntryFields(top[i].Data()));
      if !ok {
        WriteOfEntryFailed(start, ds, i);
        return;
      }
      EntriesSnocAfter(start, ds, i);
      i := i + 1;
    }
    WholeListWritten(start, ds, output.written, output.bytes);
    ok := true;
  }

  lemma EntriesSnocAfter(start: seq<Field>, ds: seq<PlayerData>, i: nat)
    requires i < |ds|
    ensures start + EntriesFields(ds[..i]) + EntryFields(ds[i]) == start + EntriesFields(ds[..i + 1])
  {
    EntriesSnoc(ds, i);
  }

  lemma WholeListWritten(start: seq<Field>, ds: seq<PlayerData>, written: seq<Field>, bytes: seq<u8>)
    requires written == start + EntriesFields(ds[..|ds|]) && Encodes(written, bytes)
    ensures EncodeFields(start + EntriesFields(ds)).Ok? && written == start + EntriesFields(ds)
  {
    assert ds[..|ds|] == ds;
  }

  /** The entries of the first `i + 1` players: those of the first `i`, then the `i`-th player's. */
  lemma EntriesSnoc(ds: seq<PlayerData>, i: nat)
    requires i < |ds|
    ensures EntriesFields(ds[..i + 1]) == EntriesFields(ds[..i]) + EntryFields(ds[i])
  {
    assert ds[..i + 1] == ds[..i] + [ds[i]];
    EntriesFieldsAppend(ds[..i], [ds[i]]);
    EntriesOfOne(ds[i]);
  }

  lemma EntriesOfOne(d: PlayerData)
    ensures EntriesFields([d]) == EntryFields(d)
  {
    assert [d][1..] == [];
    assert EntriesFields([d]) == EntryFields(d) + EntriesFields([]);
  }

  /** A write failing inside the `i`-th player's entry makes the whole list fail to encode. */
  lemma WriteOfEntryFailed(start: seq<Field>, ds: seq<PlayerData>, i: nat)
    requires i < |ds|
    requires EncodeFields(start + EntriesFields(ds[..i]) + EntryFields(ds[i])).Err?
    ensures EncodeFields(start + EntriesFields(ds)).Err?
  {
    EntriesSnoc(ds, i);
    EntriesAround(ds, i);
    Reassociate(start, EntriesFields(ds[..i]), EntryFields(ds[i]), EntriesFields(ds[i + 1..]));
    EncodeFieldsConcat(start + EntriesFields(ds[..i]) + EntryFields(ds[i]), EntriesFields(ds[i + 1..]));
  }

  /** A run whose first part throws throws as a whole. */
  lemma PrefixFails(a: seq<Field>, b: seq<Field>)
    requires EncodeFields(a).Err?
    ensures EncodeFields(a + b).Err?
  {
    EncodeFieldsConcat(a, b);
  }

  /** The reply's writes all done: the reply is one message with the stream's bytes. */
  lemma WrittenReply(server: JString, ds: seq<PlayerData>, written: seq<Field>, bytes: seq<u8>)
    requires Encodes(written, bytes) && written == TopPlayersFields(ds)
    ensures TopPlayersReply(server, ds) == [Outgoing(server, ECONOMY_CHANNEL, bytes)]
  {
  }

  /** The entries of the whole list: those of the first `i + 1` players, then the others'. */
  lemma EntriesAround(ds: seq<PlayerData>, i: nat)
    requires i < |ds|
    ensures EntriesFields(ds) == EntriesFields(ds[..i + 1]) + EntriesFields(ds[i + 1..])
  {
    assert ds == ds[..i + 1] + ds[i + 1..];
    EntriesFieldsAppend(ds[..i + 1], ds[i + 1..]);
  }

  lemma Reassociate(a: seq<Field>, b: seq<Field>, c: seq<Field>, d: seq<Field>)
    ensures a + ((b + c) + d) == ((a + b) + c) + d
  {
  }

  /** The writes so far, the one that threw, and the ones never reached. */
  lemma Regroup(start: seq<Field>, fs: seq<Field>, i: nat)
    requires i < |fs|
    ensures start + fs == ((start + fs[..i]) + [fs[i]]) + fs[i + 1..]
  {
    assert fs == fs[..i] + [fs[i]] + fs[i + 1..];
  }

  /** The `i`-th write of a run throwing makes the whole run fail to encode. */
  lemma WriteInRunFailed(start: seq<Field>, fs: seq<Field>, i: nat)
    requires i < |fs| && EncodeFields(start + fs[..i] + [fs[i]]).Err?
    ensures EncodeFields(start + fs).Err?
  {
    Regroup(start, fs, i);
    EncodeFieldsConcat(start + fs[..i] + [fs[i]], fs[i + 1..]);
  }

  lemma PrefixSnoc(start: seq<Field>, fs: seq<Field>, i: nat)
    requires i < |fs|
    ensures start + fs[..i] + [fs[i]] == start + fs[..i + 1]
  {
    assert fs[..i + 1] == fs[..i] + [fs[i]];
  }

  lemma WholeRunWritten(start: seq<Field>, fs: seq<Field>, written: seq<Field>, bytes: seq<u8>)
    requires written == start + fs[..|fs|] && Encodes(written, bytes)
    ensures EncodeFields(start + fs).Ok? && written == start + fs
  {
    assert fs[..|fs|] == fs;
  }

  /**
   * A run of `writeX` calls on one stream: true when every write succeeded
   * (all of `fs` then follows what was there); false when one threw, which
   * happens exactly when the run cannot be encoded.
   */
  method WriteAll(output: DataOutput, fs: seq<Field>) returns (ok: bool)
    requires output.Valid()
    modifies output
    ensures output.Valid()
    ensures ok <==> EncodeFields(old(output.written) + fs).Ok?
    ensures ok ==> output.written == old(output.written) + fs
  {
    var i := 0;
    while i < |fs|
      invariant 0 <= i <= |fs| && output.Valid()
      invariant output.written == old(output.written) + fs[..i]
    {
      ghost var before := output.written;
      var r := output.Write(fs[i]);
      if r.Err? {
        WriteInRunFailed(old(output.written), fs, i);
        return false;
      }
      PrefixSnoc(old(output.written), fs, i);
      i := i + 1;
    }
    WholeRunWritten(old(output.written), fs, output.written, output.bytes);
    return true;
  }
}

/**
 * The plugin-message side of the proxy: which channel and message type
 * reach which handler, the reads each request takes, what each request
 * changes and answers, the two responses, and the broadcasts. Every message
 * is a type string followed by typed fields, written with
 * `DataOutputStream` and read with `DataInputStream` (see DataStreams).
 */
module Messaging {
  import opened JavaBase
  import opened Float64
  import opened DataStreams
  import opened PlayerModel
  import opened PlayerStore
  import opened Managers
  import Uuids

  // The channels the proxy registers, by identifier.
  const GRIVYZOM_CHANNEL: JString := J("grivyzom:core")
  const ECONOMY_CHANNEL: JString := J("grivyzom:economy")
  const RANKUP_CHANNEL: JString := J("grivyzom:rankup")
  const PVP_CHANNEL: JString := J("grivyzom:pvp")

  // The message types.
  const GET_PLAYER_DATA: JString := J("GET_PLAYER_DATA")
  const UPDATE_COINS: JString := J("UPDATE_COINS")
  const UPDATE_GEMS: JString := J("UPDATE_GEMS")
  const UPDATE_RANK: JString := J("UPDATE_RANK")
  const PLAYER_DATA_RESPONSE: JString := J("PLAYER_DATA_RESPONSE")
  const GET_TOP_PLAYERS: JString := J("GET_TOP_PLAYERS")
  const SYNC_PLAYER_DATA: JString := J("SYNC_PLAYER_DATA")
  const TOP_PLAYERS_RESPONSE: JString := J("TOP_PLAYERS_RESPONSE")
  const PLAYER_UPDATE: JString := J("PLAYER_UPDATE")
  const MAINTENANCE: JString := J("MAINTENANCE")
  const START: JString := J("START")
  const END: JString := J("END")

  /** The three message handlers. */
  datatype Handler = EconomyHandler | RankupHandler | PvpHandler

  /** The handler a channel runs: core and economy share one; any other channel runs none. */
  function Route(channel: JString): Option<Handler> {
    if channel == GRIVYZOM_CHANNEL || channel == ECONOMY_CHANNEL then Some(EconomyHandler)
    else if channel == RANKUP_CHANNEL then Some(RankupHandler)
    else if channel == PVP_CHANNEL then Some(PvpHandler)
    else None
  }

  /** Each registered channel reaches its own family's handler. */
  lemma RouteTable()
    ensures Route(GRIVYZOM_CHANNEL) == Some(EconomyHandler) && Route(ECONOMY_CHANNEL) == Some(EconomyHandler)
    ensures Route(RANKUP_CHANNEL) == Some(RankupHandler) && Route(PVP_CHANNEL) == Some(PvpHandler)
  {
    assert |GRIVYZOM_CHANNEL| == 13 && |ECONOMY_CHANNEL| == 16 && |RANKUP_CHANNEL| == 15 && |PVP_CHANNEL| == 12;
  }

  /** The cases of the handlers' switches. */
  datatype RequestType =
    | GetPlayerDataType | UpdateCoinsType | UpdateGemsType | GetTopPlayersType
    | UpdateRankType | SyncPlayerDataType

  function TagOf(t: RequestType): JString {
    match t
    case GetPlayerDataType => GET_PLAYER_DATA
    case UpdateCoinsType => UPDATE_COINS
    case UpdateGemsType => UPDATE_GEMS
    case GetTopPlayersType => GET_TOP_PLAYERS
    case UpdateRankType => UPDATE_RANK
    case SyncPlayerDataType => SYNC_PLAYER_DATA
  }

  /** The handler whose switch has the case. */
  function HandlerOf(t: RequestType): Handler {
    match t
    case UpdateRankType => RankupHandler
    case SyncPlayerDataType => PvpHandler
    case _ => EconomyHandler
  }

  /**
   * A handler's switch on the message type; `None` when it has no case for
   * the type (no switch has a default branch).
   */
  function RequestTypeOf(h: Handler, tag: JString): (r: Option<RequestType>)
    ensures r.Some? ==> HandlerOf(r.value) == h && TagOf(r.value) == tag
  {
    match h
    case EconomyHandler =>
      if tag == GET_PLAYER_DATA then Some(GetPlayerDataType)
      else if tag == UPDATE_COINS then Some(UpdateCoinsType)
      else if tag == UPDATE_GEMS then Some(UpdateGemsType)
      else if tag == GET_TOP_PLAYERS then Some(GetTopPlayersType)
      else None
    case RankupHandler => if tag == UPDATE_RANK then Some(UpdateRankType) else None
    case PvpHandler => if tag == SYNC_PLAYER_DATA then Some(SyncPlayerDataType) else None
  }

  /** The six message types are six different strings. */
  lemma TagsDistinct(t: RequestType, u: RequestType)
    requires t != u
    ensures TagOf(t) != TagOf(u)
  {
    // GET_PLAYER_DATA and GET_TOP_PLAYERS, UPDATE_GEMS and UPDATE_RANK have equal lengths.
    assert GET_PLAYER_DATA[4] != GET_TOP_PLAYERS[4];
    assert UPDATE_GEMS[7] != UPDATE_RANK[7];
  }

  /** Every case is reached: its own handler finds it under its own type string. */
  lemma TypeOfTag(t: RequestType)
    ensures RequestTypeOf(HandlerOf(t), TagOf(t)) == Some(t)
  {
    match t
    case GetPlayerDataType =>
    case UpdateCoinsType => TagsDistinct(UpdateCoinsType, GetPlayerDataType);
    case UpdateGemsType =>
      TagsDistinct(UpdateGemsType, GetPlayerDataType);
      TagsDistinct(UpdateGemsType, UpdateCoinsType);
    case GetTopPlayersType =>
      TagsDistinct(GetTopPlayersType, GetPlayerDataType);
      TagsDistinct(GetTopPlayersType, UpdateCoinsType);
      TagsDistinct(GetTopPlayersType, UpdateGemsType);
    case UpdateRankType =>
    case SyncPlayerDataType =>
  }

  /** A message type of one family finds no case in another family's handler. */
  lemma OtherFamilyHasNoCase(t: RequestType, h: Handler)
    requires h != HandlerOf(t)
    ensures RequestTypeOf(h, TagOf(t)).None?
  {
    var r := RequestTypeOf(h, TagOf(t));
    if r.Some? {
      TagsDistinct(t, r.value);
    }
  }

  /** The reads each case takes after the type string, in order. */
  function FieldKinds(t: RequestType): seq<Kind> {
    match t
    case GetPlayerDataType => [KStr]
    case UpdateCoinsType => [KStr, KDouble]
    case UpdateGemsType => [KStr, KInt]
    case GetTopPlayersType => [KInt]
    case UpdateRankType => [KStr, KStr]
    case SyncPlayerDataType => [KStr]
  }

  /** A request as the handlers understand it. */
  datatype Request =
    | GetPlayerData(id: Uuids.Uuid)
    | UpdateCoins(id: Uuids.Uuid, coins: Double)
    | UpdateGems(id: Uuids.Uuid, gems: int32)
    | GetTopPlayers(limit: int32)
    | UpdateRank(id: Uuids.Uuid, rank: JString)
    | SyncPlayerData(id: Uuids.Uuid)

  function TypeOf(r: Request): RequestType {
    match r
    case GetPlayerData(_) => GetPlayerDataType
    case UpdateCoins(_, _) => UpdateCoinsType
    case UpdateGems(_, _) => UpdateGemsType
    case GetTopPlayers(_) => GetTopPlayersType
    case UpdateRank(_, _) => UpdateRankType
    case SyncPlayerData(_) => SyncPlayerDataType
  }

  /**
   * What one incoming plugin message comes to: nothing at all, an
   * IOException caught and logged, the IllegalArgumentException of
   * `UUID.fromString` (which the handler's `catch (IOException)` does not
   * catch), or a request to serve.
   */
  datatype Parsed =
    | Ignored
    | Failed(error: IoError)
    | BadUuid
    | Handle(request: Request)

  // The value of a field read with the matching kind (reads of the other kinds never give it).
  function AsStr(f: Field): JString { if f.Str? then f.s else [] }
  function AsInt(f: Field): int32 { if f.Int? then f.i else 0 }
  function AsLong(f: Field): int64 { if f.Long? then f.l else 0 }
  function AsDouble(f: Field): Double { if f.Dbl? then f.d else 0 }
  function AsBool(f: Field): bool { f.Bool? && f.b }

  /** The request the fields read for a case make; the UUID is parsed after all reads. */
  function Build(t: RequestType, fs: seq<Field>): Parsed
    requires |fs| == |FieldKinds(t)|
  {
    if t == GetTopPlayersType then Handle(GetTopPlayers(AsInt(fs[0])))
    else
      match Uuids.FromString(AsStr(fs[0]))
      case None => BadUuid
      case Some(id) =>
        Handle(match t
          case GetPlayerDataType => GetPlayerData(id)
          case UpdateCoinsType => UpdateCoins(id, AsDouble(fs[1]))
          case UpdateGemsType => UpdateGems(id, AsInt(fs[1]))
          case UpdateRankType => UpdateRank(id, AsStr(fs[1]))
          case SyncPlayerDataType => SyncPlayerData(id))
  }

  /** A handler's reads and switch, over what follows the type string. */
  function ParseBody(h: Handler, tag: JString, b: seq<u8>): Parsed {
    match RequestTypeOf(h, tag)
    case None => Ignored
    case Some(t) => ParseCase(t, b)
  }

  /** One case of a handler's switch: its reads, in order, then the request built from them. */
  function ParseCase(t: RequestType, b: seq<u8>): Parsed {
    match ReadFields(FieldKinds(t), b)
    case Err(e) => Failed(e)
    case Ok((fs, _)) => Build(t, fs)
  }

  /** A case whose first read throws fails with what that read threw. */
  lemma CaseFirstFails(t: RequestType, b: seq<u8>)
    requires ReadField(FieldKinds(t)[0], b).Err?
    ensures ParseCase(t, b) == Failed(ReadField(FieldKinds(t)[0], b).error)
  {
  }

  /** A case with one read that succeeds builds its request from that field. */
  lemma CaseOfOneRead(t: RequestType, b: seq<u8>, f: Field, n: nat)
    requires |FieldKinds(t)| == 1 && ReadsField(FieldKinds(t)[0], b, f, n)
    ensures ParseCase(t, b) == Build(t, [f])
  {
    var ks := FieldKinds(t);
    assert ks[1..] == [];
    assert ReadFields(ks[1..], b[n..]) == Ok(([], 0));
    assert [f] + [] == [f];
  }

  /** A case with two reads whose second read, from where the first stopped, throws. */
  lemma CaseSecondFails(t: RequestType, b: seq<u8>, f: Field, n: nat, rest: seq<u8>)
    requires |FieldKinds(t)| == 2 && ReadsField(FieldKinds(t)[0], b, f, n) && n <= |b| && b[n..] == rest
    requires ReadField(FieldKinds(t)[1], rest).Err?
    ensures ParseCase(t, b) == Failed(ReadField(FieldKinds(t)[1], rest).error)
  {
    var ks := FieldKinds(t);
    assert ks[1..][0] == ks[1];
    assert ReadFields(ks[1..], rest).Err? && ReadFields(ks[1..], rest).error == ReadField(ks[1], rest).error;
  }

  /** A case with two reads that both succeed builds its request from the two fields. */
  lemma CaseOfTwoReads(t: RequestType, b: seq<u8>, f: Field, n: nat, rest: seq<u8>, g: Field, m: nat)
    requires |FieldKinds(t)| == 2 && ReadsField(FieldKinds(t)[0], b, f, n) && n <= |b| && b[n..] == rest
    requires ReadsField(FieldKinds(t)[1], rest, g, m)
    ensures ParseCase(t, b) == Build(t, [f, g])
  {
    var ks := FieldKinds(t);
    assert ks[1..][0] == ks[1] && ks[1..][1..] == [];
    assert ReadFields(ks[1..][1..], rest[m..]) == Ok(([], 0));
    assert ReadFields(ks[1..], rest).Ok? && ReadFields(ks[1..], rest).value.0 == [g] + [];
    assert [f] + ([g] + []) == [f, g];
  }

  /**
   * `onPluginMessage`: a message that does not come from a backend server is
   * dropped; otherwise the type string is read first, whatever the channel,
   * and then the channel's handler, if any, runs.
   */
  function ParseMessage(fromServer: bool, channel: JString, data: seq<u8>): Parsed {
    if !fromServer then Ignored
    else
      match ReadField(KStr, data)
      case Err(e) => Failed(e)
      case Ok((tag, n)) =>
        match Route(channel)
        case None => Ignored
        case Some(h) => ParseBody(h, tag.s, data[n..])
  }

  /** On a channel with no handler the type string is still read, and nothing else happens. */
  lemma UnroutedChannelRunsNoHandler(channel: JString, data: seq<u8>)
    requires Route(channel).None?
    ensures ReadField(KStr, data).Ok? ==> ParseMessage(true, channel, data) == Ignored
    ensures ReadField(KStr, data).Err? ==> ParseMessage(true, channel, data) == Failed(ReadField(KStr, data).error)
  {
  }

  // ----- What a backend server sends -----

  /** The fields a request is sent as, after its type string. */
  function RequestFields(r: Request): (fs: seq<Field>)
    ensures Kinds(fs) == FieldKinds(TypeOf(r))
  {
    match r
    case GetPlayerData(id) => [Str(Uuids.ToString(id))]
    case UpdateCoins(id, c) => [Str(Uuids.ToString(id)), Dbl(c)]
    case UpdateGems(id, g) => [Str(Uuids.ToString(id)), Int(g)]
    case GetTopPlayers(l) => [Int(l)]
    case UpdateRank(id, rank) => [Str(Uuids.ToString(id)), Str(rank)]
    case SyncPlayerData(id) => [Str(Uuids.ToString(id))]
  }

  /** The whole message a request is sent as. */
  function RequestMessage(r: Request): seq<Field> {
    [Str(TagOf(TypeOf(r)))] + RequestFields(r)
  }

  /** The request as read back: a NaN coin amount comes back as the canonical NaN. */
  function CanonicalRequest(r: Request): Request {
    if r.UpdateCoins? then r.(coins := ToLongBits(r.coins)) else r
  }

  /** Building from read-back fields recovers the request (the UUID through its text form). */
  lemma BuildRequestFields(r: Request)
    ensures Build(TypeOf(r), Canonicals(RequestFields(r))) == Handle(CanonicalRequest(r))
  {
    match r
    case GetTopPlayers(l) =>
      assert Canonicals([Int(l)]) == [Int(l)];
    case GetPlayerData(id) =>
      BuildsWithId(GetPlayerDataType, [Str(Uuids.ToString(id))], id);
    case SyncPlayerData(id) =>
      BuildsWithId(SyncPlayerDataType, [Str(Uuids.ToString(id))], id);
    case UpdateCoins(id, c) =>
      BuildsWithSecond(UpdateCoinsType, id, Dbl(c), Dbl(ToLongBits(c)));
    case UpdateGems(id, g) =>
      BuildsWithSecond(UpdateGemsType, id, Int(g), Int(g));
    case UpdateRank(id, rank) =>
      BuildsWithSecond(UpdateRankType, id, Str(rank), Str(rank));
  }

  /** A case with a UUID builds its request once the UUID's text form reads back. */
  lemma BuildsWithId(t: RequestType, cs: seq<Field>, id: Uuids.Uuid)
    requires t != GetTopPlayersType && |cs| == |FieldKinds(t)|
    requires cs[0] == Str(Uuids.ToString(id))
    ensures Build(t, cs).Handle? && Build(t, cs).request.id == id
  {
    Uuids.FromStringToString(id);
  }

  /** The two fields of a case with a UUID and a value read back as the UUID's text and the canonical value. */
  lemma BuildsWithSecond(t: RequestType, id: Uuids.Uuid, f: Field, g: Field)
    requires t in {UpdateCoinsType, UpdateGemsType, UpdateRankType} && g == Canonical(f)
    ensures Canonicals([Str(Uuids.ToString(id)), f]) == [Str(Uuids.ToString(id)), g]
    ensures Build(t, [Str(Uuids.ToString(id)), g]).Handle? && Build(t, [Str(Uuids.ToString(id)), g]).request.id == id
  {
    assert [Str(Uuids.ToString(id)), f][1..] == [f];
    BuildsWithId(t, [Str(Uuids.ToString(id)), g], id);
  }

  /**
   * Any message whose type string is a case of the channel's handler, with
   * fields of that case's kinds, is read back field by field and built; the
   * bytes after it are never looked at.
   */
  lemma ParseEncodedMessage(t: RequestType, channel: JString, fs: seq<Field>, bytes: seq<u8>, rest: seq<u8>)
    requires Route(channel) == Some(HandlerOf(t))
    requires Kinds(fs) == FieldKinds(t)
    requires Encodes([Str(TagOf(t))] + fs, bytes)
    ensures ParseMessage(true, channel, bytes + rest) == Build(t, Canonicals(fs))
  {
    ConsParts(Str(TagOf(t)), fs);
    var head, tail := EncodeFieldsStep([Str(TagOf(t))] + fs, bytes);
    ReadEncodedField(Str(TagOf(t)), head, tail + rest);
    Regroup(bytes, head, tail, rest);
    ParseAfterTag(channel, HandlerOf(t), TagOf(t), bytes + rest, |head|, tail + rest);
    ReadEncodedFields(fs, tail, rest);
    BodyReads(t, tail + rest, Canonicals(fs), |tail|);
  }

  lemma ConsParts(f: Field, fs: seq<Field>)
    ensures ([f] + fs)[0] == f && ([f] + fs)[1..] == fs
  {
  }

  /** Once the type string is read, the rest of the message goes to the channel's handler. */
  lemma ParseAfterTag(channel: JString, h: Handler, tag: JString, b: seq<u8>, n: nat, others: seq<u8>)
    requires Route(channel) == Some(h) && ReadsField(KStr, b, Str(tag), n)
    requires n <= |b| && b[n..] == others
    ensures ParseMessage(true, channel, b) == ParseBody(h, tag, others)
  {
  }

  /** A case whose reads all succeed builds its request from the values read. */
  lemma BodyReads(t: RequestType, b: seq<u8>, vs: seq<Field>, n: nat)
    requires ReadsFields(FieldKinds(t), b, vs, n)
    ensures ParseBody(HandlerOf(t), TagOf(t), b) == Build(t, vs)
  {
    TypeOfTag(t);
    assert ParseCase(t, b) == Build(t, vs);
  }

  /** A case one of whose reads fails reports that failure. */
  lemma BodyFails(t: RequestType, b: seq<u8>, e: IoError)
    requires ReadFields(FieldKinds(t), b).Err? && ReadFields(FieldKinds(t), b).error == e
    ensures ParseBody(HandlerOf(t), TagOf(t), b) == Failed(e)
  {
    TypeOfTag(t);
    assert ParseCase(t, b) == Failed(e);
  }

  /**
   * A request sent on a channel of its own family arrives as itself, with
   * any bytes after it ignored.
   */
  lemma ParseRequest(r: Request, channel: JString, bytes: seq<u8>, rest: seq<u8>)
    requires Route(channel) == Some(HandlerOf(TypeOf(r)))
    requires Encodes(RequestMessage(r), bytes)
    ensures ParseMessage(true, channel, bytes + rest) == Handle(CanonicalRequest(r))
  {
    ParseEncodedMessage(TypeOf(r), channel, RequestFields(r), bytes, rest);
    BuildRequestFields(r);
  }

  /**
   * A UUID text `UUID.fromString` refuses makes the request throw
   * IllegalArgumentException once all of its fields have been read.
   */
  lemma ParseMalformedUuid(t: RequestType, channel: JString, text: JString, others: seq<Field>, bytes: seq<u8>)
    requires t != GetTopPlayersType
    requires Route(channel) == Some(HandlerOf(t))
    requires Kinds([Str(text)] + others) == FieldKinds(t)
    requires Uuids.FromString(text).None?
    requires Encodes([Str(TagOf(t))] + ([Str(text)] + others), bytes)
    ensures ParseMessage(true, channel, bytes) == BadUuid
  {
    var fs := [Str(text)] + others;
    ParseEncodedMessage(t, channel, fs, bytes, []);
    assert bytes + [] == bytes;
    CanonicalsAt(fs);
  }

  /** A message of one family sent on another family's channel runs no case. */
  lemma ParseOtherFamily(r: Request, channel: JString, bytes: seq<u8>)
    requires Route(channel).Some? && Route(channel) != Some(HandlerOf(TypeOf(r)))
    requires Encodes(RequestMessage(r), bytes)
    ensures ParseMessage(true, channel, bytes) == Ignored
  {
    var tag := TagOf(TypeOf(r));
    ConsParts(Str(tag), RequestFields(r));
    var head, tail := EncodeFieldsStep(RequestMessage(r), bytes);
    ReadEncodedField(Str(tag), head, tail);
    DropPrefix(head, tail);
    ParseAfterTag(channel, Route(channel).value, tag, head + tail, |head|, tail);
    OtherFamilyHasNoCase(TypeOf(r), Route(channel).value);
  }

  /** A message that does not come from a backend server is dropped whatever it holds. */
  lemma ParseFromClient(channel: JString, data: seq<u8>)
    ensures ParseMessage(false, channel, data) == Ignored
  {
  }

  /**
   * A request cut short anywhere makes one of its reads throw
   * EOFException, which is caught: nothing is served.
   */
  lemma ParseTruncated(r: Request, channel: JString, bytes: seq<u8>, p: nat)
    requires Route(channel) == Some(HandlerOf(TypeOf(r)))
    requires Encodes(RequestMessage(r), bytes) && p < |bytes|
    ensures ParseMessage(true, channel, bytes[..p]) == Failed(EOF)
  {
    var head, tail := EncodeFieldsStep(RequestMessage(r), bytes);
    if p < |head| {
      TruncatedInType(r, channel, head, tail, p);
    } else {
      TruncatedInFields(r, channel, head, tail, p);
    }
  }

  /** The cut falls inside the type string. */
  lemma TruncatedInType(r: Request, channel: JString, head: seq<u8>, tail: seq<u8>, p: nat)
    requires EncodesField(Str(TagOf(TypeOf(r))), head) && p < |head|
    ensures ParseMessage(true, channel, (head + tail)[..p]) == Failed(EOF)
  {
    PrefixOfConcat(head, tail, p);
    ReadFieldTruncated(Str(TagOf(TypeOf(r))), head, p);
  }

  /** The cut falls after the type string: a read of the case throws. */
  lemma TruncatedInFields(r: Request, channel: JString, head: seq<u8>, tail: seq<u8>, p: nat)
    requires Route(channel) == Some(HandlerOf(TypeOf(r)))
    requires EncodesField(Str(TagOf(TypeOf(r))), head) && Encodes(RequestFields(r), tail)
    requires |head| <= p < |head| + |tail|
    ensures ParseMessage(true, channel, (head + tail)[..p]) == Failed(EOF)
  {
    var t := TypeOf(r);
    var cut := tail[..p - |head|];
    PrefixOfConcat(head, tail, p);
    ReadEncodedField(Str(TagOf(t)), head, cut);
    DropPrefix(head, cut);
    ParseAfterTag(channel, HandlerOf(t), TagOf(t), head + cut, |head|, cut);
    ReadFieldsTruncated(RequestFields(r), tail, p - |head|);
    BodyFails(t, cut, EOF);
  }

  lemma DropPrefix(head: seq<u8>, others: seq<u8>)
    ensures (head + others)[|head|..] == others
  {
  }

  // ----- PLAYER_DATA_RESPONSE -----

  /** The text written for the last server: a null one is written as "". */
  function LastServerText(s: Option<JString>): JString {
    if s.Some? then s.value else []
  }

  /** `sendPlayerDataResponse`'s writes, in order. */
  function PlayerDataFields(d: PlayerData): seq<Field> {
    [Str(PLAYER_DATA_RESPONSE), Str(Uuids.ToString(d.uuid)), Str(d.username), Str(d.displayName),
     Dbl(d.coins), Int(d.gems), Str(d.rankId), Long(d.totalPlaytime), Bool(d.isOnline),
     Str(LastServerText(d.lastServer))]
  }

  const PLAYER_DATA_KINDS: seq<Kind> := [KStr, KStr, KStr, KStr, KDouble, KInt, KStr, KLong, KBool, KStr]

  /** What a backend server learns about a player from the response. */
  datatype PlayerView = PlayerView(
    uuid: Uuids.Uuid, username: JString, displayName: JString, coins: Double, gems: int32,
    rankId: JString, totalPlaytime: int64, isOnline: bool, lastServer: JString)

  /**
   * What the response carries of a record: a NaN balance arrives as the
   * canonical NaN, and a null last server as "" (so the two look alike).
   */
  function ViewOf(d: PlayerData): PlayerView {
    PlayerView(d.uuid, d.username, d.displayName, ToLongBits(d.coins), d.gems, d.rankId,
               d.totalPlaytime, d.isOnline, LastServerText(d.lastServer))
  }

  /** A receiver of PLAYER_DATA_RESPONSE reading the fields in the order they were written. */
  function ReadPlayerData(b: seq<u8>): Option<PlayerView> {
    match ReadFields(PLAYER_DATA_KINDS, b)
    case Err(_) => None
    case Ok((vs, _)) => ViewFrom(vs)
  }

  /** The view the ten fields read give, if the type matches and the UUID parses. */
  function ViewFrom(vs: seq<Field>): Option<PlayerView>
    requires |vs| == 10
  {
    if AsStr(vs[0]) != PLAYER_DATA_RESPONSE then None
    else
      match Uuids.FromString(AsStr(vs[1]))
      case None => None
      case Some(id) =>
        Some(PlayerView(id, AsStr(vs[2]), AsStr(vs[3]), AsDouble(vs[4]), AsInt(vs[5]), AsStr(vs[6]),
                        AsLong(vs[7]), AsBool(vs[8]), AsStr(vs[9])))
  }

  /** Reading the response back in write order recovers every value it carries. */
  lemma ReadPlayerDataResponse(d: PlayerData, bytes: seq<u8>)
    requires Encodes(PlayerDataFields(d), bytes)
    ensures ReadPlayerData(bytes) == Some(ViewOf(d))
  {
    Uuids.FromStringToString(d.uuid);
    ReadLayoutView(Uuids.ToString(d.uuid), d.username, d.displayName, d.coins, d.gems, d.rankId,
      d.totalPlaytime, d.isOnline, LastServerText(d.lastServer), bytes, d.uuid);
  }

  /** The reader's view of the ten fields, whatever their values. */
  lemma ReadLayoutView(text: JString, c: JString, e: JString, coins: Double, gems: int32, rank: JString,
                       pt: int64, on: bool, ls: JString, bytes: seq<u8>, id: Uuids.Uuid)
    requires Encodes([Str(PLAYER_DATA_RESPONSE), Str(text), Str(c), Str(e), Dbl(coins), Int(gems), Str(rank),
                      Long(pt), Bool(on), Str(ls)], bytes)
    requires Uuids.FromString(text) == Some(id)
    ensures ReadPlayerData(bytes) == Some(PlayerView(id, c, e, ToLongBits(coins), gems, rank, pt, on, ls))
  {
    ReadLayout(PLAYER_DATA_RESPONSE, text, c, e, coins, gems, rank, pt, on, ls, bytes);
    ViewFromLayout(text, c, e, coins, gems, rank, pt, on, ls, id);
  }

  lemma ViewFromLayout(text: JString, c: JString, e: JString, coins: Double, gems: int32, rank: JString,
                       pt: int64, on: bool, ls: JString, id: Uuids.Uuid)
    requires Uuids.FromString(text) == Some(id)
    ensures ViewFrom([Str(PLAYER_DATA_RESPONSE), Str(text), Str(c), Str(e), Dbl(ToLongBits(coins)), Int(gems),
                      Str(rank), Long(pt), Bool(on), Str(ls)])
      == Some(PlayerView(id, c, e, ToLongBits(coins), gems, rank, pt, on, ls))
  {
  }

  /** The response's ten fields, whatever their values, read back as written. */
  lemma ReadLayout(a: JString, b: JString, c: JString, e: JString, coins: Double, gems: int32, rank: JString,
                   pt: int64, on: bool, ls: JString, bytes: seq<u8>)
    requires Encodes([Str(a), Str(b), Str(c), Str(e), Dbl(coins), Int(gems), Str(rank), Long(pt), Bool(on), Str(ls)], bytes)
    ensures ReadsFields(PLAYER_DATA_KINDS, bytes,
      [Str(a), Str(b), Str(c), Str(e), Dbl(ToLongBits(coins)), Int(gems), Str(rank), Long(pt), Bool(on), Str(ls)], |bytes|)
  {
    var fs := [Str(a), Str(b), Str(c), Str(e), Dbl(coins), Int(gems), Str(rank), Long(pt), Bool(on), Str(ls)];
    ReadEncodedFields(fs, bytes, []);
    assert bytes + [] == bytes;
    LayoutKinds(fs);
    LayoutCanonicals(a, b, c, e, coins, gems, rank, pt, on, ls);
  }

  lemma LayoutKinds(fs: seq<Field>)
    requires |fs| == 10 && fs[0].Str? && fs[1].Str? && fs[2].Str? && fs[3].Str? && fs[4].Dbl? && fs[5].Int?
    requires fs[6].Str? && fs[7].Long? && fs[8].Bool? && fs[9].Str?
    ensures Kinds(fs) == PLAYER_DATA_KINDS
  {
    KindsAt(fs);
    assert Kinds(fs)[0] == KStr && Kinds(fs)[1] == KStr && Kinds(fs)[2] == KStr && Kinds(fs)[3] == KStr;
    assert Kinds(fs)[4] == KDouble && Kinds(fs)[5] == KInt && Kinds(fs)[6] == KStr;
    assert Kinds(fs)[7] == KLong && Kinds(fs)[8] == KBool && Kinds(fs)[9] == KStr;
  }

  lemma LayoutCanonicals(a: JString, b: JString, c: JString, e: JString, coins: Double, gems: int32, rank: JString,
                         pt: int64, on: bool, ls: JString)
    ensures Canonicals([Str(a), Str(b), Str(c), Str(e), Dbl(coins), Int(gems), Str(rank), Long(pt), Bool(on), Str(ls)])
      == [Str(a), Str(b), Str(c), Str(e), Dbl(ToLongBits(coins)), Int(gems), Str(rank), Long(pt), Bool(on), Str(ls)]
  {
    var fs := [Str(a), Str(b), Str(c), Str(e), Dbl(coins), Int(gems), Str(rank), Long(pt), Bool(on), Str(ls)];
    CanonicalsAt(fs);
    var vs := Canonicals(fs);
    assert vs[0] == Str(a) && vs[1] == Str(b) && vs[2] == Str(c) && vs[3] == Str(e);
    assert vs[4] == Dbl(ToLongBits(coins)) && vs[5] == Int(gems) && vs[6] == Str(rank);
    assert vs[7] == Long(pt) && vs[8] == Bool(on) && vs[9] == Str(ls);
  }

  // ----- TOP_PLAYERS_RESPONSE -----

  /** The five writes for one player of the list. */
  function EntryFields(d: PlayerData): seq<Field> {
    [Str(Uuids.ToString(d.uuid)), Str(d.username), Dbl(d.coins), Int(d.gems), Str(d.rankId)]
  }

  const ENTRY_KINDS: seq<Kind> := [KStr, KStr, KDouble, KInt, KStr]

  function EntriesFields(ds: seq<PlayerData>): seq<Field> {
    if ds == [] then [] else EntryFields(ds[0]) + EntriesFields(ds[1..])
  }

  /** The writes for a list are those for its first part and then those for the rest. */
  lemma {:induction false} EntriesFieldsAppend(a: seq<PlayerData>, b: seq<PlayerData>)
    ensures EntriesFields(a + b) == EntriesFields(a) + EntriesFields(b)
  {
    if a == [] {
      assert a + b == b;
    } else {
      assert (a + b)[0] == a[0] && (a + b)[1..] == a[1..] + b;
      EntriesFieldsAppend(a[1..], b);
      calc {
        EntriesFields(a + b);
        EntryFields(a[0]) + EntriesFields(a[1..] + b);
        EntryFields(a[0]) + (EntriesFields(a[1..]) + EntriesFields(b));
        (EntryFields(a[0]) + EntriesFields(a[1..])) + EntriesFields(b);
      }
    }
  }

  /** `List.size()`: the length, or `Integer.MAX_VALUE` for a longer list. */
  function ListSize(n: nat): int32 {
    if n < TWO_31 then n else TWO_31 - 1
  }

  /** `sendTopPlayersResponse`'s writes: the type, the list size, then each player's five fields in list order. */
  function TopPlayersFields(ds: seq<PlayerData>): seq<Field> {
    [Str(TOP_PLAYERS_RESPONSE), Int(ListSize(|ds|))] + EntriesFields(ds)
  }

  /** One entry of the list as a receiver sees it. */
  datatype Entry = Entry(uuid: Uuids.Uuid, username: JString, coins: Double, gems: int32, rankId: JString)

  /** What the list carries of a record: a NaN balance arrives as the canonical NaN. */
  function EntryOf(d: PlayerData): Entry {
    Entry(d.uuid, d.username, ToLongBits(d.coins), d.gems, d.rankId)
  }

  /** The entry five fields read give, if the UUID parses. */
  function EntryFrom(vs: seq<Field>): Option<Entry>
    requires |vs| == 5
  {
    match Uuids.FromString(AsStr(vs[0]))
    case None => None
    case Some(id) => Some(Entry(id, AsStr(vs[1]), AsDouble(vs[2]), AsInt(vs[3]), AsStr(vs[4])))
  }

  /** A receiver reading `count` entries in turn. */
  function ReadEntries(count: nat, b: seq<u8>): Option<seq<Entry>>
    decreases count
  {
    if count == 0 then Some([])
    else
      match ReadFields(ENTRY_KINDS, b)
      case Err(_) => None
      case Ok((vs, n)) =>
        match EntryFrom(vs)
        case None => None
        case Some(e) =>
          match ReadEntries(count - 1, b[n..])
          case None => None
          case Some(es) => Some([e] + es)
  }

  /** A receiver of TOP_PLAYERS_RESPONSE: the type, the count, then that many entries. */
  function ReadTopPlayers(b: seq<u8>): Option<seq<Entry>> {
    match ReadFields([KStr, KInt], b)
    case Err(_) => None
    case Ok((vs, n)) =>
      if AsStr(vs[0]) != TOP_PLAYERS_RESPONSE || AsInt(vs[1]) < 0 then None
      else ReadEntries(AsInt(vs[1]), b[n..])
  }

  /** Reading one entry at the front of `b` gives `e` and takes `n` bytes. */
  predicate ReadsEntry(b: seq<u8>, e: Entry, n: nat) {
    ReadFields(ENTRY_KINDS, b).Ok? && ReadFields(ENTRY_KINDS, b).value.1 == n
    && EntryFrom(ReadFields(ENTRY_KINDS, b).value.0) == Some(e)
  }

  /** Each player's five fields, read back, give that player's entry. */
  lemma ReadEntry(d: PlayerData, bytes: seq<u8>, rest: seq<u8>)
    requires Encodes(EntryFields(d), bytes)
    ensures ReadsEntry(bytes + rest, EntryOf(d), |bytes|)
  {
    var text := Uuids.ToString(d.uuid);
    EntryLayout(text, d.username, d.coins, d.gems, d.rankId, bytes, rest);
    Uuids.FromStringToString(d.uuid);
    EntryFromLayout(text, d.username, d.coins, d.gems, d.rankId, d.uuid);
  }

  /** Five entry fields, whatever their values, read back as written. */
  lemma EntryLayout(text: JString, name: JString, coins: Double, gems: int32, rank: JString, bytes: seq<u8>, rest: seq<u8>)
    requires Encodes([Str(text), Str(name), Dbl(coins), Int(gems), Str(rank)], bytes)
    ensures ReadsFields(ENTRY_KINDS, bytes + rest, [Str(text), Str(name), Dbl(ToLongBits(coins)), Int(gems), Str(rank)], |bytes|)
  {
    var fs := [Str(text), Str(name), Dbl(coins), Int(gems), Str(rank)];
    ReadEncodedFields(fs, bytes, rest);
    EntryKinds(fs);
    EntryCanonicals(text, name, coins, gems, rank);
  }

  lemma EntryKinds(fs: seq<Field>)
    requires |fs| == 5 && fs[0].Str? && fs[1].Str? && fs[2].Dbl? && fs[3].Int? && fs[4].Str?
    ensures Kinds(fs) == ENTRY_KINDS
  {
    KindsAt(fs);
    assert Kinds(fs)[0] == KStr && Kinds(fs)[1] == KStr && Kinds(fs)[2] == KDouble;
    assert Kinds(fs)[3] == KInt && Kinds(fs)[4] == KStr;
  }

  lemma EntryCanonicals(text: JString, name: JString, coins: Double, gems: int32, rank: JString)
    ensures Canonicals([Str(text), Str(name), Dbl(coins), Int(gems), Str(rank)])
      == [Str(text), Str(name), Dbl(ToLongBits(coins)), Int(gems), Str(rank)]
  {
    var fs := [Str(text), Str(name), Dbl(coins), Int(gems), Str(rank)];
    CanonicalsAt(fs);
    var vs := Canonicals(fs);
    assert vs[0] == Str(text) && vs[1] == Str(name) && vs[2] == Dbl(ToLongBits(coins));
    assert vs[3] == Int(gems) && vs[4] == Str(rank);
  }

  lemma EntryFromLayout(text: JString, name: JString, coins: Double, gems: int32, rank: JString, id: Uuids.Uuid)
    requires Uuids.FromString(text) == Some(id)
    ensures EntryFrom([Str(text), Str(name), Dbl(ToLongBits(coins)), Int(gems), Str(rank)])
      == Some(Entry(id, name, ToLongBits(coins), gems, rank))
  {
  }

  /** `b` holds `count` entries whose values are those of the players `ds`, in order. */
  predicate ReadsEntries(count: nat, b: seq<u8>, ds: seq<PlayerData>) {
    && ReadEntries(count, b).Some?
    && |ReadEntries(count, b).value| == count == |ds|
    && forall i | 0 <= i < count :: ReadEntries(count, b).value[i] == EntryOf(ds[i])
  }

  /** The entries, read back, come out in list order with the players' values. */
  lemma {:induction false} ReadEntriesBack(count: nat, ds: seq<PlayerData>, bytes: seq<u8>, rest: seq<u8>)
    requires count == |ds| && Encodes(EntriesFields(ds), bytes)
    ensures ReadsEntries(count, bytes + rest, ds)
    decreases count, 1
  {
    if count > 0 {
      ReadEntriesBackCons(count, ds, bytes, rest);
    }
  }

  /** The step of `ReadEntriesBack` for a non-empty list. */
  lemma {:induction false} ReadEntriesBackCons(count: nat, ds: seq<PlayerData>, bytes: seq<u8>, rest: seq<u8>)
    requires count == |ds| > 0 && Encodes(EntriesFields(ds), bytes)
    ensures ReadsEntries(count, bytes + rest, ds)
    decreases count, 0
  {
    var n, t := EntriesHead(ds, bytes, rest);
    ReadEntriesBack(count - 1, ds[1..], t, rest);
    EntriesStep(count, ds, bytes + rest, n, t + rest);
  }

  /** The first entry is read from the front of the list's bytes; the others' bytes follow. */
  lemma EntriesHead(ds: seq<PlayerData>, bytes: seq<u8>, rest: seq<u8>) returns (n: nat, t: seq<u8>)
    requires ds != [] && Encodes(EntriesFields(ds), bytes)
    ensures ReadsEntry(bytes + rest, EntryOf(ds[0]), n)
    ensures n <= |bytes + rest| && (bytes + rest)[n..] == t + rest
    ensures Encodes(EntriesFields(ds[1..]), t)
  {
    var h;
    h, t := SplitEntries(ds, bytes);
    n := |h|;
    ReadEntry(ds[0], h, t + rest);
    Regroup(bytes, h, t, rest);
  }

  lemma Regroup(bytes: seq<u8>, h: seq<u8>, t: seq<u8>, rest: seq<u8>)
    requires bytes == h + t
    ensures bytes + rest == h + (t + rest) && (bytes + rest)[|h|..] == t + rest
  {
    assert bytes + rest == h + (t + rest);
  }

  /** The bytes of a non-empty list are the first entry's bytes and then the others'. */
  lemma SplitEntries(ds: seq<PlayerData>, bytes: seq<u8>) returns (h: seq<u8>, t: seq<u8>)
    requires ds != [] && Encodes(EntriesFields(ds), bytes)
    ensures bytes == h + t
    ensures Encodes(EntryFields(ds[0]), h) && Encodes(EntriesFields(ds[1..]), t)
  {
    EncodeFieldsConcat(EntryFields(ds[0]), EntriesFields(ds[1..]));
    h := EncodeFields(EntryFields(ds[0])).value;
    t := EncodeFields(EntriesFields(ds[1..])).value;
  }

  /** A first entry followed by the others' entries is the whole list's entries. */
  lemma EntriesStep(count: nat, ds: seq<PlayerData>, b: seq<u8>, n: nat, others: seq<u8>)
    requires count == |ds| > 0 && ReadsEntry(b, EntryOf(ds[0]), n) && n <= |b| && b[n..] == others
    requires ReadsEntries(count - 1, others, ds[1..])
    ensures ReadsEntries(count, b, ds)
  {
    ReadEntriesCons(count, b, n, EntryOf(ds[0]), others);
    EntriesCons(ds, ReadEntries(count, b).value, ReadEntries(count - 1, others).value);
  }

  /** A list that is the first entry followed by the others' entries is the whole list's entries. */
  lemma EntriesCons(ds: seq<PlayerData>, es: seq<Entry>, tail: seq<Entry>)
    requires ds != [] && es == [EntryOf(ds[0])] + tail
    requires |tail| == |ds| - 1 && forall i | 0 <= i < |tail| :: tail[i] == EntryOf(ds[1..][i])
    ensures |es| == |ds| && forall i | 0 <= i < |ds| :: es[i] == EntryOf(ds[i])
  {
    forall i | 0 <= i < |ds|
      ensures es[i] == EntryOf(ds[i])
    {
      if i > 0 {
        assert ds[1..][i - 1] == ds[i];
      }
    }
  }

  /** Reading entries is reading the first and then the others. */
  lemma ReadEntriesCons(count: nat, b: seq<u8>, n: nat, e: Entry, others: seq<u8>)
    requires count > 0 && ReadsEntry(b, e, n) && b[n..] == others
    requires ReadEntries(count - 1, others).Some?
    ensures ReadEntries(count, b).Some?
    ensures ReadEntries(count, b).value == [e] + ReadEntries(count - 1, others).value
  {
  }

  /**
   * Reading the list back gives the count written first and then exactly
   * that many entries, in list order, with the players' values.
   */
  lemma ReadTopPlayersResponse(ds: seq<PlayerData>, bytes: seq<u8>)
    requires |ds| < TWO_31
    requires Encodes(TopPlayersFields(ds), bytes)
    ensures ReadTopPlayers(bytes).Some?
    ensures |ReadTopPlayers(bytes).value| == |ds|
    ensures forall i | 0 <= i < |ds| :: ReadTopPlayers(bytes).value[i] == EntryOf(ds[i])
  {
    var h, t := SplitTop(ds, bytes);
    HeaderLayout(|ds|, h, t);
    DropPrefix(h, t);
    TopAfterHeader(bytes, |h|, |ds|, t);
    ReadEntriesBack(|ds|, ds, t, []);
    NoRest(t);
  }

  lemma NoRest(t: seq<u8>)
    ensures t + [] == t
  {
  }

  /** The bytes of the list are the header's bytes and then the entries'. */
  lemma SplitTop(ds: seq<PlayerData>, bytes: seq<u8>) returns (h: seq<u8>, t: seq<u8>)
    requires |ds| < TWO_31 && Encodes(TopPlayersFields(ds), bytes)
    ensures bytes == h + t
    ensures Encodes([Str(TOP_PLAYERS_RESPONSE), Int(|ds|)], h) && Encodes(EntriesFields(ds), t)
  {
    EncodeFieldsConcat([Str(TOP_PLAYERS_RESPONSE), Int(ListSize(|ds|))], EntriesFields(ds));
    h := EncodeFields([Str(TOP_PLAYERS_RESPONSE), Int(ListSize(|ds|))]).value;
    t := EncodeFields(EntriesFields(ds)).value;
  }

  /** Once the header is read, the count it gives says how many entries follow. */
  lemma TopAfterHeader(b: seq<u8>, n: nat, count: int32, others: seq<u8>)
    requires ReadsFields([KStr, KInt], b, [Str(TOP_PLAYERS_RESPONSE), Int(count)], n)
    requires 0 <= count && n <= |b| && b[n..] == others
    ensures ReadTopPlayers(b) == ReadEntries(count, others)
  {
  }

  /** The type and the count, read back as written. */
  lemma HeaderLayout(count: int32, bytes: seq<u8>, rest: seq<u8>)
    requires Encodes([Str(TOP_PLAYERS_RESPONSE), Int(count)], bytes)
    ensures ReadsFields([KStr, KInt], bytes + rest, [Str(TOP_PLAYERS_RESPONSE), Int(count)], |bytes|)
  {
    var fs := [Str(TOP_PLAYERS_RESPONSE), Int(count)];
    ReadEncodedFields(fs, bytes, rest);
    HeaderKinds(fs);
    HeaderCanonicals(TOP_PLAYERS_RESPONSE, count);
  }

  lemma HeaderKinds(fs: seq<Field>)
    requires |fs| == 2 && fs[0].Str? && fs[1].Int?
    ensures Kinds(fs) == [KStr, KInt]
  {
    KindsAt(fs);
  }

  lemma HeaderCanonicals(tag: JString, count: int32)
    ensures Canonicals([Str(tag), Int(count)]) == [Str(tag), Int(count)]
  {
    CanonicalsAt([Str(tag), Int(count)]);
  }

  // ----- Broadcasts -----

  /** One `writeUTF` per string, in order. */
  function Strs(ss: seq<JString>): (fs: seq<Field>)
    ensures |fs| == |ss|
  {
    if ss == [] then [] else [Str(ss[0])] + Strs(ss[1..])
  }

  function StrKinds(n: nat): seq<Kind> {
    if n == 0 then [] else [KStr] + StrKinds(n - 1)
  }

  /** A run of strings is read back as `n` string reads and gives the same strings. */
  lemma {:induction false} StrsReadBack(ss: seq<JString>)
    ensures Kinds(Strs(ss)) == StrKinds(|ss|)
    ensures Canonicals(Strs(ss)) == Strs(ss)
  {
    if ss != [] {
      StrsReadBack(ss[1..]);
    }
  }

  /** The bytes a broadcast carries: the type, then each datum, in argument order. */
  function Payload(messageType: JString, data: seq<JString>): Result<seq<u8>, IoError> {
    EncodeFields(Strs([messageType] + data))
  }

  /** A broadcast payload, read back as strings, gives the type and the data in order. */
  lemma ReadPayload(messageType: JString, data: seq<JString>)
    requires Payload(messageType, data).Ok?
    ensures ReadsFields(StrKinds(1 + |data|), Payload(messageType, data).value,
                        Strs([messageType] + data), |Payload(messageType, data).value|)
  {
    var bytes := Payload(messageType, data).value;
    ReadEncodedFields(Strs([messageType] + data), bytes, []);
    assert bytes + [] == bytes;
    StrsReadBack([messageType] + data);
  }
}

/**
 * The player record: a UUID and a first-join time fixed at construction,
 * and balances, playtime and presence that its methods change in place.
 * Timestamps are milliseconds since the epoch (`Timestamp.getTime()`), and
 * the current time is a parameter wherever the record reads the clock.
 */
module PlayerModel {
  import opened JavaBase
  import opened Float64
  import Uuids

  /** Everything a player record holds, as one value (a row of `grivyzom_players`). */
  datatype PlayerData = PlayerData(
    uuid: Uuids.Uuid,
    username: JString,
    displayName: JString,
    firstJoin: int64,
    lastJoin: int64,
    lastServer: Option<JString>,
    totalPlaytime: int64,
    coins: Double,
    gems: int32,
    rankId: JString,
    permissions: Option<JString>,
    data: Option<JString>,
    isOnline: bool)

  const MS_PER_SECOND: int := 1000
  const MS_PER_MINUTE: int := 60 * 1000
  const MS_PER_HOUR: int := 60 * 60 * 1000
  const MS_PER_DAY: int := 24 * 60 * 60 * 1000

  const SPACE: u16 := 32
  const LETTER_H: u16 := 104
  const LETTER_M: u16 := 109
  const LETTER_S: u16 := 115

  /** Hours, minutes and seconds of a playtime in milliseconds, with Java's truncating `/` and `%`. */
  datatype Clock = Clock(hours: int, minutes: int, seconds: int)

  function PlaytimeClock(playtime: int64): Clock {
    var totalSeconds := JDiv(playtime, 1000);
    Clock(JDiv(totalSeconds, 3600), JDiv(JRem(totalSeconds, 3600), 60), JRem(totalSeconds, 60))
  }

  /** The three parts add back up to the whole seconds of the playtime, and minutes and seconds stay under 60. */
  lemma PlaytimeClockSplits(playtime: int64)
    ensures var c := PlaytimeClock(playtime);
      3600 * c.hours + 60 * c.minutes + c.seconds == JDiv(playtime, 1000)
    ensures var c := PlaytimeClock(playtime);
      playtime >= 0 ==> c.hours >= 0 && 0 <= c.minutes < 60 && 0 <= c.seconds < 60
  {
    var s := JDiv(playtime, 1000);
    var q, r := JDiv(s, 3600), JRem(s, 3600);
    assert q * 3600 + r == s;
    var m, sec := JDiv(r, 60), JRem(r, 60);
    assert m * 60 + sec == r;
    RemainderOfRemainder(s);
  }

  /** Taking seconds modulo 60 after modulo 3600 is the same as taking them modulo 60 at once. */
  lemma RemainderOfRemainder(s: int)
    ensures JRem(JRem(s, 3600), 60) == JRem(s, 60)
  {
    var k := JDiv(s, 3600) * 60;
    var r := JRem(s, 3600);
    assert s == k * 60 + r;
    if s >= 0 {
      assert k >= 0 && r >= 0;
      ModuloShift(k, r);
    } else {
      assert k <= 0 && r <= 0;
      assert -s == (-k) * 60 + (-r);
      ModuloShift(-k, -r);
    }
  }

  lemma ModuloShift(k: nat, r: nat)
    ensures (k * 60 + r) % 60 == r % 60
  {
    if k > 0 {
      ModuloShift(k - 1, r);
      assert k * 60 + r == (k - 1) * 60 + r + 60;
    }
  }

  function UnitSuffix(n: int, unit: u16): JString {
    Dec(n) + [unit]
  }

  /** `getFormattedPlaytime`: "Xh Ym Zs", "Ym Zs" or "Zs", whichever is the first with a positive leading part. */
  function FormatPlaytime(playtime: int64): JString {
    FormatClock(PlaytimeClock(playtime))
  }

  function FormatClock(c: Clock): JString {
    if c.hours > 0 then
      UnitSuffix(c.hours, LETTER_H) + [SPACE] + UnitSuffix(c.minutes, LETTER_M) + [SPACE] + UnitSuffix(c.seconds, LETTER_S)
    else if c.minutes > 0 then
      UnitSuffix(c.minutes, LETTER_M) + [SPACE] + UnitSuffix(c.seconds, LETTER_S)
    else
      UnitSuffix(c.seconds, LETTER_S)
  }

  /** One "<number><unit>" piece of a formatted playtime. */
  function ReadPiece(piece: JString, unit: u16): Option<int> {
    if |piece| >= 1 && piece[|piece| - 1] == unit then ParseDec(piece[..|piece| - 1]) else None
  }

  /** Reads a formatted playtime back as whole seconds: the inverse of `FormatPlaytime`. */
  function ReadPlaytime(text: JString): Option<int> {
    ReadPieces(Split(SPACE, text))
  }

  /** The seconds spelled by the space-separated pieces of a formatted playtime. */
  function ReadPieces(pieces: seq<JString>): Option<int> {
    if |pieces| == 3 then
      match (ReadPiece(pieces[0], LETTER_H), ReadPiece(pieces[1], LETTER_M), ReadPiece(pieces[2], LETTER_S))
      case (Some(h), Some(m), Some(s)) => Some(3600 * h + 60 * m + s)
      case _ => None
    else if |pieces| == 2 then
      match (ReadPiece(pieces[0], LETTER_M), ReadPiece(pieces[1], LETTER_S))
      case (Some(m), Some(s)) => Some(60 * m + s)
      case _ => None
    else if |pieces| == 1 then
      ReadPiece(pieces[0], LETTER_S)
    else None
  }

  lemma ReadUnitSuffix(n: int, unit: u16)
    requires !IsDigit(unit) && unit != MINUS && unit != SPACE
    ensures ReadPiece(UnitSuffix(n, unit), unit) == Some(n)
    ensures SPACE !in UnitSuffix(n, unit)
  {
    var d := Dec(n);
    var p := UnitSuffix(n, unit);
    assert p[..|p| - 1] == d;
    DecRoundTrip(n);
    DecCharacters(n);
    forall i | 0 <= i < |p|
      ensures p[i] != SPACE
    {
      if i < |d| {
        assert p[i] == d[i];
      }
    }
  }

  lemma SplitThree(a: JString, b: JString, c: JString)
    requires SPACE !in a && SPACE !in b && SPACE !in c
    ensures Split(SPACE, a + [SPACE] + b + [SPACE] + c) == [a, b, c]
  {
    SplitNoSeparator(c, SPACE);
    SplitAppend(SPACE, b, c);
    SplitAppend(SPACE, a, b + [SPACE] + c);
    assert a + [SPACE] + b + [SPACE] + c == a + [SPACE] + (b + [SPACE] + c);
  }

  lemma SplitTwo(a: JString, b: JString)
    requires SPACE !in a && SPACE !in b
    ensures Split(SPACE, a + [SPACE] + b) == [a, b]
  {
    SplitNoSeparator(b, SPACE);
    SplitAppend(SPACE, a, b);
  }

  /** A formatted non-negative playtime reads back as its whole number of seconds. */
  lemma ReadFormatPlaytime(playtime: int64)
    requires playtime >= 0
    ensures ReadPlaytime(FormatPlaytime(playtime)) == Some(playtime / 1000)
  {
    ClockReadsBack(playtime, PlaytimeClock(playtime));
  }

  /**
   * A negative playtime (`setTotalPlaytime` and `addPlaytime` accept any
   * `long`) has no positive part, so only its seconds are printed: the text
   * reads back as the seconds modulo 60, which is the whole playtime only
   * when it is above minus one minute.
   */
  lemma NegativePlaytimeShowsSeconds(playtime: int64)
    requires playtime < 0
    ensures var seconds := JRem(JDiv(playtime, 1000), 60);
      FormatPlaytime(playtime) == UnitSuffix(seconds, LETTER_S)
      && ReadPlaytime(FormatPlaytime(playtime)) == Some(seconds)
    ensures ReadPlaytime(FormatPlaytime(playtime)) == Some(JDiv(playtime, 1000)) <==> playtime > -60000
  {
    var c := PlaytimeClock(playtime);
    var s := JDiv(playtime, 1000);
    assert s <= 0;
    assert c.hours <= 0;
    assert JRem(s, 3600) <= 0;
    assert c.minutes <= 0;
    var ps := UnitSuffix(c.seconds, LETTER_S);
    ReadUnitSuffix(c.seconds, LETTER_S);
    SplitNoSeparator(ps, SPACE);
    if playtime > -60000 {
      assert -60 < s;
      assert JRem(s, 60) == s;
    } else {
      assert s <= -60;
    }
  }

  /** Minus one hour, one minute and forty seconds prints as "-40s". */
  lemma NegativePlaytimeExample()
    ensures ReadPlaytime(FormatPlaytime(-3700000)) == Some(-40)
  {
    NegativePlaytimeShowsSeconds(-3700000);
    assert JDiv(-3700000, 1000) == -3700;
  }

  lemma ClockReadsBack(playtime: int64, c: Clock)
    requires playtime >= 0 && c == PlaytimeClock(playtime)
    ensures ReadPlaytime(FormatClock(c)) == Some(playtime / 1000)
  {
    NonNegativeClock(playtime);
    ReadFormatClock(c);
  }

  lemma NonNegativeClock(playtime: int64)
    requires playtime >= 0
    ensures var c := PlaytimeClock(playtime);
      c.hours >= 0 && c.minutes >= 0 && 3600 * c.hours + 60 * c.minutes + c.seconds == playtime / 1000
  {
    PlaytimeClockSplits(playtime);
  }

  /** Whichever form a clock without negative hours or minutes takes, its pieces read back as its total seconds. */
  lemma ReadFormatClock(c: Clock)
    requires c.hours >= 0 && c.minutes >= 0
    ensures ReadPlaytime(FormatClock(c)) == Some(3600 * c.hours + 60 * c.minutes + c.seconds)
  {
    var ph, pm, ps := UnitSuffix(c.hours, LETTER_H), UnitSuffix(c.minutes, LETTER_M), UnitSuffix(c.seconds, LETTER_S);
    ReadUnitSuffix(c.hours, LETTER_H);
    ReadUnitSuffix(c.minutes, LETTER_M);
    ReadUnitSuffix(c.seconds, LETTER_S);
    var text := FormatClock(c);
    if c.hours > 0 {
      assert text == ph + [SPACE] + pm + [SPACE] + ps;
      SplitThree(ph, pm, ps);
      ReadSplitText(text, [ph, pm, ps], c);
    } else if c.minutes > 0 {
      assert text == pm + [SPACE] + ps;
      SplitTwo(pm, ps);
      ReadSplitText(text, [pm, ps], c);
    } else {
      assert text == ps;
      SplitNoSeparator(ps, SPACE);
      ReadSplitText(text, [ps], c);
    }
  }

  /**
   * A text that splits into the pieces of a clock, as many as its leading
   * zero parts leave, reads back as the clock's total seconds.
   */
  lemma ReadSplitText(text: JString, pieces: seq<JString>, c: Clock)
    requires Split(SPACE, text) == pieces
    requires 1 <= |pieces| <= 3
    requires |pieces| < 3 ==> c.hours == 0
    requires |pieces| < 2 ==> c.minutes == 0
    requires |pieces| == 3 ==> ReadPiece(pieces[0], LETTER_H) == Some(c.hours)
    requires |pieces| >= 2 ==> ReadPiece(pieces[|pieces| - 2], LETTER_M) == Some(c.minutes)
    requires ReadPiece(pieces[|pieces| - 1], LETTER_S) == Some(c.seconds)
    ensures ReadPlaytime(text) == Some(3600 * c.hours + 60 * c.minutes + c.seconds)
  {
  }

  /** The unit `getTimeSinceLastJoin` counts in. */
  datatype TimeUnit = Days | Hours | Minutes

  function UnitMillis(u: TimeUnit): int {
    match u
    case Days => MS_PER_DAY
    case Hours => MS_PER_HOUR
    case Minutes => MS_PER_MINUTE
  }

  /** The largest unit with a positive count, and that count (truncated), for an elapsed time. */
  function Elapsed(diff: int): (int, TimeUnit) {
    if JDiv(diff, MS_PER_DAY) > 0 then (JDiv(diff, MS_PER_DAY), Days)
    else if JDiv(diff, MS_PER_HOUR) > 0 then (JDiv(diff, MS_PER_HOUR), Hours)
    else (JDiv(diff, MS_PER_MINUTE), Minutes)
  }

  /**
   * For a non-negative elapsed time the count is the whole number of units
   * in it, and the unit is days from one day up, hours from one hour up, and
   * minutes below that.
   */
  lemma ElapsedBuckets(diff: int)
    requires diff >= 0
    ensures var (n, u) := Elapsed(diff);
      n * UnitMillis(u) <= diff < (n + 1) * UnitMillis(u)
    ensures Elapsed(diff).1 == Days <==> diff >= MS_PER_DAY
    ensures Elapsed(diff).1 == Hours <==> MS_PER_HOUR <= diff < MS_PER_DAY
    ensures Elapsed(diff).1 == Minutes <==> diff < MS_PER_HOUR
  {
    var (n, u) := Elapsed(diff);
    assert JDiv(diff, UnitMillis(u)) == diff / UnitMillis(u);
    assert n * UnitMillis(u) + diff % UnitMillis(u) == diff;
  }

  /**
   * A last join later than the clock (a negative elapsed time) is counted
   * in minutes, with a count that is never positive: zero within a minute,
   * and minus the whole minutes otherwise.
   */
  lemma ElapsedNegative(diff: int)
    requires diff < 0
    ensures Elapsed(diff).1 == Minutes
    ensures var n := Elapsed(diff).0;
      n <= 0 && n * MS_PER_MINUTE >= diff > (n - 1) * MS_PER_MINUTE
    ensures Elapsed(diff).0 == 0 <==> diff > -MS_PER_MINUTE
  {
    var n := Elapsed(diff).0;
    assert n == -((-diff) / MS_PER_MINUTE);
    assert (-n) * MS_PER_MINUTE <= -diff < (-n + 1) * MS_PER_MINUTE;
  }

  function UnitWord(u: TimeUnit): JString {
    match u
    case Days => J(" días")
    case Hours => J(" horas")
    case Minutes => J(" minutos")
  }

  const CONNECTED: JString := J("Conectado")
  const AGO: JString := J("Hace ")

  /** `getTimeSinceLastJoin` at time `now`; the `long` subtraction wraps. */
  function TimeSinceLastJoin(isOnline: bool, lastJoin: int64, now: int64): JString {
    if isOnline then CONNECTED
    else
      var (n, u) := Elapsed(Wrap64(now - lastJoin));
      AGO + Dec(n) + UnitWord(u)
  }

  /** `getTimeSinceFirstJoin` at time `now`: whole days, or whole hours under a day. */
  function TimeSinceFirstJoin(firstJoin: int64, now: int64): JString {
    var diff := Wrap64(now - firstJoin);
    if JDiv(diff, MS_PER_DAY) > 0 then Dec(JDiv(diff, MS_PER_DAY)) + J(" días")
    else Dec(JDiv(diff, MS_PER_HOUR)) + J(" horas")
  }

  /**
   * From one hour up, the first-join text is the last-join text of an
   * offline player without its "Hace " prefix: the same count in the same
   * unit.
   */
  lemma FirstJoinMatchesLastJoin(joined: int64, now: int64)
    requires Wrap64(now - joined) >= MS_PER_HOUR
    ensures AGO + TimeSinceFirstJoin(joined, now) == TimeSinceLastJoin(false, joined, now)
  {
    var diff := Wrap64(now - joined);
    if JDiv(diff, MS_PER_DAY) <= 0 {
      assert diff / MS_PER_HOUR >= 1;
    }
  }

  /** Under an hour the first-join text counts zero hours: it never drops to minutes. */
  lemma FirstJoinUnderAnHour(joined: int64, now: int64)
    requires 0 <= Wrap64(now - joined) < MS_PER_HOUR
    ensures TimeSinceFirstJoin(joined, now) == J("0 horas")
  {
    var diff := Wrap64(now - joined);
    assert JDiv(diff, MS_PER_DAY) == 0 && JDiv(diff, MS_PER_HOUR) == 0;
    assert Dec(0) == J("0");
    assert J("0") + J(" horas") == J("0 horas");
  }

  /**
   * The last-join text reads "Conectado" exactly when the player is online:
   * an offline player's text starts "Hace ", whatever the clock says.
   */
  lemma ConnectedExactlyWhenOnline(online: bool, lastJoin: int64, now: int64)
    ensures TimeSinceLastJoin(online, lastJoin, now) == CONNECTED <==> online
  {
    if !online {
      var t := TimeSinceLastJoin(false, lastJoin, now);
      assert t[0] == 72 && CONNECTED[0] == 67;
    }
  }

  /** A player record whose identity fields never change after construction. */
  class GrivyzomPlayer {
    const uuid: Uuids.Uuid
    var username: JString
    var displayName: JString
    const firstJoin: int64
    var lastJoin: int64
    var lastServer: Option<JString>
    var totalPlaytime: int64
    var coins: Double
    var gems: int32
    var rankId: JString
    var permissions: Option<JString>
    var data: Option<JString>
    var isOnline: bool

    /** The record's current contents. */
    function Data(): PlayerData
      reads this
    {
      PlayerData(uuid, username, displayName, firstJoin, lastJoin, lastServer, totalPlaytime,
                 coins, gems, rankId, permissions, data, isOnline)
    }

    /** The full constructor (also what `fromResultSet` builds from a row). */
    constructor (d: PlayerData)
      ensures Data() == d
    {
      uuid, username, displayName := d.uuid, d.username, d.displayName;
      firstJoin, lastJoin, lastServer := d.firstJoin, d.lastJoin, d.lastServer;
      totalPlaytime, coins, gems := d.totalPlaytime, d.coins, d.gems;
      rankId, permissions, data, isOnline := d.rankId, d.permissions, d.data, d.isOnline;
    }

    method AddCoins(amount: Double)
      modifies this
      ensures Data() == old(Data()).(coins := Add(old(coins), amount))
    {
      coins := Add(coins, amount);
    }

    /** Withdraws `amount` exactly when the balance covers it (`coins >= amount`, false on NaN). */
    method RemoveCoins(amount: Double) returns (ok: bool)
      modifies this
      ensures ok == old(HasEnoughCoins(amount))
      ensures ok ==> Data() == old(Data()).(coins := Sub(old(coins), amount))
      ensures !ok ==> Data() == old(Data())
    {
      if Ge(coins, amount) {
        coins := Sub(coins, amount);
        ok := true;
      } else {
        ok := false;
      }
    }

    /** `gems += amount`, wrapping as a Java `int`. */
    method AddGems(amount: int32)
      modifies this
      ensures Data() == old(Data()).(gems := Wrap32(old(gems) + amount))
      ensures -0x8000_0000 <= old(gems) + amount < 0x8000_0000 ==> gems == old(gems) + amount
    {
      gems := Wrap32(gems + amount);
    }

    /** Withdraws `amount` exactly when `gems >= amount`; the subtraction wraps as a Java `int`. */
    method RemoveGems(amount: int32) returns (ok: bool)
      modifies this
      ensures ok == old(HasEnoughGems(amount))
      ensures ok ==> Data() == old(Data()).(gems := Wrap32(old(gems) - amount))
      ensures ok && amount >= 0 ==> gems == old(gems) - amount && gems >= 0
      ensures !ok ==> Data() == old(Data())
    {
      if gems >= amount {
        gems := Wrap32(gems - amount);
        ok := true;
      } else {
        ok := false;
      }
    }

    /** `totalPlaytime += milliseconds`, wrapping as a Java `long`. */
    method AddPlaytime(milliseconds: int64)
      modifies this
      ensures Data() == old(Data()).(totalPlaytime := Wrap64(old(totalPlaytime) + milliseconds))
    {
      totalPlaytime := Wrap64(totalPlaytime + milliseconds);
    }

    /** `updateLastJoin()` at time `now`. */
    method UpdateLastJoin(now: int64)
      modifies this
      ensures Data() == old(Data()).(lastJoin := now)
    {
      lastJoin := now;
    }

    method SetUsername(name: JString)
      modifies this
      ensures Data() == old(Data()).(username := name)
    {
      username := name;
    }

    method SetDisplayName(name: JString)
      modifies this
      ensures Data() == old(Data()).(displayName := name)
    {
      displayName := name;
    }

    method SetLastJoin(time: int64)
      modifies this
      ensures Data() == old(Data()).(lastJoin := time)
    {
      lastJoin := time;
    }

    method SetTotalPlaytime(milliseconds: int64)
      modifies this
      ensures Data() == old(Data()).(totalPlaytime := milliseconds)
    {
      totalPlaytime := milliseconds;
    }

    method SetPermissions(value: Option<JString>)
      modifies this
      ensures Data() == old(Data()).(permissions := value)
    {
      permissions := value;
    }

    method SetData(value: Option<JString>)
      modifies this
      ensures Data() == old(Data()).(data := value)
    {
      data := value;
    }

    method SetLastServer(name: JString)
      modifies this
      ensures Data() == old(Data()).(lastServer := Some(name))
    {
      lastServer := Some(name);
    }

    method SetCoins(value: Double)
      modifies this
      ensures Data() == old(Data()).(coins := value)
    {
      coins := value;
    }

    method SetGems(value: int32)
      modifies this
      ensures Data() == old(Data()).(gems := value)
    {
      gems := value;
    }

    method SetRankId(rank: JString)
      modifies this
      ensures Data() == old(Data()).(rankId := rank)
    {
      rankId := rank;
    }

    method SetOnline(online: bool)
      modifies this
      ensures Data() == old(Data()).(isOnline := online)
    {
      isOnline := online;
    }

    predicate HasEnoughCoins(amount: Double)
      reads this
    {
      Ge(coins, amount)
    }

    predicate HasEnoughGems(amount: int32)
      reads this
    {
      gems >= amount
    }

    function FormattedPlaytime(): JString
      reads this
    {
      FormatPlaytime(totalPlaytime)
    }

    /** `equals`: the same UUID, whatever else differs. */
    predicate Equals(other: GrivyzomPlayer?) {
      other != null && other.uuid == uuid
    }

    function HashCode(): int32 {
      Uuids.HashCode(uuid)
    }
  }

  /**
   * Two players are equal exactly when the `uuid` key their rows are stored
   * under (the UUID's text) is the same, and equal players hash alike.
   */
  lemma EqualsMatchesStoredKey(a: GrivyzomPlayer, b: GrivyzomPlayer)
    ensures a.Equals(b) <==> Uuids.ToString(a.uuid) == Uuids.ToString(b.uuid)
    ensures a.Equals(b) ==> a.HashCode() == b.HashCode()
  {
    if Uuids.ToString(a.uuid) == Uuids.ToString(b.uuid) {
      Uuids.ToStringInjective(a.uuid, b.uuid);
    }
  }
}

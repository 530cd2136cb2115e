/** `COUNT_STATS`: every declaration, and what the tables hold once the fill job has run over real source data. */
module CountStats {
  import opened Times
  import opened CountTables
  import opened FillEngine
  import opened FillInvariant
  import opened FillRuns
  import opened FillTheorems
  import opened MinutesActive
  import opened CountQueries
  import opened MessageCounts
  import StreamCounts
  import opened ActiveUsers

  const TIMEDELTA_MAX := 365 * 1000 * DAY
  const MIN_INTERVAL_LENGTH := 15 * 60

  // ----- The remaining queries -----

  predicate JoinedWithin(src: Source, u: int, a: int, b: int) {
    && u in src.users && src.users[u].isActive && a <= src.users[u].dateJoined < b
    && src.users[u].realm in src.realmCreated && src.realmCreated[src.users[u].realm] < b
  }

  function JoinedKey(src: Source, u: int, b: int): Key {
    Key(RealmCount, UserOf(src, u).realm, ActiveUsersIsBotDay, IsBot(UserOf(src, u).isBot), b)
  }

  /** `count_user_by_realm_query`. */
  function JoinedRows(src: Source, a: int, b: int): Rows {
    map k | k in (set u | u in src.users && JoinedWithin(src, u, a, b) :: JoinedKey(src, u, b))
      :: Cell(k.owner, |set u | u in src.users && JoinedWithin(src, u, a, b) && JoinedKey(src, u, b) == k|)
  }

  function SeenWithin(src: Source, a: int, b: int): set<int> {
    set iv | iv in src.intervals && iv.end >= a && iv.start < b :: iv.user
  }

  /** `check_useractivityinterval_by_user_query`. */
  function ActivityRows(src: Source, p: Property, a: int, b: int): Rows {
    map k | k in (set u | u in SeenWithin(src, a, b) :: Key(UserCount, u, p, NoSubgroup, b)) ::
        Cell(OwnersRealm(src)(k), 1)
  }

  /** The pairs of rows joined on the user: audited as a human, and active within fifteen days. */
  function HumanPairs(slices: seq<Rows>): set<(Key, Key)> {
    if |slices| != 2 then {}
    else
      set x, y | x in slices[0] && y in slices[1]
        && x.table == UserCount && x.subgroup == IsBot(false) && y.table == UserCount && x.owner == y.owner :: (x, y)
  }

  function HumanKey(slices: seq<Rows>, pair: (Key, Key), t: int): Key {
    Key(RealmCount, if |slices| == 2 && pair.0 in slices[0] then slices[0][pair.0].realm
                    else 0, RealmActiveHumansDay, NoSubgroup, t)
  }

  /** `count_realm_active_humans_query`. */
  function ActiveHumanRows(t: int, slices: seq<Rows>): Rows {
    map k | k in (set pair | pair in HumanPairs(slices) :: HumanKey(slices, pair, t))
      :: Cell(k.owner, |set pair | pair in HumanPairs(slices) && HumanKey(slices, pair, t) == k|)
  }

  // ----- The declarations -----

  ghost function Declaration(src: Source, p: Property): CountStat {
    match p
    case MessagesSentIsBotHour =>
      CountStat(UserCount, Hourly, HOUR,
                Pulled((a: int, b: int) => Batch(MessageRows(src, p, SenderIsBot(src), a, b), false)))
    case MessagesSentMessageTypeDay =>
      CountStat(UserCount, Daily, DAY, Pulled((a: int, b: int) => Batch(MessageTypeRows(src, a, b), false)))
    case MessagesSentClientDay =>
      CountStat(UserCount, Daily, DAY,
                Pulled((a: int, b: int) => Batch(MessageRows(src, p, SendingClient(), a, b), false)))
    case MessagesInStreamIsBotDay =>
      CountStat(StreamCount, Daily, DAY, Pulled((a: int, b: int) => Batch(StreamCounts.StreamRows(src, a, b), false)))
    case ActiveUsersAuditIsBotDay =>
      CountStat(UserCount, Daily, DAY, Pulled((a: int, b: int) => Batch(AuditRows(src, b), AuditRepeats(src, b))))
    case ActiveUsersLogIsBotDay => CountStat(RealmCount, Daily, DAY, Logged)
    case ActiveUsersIsBotDay =>
      CountStat(RealmCount, Daily, TIMEDELTA_MAX, Pulled((a: int, b: int) => Batch(JoinedRows(src, a, b), false)))
    case MessagesReadHour => CountStat(UserCount, Hourly, HOUR, Logged)
    case MessagesReadInteractionsHour => CountStat(UserCount, Hourly, HOUR, Logged)
    case OneDayActivesDay => Actives(src, p, 1)
    case SevenDayActivesDay => Actives(src, p, 7)
    case FifteenDayActivesDay => Actives(src, p, 15)
    case MinutesActiveDay =>
      CountStat(UserCount, Daily, DAY,
        Pulled((a: int, b: int) => Batch(MinutesRows(src.intervals, (u: int) => UserOf(src, u).realm, p, a, b), false)))
    case InvitesSentDay => CountStat(RealmCount, Daily, DAY, Logged)
    case RealmActiveHumansDay =>
      CountStat(RealmCount, Daily, DAY,
        Dependent((t: int, slices: seq<Rows>) => Batch(ActiveHumanRows(t, slices), false),
                  [ActiveUsersAuditIsBotDay, FifteenDayActivesDay]))
  }

  ghost function Actives(src: Source, p: Property, days: nat): CountStat {
    CountStat(UserCount, Daily, days * DAY - MIN_INTERVAL_LENGTH,
      Pulled((a: int, b: int) => Batch(ActivityRows(src, p, a, b), false)))
  }

  ghost function CountStats(epoch: int, src: Source): Config {
    Config(epoch, (p: Property) => Declaration(src, p))
  }

  /** The declarations meet everything the fill engine asks, so all its theorems hold of them. */
  lemma Declarations(epoch: int, src: Source)
    requires epoch % DAY == 0
    requires forall t :: !AuditRepeats(src, t)
    ensures ValidConfig(CountStats(epoch, src))
  {
    var c := CountStats(epoch, src);
    forall p
      ensures ValidStat(c, p)
    {
      DeclarationValid(epoch, src, p);
    }
  }

  lemma DeclarationValid(epoch: int, src: Source, p: Property)
    requires forall t :: !AuditRepeats(src, t)
    ensures ValidStat(CountStats(epoch, src), p)
  {
    if p.MessagesSentMessageTypeDay? {
      MessageTypesValid(epoch, src);
    } else if p in [MessagesSentIsBotHour, MessagesSentClientDay] {
      MessageStatsValid(epoch, src, p);
    } else if p.MessagesInStreamIsBotDay? {
      StreamStatValid(epoch, src);
    } else if p in [MinutesActiveDay, ActiveUsersIsBotDay] {
      OtherStatsValid(epoch, src, p);
    } else if p in [ActiveUsersAuditIsBotDay, OneDayActivesDay, SevenDayActivesDay, FifteenDayActivesDay,
                    RealmActiveHumansDay] {
      UserStatsValid(epoch, src, p);
    } else {
      assert Declaration(src, p).collector.Logged?;
    }
  }

  lemma MessageTypesValid(epoch: int, src: Source)
    ensures ValidStat(CountStats(epoch, src), MessagesSentMessageTypeDay)
  {
    var c := CountStats(epoch, src);
    forall a, b
      ensures ValidBatch(c, MessagesSentMessageTypeDay, b, c.stats(MessagesSentMessageTypeDay).collector.query(a, b))
    {
      MessageTypesFlatten(src, a, b);
    }
  }

  lemma MessageStatsValid(epoch: int, src: Source, p: Property)
    requires p in [MessagesSentIsBotHour, MessagesSentClientDay]
    ensures ValidStat(CountStats(epoch, src), p)
  {
  }

  lemma StreamStatValid(epoch: int, src: Source)
    ensures ValidStat(CountStats(epoch, src), MessagesInStreamIsBotDay)
  {
  }

  lemma OtherStatsValid(epoch: int, src: Source, p: Property)
    requires p in [MinutesActiveDay, ActiveUsersIsBotDay]
    ensures ValidStat(CountStats(epoch, src), p)
  {
  }

  lemma UserStatsValid(epoch: int, src: Source, p: Property)
    requires forall t :: !AuditRepeats(src, t)
    requires p in [ActiveUsersAuditIsBotDay, OneDayActivesDay, SevenDayActivesDay, FifteenDayActivesDay,
                   RealmActiveHumansDay]
    ensures ValidStat(CountStats(epoch, src), p)
  {
  }

  // ----- What the tables hold -----

  /** After any history the stored rows of a filled time are the pull's own rows. */
  lemma StoredRows(c: Config, history: seq<Action>, p: Property, t: int)
    requires ValidConfig(c) && !IsLogged(c, p) && FilledAt(c, After(c, history).run.db, p, t)
    ensures InTable(Slice(After(c, history).run.db.rows, p, t), c.stats(p).output) == Base(c, p, t)
    ensures forall k: Key :: k.property == p && k.endTime == t && k.table == c.stats(p).output ==>
              ValueAt(After(c, history).run.db.rows, k) == ValueAt(Base(c, p, t), k)
  {
    CrashInvariant(c, history, p, t);
    BasePart(c, p, t);
    var rows := After(c, history).run.db.rows;
    forall k: Key | k.property == p && k.endTime == t && k.table == c.stats(p).output
      ensures ValueAt(rows, k) == ValueAt(Base(c, p, t), k)
    {
      assert k in rows <==> k in InTable(Slice(rows, p, t), k.table);
    }
  }

  function StoredHour(rows: Rows, src: Source, u: int): int -> int {
    h => ValueAt(rows, HourKey(src, u, h))
  }

  lemma HourFilled(epoch: int, src: Source, db: Db, t: int, h: int)
    requires FilledAt(CountStats(epoch, src), db, MessagesSentIsBotHour, t)
    requires epoch < h <= t && h % HOUR == 0
    ensures FilledAt(CountStats(epoch, src), db, MessagesSentIsBotHour, h)
  {
    MessageBases(epoch, src, t);
  }

  lemma MessageBases(epoch: int, src: Source, t: int)
    ensures var c := CountStats(epoch, src);
            && Base(c, MessagesSentIsBotHour, t) == HourRows(src, t) && Step(c, MessagesSentIsBotHour) == HOUR
            && Base(c, MessagesSentClientDay, t) == ClientRows(src, t)
            && Base(c, MessagesSentMessageTypeDay, t) == MessageTypeRows(src, t - DAY, t)
            && (forall p :: p in [MessagesSentIsBotHour, MessagesSentClientDay, MessagesSentMessageTypeDay] ==>
                  c.stats(p).output == UserCount && !IsLogged(c, p))
  {
  }

  lemma StoredHourIsPulled(epoch: int, src: Source, history: seq<Action>, u: int, h: int)
    requires ValidConfig(CountStats(epoch, src))
    requires FilledAt(CountStats(epoch, src), After(CountStats(epoch, src), history).run.db, MessagesSentIsBotHour, h)
    ensures ValueAt(After(CountStats(epoch, src), history).run.db.rows, HourKey(src, u, h))
         == ValueAt(HourRows(src, h), HourKey(src, u, h))
  {
    MessageBases(epoch, src, h);
    StoredRows(CountStats(epoch, src), history, MessagesSentIsBotHour, h);
  }

  lemma StoredHoursArePulled(epoch: int, src: Source, history: seq<Action>, u: int, t: int)
    requires ValidConfig(CountStats(epoch, src)) && t % DAY == 0 && t - DAY >= epoch
    requires FilledAt(CountStats(epoch, src), After(CountStats(epoch, src), history).run.db, MessagesSentIsBotHour, t)
    ensures HoursBack(StoredHour(After(CountStats(epoch, src), history).run.db.rows, src, u), t, 24)
         == HoursBack(PulledHour(src, u), t, 24)
  {
    var db := After(CountStats(epoch, src), history).run.db;
    CoarserBoundary(t, DAY, HOUR);
    forall h | h % HOUR == 0 && t - 24 * HOUR < h <= t
      ensures StoredHour(db.rows, src, u)(h) == PulledHour(src, u)(h)
    {
      HourFilled(epoch, src, db, t, h);
      StoredHourIsPulled(epoch, src, history, u, h);
    }
    SameHoursBack(StoredHour(db.rows, src, u), PulledHour(src, u), t, 24);
  }

  /** The three stored totals of one user's day. */
  ghost function StoredHours(rows: Rows, src: Source, u: int, t: int): int {
    HoursBack(StoredHour(rows, src, u), t, 24)
  }

  ghost function StoredDay(rows: Rows, p: Property, u: int, t: int): int {
    OwnerTotal(InTable(Slice(rows, p, t), UserCount), u)
  }

  /**
   * Whatever crashed on the way: once a day is filled, a user's stored message-type rows total the messages the user
   * sent that day, and the 24 stored hourly values and the stored client rows agree with them exactly when the user had
   * joined before the end of the hour of every message of the day.
   */
  lemma StoredDayAgreement(epoch: int, src: Source, history: seq<Action>, u: int, t: int)
    requires ValidConfig(CountStats(epoch, src)) && t % DAY == 0 && t - DAY >= epoch
    requires var c := CountStats(epoch, src);
             forall p :: p in [MessagesSentIsBotHour, MessagesSentMessageTypeDay, MessagesSentClientDay] ==>
               FilledAt(c, After(c, history).run.db, p, t)
    ensures var rows := After(CountStats(epoch, src), history).run.db.rows;
            var types := StoredDay(rows, MessagesSentMessageTypeDay, u, t);
            && types == Count(src.messages, SentBy(u, t - DAY, t))
            && ((StoredHours(rows, src, u, t) == types && StoredDay(rows, MessagesSentClientDay, u, t) == types)
                <==> JoinedInTime(src, u, t))
  {
    var c := CountStats(epoch, src);
    MessageBases(epoch, src, t);
    StoredHoursArePulled(epoch, src, history, u, t);
    StoredRows(c, history, MessagesSentClientDay, t);
    StoredRows(c, history, MessagesSentMessageTypeDay, t);
    DayAgreement(src, u, t);
  }

  lemma StreamBase(epoch: int, src: Source, t: int)
    ensures var c := CountStats(epoch, src);
            && Base(c, MessagesInStreamIsBotDay, t) == StreamCounts.StreamRows(src, t - DAY, t)
            && c.stats(MessagesInStreamIsBotDay).output == StreamCount && !IsLogged(c, MessagesInStreamIsBotDay)
  {
  }

  /** After any history, the stored rows by stream and by type of a filled day agree under the same condition. */
  lemma StoredStreamAgreement(epoch: int, src: Source, history: seq<Action>, t: int)
    requires ValidConfig(CountStats(epoch, src))
    requires var c := CountStats(epoch, src);
             && FilledAt(c, After(c, history).run.db, MessagesInStreamIsBotDay, t)
             && FilledAt(c, After(c, history).run.db, MessagesSentMessageTypeDay, t)
    ensures var rows := After(CountStats(epoch, src), history).run.db.rows;
            StreamCounts.Total(InTable(Slice(rows, MessagesInStreamIsBotDay, t), StreamCount), StreamCounts.AnyKey())
              == StreamCounts.Total(InTable(Slice(rows, MessagesSentMessageTypeDay, t), UserCount),
                                    StreamCounts.StreamKinds())
            <==> StreamCounts.StreamsKnown(src, t - DAY, t)
  {
    var c := CountStats(epoch, src);
    StreamBase(epoch, src, t);
    MessageBases(epoch, src, t);
    StoredRows(c, history, MessagesInStreamIsBotDay, t);
    StoredRows(c, history, MessagesSentMessageTypeDay, t);
    StreamCounts.StreamAgreement(src, t - DAY, t);
  }

  lemma ActivesBase(epoch: int, src: Source, t: int)
    ensures var c := CountStats(epoch, src);
            && Base(c, OneDayActivesDay, t) == ActivityRows(src, OneDayActivesDay, t - (DAY - MIN_INTERVAL_LENGTH), t)
            && Base(c, SevenDayActivesDay, t) ==
                ActivityRows(src, SevenDayActivesDay, t - (7 * DAY - MIN_INTERVAL_LENGTH), t)
            && Base(c, FifteenDayActivesDay, t) ==
                ActivityRows(src, FifteenDayActivesDay, t - (15 * DAY - MIN_INTERVAL_LENGTH), t)
            && forall p :: p in [OneDayActivesDay, SevenDayActivesDay, FifteenDayActivesDay] ==>
                 c.stats(p).output == UserCount && !IsLogged(c, p)
  {
  }

  function ActivesKey(p: Property, u: int, t: int): Key {
    Key(UserCount, u, p, NoSubgroup, t)
  }

  /** A user seen in a shorter window is seen in every longer one; a stored row says the user was seen. */
  lemma ActivityWidens(src: Source, p: Property, q: Property, a: int, earlier: int, u: int, t: int)
    requires earlier <= a
    ensures ActivesKey(p, u, t) in ActivityRows(src, p, a, t) <==> u in SeenWithin(src, a, t)
    ensures u in SeenWithin(src, a, t) ==> u in SeenWithin(src, earlier, t)
  {
  }

  /** After any history, whoever has a stored one-day row of a filled day has the seven-day and the fifteen-day row. */
  lemma StoredActivesNest(epoch: int, src: Source, history: seq<Action>, u: int, t: int)
    requires ValidConfig(CountStats(epoch, src))
    requires var c := CountStats(epoch, src);
             forall p :: p in [OneDayActivesDay, SevenDayActivesDay, FifteenDayActivesDay] ==>
               FilledAt(c, After(c, history).run.db, p, t)
    ensures var rows := After(CountStats(epoch, src), history).run.db.rows;
            && (ActivesKey(OneDayActivesDay, u, t) in rows ==> ActivesKey(SevenDayActivesDay, u, t) in rows)
            && (ActivesKey(SevenDayActivesDay, u, t) in rows ==> ActivesKey(FifteenDayActivesDay, u, t) in rows)
  {
    var c := CountStats(epoch, src);
    var rows := After(c, history).run.db.rows;
    var one, seven, fifteen := t - (DAY - MIN_INTERVAL_LENGTH), t - (7 * DAY - MIN_INTERVAL_LENGTH),
        t - (15 * DAY - MIN_INTERVAL_LENGTH);
    ActivesBase(epoch, src, t);
    ActivityWidens(src, OneDayActivesDay, SevenDayActivesDay, one, seven, u, t);
    ActivityWidens(src, SevenDayActivesDay, FifteenDayActivesDay, seven, fifteen, u, t);
    ActivityWidens(src, FifteenDayActivesDay, FifteenDayActivesDay, fifteen, fifteen, u, t);
    forall p | p in [OneDayActivesDay, SevenDayActivesDay, FifteenDayActivesDay]
      ensures ActivesKey(p, u, t) in rows <==> ActivesKey(p, u, t) in Base(c, p, t)
    {
      StoredRows(c, history, p, t);
      assert ActivesKey(p, u, t) in rows <==> ActivesKey(p, u, t) in InTable(Slice(rows, p, t), UserCount);
    }
  }

  function StoredBuckets(rows: Rows, realm: int, bot: bool, t: int, n: nat): int {
    if n == 0 then 0
    else StoredBuckets(rows, realm, bot, t, n - 1) + ValueAt(rows, LogBucket(realm, bot, t - (n - 1) * DAY))
  }

  lemma {:induction false} StoredBucketsAre(c: Config, history: seq<Action>, src: Source, realm: int, bot: bool, t: int,
                                            n: nat)
    requires ValidConfig(c) && LogsPerRealmDay(c)
    requires forall k: Key :: k.property == ActiveUsersLogIsBotDay ==>
               LoggedSum(c, After(c, history).applied, k) == LoggedSum(c, LogOf(src, src.audit), k)
    ensures StoredBuckets(After(c, history).run.db.rows, realm, bot, t, n)
         == BucketsTotal(c, LogOf(src, src.audit), realm, bot, t, n)
  {
    if n > 0 {
      StoredBucketsAre(c, history, src, realm, bot, t, n - 1);
      LoggedRowsAreSums(c, history, LogBucket(realm, bot, t - (n - 1) * DAY));
    }
  }

  /**
   * Once every audit event has been logged and its increment applied, the stored RealmCount rows of the log, summed up
   * to day `t`, exceed the stored audit row of day `t` by the net change of the events exactly at `t`.
   */
  lemma StoredAuditAgainstLog(epoch: int, src: Source, history: seq<Action>, realm: int, bot: bool, t: int, n: nat)
    requires epoch % DAY == 0 && Alternating(src.audit) && t % DAY == 0
    requires forall r :: r in src.audit ==> t - n * DAY < r.eventTime
    requires var c := CountStats(epoch, src);
             && FilledAt(c, After(c, history).run.db, ActiveUsersAuditIsBotDay, t)
             && forall k: Key :: k.property == ActiveUsersLogIsBotDay ==>
                  LoggedSum(c, After(c, history).applied, k) == LoggedSum(c, LogOf(src, src.audit), k)
    ensures var rows := After(CountStats(epoch, src), history).run.db.rows;
            StoredBuckets(rows, realm, bot, t, n)
              == ValueAt(rows, Key(RealmCount, realm, ActiveUsersAuditIsBotDay, IsBot(bot), t))
               + Net(src.audit, CountedAt(src, realm, bot, t))
  {
    var c := CountStats(epoch, src);
    forall u
      ensures !AuditRepeats(src, u)
    {
      AuditNeverRepeats(src, u);
    }
    Declarations(epoch, src);
    StoredBucketsAre(c, history, src, realm, bot, t, n);
    AuditAgainstLog(c, src, realm, bot, t, n);
    StoredAudit(epoch, src, history, realm, bot, t);
  }

  lemma StoredAudit(epoch: int, src: Source, history: seq<Action>, realm: int, bot: bool, t: int)
    requires ValidConfig(CountStats(epoch, src))
    requires var c := CountStats(epoch, src);
             FilledAt(c, After(c, history).run.db, ActiveUsersAuditIsBotDay, t)
    ensures ValueAt(After(CountStats(epoch, src), history).run.db.rows,
                    Key(RealmCount, realm, ActiveUsersAuditIsBotDay, IsBot(bot), t))
         == AuditValue(src, realm, bot, t)
  {
    var c := CountStats(epoch, src);
    var rows, k := After(c, history).run.db.rows, Key(RealmCount, realm, ActiveUsersAuditIsBotDay, IsBot(bot), t);
    CrashInvariant(c, history, ActiveUsersAuditIsBotDay, t);
    CompleteIsDirectSum(c, ActiveUsersAuditIsBotDay, t);
    assert Base(c, ActiveUsersAuditIsBotDay, t) == AuditRows(src, t);
    assert k in rows <==> k in InTable(Slice(rows, ActiveUsersAuditIsBotDay, t), RealmCount);
  }

  // ----- Active humans -----

  /** Humans of the realm who are active by the audit and were seen in the fifteen-day window that ends at `t`. */
  function ActiveHumans(src: Source, realm: int, t: int): set<int> {
    set u | u in ActiveByAudit(src.audit, t) && IsCounted(src, realm, false, u) &&
        u in SeenWithin(src, t - (15 * DAY - MIN_INTERVAL_LENGTH), t)
  }

  lemma DependentBase(c: Config, p: Property, t: int)
    requires c.stats(p).collector.Dependent?
    ensures Base(c, p, t) == c.stats(p).collector.join(t, DependencyFills(c, Dependencies(c, p), t)).rows
  {
  }

  lemma HumanJoin(epoch: int, src: Source, t: int, slices: seq<Rows>)
    ensures var c := CountStats(epoch, src);
            && c.stats(RealmActiveHumansDay).collector.Dependent?
            && c.stats(RealmActiveHumansDay).collector.join(t, slices).rows == ActiveHumanRows(t, slices)
            && Dependencies(c, RealmActiveHumansDay) == [ActiveUsersAuditIsBotDay, FifteenDayActivesDay]
  {
  }

  lemma PulledSlice(c: Config, deps: seq<Property>, i: nat, t: int)
    requires ValidConfig(c) && i < |deps| && c.stats(deps[i]).collector.Pulled?
    ensures InTable(DependencyFills(c, deps, t)[i], c.stats(deps[i]).output) == Base(c, deps[i], t)
  {
    BasePart(c, deps[i], t);
    assert DependencyFills(c, deps, t)[i] == Complete(c, deps[i], t);
  }

  lemma HumanDependencies(epoch: int, src: Source, t: int)
    ensures var c := CountStats(epoch, src);
            && c.stats(ActiveUsersAuditIsBotDay).collector.Pulled? && c.stats(FifteenDayActivesDay).collector.Pulled?
            && c.stats(ActiveUsersAuditIsBotDay).output == UserCount &&
                c.stats(FifteenDayActivesDay).output == UserCount
            && Base(c, ActiveUsersAuditIsBotDay, t) == AuditRows(src, t)
            && Base(c, FifteenDayActivesDay, t)
                 == ActivityRows(src, FifteenDayActivesDay, t - (15 * DAY - MIN_INTERVAL_LENGTH), t)
  {
  }

  /** The dependent statistic counts exactly those users, whatever crashes and undos its dependencies went through. */
  lemma StoredActiveHumans(epoch: int, src: Source, history: seq<Action>, realm: int, t: int)
    requires ValidConfig(CountStats(epoch, src))
    requires var c := CountStats(epoch, src);
             FilledAt(c, After(c, history).run.db, RealmActiveHumansDay, t)
    ensures ValueAt(After(CountStats(epoch, src), history).run.db.rows,
                    Key(RealmCount, realm, RealmActiveHumansDay, NoSubgroup, t))
         == |ActiveHumans(src, realm, t)|
  {
    var c := CountStats(epoch, src);
    StoredRows(c, history, RealmActiveHumansDay, t);
    var deps := Dependencies(c, RealmActiveHumansDay);
    HumanJoin(epoch, src, t, DependencyFills(c, deps, t));
    DependentBase(c, RealmActiveHumansDay, t);
    HumanDependencies(epoch, src, t);
    PulledSlice(c, deps, 0, t);
    PulledSlice(c, deps, 1, t);
    ActiveHumansJoin(src, DependencyFills(c, deps, t), realm, t);
  }

  lemma ActiveHumansJoin(src: Source, slices: seq<Rows>, realm: int, t: int)
    requires |slices| == 2
    requires InTable(slices[0], UserCount) == AuditRows(src, t)
    requires InTable(slices[1], UserCount) ==
        ActivityRows(src, FifteenDayActivesDay, t - (15 * DAY - MIN_INTERVAL_LENGTH), t)
    ensures ValueAt(ActiveHumanRows(t, slices), Key(RealmCount, realm, RealmActiveHumansDay, NoSubgroup, t)) ==
        |ActiveHumans(src, realm, t)|
  {
    var k := Key(RealmCount, realm, RealmActiveHumansDay, NoSubgroup, t);
    var pairs := set pair | pair in HumanPairs(slices) && HumanKey(slices, pair, t) == k;
    var humans := ActiveHumans(src, realm, t);
    var pairOf := (u: int) => (AuditKey(src, u, t), Key(UserCount, u, FifteenDayActivesDay, NoSubgroup, t));
    forall x: Key
      ensures x in slices[0] && x.table == UserCount <==> x in AuditRows(src, t)
      ensures x in slices[1] && x.table == UserCount
         <==> x in ActivityRows(src, FifteenDayActivesDay, t - (15 * DAY - MIN_INTERVAL_LENGTH), t)
    {
      assert x in slices[0] && x.table == UserCount <==> x in InTable(slices[0], UserCount);
      assert x in slices[1] && x.table == UserCount <==> x in InTable(slices[1], UserCount);
    }
    forall u | u in humans
      ensures pairOf(u) in pairs
    {
      assert InTable(slices[0], UserCount)[AuditKey(src, u, t)] == slices[0][AuditKey(src, u, t)];
    }
    forall pair | pair in pairs
      ensures pair.0.owner in humans && pairOf(pair.0.owner) == pair
    {
      assert InTable(slices[0], UserCount)[pair.0] == slices[0][pair.0];
    }
    SameSize(humans, pairs, pairOf, (pair: (Key, Key)) => pair.0.owner);
    if k !in ActiveHumanRows(t, slices) {
      assert pairs == {};
    }
  }
}

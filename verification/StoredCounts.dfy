/**
 * What is stored for each of the fifteen statistics once a time is filled, whatever happened before: which source rows
 * each stored row counts, said of the source rows themselves.
 */
module StoredCounts {
  import opened Options
  import opened Times
  import opened SetSums
  import opened CountTables
  import opened FillEngine
  import opened FillRuns
  import opened FillTheorems
  import opened MinutesActive
  import opened CountQueries
  import opened MessageCounts
  import StreamCounts
  import opened ActiveUsers
  import opened C = CountStats
  import opened LoggedRows
  import opened StoredNames
  import D = DuplicateCounts

  ghost function Stored(epoch: int, src: Source, history: seq<Action>): Rows {
    After(CountStats(epoch, src), history).run.db.rows
  }

  ghost predicate Filled(epoch: int, src: Source, history: seq<Action>, p: Property, t: int) {
    ValidConfig(CountStats(epoch, src)) &&
        FilledAt(CountStats(epoch, src), After(CountStats(epoch, src), history).run.db, p, t)
  }

  /** The row is there exactly when there is something to count, with the count and its owner's realm. */
  predicate Holds(rows: Rows, k: Key, count: nat, realm: int) {
    (k in rows <==> count > 0) && (k in rows ==> rows[k] == Cell(realm, count))
  }

  lemma StoredIsBase(epoch: int, src: Source, history: seq<Action>, k: Key)
    requires Filled(epoch, src, history, k.property, k.endTime)
    requires var c := CountStats(epoch, src); !IsLogged(c, k.property) && k.table == c.stats(k.property).output
    ensures var rows, base := Stored(epoch, src, history), Base(CountStats(epoch, src), k.property, k.endTime);
            (k in rows <==> k in base) && (k in rows ==> rows[k] == base[k])
  {
    var c, rows := CountStats(epoch, src), Stored(epoch, src, history);
    StoredRows(c, history, k.property, k.endTime);
    assert k in rows <==> k in InTable(Slice(rows, k.property, k.endTime), k.table);
  }

  // ----- Messages -----

  lemma CountHolds<R>(rows: seq<R>, keep: R -> bool, key: R -> Key, realm: Key -> int, k: Key, counted: R -> bool)
    requires forall r :: r in rows ==> (counted(r) <==> keep(r) && key(r) == k)
    ensures Holds(CountBy(rows, keep, key, realm), k, Count(rows, counted), realm(k))
  {
    CountByValue(rows, keep, key, realm, k);
    CountAgree(rows, InGroup(keep, key, k), counted);
  }

  /** Sent by the user in the window that ends at `b`, after joining before it ended. */
  predicate IsCountedFor(src: Source, m: Message, u: int, a: int, b: int) {
    m.sender == u && a <= m.dateSent < b && UserOf(src, u).dateJoined < b
  }

  function HourMessages(src: Source, u: int, s: Subgroup, t: int): Message -> bool {
    (m: Message) => IsCountedFor(src, m, u, t - 3600, t) && s == IsBot(UserOf(src, m.sender).isBot)
  }

  function ClientMessages(src: Source, u: int, s: Subgroup, t: int): Message -> bool {
    (m: Message) => IsCountedFor(src, m, u, t - 86400, t) && s == Client(m.client)
  }

  /** `messages_sent:is_bot:hour`. */
  lemma StoredHourly(epoch: int, src: Source, history: seq<Action>, u: int, s: Subgroup, t: int)
    requires Filled(epoch, src, history, MessagesSentIsBotHour, t)
    ensures Holds(Stored(epoch, src, history), Key(UserCount, u, MessagesSentIsBotHour, s, t),
                  Count(src.messages, HourMessages(src, u, s, t)), UserOf(src, u).realm)
  {
    var k := Key(UserCount, u, MessagesSentIsBotHour, s, t);
    MessageBases(epoch, src, t);
    StoredIsBase(epoch, src, history, k);
    CountHolds(src.messages, JoinedAndSent(src, t - HOUR, t), SenderKey(MessagesSentIsBotHour, SenderIsBot(src), t),
               OwnersRealm(src), k, HourMessages(src, u, s, t));
  }

  /** `messages_sent:client:day`. */
  lemma StoredByClient(epoch: int, src: Source, history: seq<Action>, u: int, s: Subgroup, t: int)
    requires Filled(epoch, src, history, MessagesSentClientDay, t)
    ensures Holds(Stored(epoch, src, history), Key(UserCount, u, MessagesSentClientDay, s, t),
                  Count(src.messages, ClientMessages(src, u, s, t)), UserOf(src, u).realm)
  {
    var k := Key(UserCount, u, MessagesSentClientDay, s, t);
    MessageBases(epoch, src, t);
    StoredIsBase(epoch, src, history, k);
    CountHolds(src.messages, JoinedAndSent(src, t - DAY, t), SenderKey(MessagesSentClientDay, SendingClient(), t),
               OwnersRealm(src), k, ClientMessages(src, u, s, t));
  }

  /** The message's recipient row points at a private stream. */
  predicate ToPrivateStream(src: Source, m: Message) {
    RecipientOf(src, m).typeId in src.streams && src.streams[RecipientOf(src, m).typeId].inviteOnly == Some(true)
  }

  /** What the four types mean: 1 is a personal recipient and 3 a huddle, and anything else is taken for a stream. */
  predicate IsOfType(src: Source, m: Message, messageType: MessageType) {
    var recipientType := RecipientOf(src, m).recipientType;
    match messageType
    case PrivateMessage => recipientType == 1
    case HuddleMessage => recipientType == 3
    case PrivateStream => recipientType != 1 && recipientType != 3 && ToPrivateStream(src, m)
    case PublicStream => recipientType != 1 && recipientType != 3 && !ToPrivateStream(src, m)
  }

  function TypedMessages(src: Source, u: int, s: Subgroup, t: int): Message -> bool {
    (m: Message) => m.sender == u && t - 86400 <= m.dateSent < t && s.Kind? && IsOfType(src, m, s.messageType)
  }

  lemma TypesHold(src: Source, u: int, s: Subgroup, t: int)
    ensures Holds(MessageTypeRows(src, t - DAY, t), Key(UserCount, u, MessagesSentMessageTypeDay, s, t),
                  Count(src.messages, TypedMessages(src, u, s, t)), UserOf(src, u).realm)
  {
    var k := Key(UserCount, u, MessagesSentMessageTypeDay, s, t);
    forall m | m in src.messages
      ensures TypedMessages(src, u, s, t)(m) <==> InWindow(t - DAY, t)(m) && TypeKey(src, t)(m) == k
    {
      TypeIs(src, m);
    }
    MessageTypesFlatten(src, t - DAY, t);
    CountHolds(src.messages, InWindow(t - DAY, t), TypeKey(src, t), OwnersRealm(src), k, TypedMessages(src, u, s, t));
  }

  lemma TypeIs(src: Source, m: Message)
    ensures forall messageType ::
              TypeOf(RecipientOf(src, m).recipientType, JoinedInviteOnly(src, m)) == messageType <==>
                IsOfType(src, m, messageType)
  {
  }

  /** `messages_sent:message_type:day`. */
  lemma StoredByType(epoch: int, src: Source, history: seq<Action>, u: int, s: Subgroup, t: int)
    requires Filled(epoch, src, history, MessagesSentMessageTypeDay, t)
    ensures Holds(Stored(epoch, src, history), Key(UserCount, u, MessagesSentMessageTypeDay, s, t),
                  Count(src.messages, TypedMessages(src, u, s, t)), UserOf(src, u).realm)
  {
    var k := Key(UserCount, u, MessagesSentMessageTypeDay, s, t);
    MessageBases(epoch, src, t);
    StoredIsBase(epoch, src, history, k);
    TypesHold(src, u, s, t);
  }

  /** Recipient type 2 is a stream. */
  function StreamMessages(src: Source, stream: int, s: Subgroup, t: int): Message -> bool {
    (m: Message) =>
      && RecipientOf(src, m) == Recipient(2, stream) && stream in src.streams
      && src.streams[stream].dateCreated < t && t - 86400 <= m.dateSent < t
      && s == IsBot(UserOf(src, m.sender).isBot)
  }

  lemma StreamsHold(src: Source, stream: int, s: Subgroup, t: int)
    ensures Holds(StreamCounts.StreamRows(src, t - DAY, t), Key(StreamCount, stream, MessagesInStreamIsBotDay, s, t),
                  Count(src.messages, StreamMessages(src, stream, s, t)),
                  if stream in src.streams then src.streams[stream].realm else 0)
  {
    var k := Key(StreamCount, stream, MessagesInStreamIsBotDay, s, t);
    var keep, key := StreamCounts.SentToStream(src, t - DAY, t), StreamCounts.StreamKey(src, t);
    forall m | m in src.messages
      ensures StreamMessages(src, stream, s, t)(m) <==> keep(m) && key(m) == k
    {
      var r := RecipientOf(src, m);
      assert r == Recipient(2, stream) <==> r.recipientType == 2 && r.typeId == stream;
      assert key(m) == Key(StreamCount, r.typeId, MessagesInStreamIsBotDay, SenderIsBot(src)(m), t);
    }
    CountHolds(src.messages, keep, key, StreamCounts.StreamsRealm(src), k, StreamMessages(src, stream, s, t));
  }

  /** `messages_in_stream:is_bot:day`. */
  lemma StoredByStream(epoch: int, src: Source, history: seq<Action>, stream: int, s: Subgroup, t: int)
    requires Filled(epoch, src, history, MessagesInStreamIsBotDay, t)
    ensures Holds(Stored(epoch, src, history), Key(StreamCount, stream, MessagesInStreamIsBotDay, s, t),
                  Count(src.messages, StreamMessages(src, stream, s, t)),
                  if stream in src.streams then src.streams[stream].realm else 0)
  {
    var k := Key(StreamCount, stream, MessagesInStreamIsBotDay, s, t);
    StreamBase(epoch, src, t);
    StoredIsBase(epoch, src, history, k);
    StreamsHold(src, stream, s, t);
  }

  // ----- Users -----

  /** The active users of a realm who joined in the thousand years before `t`. */
  function JoinedUsers(src: Source, realm: int, s: Subgroup, t: int): set<int> {
    set u | u in src.users
      && src.users[u].realm == realm && s == IsBot(src.users[u].isBot) && src.users[u].isActive
      && t - 365000 * 86400 <= src.users[u].dateJoined < t
      && realm in src.realmCreated && src.realmCreated[realm] < t
  }

  lemma JoinedBase(epoch: int, src: Source, t: int)
    ensures var c := CountStats(epoch, src);
            && Base(c, ActiveUsersIsBotDay, t) == JoinedRows(src, t - TIMEDELTA_MAX, t)
            && c.stats(ActiveUsersIsBotDay).output == RealmCount && !IsLogged(c, ActiveUsersIsBotDay)
  {
  }

  lemma JoinedHolds(src: Source, realm: int, s: Subgroup, t: int)
    ensures Holds(JoinedRows(src, t - TIMEDELTA_MAX, t), Key(RealmCount, realm, ActiveUsersIsBotDay, s, t),
                  |JoinedUsers(src, realm, s, t)|, realm)
  {
    var k := Key(RealmCount, realm, ActiveUsersIsBotDay, s, t);
    var a := t - TIMEDELTA_MAX;
    var mine := set u | u in src.users && JoinedWithin(src, u, a, t) && JoinedKey(src, u, t) == k;
    assert mine == JoinedUsers(src, realm, s, t);
    if k in JoinedRows(src, a, t) {
      var u :| u in src.users && JoinedWithin(src, u, a, t) && JoinedKey(src, u, t) == k;
      assert u in mine;
    } else {
      forall u | u in src.users && JoinedWithin(src, u, a, t)
        ensures JoinedKey(src, u, t) != k
      {
        assert JoinedKey(src, u, t) in JoinedRows(src, a, t);
      }
      assert mine == {};
    }
  }

  /** `active_users:is_bot:day`. */
  lemma StoredJoined(epoch: int, src: Source, history: seq<Action>, realm: int, s: Subgroup, t: int)
    requires Filled(epoch, src, history, ActiveUsersIsBotDay, t)
    ensures Holds(Stored(epoch, src, history), Key(RealmCount, realm, ActiveUsersIsBotDay, s, t),
                  |JoinedUsers(src, realm, s, t)|, realm)
  {
    JoinedBase(epoch, src, t);
    StoredIsBase(epoch, src, history, Key(RealmCount, realm, ActiveUsersIsBotDay, s, t));
    JoinedHolds(src, realm, s, t);
  }

  /** The user was seen at or after `a` and before `b`. */
  predicate WasSeen(src: Source, u: int, a: int, b: int) {
    exists i :: 0 <= i < |src.intervals| && IsSight(src.intervals[i], u, a, b)
  }

  predicate IsSight(iv: Interval, u: int, a: int, b: int) {
    iv.user == u && iv.end >= a && iv.start < b
  }

  lemma SeenMeaning(src: Source, u: int, a: int, b: int)
    ensures u in SeenWithin(src, a, b) <==> WasSeen(src, u, a, b)
  {
    if u in SeenWithin(src, a, b) {
      var iv :| iv in src.intervals && IsSight(iv, u, a, b);
      var i :| 0 <= i < |src.intervals| && src.intervals[i] == iv;
    }
  }

  function DaysBack(p: Property): int {
    match p
    case OneDayActivesDay => 1
    case SevenDayActivesDay => 7
    case _ => 15
  }

  lemma ActivesHold(src: Source, p: Property, u: int, s: Subgroup, a: int, t: int)
    ensures Holds(ActivityRows(src, p, a, t), Key(UserCount, u, p, s, t),
                  if s == NoSubgroup && WasSeen(src, u, a, t) then 1 else 0, UserOf(src, u).realm)
  {
    SeenMeaning(src, u, a, t);
  }

  /** `1day_actives::day`, `7day_actives::day` and `15day_actives::day`. */
  lemma StoredActives(epoch: int, src: Source, history: seq<Action>, p: Property, u: int, s: Subgroup, t: int)
    requires p in [OneDayActivesDay, SevenDayActivesDay, FifteenDayActivesDay] && Filled(epoch, src, history, p, t)
    ensures Holds(Stored(epoch, src, history), Key(UserCount, u, p, s, t),
                  if s == NoSubgroup && WasSeen(src, u, t - DaysBack(p) * 86400 + 900, t) then 1 else 0,
                  UserOf(src, u).realm)
  {
    ActivesBase(epoch, src, t);
    StoredIsBase(epoch, src, history, Key(UserCount, u, p, s, t));
    ActivesHold(src, p, u, s, t - DaysBack(p) * 86400 + 900, t);
  }

  /** The four events that change whether a user is active, and the three that make it so. */
  predicate ChangesActivity(e: AuditEvent) {
    e == UserCreated || e == UserActivated || e == UserDeactivated || e == UserReactivated
  }

  predicate MakesActive(e: AuditEvent) {
    e == UserCreated || e == UserActivated || e == UserReactivated
  }

  /** It is an event that made the user active, and none of the user's events lies between it and `t`. */
  predicate IsLastActivation(audit: seq<AuditRow>, i: int, u: int, t: int)
    requires 0 <= i < |audit|
  {
    && audit[i].user == u && audit[i].eventTime < t && MakesActive(audit[i].event)
    && forall j :: 0 <= j < |audit| && audit[j].user == u && ChangesActivity(audit[j].event) ==>
         !(audit[i].eventTime < audit[j].eventTime < t)
  }

  predicate WasActivated(audit: seq<AuditRow>, u: int, t: int) {
    exists i :: 0 <= i < |audit| && IsLastActivation(audit, i, u, t)
  }

  lemma AuditMeaning(audit: seq<AuditRow>, u: int, t: int)
    ensures u in ActiveByAudit(audit, t) <==> WasActivated(audit, u, t)
  {
    forall i | 0 <= i < |audit|
      ensures i in ActiveMatches(audit, t) && audit[i].user == u <==> IsLastActivation(audit, i, u, t)
    {
    }
    if u in ActiveByAudit(audit, t) {
      var i :| i in ActiveMatches(audit, t) && audit[i].user == u;
      assert IsLastActivation(audit, i, u, t);
    }
  }

  lemma AuditBase(epoch: int, src: Source, t: int)
    ensures var c := CountStats(epoch, src);
            && Base(c, ActiveUsersAuditIsBotDay, t) == AuditRows(src, t)
            && c.stats(ActiveUsersAuditIsBotDay).output == UserCount && !IsLogged(c, ActiveUsersAuditIsBotDay)
  {
  }

  /** `active_users_audit:is_bot:day`. */
  lemma StoredAuditRow(epoch: int, src: Source, history: seq<Action>, u: int, s: Subgroup, t: int)
    requires Filled(epoch, src, history, ActiveUsersAuditIsBotDay, t)
    ensures Holds(Stored(epoch, src, history), Key(UserCount, u, ActiveUsersAuditIsBotDay, s, t),
                  if s == IsBot(UserOf(src, u).isBot) && WasActivated(src.audit, u, t) then 1 else 0,
                  UserOf(src, u).realm)
  {
    AuditBase(epoch, src, t);
    StoredIsBase(epoch, src, history, Key(UserCount, u, ActiveUsersAuditIsBotDay, s, t));
    AuditMeaning(src.audit, u, t);
  }

  function RealmOf(src: Source): int -> int {
    (u: int) => UserOf(src, u).realm
  }

  lemma MinutesBase(epoch: int, src: Source, t: int)
    ensures var c := CountStats(epoch, src);
            && Base(c, MinutesActiveDay, t) == MinutesRows(src.intervals, RealmOf(src), MinutesActiveDay, t - DAY, t)
            && c.stats(MinutesActiveDay).output == UserCount && !IsLogged(c, MinutesActiveDay)
  {
    var declared := (u: int) => UserOf(src, u).realm;
    SameRows(MinutesRows(src.intervals, declared, MinutesActiveDay, t - DAY, t),
             MinutesRows(src.intervals, RealmOf(src), MinutesActiveDay, t - DAY, t));
  }

  lemma MinutesHold(src: Source, u: int, t: int)
    requires Forward(src.intervals)
    ensures HoldsMinutes(MinutesRows(src.intervals, RealmOf(src), MinutesActiveDay, t - DAY, t),
                         Key(UserCount, u, MinutesActiveDay, NoSubgroup, t),
                         ActiveTime(src.intervals, u, t - 86400, t), UserOf(src, u).realm)
  {
    MinutesAreStored(src.intervals, RealmOf(src), MinutesActiveDay, t - DAY, t);
  }

  /** `minutes_active::day`: the whole minutes, of at least one, that the user's intervals share with the day. */
  lemma StoredMinutesOf(epoch: int, src: Source, history: seq<Action>, u: int, t: int)
    requires Filled(epoch, src, history, MinutesActiveDay, t) && Forward(src.intervals)
    ensures HoldsMinutes(Stored(epoch, src, history), Key(UserCount, u, MinutesActiveDay, NoSubgroup, t),
                         ActiveTime(src.intervals, u, t - 86400, t), UserOf(src, u).realm)
  {
    MinutesBase(epoch, src, t);
    StoredIsBase(epoch, src, history, Key(UserCount, u, MinutesActiveDay, NoSubgroup, t));
    MinutesHold(src, u, t);
  }

  /** The humans of the realm who are active by the audit and were seen in the last fifteen days. */
  function HumansOf(src: Source, realm: int, t: int): set<int> {
    set r | r in src.audit && UserOf(src, r.user).realm == realm && !UserOf(src, r.user).isBot &&
        WasActivated(src.audit, r.user, t) && WasSeen(src, r.user, t - 15 * 86400 + 900, t) :: r.user
  }

  lemma HumansAreActive(src: Source, realm: int, t: int)
    ensures HumansOf(src, realm, t) == ActiveHumans(src, realm, t)
  {
    forall u
      ensures u in HumansOf(src, realm, t) <==> u in ActiveHumans(src, realm, t)
    {
      AuditMeaning(src.audit, u, t);
      SeenMeaning(src, u, t - 15 * 86400 + 900, t);
      if u in ActiveHumans(src, realm, t) {
        var i :| 0 <= i < |src.audit| && IsLastActivation(src.audit, i, u, t);
        assert src.audit[i] in src.audit;
      }
    }
  }

  /** `realm_active_humans::day`. */
  lemma StoredHumans(epoch: int, src: Source, history: seq<Action>, realm: int, t: int)
    requires Filled(epoch, src, history, RealmActiveHumansDay, t)
    ensures ValueAt(Stored(epoch, src, history), Key(RealmCount, realm, RealmActiveHumansDay, NoSubgroup, t))
         == |HumansOf(src, realm, t)|
  {
    StoredActiveHumans(epoch, src, history, realm, t);
    HumansAreActive(src, realm, t);
  }

  // ----- The logged statistics -----

  predicate IsReadCount(p: Property) {
    p == MessagesReadHour || p == MessagesReadInteractionsHour
  }

  /** Reads are kept by user and hour; invitations and changes of activity by realm and day. */
  lemma StoredLog(epoch: int, src: Source, history: seq<Action>, p: Property, owner: int, s: Subgroup, t: int)
    requires ValidConfig(CountStats(epoch, src))
    requires p in [MessagesReadHour, MessagesReadInteractionsHour, InvitesSentDay, ActiveUsersLogIsBotDay]
    requires t % (if IsReadCount(p) then 3600 else 86400) == 0
    ensures var table, step := if IsReadCount(p) then UserCount else RealmCount, if IsReadCount(p) then 3600 else 86400;
            var rows, k := Stored(epoch, src, history), Key(table, owner, p, s, t);
            var applied := After(CountStats(epoch, src), history).applied;
            var mine := Entries(applied, p, owner, s, t - step, t);
            (k in rows <==> mine != {}) && ValueAt(rows, k) == Sum(mine, Amounts(applied))
  {
    LogDeclaration(epoch, src, p);
    LoggedRows.LoggingLosesNothing(CountStats(epoch, src), history, p, owner, s, t);
  }

  lemma LogDeclaration(epoch: int, src: Source, p: Property)
    ensures IsLogged(CountStats(epoch, src), p) <==>
              p in [MessagesReadHour, MessagesReadInteractionsHour, InvitesSentDay, ActiveUsersLogIsBotDay]
    ensures var c := CountStats(epoch, src);
            IsLogged(c, p) ==>
              && c.stats(p).output == (if IsReadCount(p) then UserCount else RealmCount)
              && Step(c, p) == if IsReadCount(p) then 3600 else 86400
  {
  }

  /** The properties whose duplicates the migration adds up are the logged ones that are kept by realm. */
  lemma AddedUpAreRealmLogs(epoch: int, src: Source, p: Property)
    ensures var c := CountStats(epoch, src);
            D.AddedUp(PropertyName(p)) <==> IsLogged(c, p) && c.stats(p).output == RealmCount
  {
    LogDeclaration(epoch, src, p);
    if D.AddedUp(PropertyName(p)) {
      assert PropertyName(InvitesSentDay) == "invites_sent::day";
      assert PropertyName(ActiveUsersLogIsBotDay) == "active_users_log:is_bot:day";
      if PropertyName(p) == PropertyName(InvitesSentDay) {
        NamesDiffer(p, InvitesSentDay);
      } else {
        NamesDiffer(p, ActiveUsersLogIsBotDay);
      }
    }
  }
}

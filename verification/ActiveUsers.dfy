/** `active_users_audit:is_bot:day`, and the logged statistic whose partial sums it should be. */
module ActiveUsers {
  import opened Times
  import opened SetSums
  import opened CountTables
  import opened FillEngine
  import opened FillRuns
  import opened CountQueries

  predicate IsRelevant(r: AuditRow) {
    !r.event.OtherEvent?
  }

  predicate IsActivation(r: AuditRow) {
    r.event.UserCreated? || r.event.UserActivated? || r.event.UserReactivated?
  }

  // ----- check_realmauditlog_by_user_query -----

  /** Row `i` is at its user's `max(event_time)` before `t`. */
  predicate IsLatest(audit: seq<AuditRow>, i: int, t: int)
    requires 0 <= i < |audit|
  {
    && audit[i].eventTime < t
    && forall j :: 0 <= j < |audit| ==>
         IsRelevant(audit[j]) && audit[j].user == audit[i].user && audit[j].eventTime < t ==>
         audit[j].eventTime <= audit[i].eventTime
  }

  function ActiveMatches(audit: seq<AuditRow>, t: int): set<int> {
    set i | 0 <= i < |audit| && IsActivation(audit[i]) && IsLatest(audit, i, t)
  }

  function ActiveByAudit(audit: seq<AuditRow>, t: int): set<int> {
    set i | i in ActiveMatches(audit, t) :: audit[i].user
  }

  function AuditKey(src: Source, u: int, t: int): Key {
    Key(UserCount, u, ActiveUsersAuditIsBotDay, IsBot(UserOf(src, u).isBot), t)
  }

  function AuditRows(src: Source, t: int): Rows {
    map k | k in (set u | u in ActiveByAudit(src.audit, t) :: AuditKey(src, u, t)) ::
        Cell(UserOf(src, k.owner).realm, 1)
  }

  /** The join yields two rows for a user with two activations at the same latest instant. */
  ghost predicate AuditRepeats(src: Source, t: int) {
    exists i, j :: i in ActiveMatches(src.audit, t) && j in ActiveMatches(src.audit, t) && i != j &&
        src.audit[i].user == src.audit[j].user
  }

  // ----- The life of a user -----

  /** Active after these events, and after those of them before `t`. */
  predicate ActiveAfter(audit: seq<AuditRow>, u: int) {
    audit != [] &&
    var last := audit[|audit| - 1];
    if last.user == u && IsRelevant(last) then IsActivation(last) else ActiveAfter(audit[..|audit| - 1], u)
  }

  predicate ActiveBefore(audit: seq<AuditRow>, u: int, t: int) {
    audit != [] &&
    var last := audit[|audit| - 1];
    if last.user == u && IsRelevant(last) && last.eventTime < t then IsActivation(last)
    else ActiveBefore(audit[..|audit| - 1], u, t)
  }

  predicate LaterThanAll(audit: seq<AuditRow>, r: AuditRow) {
    forall e :: e in audit && e.user == r.user && IsRelevant(e) ==> e.eventTime < r.eventTime
  }

  /** Each user's events come in time order and alternate, starting with an activation. */
  predicate Alternating(audit: seq<AuditRow>) {
    audit == [] ||
    var front, last := audit[..|audit| - 1], audit[|audit| - 1];
    && Alternating(front)
    && (IsRelevant(last) ==> LaterThanAll(front, last) && (IsActivation(last) <==> !ActiveAfter(front, last.user)))
  }

  lemma {:induction false} AllBefore(audit: seq<AuditRow>, u: int, t: int)
    requires forall e :: e in audit && e.user == u && IsRelevant(e) ==> e.eventTime < t
    ensures ActiveBefore(audit, u, t) == ActiveAfter(audit, u)
  {
    if audit != [] {
      assert audit[|audit| - 1] in audit;
      AllBefore(audit[..|audit| - 1], u, t);
    }
  }

  lemma {:induction false} LatestInLife(audit: seq<AuditRow>, i: int, t: int)
    requires Alternating(audit) && 0 <= i < |audit| && IsRelevant(audit[i]) && IsLatest(audit, i, t)
    ensures ActiveBefore(audit, audit[i].user, t) <==> IsActivation(audit[i])
  {
    var n := |audit| - 1;
    var front, last := audit[..n], audit[n];
    if i < n {
      assert front[i] == audit[i] && audit[i] in front;
      assert IsLatest(front, i, t) by {
        assert forall j :: 0 <= j < n ==> front[j] == audit[j];
      }
      LatestInLife(front, i, t);
    }
  }

  lemma {:induction false} SomeLatest(audit: seq<AuditRow>, u: int, t: int) returns (i: int)
    requires Alternating(audit) && ActiveBefore(audit, u, t)
    ensures 0 <= i < |audit| && audit[i].user == u && IsActivation(audit[i]) && IsLatest(audit, i, t)
  {
    var n := |audit| - 1;
    var front, last := audit[..n], audit[n];
    if last.user == u && IsRelevant(last) && last.eventTime < t {
      i := n;
      forall j | 0 <= j < |audit| && IsRelevant(audit[j]) && audit[j].user == u
        ensures audit[j].eventTime <= last.eventTime
      {
        assert j < n ==> audit[j] in front;
      }
    } else {
      i := SomeLatest(front, u, t);
      assert forall j :: 0 <= j < n ==> front[j] == audit[j];
    }
  }

  /** The audit query finds exactly the users active before `t`, each once. */
  lemma AuditFindsActive(audit: seq<AuditRow>, t: int)
    requires Alternating(audit)
    ensures forall u :: u in ActiveByAudit(audit, t) <==> ActiveBefore(audit, u, t)
  {
    forall u
      ensures u in ActiveByAudit(audit, t) <==> ActiveBefore(audit, u, t)
    {
      if u in ActiveByAudit(audit, t) {
        var i :| i in ActiveMatches(audit, t) && audit[i].user == u;
        LatestInLife(audit, i, t);
      }
      if ActiveBefore(audit, u, t) {
        var i := SomeLatest(audit, u, t);
        assert i in ActiveMatches(audit, t);
      }
    }
  }

  lemma {:induction false} EventTimesDiffer(audit: seq<AuditRow>, i: int, j: int)
    requires Alternating(audit) && 0 <= i < j < |audit|
    requires audit[i].user == audit[j].user && IsRelevant(audit[i]) && IsRelevant(audit[j])
    ensures audit[i].eventTime < audit[j].eventTime
  {
    var n := |audit| - 1;
    if j == n {
      assert audit[i] == audit[..n][i] && audit[i] in audit[..n];
    } else {
      EventTimesDiffer(audit[..n], i, j);
    }
  }

  lemma AuditNeverRepeats(src: Source, t: int)
    requires Alternating(src.audit)
    ensures !AuditRepeats(src, t)
  {
    if AuditRepeats(src, t) {
      var i, j :| i in ActiveMatches(src.audit, t) && j in ActiveMatches(src.audit, t) && i != j
                  && src.audit[i].user == src.audit[j].user;
      if i < j {
        EventTimesDiffer(src.audit, i, j);
      } else {
        EventTimesDiffer(src.audit, j, i);
      }
    }
  }

  // ----- Net changes -----

  function Delta(r: AuditRow): int {
    if IsActivation(r) then 1 else if r.event.UserDeactivated? then -1 else 0
  }

  /** Activations minus deactivations among the rows `keep` selects. */
  function Net(audit: seq<AuditRow>, keep: AuditRow -> bool): int {
    if audit == [] then 0
    else Net(audit[..|audit| - 1], keep) + if keep(audit[|audit| - 1]) then Delta(audit[|audit| - 1]) else 0
  }

  predicate IsCounted(src: Source, realm: int, bot: bool, u: int) {
    UserOf(src, u).realm == realm && UserOf(src, u).isBot == bot
  }

  function CountedBefore(src: Source, realm: int, bot: bool, t: int): AuditRow -> bool {
    (r: AuditRow) => IsCounted(src, realm, bot, r.user) && r.eventTime < t
  }

  function CountedAt(src: Source, realm: int, bot: bool, t: int): AuditRow -> bool {
    (r: AuditRow) => IsCounted(src, realm, bot, r.user) && r.eventTime == t
  }

  lemma {:induction false} NetSplits(audit: seq<AuditRow>, whole: AuditRow -> bool, a: AuditRow -> bool,
                                     b: AuditRow -> bool)
    requires forall r :: r in audit ==> (whole(r) <==> a(r) || b(r)) && !(a(r) && b(r))
    ensures Net(audit, whole) == Net(audit, a) + Net(audit, b)
  {
    if audit != [] {
      assert audit[|audit| - 1] in audit;
      NetSplits(audit[..|audit| - 1], whole, a, b);
    }
  }

  function ActiveCounted(src: Source, audit: seq<AuditRow>, realm: int, bot: bool, t: int): set<int> {
    set r | r in audit && IsCounted(src, realm, bot, r.user) && ActiveBefore(audit, r.user, t) :: r.user
  }

  lemma {:induction false} ActiveMembers(src: Source, audit: seq<AuditRow>, realm: int, bot: bool, t: int, u: int)
    ensures u in ActiveCounted(src, audit, realm, bot, t) <==>
        IsCounted(src, realm, bot, u) && ActiveBefore(audit, u, t)
  {
    if ActiveBefore(audit, u, t) {
      ActiveOccurs(audit, u, t);
    }
  }

  lemma {:induction false} ActiveOccurs(audit: seq<AuditRow>, u: int, t: int)
    requires ActiveBefore(audit, u, t)
    ensures exists r :: r in audit && r.user == u
  {
    var n := |audit| - 1;
    if audit[n].user == u {
      assert audit[n] in audit;
    } else {
      ActiveOccurs(audit[..n], u, t);
      var r :| r in audit[..n] && r.user == u;
      assert r in audit;
    }
  }

  lemma AllActiveMembers(src: Source, audit: seq<AuditRow>, realm: int, bot: bool, t: int)
    ensures forall u :: u in ActiveCounted(src, audit, realm, bot, t) <==>
        IsCounted(src, realm, bot, u) && ActiveBefore(audit, u, t)
  {
    forall u
      ensures u in ActiveCounted(src, audit, realm, bot, t) <==>
          IsCounted(src, realm, bot, u) && ActiveBefore(audit, u, t)
    {
      ActiveMembers(src, audit, realm, bot, t, u);
    }
  }

  /** One more event moves its user in or out of the active set, if it counts here, and moves nobody else. */
  lemma ActiveStep(src: Source, audit: seq<AuditRow>, realm: int, bot: bool, t: int)
    requires Alternating(audit) && audit != []
    ensures var last := audit[|audit| - 1];
            var before, after := ActiveCounted(src, audit[..|audit| - 1], realm, bot, t),
                ActiveCounted(src, audit, realm, bot, t);
            if IsRelevant(last) && CountedBefore(src, realm, bot, t)(last) then
              (last.user in before) == !IsActivation(last)
              && after == if IsActivation(last) then before + {last.user} else before - {last.user}
            else after == before
  {
    var front, last := audit[..|audit| - 1], audit[|audit| - 1];
    AllActiveMembers(src, front, realm, bot, t);
    AllActiveMembers(src, audit, realm, bot, t);
    if IsRelevant(last) && last.eventTime < t {
      AllBefore(front, last.user, t);
    }
  }

  /** Counting the active users is adding up the changes so far. */
  lemma {:induction false} ActiveIsNet(src: Source, audit: seq<AuditRow>, realm: int, bot: bool, t: int)
    requires Alternating(audit)
    ensures |ActiveCounted(src, audit, realm, bot, t)| == Net(audit, CountedBefore(src, realm, bot, t))
  {
    if audit == [] {
      assert ActiveCounted(src, audit, realm, bot, t) == {};
    } else {
      ActiveIsNet(src, audit[..|audit| - 1], realm, bot, t);
      ActiveStep(src, audit, realm, bot, t);
    }
  }

  // ----- The logged statistic -----

  function LogEntryOf(src: Source, r: AuditRow): LogEntry {
    var user := UserOf(src, r.user);
    LogEntry(ActiveUsersLogIsBotDay, user.realm, user.realm, IsBot(user.isBot), r.eventTime, Delta(r))
  }

  /** What actions.py logs: one entry for every audit event, plus or minus one. */
  function LogOf(src: Source, audit: seq<AuditRow>): seq<LogEntry> {
    if audit == [] then []
    else LogOf(src, audit[..|audit| - 1]) + if IsRelevant(audit[|audit| - 1]) then [LogEntryOf(src, audit[|audit| - 1])]
                                            else []
  }

  /** The statistic is kept per realm and day, as in `COUNT_STATS`. */
  predicate LogsPerRealmDay(c: Config) {
    var stat := c.stats(ActiveUsersLogIsBotDay);
    stat.output == RealmCount && stat.frequency == Daily && stat.collector.Logged?
  }

  function LogBucket(realm: int, bot: bool, day: int): Key {
    Key(RealmCount, realm, ActiveUsersLogIsBotDay, IsBot(bot), day)
  }

  /** The total of the `n` daily buckets that end with day `t`. */
  function BucketsTotal(c: Config, entries: seq<LogEntry>, realm: int, bot: bool, t: int, n: nat): int {
    if n == 0 then 0
    else
      var last := LogBucket(realm, bot, t - (n - 1) * DAY);
      BucketsTotal(c, entries, realm, bot, t, n - 1) + LoggedSum(c, entries, last)
  }

  function CountedWithin(src: Source, realm: int, bot: bool, a: int, b: int): AuditRow -> bool {
    (r: AuditRow) => IsCounted(src, realm, bot, r.user) && a < r.eventTime <= b
  }

  lemma {:induction false} BucketIsNet(c: Config, src: Source, audit: seq<AuditRow>, realm: int, bot: bool, day: int)
    requires LogsPerRealmDay(c) && day % DAY == 0
    ensures LoggedSum(c, LogOf(src, audit), LogBucket(realm, bot, day)) ==
        Net(audit, CountedWithin(src, realm, bot, day - DAY, day))
  {
    if audit != [] {
      var front, last := audit[..|audit| - 1], audit[|audit| - 1];
      BucketIsNet(c, src, front, realm, bot, day);
      CeilingUnique(last.eventTime, DAY, day);
      if IsRelevant(last) {
        LoggedSumAppend(c, LogOf(src, front), LogEntryOf(src, last), LogBucket(realm, bot, day));
      } else {
        assert LogOf(src, audit) == LogOf(src, front);
      }
    }
  }

  lemma {:induction false} BucketsAreNet(c: Config, src: Source, realm: int, bot: bool, t: int, n: nat)
    requires LogsPerRealmDay(c) && t % DAY == 0
    ensures BucketsTotal(c, LogOf(src, src.audit), realm, bot, t, n)
         == Net(src.audit, CountedWithin(src, realm, bot, t - n * DAY, t))
  {
    if n == 0 {
      NetOfNone(src.audit, CountedWithin(src, realm, bot, t, t));
    } else {
      var day := t - (n - 1) * DAY;
      BucketsAreNet(c, src, realm, bot, t, n - 1);
      assert day % DAY == 0 by {
        MultipleMod(n - 1, DAY);
        SumOfMultiples(t, (n - 1) * DAY, DAY);
      }
      BucketIsNet(c, src, src.audit, realm, bot, day);
      NetSplits(src.audit, CountedWithin(src, realm, bot, day - DAY, t),
        CountedWithin(src, realm, bot, day - DAY, day), CountedWithin(src, realm, bot, day, t));
    }
  }

  lemma {:induction false} NetOfNone(audit: seq<AuditRow>, keep: AuditRow -> bool)
    requires forall r :: r in audit ==> !keep(r)
    ensures Net(audit, keep) == 0
  {
    if audit != [] {
      assert audit[|audit| - 1] in audit;
      NetOfNone(audit[..|audit| - 1], keep);
    }
  }

  // ----- Audit against log -----

  /** The RealmCount value of the audit statistic at day `t`. */
  ghost function AuditValue(src: Source, realm: int, bot: bool, t: int): int {
    ValueAt(Aggregate(AuditRows(src, t), RealmCount), Key(RealmCount, realm, ActiveUsersAuditIsBotDay, IsBot(bot), t))
  }

  lemma AuditValueIsActive(src: Source, realm: int, bot: bool, t: int)
    requires Alternating(src.audit)
    ensures AuditValue(src, realm, bot, t) == |ActiveCounted(src, src.audit, realm, bot, t)|
  {
    var rows, active := AuditRows(src, t), ActiveCounted(src, src.audit, realm, bot, t);
    var g := Key(RealmCount, realm, ActiveUsersAuditIsBotDay, IsBot(bot), t);
    var members := Members(rows, RealmCount, g);
    AuditFindsActive(src.audit, t);
    forall u
      ensures u in active <==> AuditKey(src, u, t) in members
    {
      ActiveMembers(src, src.audit, realm, bot, t, u);
    }
    forall k | k in members
      ensures k == AuditKey(src, k.owner, t)
    {
    }
    SumConst(members, Values(rows), 1);
    SameSize(active, members, (u: int) => AuditKey(src, u, t), (k: Key) => k.owner);
    if g !in Groups(rows, RealmCount) {
      assert members == {};
    }
  }

  lemma {:induction false} SameSize<A(!new), B(!new)>(s: set<A>, t: set<B>, f: A -> B, back: B -> A)
    requires forall x :: x in s ==> f(x) in t && back(f(x)) == x
    requires forall y :: y in t ==> back(y) in s && f(back(y)) == y
    ensures |s| == |t|
  {
    if s == {} {
      assert forall y :: y in t ==> back(y) in s;
      assert t == {};
    } else {
      var x :| x in s;
      SameSize(s - {x}, t - {f(x)}, f, back);
    }
  }

  /**
   * The partial sum of the log over any span that reaches back before the first event exceeds the audit count by the
   * net change of the events exactly at `t`: the log's bucket is closed at its end and the audit's window is open.
   */
  lemma AuditAgainstLog(c: Config, src: Source, realm: int, bot: bool, t: int, n: nat)
    requires LogsPerRealmDay(c) && Alternating(src.audit) && t % DAY == 0
    requires forall r :: r in src.audit ==> t - n * DAY < r.eventTime
    ensures BucketsTotal(c, LogOf(src, src.audit), realm, bot, t, n)
         == AuditValue(src, realm, bot, t) + Net(src.audit, CountedAt(src, realm, bot, t))
    ensures BucketsTotal(c, LogOf(src, src.audit), realm, bot, t, n) == AuditValue(src, realm, bot, t)
       <==> Net(src.audit, CountedAt(src, realm, bot, t)) == 0
  {
    BucketsAreNet(c, src, realm, bot, t, n);
    NetSplits(src.audit, CountedWithin(src, realm, bot, t - n * DAY, t),
      CountedBefore(src, realm, bot, t), CountedAt(src, realm, bot, t));
    ActiveIsNet(src, src.audit, realm, bot, t);
    AuditValueIsActive(src, realm, bot, t);
  }

  /** With no event on the boundary the audit is the partial sum sequence of the log. */
  lemma AuditIsPartialSum(c: Config, src: Source, realm: int, bot: bool, t: int, n: nat)
    requires LogsPerRealmDay(c) && Alternating(src.audit) && t % DAY == 0
    requires forall r :: r in src.audit ==> t - n * DAY < r.eventTime && r.eventTime != t
    ensures AuditValue(src, realm, bot, t) == BucketsTotal(c, LogOf(src, src.audit), realm, bot, t, n)
  {
    AuditAgainstLog(c, src, realm, bot, t, n);
    NetOfNone(src.audit, CountedAt(src, realm, bot, t));
  }

  /** One activation exactly on the boundary: logged in the bucket that ends there, and not yet audited. */
  lemma BoundaryEvent(c: Config, src: Source, t: int)
    requires LogsPerRealmDay(c) && t % DAY == 0
    requires src.audit == [AuditRow(1, UserActivated, t)] && src.users == map[1 := User(7, false, t, true)]
    ensures BucketsTotal(c, LogOf(src, src.audit), 7, false, t, 1) == AuditValue(src, 7, false, t) + 1
  {
    assert src.audit[..0] == [] && Alternating([]);
    AuditAgainstLog(c, src, 7, false, t, 1);
  }
}

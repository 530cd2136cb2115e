/** The three message statistics of a user count the same messages. */
module MessageCounts {
  import opened Times
  import opened SetSums
  import opened CountTables
  import opened CountQueries

  function SentBy(u: int, a: int, b: int): Message -> bool {
    (m: Message) => m.sender == u && SentWithin(m, a, b)
  }

  /** The end of the hour a message falls in. */
  function HourEnd(x: int): int {
    Floor(x, HOUR) + HOUR
  }

  /** Sent in the window, by a user who had joined before that hour ended. */
  function SentAfterJoining(src: Source, u: int, a: int, b: int): Message -> bool {
    (m: Message) => m.sender == u && SentWithin(m, a, b) && UserOf(src, u).dateJoined < HourEnd(m.dateSent)
  }

  function HourKey(src: Source, u: int, h: int): Key {
    Key(UserCount, u, MessagesSentIsBotHour, IsBot(UserOf(src, u).isBot), h)
  }

  function HourRows(src: Source, h: int): Rows {
    MessageRows(src, MessagesSentIsBotHour, SenderIsBot(src), h - HOUR, h)
  }

  function ClientRows(src: Source, t: int): Rows {
    MessageRows(src, MessagesSentClientDay, SendingClient(), t - DAY, t)
  }

  /** The sum of the `n` hourly values that end at `t`. */
  function HoursBack(value: int -> int, t: int, n: nat): int {
    if n == 0 then 0 else HoursBack(value, t, n - 1) + value(t - (n - 1) * HOUR)
  }

  function PulledHour(src: Source, u: int): int -> int {
    h => ValueAt(HourRows(src, h), HourKey(src, u, h))
  }

  /** The total of a table's rows for one user. */
  ghost function OwnerTotal(rows: Rows, u: int): int {
    Sum((set k | k in rows && IsOwnedBy(u)(k)), Values(rows))
  }

  function IsOwnedBy(u: int): Key -> bool {
    (k: Key) => k.owner == u
  }

  lemma CountSplits<R>(rows: seq<R>, whole: R -> bool, a: R -> bool, b: R -> bool)
    requires forall r :: r in rows ==> (whole(r) <==> a(r) || b(r)) && !(a(r) && b(r))
    ensures Count(rows, whole) == Count(rows, a) + Count(rows, b)
  {
    assert Matches(rows, whole) == Matches(rows, a) + Matches(rows, b);
    assert Matches(rows, a) !! Matches(rows, b);
  }

  lemma HourEndOf(x: int, h: int)
    requires h % HOUR == 0 && h - HOUR <= x < h
    ensures HourEnd(x) == h
  {
    NextBoundary(x, HOUR);
    BoundariesApart(HourEnd(x), h, HOUR);
  }

  lemma HourValue(src: Source, u: int, h: int)
    requires h % HOUR == 0
    ensures ValueAt(HourRows(src, h), HourKey(src, u, h)) == Count(src.messages, SentAfterJoining(src, u, h - HOUR, h))
  {
    var keep, key := JoinedAndSent(src, h - HOUR, h), SenderKey(MessagesSentIsBotHour, SenderIsBot(src), h);
    CountByValue(src.messages, keep, key, OwnersRealm(src), HourKey(src, u, h));
    forall m | m in src.messages
      ensures InGroup(keep, key, HourKey(src, u, h))(m) == SentAfterJoining(src, u, h - HOUR, h)(m)
    {
      if SentWithin(m, h - HOUR, h) {
        HourEndOf(m.dateSent, h);
      }
    }
    CountAgree(src.messages, InGroup(keep, key, HourKey(src, u, h)), SentAfterJoining(src, u, h - HOUR, h));
  }

  lemma WindowSplits(src: Source, u: int, a: int, b: int, c: int)
    requires a <= b <= c
    ensures Count(src.messages, SentAfterJoining(src, u, a, c))
         == Count(src.messages, SentAfterJoining(src, u, a, b)) + Count(src.messages, SentAfterJoining(src, u, b, c))
  {
    CountSplits(src.messages, SentAfterJoining(src, u, a, c), SentAfterJoining(src, u, a, b),
                SentAfterJoining(src, u, b, c));
  }

  lemma HourBefore(t: int, n: int)
    requires t % HOUR == 0
    ensures (t - n * HOUR) % HOUR == 0
  {
    MultipleMod(n, HOUR);
    SumOfMultiples(t, n * HOUR, HOUR);
  }

  lemma {:induction false} SameHoursBack(f: int -> int, g: int -> int, t: int, n: nat)
    requires t % HOUR == 0
    requires forall h :: h % HOUR == 0 && t - n * HOUR < h <= t ==> f(h) == g(h)
    ensures HoursBack(f, t, n) == HoursBack(g, t, n)
  {
    if n > 0 {
      HourBefore(t, n - 1);
      SameHoursBack(f, g, t, n - 1);
    }
  }

  ghost predicate StepsOf(value: int -> int, since: int -> int, t: int) {
    forall h {:trigger value(h)} :: h % HOUR == 0 && h <= t ==> value(h) + since(h) == since(h - HOUR)
  }

  /** Hourly values that are the steps of a running total add up to that total. */
  lemma {:induction false} HoursTelescope(value: int -> int, since: int -> int, t: int, n: nat)
    requires t % HOUR == 0 && since(t) == 0 && StepsOf(value, since, t)
    ensures HoursBack(value, t, n) == since(t - n * HOUR)
  {
    if n > 0 {
      HourBefore(t, n - 1);
      HoursTelescope(value, since, t, n - 1);
    }
  }

  function SentSince(src: Source, u: int, t: int): int -> int {
    a => Count(src.messages, SentAfterJoining(src, u, a, t))
  }

  lemma HourStep(src: Source, u: int, h: int, t: int)
    requires h % HOUR == 0 && h <= t
    ensures PulledHour(src, u)(h) + SentSince(src, u, t)(h) == SentSince(src, u, t)(h - HOUR)
  {
    HourValue(src, u, h);
    WindowSplits(src, u, h - HOUR, h, t);
  }

  lemma HourSteps(src: Source, u: int, t: int)
    ensures SentSince(src, u, t)(t) == 0 && StepsOf(PulledHour(src, u), SentSince(src, u, t), t)
  {
    assert Matches(src.messages, SentAfterJoining(src, u, t, t)) == {};
    forall h {:trigger PulledHour(src, u)(h)} | h % HOUR == 0 && h <= t
      ensures PulledHour(src, u)(h) + SentSince(src, u, t)(h) == SentSince(src, u, t)(h - HOUR)
    {
      HourStep(src, u, h, t);
    }
  }

  lemma HoursCount(src: Source, u: int, t: int, n: nat)
    requires t % HOUR == 0
    ensures HoursBack(PulledHour(src, u), t, n) == SentSince(src, u, t)(t - n * HOUR)
  {
    HourSteps(src, u, t);
    HoursTelescope(PulledHour(src, u), SentSince(src, u, t), t, n);
  }

  lemma ClientsCount(src: Source, u: int, t: int)
    ensures OwnerTotal(ClientRows(src, t), u) ==
        if UserOf(src, u).dateJoined < t then Count(src.messages, SentBy(u, t - DAY, t)) else 0
  {
    var keep, key := JoinedAndSent(src, t - DAY, t), SenderKey(MessagesSentClientDay, SendingClient(), t);
    CountByTotal(src.messages, keep, key, OwnersRealm(src), IsOwnedBy(u));
    if UserOf(src, u).dateJoined < t {
      CountAgree(src.messages, InChosen(keep, key, IsOwnedBy(u)), SentBy(u, t - DAY, t));
    } else {
      assert Matches(src.messages, InChosen(keep, key, IsOwnedBy(u))) == {};
    }
  }

  lemma TypesCount(src: Source, u: int, t: int)
    ensures OwnerTotal(MessageTypeRows(src, t - DAY, t), u) == Count(src.messages, SentBy(u, t - DAY, t))
  {
    MessageTypesFlatten(src, t - DAY, t);
    CountByTotal(src.messages, InWindow(t - DAY, t), TypeKey(src, t), OwnersRealm(src), IsOwnedBy(u));
    CountAgree(src.messages, InChosen(InWindow(t - DAY, t), TypeKey(src, t), IsOwnedBy(u)), SentBy(u, t - DAY, t));
  }

  /** The user had joined before the end of the hour of every message of the day. */
  ghost predicate JoinedInTime(src: Source, u: int, t: int) {
    forall m :: m in src.messages && SentBy(u, t - DAY, t)(m) ==> UserOf(src, u).dateJoined < HourEnd(m.dateSent)
  }

  lemma TimelyCount(src: Source, u: int, t: int)
    ensures Count(src.messages, SentAfterJoining(src, u, t - DAY, t)) == Count(src.messages, SentBy(u, t - DAY, t))
       <==> JoinedInTime(src, u, t)
  {
    CountAllOf(src.messages, SentAfterJoining(src, u, t - DAY, t), SentBy(u, t - DAY, t));
  }

  lemma NothingBeforeJoining(src: Source, u: int, t: int)
    requires t % DAY == 0 && JoinedInTime(src, u, t) && UserOf(src, u).dateJoined >= t
    ensures Count(src.messages, SentBy(u, t - DAY, t)) == 0
  {
    var sent := Matches(src.messages, SentBy(u, t - DAY, t));
    forall i | i in sent
      ensures false
    {
      assert src.messages[i] in src.messages;
      HourEndBefore(src.messages[i].dateSent, t);
    }
    assert sent == {};
  }

  /**
   * The three statistics of one user's day agree exactly when the user had joined before the end of the hour of every
   * message of the day. The message-type query alone ignores `date_joined`.
   */
  lemma DayAgreement(src: Source, u: int, t: int)
    requires t % DAY == 0
    ensures OwnerTotal(MessageTypeRows(src, t - DAY, t), u) == Count(src.messages, SentBy(u, t - DAY, t))
    ensures (&& HoursBack(PulledHour(src, u), t, 24) == OwnerTotal(MessageTypeRows(src, t - DAY, t), u)
             && OwnerTotal(ClientRows(src, t), u) == OwnerTotal(MessageTypeRows(src, t - DAY, t), u))
       <==> JoinedInTime(src, u, t)
  {
    CoarserBoundary(t, DAY, HOUR);
    HoursCount(src, u, t, 24);
    ClientsCount(src, u, t);
    TypesCount(src, u, t);
    TimelyCount(src, u, t);
    if JoinedInTime(src, u, t) && UserOf(src, u).dateJoined >= t {
      NothingBeforeJoining(src, u, t);
    }
  }

  /**
   * A message five hours old from an account that joined one hour ago: counted for the day and in none of its hours.
   */
  lemma SentBeforeJoining(src: Source, t: int)
    requires t % DAY == 0
    requires src.users == map[1 := User(7, false, t - HOUR, true)] && src.messages == [Message(1, 1, 1, t - 5 * HOUR)]
    ensures HoursBack(PulledHour(src, 1), t, 24) == 0
    ensures OwnerTotal(ClientRows(src, t), 1) == 1 && OwnerTotal(MessageTypeRows(src, t - DAY, t), 1) == 1
  {
    CoarserBoundary(t, DAY, HOUR);
    HoursCount(src, 1, t, 24);
    ClientsCount(src, 1, t);
    TypesCount(src, 1, t);
    assert HourEnd(t - 5 * HOUR) < t - HOUR;
    assert Matches(src.messages, SentAfterJoining(src, 1, t - DAY, t)) == {};
    assert Matches(src.messages, SentBy(1, t - DAY, t)) == {0};
  }

  lemma HourEndBefore(x: int, t: int)
    requires t % DAY == 0 && x < t
    ensures HourEnd(x) <= t
  {
    CoarserBoundary(t, DAY, HOUR);
    NextBoundary(x, HOUR);
    if HourEnd(x) > t {
      BoundariesApart(Floor(x, HOUR), t, HOUR);
    }
  }

  /** In particular they agree when no message predates its sender's `date_joined`. */
  lemma DayAgreementForJoinedUsers(src: Source, u: int, t: int)
    requires t % DAY == 0
    requires forall m :: m in src.messages && m.sender == u ==> UserOf(src, u).dateJoined <= m.dateSent
    ensures HoursBack(PulledHour(src, u), t, 24) == Count(src.messages, SentBy(u, t - DAY, t))
    ensures OwnerTotal(ClientRows(src, t), u) == Count(src.messages, SentBy(u, t - DAY, t))
    ensures OwnerTotal(MessageTypeRows(src, t - DAY, t), u) == Count(src.messages, SentBy(u, t - DAY, t))
  {
    forall m | m in src.messages && SentBy(u, t - DAY, t)(m)
      ensures UserOf(src, u).dateJoined < HourEnd(m.dateSent)
    {
      assert m.dateSent < HourEnd(m.dateSent);
    }
    DayAgreement(src, u, t);
  }
}

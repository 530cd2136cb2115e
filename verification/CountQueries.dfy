/** The pull queries of analytics/lib/counts.py as functions on the rows of the source tables. */
module CountQueries {
  import opened Options
  import opened SetSums
  import opened CountTables
  import opened MinutesActive

  datatype User = User(realm: int, isBot: bool, dateJoined: int, isActive: bool)
  datatype Message = Message(sender: int, recipient: int, client: int, dateSent: int)

  /** `typeId` names a user, a stream or a huddle; nothing in the row says which of those tables it is looked up in. */
  datatype Recipient = Recipient(recipientType: int, typeId: int)
  datatype Stream = Stream(realm: int, inviteOnly: Option<bool>, dateCreated: int)

  datatype AuditEvent = UserCreated | UserActivated | UserDeactivated | UserReactivated | OtherEvent
  datatype AuditRow = AuditRow(user: int, event: AuditEvent, eventTime: int)

  const PERSONAL := 1
  const STREAM := 2
  const HUDDLE := 3

  datatype Source = Source(
    users: map<int, User>,
    realmCreated: map<int, int>,
    messages: seq<Message>,
    recipients: map<int, Recipient>,
    streams: map<int, Stream>,
    audit: seq<AuditRow>,
    intervals: seq<Interval>)

  function UserOf(src: Source, u: int): User {
    if u in src.users then src.users[u] else User(0, false, 0, false)
  }

  // ----- Counting -----

  /** The positions of the rows a WHERE clause keeps. */
  function Matches<R>(rows: seq<R>, keep: R -> bool): set<int> {
    set i | 0 <= i < |rows| && keep(rows[i])
  }

  function Count<R>(rows: seq<R>, keep: R -> bool): nat {
    |Matches(rows, keep)|
  }

  /** The rows kept that fall in group `g`. */
  function InGroup<R, G(==)>(keep: R -> bool, group: R -> G, g: G): R -> bool {
    r => keep(r) && group(r) == g
  }

  /** The groups of the rows kept. */
  function GroupSet<R, G>(rows: seq<R>, keep: R -> bool, group: R -> G): set<G> {
    set i | i in Matches(rows, keep) :: group(rows[i])
  }

  /** The rows kept whose group is chosen. */
  function InChosen<R, G>(keep: R -> bool, group: R -> G, chosen: G -> bool): R -> bool {
    r => keep(r) && chosen(group(r))
  }

  /** `SELECT count(*) ... GROUP BY key`, with the realm each group carries. */
  function CountBy<R>(rows: seq<R>, keep: R -> bool, key: R -> Key, realm: Key -> int): Rows {
    map k | k in GroupSet(rows, keep, key) :: Cell(realm(k), Count(rows, InGroup(keep, key, k)))
  }

  lemma CountAgree<R>(rows: seq<R>, keep: R -> bool, keep': R -> bool)
    requires forall r :: r in rows ==> keep(r) == keep'(r)
    ensures Count(rows, keep) == Count(rows, keep')
  {
    assert Matches(rows, keep) == Matches(rows, keep');
  }

  lemma FewerElements(a: set<int>, b: set<int>, i: int)
    requires a <= b && i in b && i !in a
    ensures |a| < |b|
  {
    assert b == a + (b - a);
    assert i in b - a;
    assert |b| == |a| + |b - a|;
  }

  /** A narrower filter counts as many rows as a wider one exactly when it keeps every row that the wider one keeps. */
  lemma CountAllOf<R>(rows: seq<R>, narrow: R -> bool, wide: R -> bool)
    requires forall r :: r in rows && narrow(r) ==> wide(r)
    ensures Count(rows, narrow) == Count(rows, wide) <==> forall r :: r in rows && wide(r) ==> narrow(r)
  {
    if forall r :: r in rows && wide(r) ==> narrow(r) {
      CountAgree(rows, narrow, wide);
    } else {
      var i :| 0 <= i < |rows| && wide(rows[i]) && !narrow(rows[i]);
      assert Matches(rows, narrow) <= Matches(rows, wide);
      FewerElements(Matches(rows, narrow), Matches(rows, wide), i);
    }
  }

  /** A row kept has its group, and every group comes from a row kept. */
  lemma GroupSetMembers<R, G(!new)>(rows: seq<R>, keep: R -> bool, group: R -> G)
    ensures forall r :: r in rows && keep(r) ==> group(r) in GroupSet(rows, keep, group)
    ensures forall g :: g in GroupSet(rows, keep, group) ==> exists r :: r in rows && keep(r) && group(r) == g
  {
    forall r | r in rows && keep(r)
      ensures group(r) in GroupSet(rows, keep, group)
    {
      var i :| 0 <= i < |rows| && rows[i] == r;
      assert i in Matches(rows, keep);
    }
    forall g | g in GroupSet(rows, keep, group)
      ensures exists r :: r in rows && keep(r) && group(r) == g
    {
      var i :| i in Matches(rows, keep) && group(rows[i]) == g;
      assert rows[i] in rows;
    }
  }

  /** Rows kept, split into groups: the group counts add up. */
  lemma CountByGroups<R, G(!new)>(rows: seq<R>, keep: R -> bool, groups: set<G>, group: R -> G, total: G -> int)
    requires forall r :: r in rows && keep(r) ==> group(r) in groups
    requires forall g :: g in groups ==> total(g) == Count(rows, InGroup(keep, group, g))
    ensures Sum(groups, total) == Count(rows, keep)
  {
    var s := Matches(rows, keep);
    if rows == [] {
      assert s == {};
      forall g | g in groups
        ensures total(g) == 0
      {
        assert Matches(rows, InGroup(keep, group, g)) == {};
      }
      SumConst(groups, total, 0);
    } else {
      var groupAt := (i: int) => if 0 <= i < |rows| then group(rows[i]) else group(rows[0]);
      forall g | g in groups
        ensures total(g) == Sum(Fibre(s, groupAt, g), (i: int) => 1)
      {
        SumConst(Fibre(s, groupAt, g), (i: int) => 1, 1);
        assert Fibre(s, groupAt, g) == Matches(rows, InGroup(keep, group, g));
      }
      SumByGroups(s, (i: int) => 1, groups, groupAt, total);
      SumConst(s, (i: int) => 1, 1);
    }
  }

  /** The groups chosen by `chosen` count together the rows kept in any of them. */
  lemma CountByTotal<R>(rows: seq<R>, keep: R -> bool, key: R -> Key, realm: Key -> int, chosen: Key -> bool)
    ensures Sum((set k | k in CountBy(rows, keep, key, realm) && chosen(k)), Values(CountBy(rows, keep, key, realm)))
         == Count(rows, InChosen(keep, key, chosen))
  {
    var table := CountBy(rows, keep, key, realm);
    var groups := set k | k in table && chosen(k);
    GroupSetMembers(rows, keep, key);
    forall k | k in groups
      ensures Values(table)(k) == Count(rows, InGroup(InChosen(keep, key, chosen), key, k))
    {
      CountAgree(rows, InGroup(keep, key, k), InGroup(InChosen(keep, key, chosen), key, k));
    }
    CountByGroups(rows, InChosen(keep, key, chosen), groups, key, Values(table));
  }

  /** A stored count is the number of rows in its group, and no row is stored for an empty group. */
  lemma CountByValue<R>(rows: seq<R>, keep: R -> bool, key: R -> Key, realm: Key -> int, k: Key)
    ensures ValueAt(CountBy(rows, keep, key, realm), k) == Count(rows, InGroup(keep, key, k))
    ensures k in CountBy(rows, keep, key, realm) ==> ValueAt(CountBy(rows, keep, key, realm), k) > 0
  {
    GroupSetMembers(rows, keep, key);
    if k in CountBy(rows, keep, key, realm) {
      var i :| i in Matches(rows, keep) && key(rows[i]) == k;
      assert i in Matches(rows, InGroup(keep, key, k));
    } else {
      forall i | i in Matches(rows, keep)
        ensures key(rows[i]) != k
      {
        assert rows[i] in rows;
      }
      assert Matches(rows, InGroup(keep, key, k)) == {};
    }
  }

  // ----- count_message_by_user_query -----

  predicate SentWithin(m: Message, a: int, b: int) {
    a <= m.dateSent < b
  }

  function InWindow(a: int, b: int): Message -> bool {
    (m: Message) => SentWithin(m, a, b)
  }

  function OwnersRealm(src: Source): Key -> int {
    (k: Key) => UserOf(src, k.owner).realm
  }

  function JoinedAndSent(src: Source, a: int, b: int): Message -> bool {
    (m: Message) => UserOf(src, m.sender).dateJoined < b && SentWithin(m, a, b)
  }

  function SenderKey(p: Property, subgroup: Message -> Subgroup, b: int): Message -> Key {
    (m: Message) => Key(UserCount, m.sender, p, subgroup(m), b)
  }

  function MessageRows(src: Source, p: Property, subgroup: Message -> Subgroup, a: int, b: int): Rows {
    CountBy(src.messages, JoinedAndSent(src, a, b), SenderKey(p, subgroup, b), OwnersRealm(src))
  }

  function SenderIsBot(src: Source): Message -> Subgroup {
    (m: Message) => IsBot(UserOf(src, m.sender).isBot)
  }

  function SendingClient(): Message -> Subgroup {
    (m: Message) => Client(m.client)
  }

  // ----- count_message_type_by_user_query -----

  function RecipientOf(src: Source, m: Message): Recipient {
    if m.recipient in src.recipients then src.recipients[m.recipient] else Recipient(0, 0)
  }

  /**
   * `zerver_stream.invite_only` after the LEFT JOIN on `type_id`: NULL without a stream of that id, whatever the type.
   */
  function JoinedInviteOnly(src: Source, m: Message): Option<bool> {
    var id := RecipientOf(src, m).typeId;
    if id in src.streams then src.streams[id].inviteOnly else None
  }

  function TypeOf(recipientType: int, inviteOnly: Option<bool>): MessageType {
    if recipientType == PERSONAL then PrivateMessage
    else if recipientType == HUDDLE then HuddleMessage
    else if inviteOnly == Some(true) then PrivateStream
    else PublicStream
  }

  /** A group of the inner query. */
  datatype Inner = Inner(user: int, recipientType: int, inviteOnly: Option<bool>)

  function InnerOf(src: Source, m: Message): Inner {
    Inner(m.sender, RecipientOf(src, m).recipientType, JoinedInviteOnly(src, m))
  }

  function InnerGroup(src: Source): Message -> Inner {
    (m: Message) => InnerOf(src, m)
  }

  function InnerCounts(src: Source, a: int, b: int): map<Inner, int> {
    map g | g in GroupSet(src.messages, InWindow(a, b), InnerGroup(src))
      :: Count(src.messages, InGroup(InWindow(a, b), InnerGroup(src), g))
  }

  function OuterKey(g: Inner, b: int): Key {
    Key(UserCount, g.user, MessagesSentMessageTypeDay, Kind(TypeOf(g.recipientType, g.inviteOnly)), b)
  }

  function TypeKey(src: Source, b: int): Message -> Key {
    (m: Message) => OuterKey(InnerOf(src, m), b)
  }

  function InnerValue(counts: map<Inner, int>): Inner -> int {
    g => if g in counts then counts[g] else 0
  }

  function OuterGroup(b: int): Inner -> Key {
    (g: Inner) => OuterKey(g, b)
  }

  /** The outer query: the inner counts summed by message type. */
  ghost function MessageTypeRows(src: Source, a: int, b: int): Rows {
    var counts := InnerCounts(src, a, b);
    map k | k in (set g | g in counts :: OuterGroup(b)(g))
      :: Cell(UserOf(src, k.owner).realm, Sum(Fibre(counts.Keys, OuterGroup(b), k), InnerValue(counts)))
  }

  lemma TypeCount(src: Source, a: int, b: int, k: Key)
    ensures Sum(Fibre(InnerCounts(src, a, b).Keys, OuterGroup(b), k), InnerValue(InnerCounts(src, a, b)))
         == Count(src.messages, InGroup(InWindow(a, b), TypeKey(src, b), k))
  {
    var counts := InnerCounts(src, a, b);
    var groups := Fibre(counts.Keys, OuterGroup(b), k);
    var keep := InGroup(InWindow(a, b), TypeKey(src, b), k);
    GroupSetMembers(src.messages, InWindow(a, b), InnerGroup(src));
    forall g | g in groups
      ensures InnerValue(counts)(g) == Count(src.messages, InGroup(keep, InnerGroup(src), g))
    {
      CountAgree(src.messages, InGroup(InWindow(a, b), InnerGroup(src), g), InGroup(keep, InnerGroup(src), g));
    }
    CountByGroups(src.messages, keep, groups, InnerGroup(src), InnerValue(counts));
  }

  /** The nested grouping counts every message once: it is one flat count per user and message type. */
  lemma MessageTypesFlatten(src: Source, a: int, b: int)
    ensures MessageTypeRows(src, a, b) == CountBy(src.messages, InWindow(a, b), TypeKey(src, b), OwnersRealm(src))
  {
    var nested, flat := MessageTypeRows(src, a, b),
        CountBy(src.messages, InWindow(a, b), TypeKey(src, b), OwnersRealm(src));
    SameTypeGroups(src, a, b);
    forall k | k in nested
      ensures nested[k] == flat[k]
    {
      TypeCount(src, a, b, k);
    }
    SameRows(nested, flat);
  }

  lemma SameTypeGroups(src: Source, a: int, b: int)
    ensures MessageTypeRows(src, a, b).Keys == GroupSet(src.messages, InWindow(a, b), TypeKey(src, b))
  {
    var nested, flat := MessageTypeRows(src, a, b).Keys, GroupSet(src.messages, InWindow(a, b), TypeKey(src, b));
    GroupSetMembers(src.messages, InWindow(a, b), InnerGroup(src));
    GroupSetMembers(src.messages, InWindow(a, b), TypeKey(src, b));
    forall k | k in flat
      ensures k in nested
    {
      var m :| m in src.messages && InWindow(a, b)(m) && TypeKey(src, b)(m) == k;
      assert InnerGroup(src)(m) in InnerCounts(src, a, b);
      assert OuterGroup(b)(InnerGroup(src)(m)) == k;
    }
    forall k | k in nested
      ensures k in flat
    {
      var g :| g in InnerCounts(src, a, b) && OuterGroup(b)(g) == k;
      var m :| m in src.messages && InWindow(a, b)(m) && InnerGroup(src)(m) == g;
      assert TypeKey(src, b)(m) == k;
    }
  }
}

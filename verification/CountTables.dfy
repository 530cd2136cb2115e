/** The four count tables of analytics/models.py and the summing statements that fill the coarser ones. */
module CountTables {
  import opened SetSums

  datatype Table = UserCount | StreamCount | RealmCount | InstallationCount

  /** The keys of `COUNT_STATS`. */
  datatype Property =
    | MessagesSentIsBotHour
    | MessagesSentMessageTypeDay
    | MessagesSentClientDay
    | MessagesInStreamIsBotDay
    | ActiveUsersAuditIsBotDay
    | ActiveUsersLogIsBotDay
    | ActiveUsersIsBotDay
    | MessagesReadHour
    | MessagesReadInteractionsHour
    | OneDayActivesDay
    | SevenDayActivesDay
    | FifteenDayActivesDay
    | MinutesActiveDay
    | InvitesSentDay
    | RealmActiveHumansDay

  datatype MessageType = PublicStream | PrivateStream | PrivateMessage | HuddleMessage

  /** The subgroup column: SQL NULL, or the value whose text is stored there. */
  datatype Subgroup = NoSubgroup | IsBot(flag: bool) | Client(id: int) | Kind(messageType: MessageType)

  /**
   * The columns covered by a table's two uniqueness constraints, one for null and one for non-null subgroups.
   * `owner` is the user, stream or realm; an InstallationCount row has no owner and carries 0.
   */
  datatype Key = Key(table: Table, owner: int, property: Property, subgroup: Subgroup, endTime: int)

  /** The remaining columns. */
  datatype Cell = Cell(realm: int, value: int)

  type Rows = map<Key, Cell>

  function ValueAt(rows: Rows, k: Key): int {
    if k in rows then rows[k].value else 0
  }

  function Values(rows: Rows): Key -> int {
    k => ValueAt(rows, k)
  }

  /** The rows of one statistic, of one statistic at one time, and of one table. */
  function Of(rows: Rows, p: Property): Rows {
    map k | k in rows && k.property == p :: rows[k]
  }

  function Slice(rows: Rows, p: Property, t: int): Rows {
    map k | k in rows && k.property == p && k.endTime == t :: rows[k]
  }

  function InTable(rows: Rows, table: Table): Rows {
    map k | k in rows && k.table == table :: rows[k]
  }

  /** Every key belongs to statistic `p` at time `t`. */
  predicate Within(rows: Rows, p: Property, t: int) {
    forall k :: k in rows ==> k.property == p && k.endTime == t
  }

  predicate Submap(part: Rows, whole: Rows) {
    forall k :: k in part ==> k in whole && part[k] == whole[k]
  }

  /** What `QuerySet.filter(property=p, end_time=t).delete()` leaves behind. */
  function DeleteAt(rows: Rows, table: Table, p: Property, t: int): Rows {
    map k | k in rows && !(k.table == table && k.property == p && k.endTime == t) :: rows[k]
  }

  lemma SameRows(a: Rows, b: Rows)
    requires forall k :: k in a <==> k in b
    requires forall k :: k in a && k in b ==> a[k] == b[k]
    ensures a == b
  {
  }

  /** Adding rows under new keys of one slice changes that slice and nothing else. */
  lemma InsertSlice(rows: Rows, added: Rows, p: Property, t: int, q: Property, u: int)
    requires rows.Keys !! added.Keys && Within(added, p, t)
    ensures Slice(rows + added, q, u) == if q == p && u == t then Slice(rows, p, t) + added else Slice(rows, q, u)
  {
    SameRows(Slice(rows + added, q, u), if q == p && u == t then Slice(rows, p, t) + added else Slice(rows, q, u));
  }

  /** Deleting from one slice of one table changes nothing else. */
  lemma DeleteSlice(rows: Rows, table: Table, p: Property, t: int)
    ensures forall k :: k in Slice(DeleteAt(rows, table, p, t), p, t) <==> k in Slice(rows, p, t) && k.table != table
    ensures Submap(Slice(DeleteAt(rows, table, p, t), p, t), Slice(rows, p, t))
  {
  }

  lemma DeleteOtherSlice(rows: Rows, table: Table, p: Property, t: int, q: Property, u: int)
    requires q != p || u != t
    ensures Slice(DeleteAt(rows, table, p, t), q, u) == Slice(rows, q, u)
  {
    SameRows(Slice(DeleteAt(rows, table, p, t), q, u), Slice(rows, q, u));
  }

  /** The row of `table` into which a finer row is summed. */
  function GroupKey(table: Table, k: Key, c: Cell): Key {
    Key(table, if table == RealmCount then c.realm else 0, k.property, k.subgroup, k.endTime)
  }

  function GroupOf(rows: Rows, table: Table): Key -> Key {
    k => if k in rows then GroupKey(table, k, rows[k]) else k
  }

  function Groups(rows: Rows, table: Table): set<Key> {
    set k | k in rows :: GroupKey(table, k, rows[k])
  }

  ghost function Members(rows: Rows, table: Table, g: Key): set<Key> {
    Fibre(rows.Keys, GroupOf(rows, table), g)
  }

  /** The rows inserted by `SELECT sum(value) ... GROUP BY` from `rows` into the coarser `table`. */
  ghost function Aggregate(rows: Rows, table: Table): Rows {
    map g | g in Groups(rows, table) :: Cell(g.owner, Sum(Members(rows, table, g), Values(rows)))
  }

  lemma AggregateWithin(rows: Rows, table: Table, p: Property, t: int)
    requires Within(rows, p, t)
    ensures Within(Aggregate(rows, table), p, t)
    ensures forall g :: g in Aggregate(rows, table) ==> g.table == table
  {
  }

  /** The rows with the property, subgroup and time of `g`, and for a realm row those of its realm. */
  function GroupedWith(rows: Rows, table: Table, g: Key): set<Key> {
    set k | k in rows && k.property == g.property && k.subgroup == g.subgroup && k.endTime == g.endTime &&
        (table == RealmCount ==> rows[k].realm == g.owner)
  }

  /**
   * What `GROUP BY` promises: one row for each realm (or one for the installation), property, subgroup and time that
   * occurs in `rows`, with the total of the rows it occurs in.
   */
  ghost predicate IsGroupBy(sums: Rows, rows: Rows, table: Table) {
    forall g ::
      && (g in sums <==>
            g.table == table && (table != RealmCount ==> g.owner == 0) && GroupedWith(rows, table, g) != {})
      && (g in sums ==> sums[g] == Cell(g.owner, Sum(GroupedWith(rows, table, g), Values(rows))))
  }

  lemma SumsAreGroupedBy(rows: Rows, table: Table)
    ensures IsGroupBy(Aggregate(rows, table), rows, table)
  {
    var sums := Aggregate(rows, table);
    forall g
      ensures g in sums <==>
          g.table == table && (table != RealmCount ==> g.owner == 0) && GroupedWith(rows, table, g) != {}
      ensures g in sums ==> sums[g] == Cell(g.owner, Sum(GroupedWith(rows, table, g), Values(rows)))
    {
      GroupIsGroupedWith(rows, table, g);
    }
  }

  lemma GroupIsGroupedWith(rows: Rows, table: Table, g: Key)
    ensures g in Groups(rows, table) <==>
        g.table == table && (table != RealmCount ==> g.owner == 0) && GroupedWith(rows, table, g) != {}
    ensures g in Groups(rows, table) ==> Members(rows, table, g) == GroupedWith(rows, table, g)
  {
    if g in Groups(rows, table) {
      var k :| k in rows && GroupKey(table, k, rows[k]) == g;
      assert k in GroupedWith(rows, table, g);
    } else if g.table == table && (table != RealmCount ==> g.owner == 0) {
      assert forall k :: k in rows ==> GroupKey(table, k, rows[k]) in Groups(rows, table);
      assert GroupedWith(rows, table, g) == {};
    }
  }

  /** Summing to realms and then to the installation is the same as summing to the installation directly. */
  lemma TwoLevelsAreOne(rows: Rows)
    ensures Aggregate(Aggregate(rows, RealmCount), InstallationCount) == Aggregate(rows, InstallationCount)
  {
    var realms := Aggregate(rows, RealmCount);
    SameInstallationGroups(rows);
    forall g | g in Groups(rows, InstallationCount)
      ensures Aggregate(realms, InstallationCount)[g] == Aggregate(rows, InstallationCount)[g]
    {
      InstallationValue(rows, g);
    }
  }

  lemma SameInstallationGroups(rows: Rows)
    ensures Groups(Aggregate(rows, RealmCount), InstallationCount) == Groups(rows, InstallationCount)
  {
    var realms := Aggregate(rows, RealmCount);
    forall g | g in Groups(rows, InstallationCount)
      ensures g in Groups(realms, InstallationCount)
    {
      var k :| k in rows && g == GroupKey(InstallationCount, k, rows[k]);
      var r := GroupKey(RealmCount, k, rows[k]);
      assert r in realms && GroupKey(InstallationCount, r, realms[r]) == g;
    }
  }

  lemma InstallationValue(rows: Rows, g: Key)
    ensures Sum(Members(Aggregate(rows, RealmCount), InstallationCount, g), Values(Aggregate(rows, RealmCount)))
         == Sum(Members(rows, InstallationCount, g), Values(rows))
  {
    var realms := Aggregate(rows, RealmCount);
    var s := Members(rows, InstallationCount, g);
    var groups := Members(realms, InstallationCount, g);
    var group := GroupOf(rows, RealmCount);
    forall k | k in s
      ensures group(k) in groups
    {
      assert group(k) in Groups(rows, RealmCount);
    }
    forall r | r in groups
      ensures Values(realms)(r) == Sum(Fibre(s, group, r), Values(rows))
    {
      assert Fibre(s, group, r) == Members(rows, RealmCount, r);
    }
    SumByGroups(s, Values(rows), groups, group, Values(realms));
  }

  /** The grand total of a slice is the same before and after it is summed to a coarser table. */
  lemma AggregatePreservesTotal(rows: Rows, table: Table)
    ensures Sum(Aggregate(rows, table).Keys, Values(Aggregate(rows, table))) == Sum(rows.Keys, Values(rows))
  {
    var sums := Aggregate(rows, table);
    var group := GroupOf(rows, table);
    forall k | k in rows.Keys
      ensures group(k) in sums.Keys
    {
      assert group(k) in Groups(rows, table);
    }
    SumByGroups(rows.Keys, Values(rows), sums.Keys, group, Values(sums));
  }
}

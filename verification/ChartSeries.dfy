/** What a chart of analytics/views/stats.py reads from the count tables, and how it merges client labels. */
module ChartSeries {
  import opened Options
  import opened Times
  import opened SetSums
  import opened CountTables
  import opened FillEngine
  import opened FillRuns
  import opened ChartTimes
  import opened Sequences
  import opened ClientRanking

  // ----- Series -----

  /** The owner of the rows `table_filtered_to_id` selects; the installation table is not filtered. */
  function Owner(table: Table, id: int): int {
    if table == InstallationCount then 0 else id
  }

  predicate Selected(k: Key, p: Property, table: Table, id: int) {
    k.table == table && k.owner == Owner(table, id) && k.property == p
  }

  /** The keys of one series, whatever their end time. */
  function SeriesKeys(rows: Rows, p: Property, table: Table, id: int, s: Subgroup): set<Key> {
    set k | k in rows && Selected(k, p, table, id) && k.subgroup == s
  }

  function Series(rows: Rows, p: Property, table: Table, id: int, s: Subgroup, endTimes: seq<int>): (r: seq<int>)
    ensures |r| == |endTimes|
  {
    seq(|endTimes|, i requires 0 <= i < |endTimes| => ValueAt(rows, Key(table, Owner(table, id), p, s, endTimes[i])))
  }

  predicate Included(rows: Rows, p: Property, table: Table, id: int, s: Subgroup, includeEmpty: bool) {
    includeEmpty || SeriesKeys(rows, p, table, id, s) != {}
  }

  /** One more label: a label that was used before is replaced, and an empty subgroup may be left out. */
  function WithLabel(shown: map<string, seq<int>>, rows: Rows, p: Property, table: Table, id: int, endTimes: seq<int>,
                     labelled: (Subgroup, string), includeEmpty: bool): map<string, seq<int>>
  {
    if Included(rows, p, table, id, labelled.0, includeEmpty) then
      shown[labelled.1 := Series(rows, p, table, id, labelled.0, endTimes)]
    else shown
  }

  /** The labelled series, entry by entry. */
  function Labelled(rows: Rows, p: Property, table: Table, id: int, endTimes: seq<int>,
                    labels: seq<(Subgroup, string)>, includeEmpty: bool): map<string, seq<int>>
  {
    if labels == [] then map[]
    else
      var front, last := labels[..|labels| - 1], labels[|labels| - 1];
      WithLabel(Labelled(rows, p, table, id, endTimes, front, includeEmpty), rows, p, table, id, endTimes, last,
                includeEmpty)
  }

  lemma {:induction false} NoOtherLabels(rows: Rows, p: Property, table: Table, id: int, endTimes: seq<int>,
                                         labels: seq<(Subgroup, string)>, includeEmpty: bool, name: string)
    requires forall i :: 0 <= i < |labels| ==> labels[i].1 != name
    ensures name !in Labelled(rows, p, table, id, endTimes, labels, includeEmpty)
  {
    if labels != [] {
      NoOtherLabels(rows, p, table, id, endTimes, labels[..|labels| - 1], includeEmpty, name);
    }
  }

  lemma LabelledOneMore(rows: Rows, p: Property, table: Table, id: int, endTimes: seq<int>,
                        labels: seq<(Subgroup, string)>, includeEmpty: bool, labelled: (Subgroup, string))
    ensures Labelled(rows, p, table, id, endTimes, labels + [labelled], includeEmpty)
         == WithLabel(Labelled(rows, p, table, id, endTimes, labels, includeEmpty), rows, p, table, id, endTimes,
                      labelled, includeEmpty)
  {
    assert (labels + [labelled])[..|labels|] == labels;
  }

  /** The row of a subgroup at a time. The rows of the installation have no owner. */
  function RowKey(p: Property, table: Table, id: int, s: Subgroup, t: int): Key {
    Key(table, if table == InstallationCount then 0 else id, p, s, t)
  }

  /**
   * The label shows the stored value at each end time, 0 where there is no row; it is left out when empty subgroups are
   * and the subgroup has no row at any time.
   */
  ghost predicate ShowsSubgroup(shown: map<string, seq<int>>, rows: Rows, p: Property, table: Table, id: int,
                                endTimes: seq<int>, labelled: (Subgroup, string), includeEmpty: bool)
  {
    && (labelled.1 in shown <==> includeEmpty || exists t :: RowKey(p, table, id, labelled.0, t) in rows)
    && (labelled.1 in shown ==>
          && |shown[labelled.1]| == |endTimes|
          && forall i :: 0 <= i < |endTimes| ==>
               shown[labelled.1][i] == ValueAt(rows, RowKey(p, table, id, labelled.0, endTimes[i])))
  }

  lemma IncludedMeaning(rows: Rows, p: Property, table: Table, id: int, s: Subgroup, includeEmpty: bool)
    ensures Included(rows, p, table, id, s, includeEmpty) <==>
              includeEmpty || exists t :: RowKey(p, table, id, s, t) in rows
  {
    forall k | k in SeriesKeys(rows, p, table, id, s)
      ensures k == RowKey(p, table, id, s, k.endTime)
    {
    }
    if t :| RowKey(p, table, id, s, t) in rows {
      assert RowKey(p, table, id, s, t) in SeriesKeys(rows, p, table, id, s);
    } else {
      assert SeriesKeys(rows, p, table, id, s) == {};
    }
  }

  lemma OtherLabelSpares(shown: map<string, seq<int>>, rows: Rows, p: Property, table: Table, id: int,
                         endTimes: seq<int>,
                         labelled: (Subgroup, string), other: (Subgroup, string), includeEmpty: bool)
    requires ShowsSubgroup(shown, rows, p, table, id, endTimes, labelled, includeEmpty) && other.1 != labelled.1
    ensures ShowsSubgroup(WithLabel(shown, rows, p, table, id, endTimes, other, includeEmpty),
                          rows, p, table, id, endTimes, labelled, includeEmpty)
  {
  }

  lemma NewLabelShows(shown: map<string, seq<int>>, rows: Rows, p: Property, table: Table, id: int, endTimes: seq<int>,
                      labelled: (Subgroup, string), includeEmpty: bool)
    requires labelled.1 !in shown
    ensures ShowsSubgroup(WithLabel(shown, rows, p, table, id, endTimes, labelled, includeEmpty),
                          rows, p, table, id, endTimes, labelled, includeEmpty)
  {
    IncludedMeaning(rows, p, table, id, labelled.0, includeEmpty);
  }

  /** When no two subgroups share a label, each label shows its own subgroup. */
  lemma {:induction false} LabelShowsSubgroup(rows: Rows, p: Property, table: Table, id: int, endTimes: seq<int>,
                                              labels: seq<(Subgroup, string)>, includeEmpty: bool, i: nat)
    requires i < |labels| && forall j :: 0 <= j < |labels| && j != i ==> labels[j].1 != labels[i].1
    ensures ShowsSubgroup(Labelled(rows, p, table, id, endTimes, labels, includeEmpty),
                          rows, p, table, id, endTimes, labels[i], includeEmpty)
  {
    var front, last := labels[..|labels| - 1], labels[|labels| - 1];
    var shown := Labelled(rows, p, table, id, endTimes, front, includeEmpty);
    if i < |front| {
      LabelShowsSubgroup(rows, p, table, id, endTimes, front, includeEmpty, i);
      OtherLabelSpares(shown, rows, p, table, id, endTimes, labels[i], last, includeEmpty);
    } else {
      NoOtherLabels(rows, p, table, id, endTimes, front, includeEmpty, last.1);
      NewLabelShows(shown, rows, p, table, id, endTimes, last, includeEmpty);
    }
  }

  type ValueDicts = map<Subgroup, map<int, int>>

  /** A lookup in the nested default dictionaries. */
  function Lookup(dicts: ValueDicts, s: Subgroup, t: int): int {
    if s in dicts && t in dicts[s] then dicts[s][t] else 0
  }

  ghost predicate Gathered(part: Rows, p: Property, table: Table, id: int, dicts: ValueDicts) {
    && (forall s, t :: Lookup(dicts, s, t) == ValueAt(part, Key(table, Owner(table, id), p, s, t)))
    && forall s :: s in dicts <==> SeriesKeys(part, p, table, id, s) != {}
  }

  function PutValue(dicts: ValueDicts, s: Subgroup, t: int, value: int): ValueDicts {
    dicts[s := (if s in dicts then dicts[s] else map[])[t := value]]
  }

  lemma GatherOne(part: Rows, p: Property, table: Table, id: int, dicts: ValueDicts, k: Key, cell: Cell)
    requires Gathered(part, p, table, id, dicts) && Selected(k, p, table, id)
    ensures Gathered(part[k := cell], p, table, id, PutValue(dicts, k.subgroup, k.endTime, cell.value))
  {
    forall s
      ensures SeriesKeys(part[k := cell], p, table, id, s) ==
          SeriesKeys(part, p, table, id, s) + if s == k.subgroup then {k} else {}
    {
    }
  }

  /** The selected rows that a loop has read when `todo` is left. */
  function Taken(rows: Rows, p: Property, table: Table, id: int, todo: set<Key>): Rows {
    map k | k in rows && Selected(k, p, table, id) && k !in todo :: rows[k]
  }

  lemma GatherStep(rows: Rows, p: Property, table: Table, id: int, todo: set<Key>, k: Key, dicts: ValueDicts)
    requires Gathered(Taken(rows, p, table, id, todo), p, table, id, dicts)
    requires k in todo && k in rows && Selected(k, p, table, id)
    ensures Gathered(Taken(rows, p, table, id, todo - {k}), p, table, id,
                     PutValue(dicts, k.subgroup, k.endTime, rows[k].value))
  {
    GatherOne(Taken(rows, p, table, id, todo), p, table, id, dicts, k, rows[k]);
    SameRows(Taken(rows, p, table, id, todo - {k}), Taken(rows, p, table, id, todo)[k := rows[k]]);
  }

  lemma GatherNone(rows: Rows, p: Property, table: Table, id: int, all: set<Key>)
    requires forall k :: k in rows && Selected(k, p, table, id) ==> k in all
    ensures Gathered(Taken(rows, p, table, id, all), p, table, id, map[])
  {
    SameRows(Taken(rows, p, table, id, all), map[]);
  }

  /** The loop over the query set. */
  method GatherValues(rows: Rows, p: Property, table: Table, id: int) returns (dicts: ValueDicts)
    ensures Gathered(rows, p, table, id, dicts)
  {
    dicts := map[];
    var todo := set k | k in rows && Selected(k, p, table, id);
    GatherNone(rows, p, table, id, todo);
    while todo != {}
      invariant forall k :: k in todo ==> k in rows && Selected(k, p, table, id)
      invariant Gathered(Taken(rows, p, table, id, todo), p, table, id, dicts)
      decreases |todo|
    {
      var k :| k in todo;
      GatherStep(rows, p, table, id, todo, k, dicts);
      dicts := PutValue(dicts, k.subgroup, k.endTime, rows[k].value);
      todo := todo - {k};
    }
    TakenSuffice(rows, p, table, id, dicts);
  }

  lemma TakenSuffice(rows: Rows, p: Property, table: Table, id: int, dicts: ValueDicts)
    requires Gathered(Taken(rows, p, table, id, {}), p, table, id, dicts)
    ensures Gathered(rows, p, table, id, dicts)
  {
    var part := Taken(rows, p, table, id, {});
    forall s
      ensures SeriesKeys(rows, p, table, id, s) == SeriesKeys(part, p, table, id, s)
    {
    }
    forall s, t
      ensures Lookup(dicts, s, t) == ValueAt(rows, Key(table, Owner(table, id), p, s, t))
    {
      assert Key(table, Owner(table, id), p, s, t) in part <==> Key(table, Owner(table, id), p, s, t) in rows;
    }
  }

  // ----- Totals -----

  function SeriesAt(rows: Rows, p: Property, table: Table, id: int, s: Subgroup, times: set<int>): set<Key> {
    set k | k in SeriesKeys(rows, p, table, id, s) && k.endTime in times
  }

  /** One more end time adds the row at it, if there is one. */
  lemma OneMoreTime(rows: Rows, p: Property, table: Table, id: int, s: Subgroup, times: set<int>, t: int)
    requires t !in times
    ensures Sum(SeriesAt(rows, p, table, id, s, times + {t}), Values(rows))
         == Sum(SeriesAt(rows, p, table, id, s, times), Values(rows)) +
             ValueAt(rows, Key(table, Owner(table, id), p, s, t))
  {
    var k := Key(table, Owner(table, id), p, s, t);
    var before, after := SeriesAt(rows, p, table, id, s, times), SeriesAt(rows, p, table, id, s, times + {t});
    if k in rows {
      assert after == before + {k};
      SumRemove(after, Values(rows), k);
      assert after - {k} == before;
    } else {
      assert after == before;
    }
  }

  /** A series adds up to the stored rows at its end times: each is read once, and a missing row reads as 0. */
  lemma {:induction false} SeriesTotal(rows: Rows, p: Property, table: Table, id: int, s: Subgroup, times: seq<int>)
    requires Distinct(times)
    ensures Total(Series(rows, p, table, id, s, times)) ==
        Sum(SeriesAt(rows, p, table, id, s, Elements(times)), Values(rows))
  {
    if times == [] {
      assert SeriesAt(rows, p, table, id, s, Elements(times)) == {};
    } else {
      var n := |times| - 1;
      var front := times[..n];
      SeriesTotal(rows, p, table, id, s, front);
      assert Series(rows, p, table, id, s, times)[..n] == Series(rows, p, table, id, s, front);
      assert times == front + [times[n]];
      assert Elements(times) == Elements(front) + {times[n]};
      OneMoreTime(rows, p, table, id, s, Elements(front), times[n]);
    }
  }

  function At(arrays: map<string, seq<int>>, i: nat): string -> int {
    name => if name in arrays && i < |arrays[name]| then arrays[name][i] else 0
  }

  predicate HasLabel(labels: seq<(Subgroup, string)>, s: Subgroup) {
    exists j :: 0 <= j < |labels| && labels[j].0 == s
  }

  /** The stored rows of the labelled subgroups at one end time. */
  function ShownAt(rows: Rows, p: Property, table: Table, id: int, labels: seq<(Subgroup, string)>, t: int): set<Key> {
    set k | k in rows && Selected(k, p, table, id) && HasLabel(labels, k.subgroup) && k.endTime == t
  }

  lemma PutTotal(before: map<string, seq<int>>, name: string, values: seq<int>, i: nat)
    requires name !in before && i < |values|
    ensures Sum(before[name := values].Keys, At(before[name := values], i)) ==
        Sum(before.Keys, At(before, i)) + values[i]
  {
    var after := before[name := values];
    SumRemove(after.Keys, At(after, i), name);
    assert after.Keys - {name} == before.Keys;
    SumAgree(before.Keys, At(after, i), At(before, i));
  }

  /** At each end time the labels share out exactly the stored rows. */
  lemma {:induction false} LabelledTotal(rows: Rows, p: Property, table: Table, id: int, endTimes: seq<int>,
                                         labels: seq<(Subgroup, string)>, includeEmpty: bool, i: nat)
    requires i < |endTimes|
    requires forall j, k :: 0 <= j < k < |labels| ==> labels[j].0 != labels[k].0 && labels[j].1 != labels[k].1
    ensures var shown := Labelled(rows, p, table, id, endTimes, labels, includeEmpty);
            Sum(shown.Keys, At(shown, i)) == Sum(ShownAt(rows, p, table, id, labels, endTimes[i]), Values(rows))
  {
    if labels == [] {
      assert ShownAt(rows, p, table, id, labels, endTimes[i]) == {};
    } else {
      var n := |labels| - 1;
      var front, last := labels[..n], labels[n];
      var before, after := Labelled(rows, p, table, id, endTimes, front, includeEmpty),
          Labelled(rows, p, table, id, endTimes, labels, includeEmpty);
      LabelledTotal(rows, p, table, id, endTimes, front, includeEmpty, i);
      NoOtherLabels(rows, p, table, id, endTimes, front, includeEmpty, last.1);
      OneMoreLabel(rows, p, table, id, labels, endTimes[i]);
      if Included(rows, p, table, id, last.0, includeEmpty) {
        PutTotal(before, last.1, Series(rows, p, table, id, last.0, endTimes), i);
      } else {
        assert Key(table, Owner(table, id), p, last.0, endTimes[i]) !in SeriesKeys(rows, p, table, id, last.0);
      }
    }
  }

  lemma OneMoreLabel(rows: Rows, p: Property, table: Table, id: int, labels: seq<(Subgroup, string)>, t: int)
    requires labels != [] && forall j :: 0 <= j < |labels| - 1 ==> labels[j].0 != labels[|labels| - 1].0
    ensures Sum(ShownAt(rows, p, table, id, labels, t), Values(rows))
         == Sum(ShownAt(rows, p, table, id, labels[..|labels| - 1], t), Values(rows))
          + ValueAt(rows, Key(table, Owner(table, id), p, labels[|labels| - 1].0, t))
  {
    var front, s := labels[..|labels| - 1], labels[|labels| - 1].0;
    var before, after := ShownAt(rows, p, table, id, front, t), ShownAt(rows, p, table, id, labels, t);
    var k := Key(table, Owner(table, id), p, s, t);
    forall x: Subgroup
      ensures HasLabel(labels, x) <==> HasLabel(front, x) || x == s
      ensures !HasLabel(front, s)
    {
      if HasLabel(front, x) {
        var j :| 0 <= j < |front| && front[j].0 == x;
        assert labels[j].0 == x;
      }
    }
    if k in rows {
      SumRemove(after, Values(rows), k);
      assert after - {k} == before;
    } else {
      assert after == before;
    }
  }

  function InRange(rows: Rows, p: Property, table: Table, id: int, s: Subgroup, start: int, end: int, step: int,
                   minLength: Option<int>): set<Key>
    requires step > 0
  {
    set k | k in SeriesKeys(rows, p, table, id, s) && Covers(start, end, step, minLength, k.endTime)
  }

  /** Grid agreement: over rows on the fill grid, a chart shows the total of every stored row in its range. */
  lemma ChartTotal(rows: Rows, p: Property, table: Table, id: int, s: Subgroup,
                   start: int, end: int, step: int, minLength: Option<int>, times: seq<int>)
    requires step > 0 && IsTimeRange(times, start, end, step, minLength)
    requires forall k :: k in SeriesKeys(rows, p, table, id, s) ==> k.endTime % step == 0
    ensures Total(Series(rows, p, table, id, s, times))
         == Sum(InRange(rows, p, table, id, s, start, end, step, minLength), Values(rows))
  {
    Ascends(times, Floor(end, step), step);
    SeriesTotal(rows, p, table, id, s, times);
    forall t
      ensures t in times <==> t % step == 0 && Covers(start, end, step, minLength, t)
    {
      RangeMembers(start, end, step, minLength, times, t);
    }
    assert SeriesAt(rows, p, table, id, s, Elements(times))
        == InRange(rows, p, table, id, s, start, end, step, minLength);
  }

  /** After any history every row, pulled, derived or logged, lies on its statistic's grid. */
  lemma RowsOnGrid(c: Config, history: seq<Action>, k: Key)
    requires ValidConfig(c) && k in After(c, history).run.db.rows
    ensures k.endTime % Step(c, k.property) == 0
  {
    EveryHistory(c, history);
    var s := After(c, history);
    var p, t, fills := k.property, k.endTime, s.run.db.fills;
    assert p in fills ==> fills[p].endTime % Step(c, p) == 0;
    if IsLoggedKey(c, k) {
      assert HasEntry(c, s.applied, k);
      var i :| 0 <= i < |s.applied| && LogKey(c, s.applied[i]) == k;
    } else if IsLogged(c, p) {
      assert IsDerivedKey(c, k) && DerivedOk(c, s.run, k);
    } else {
      CrashInvariant(c, history, p, t);
      assert k in Slice(s.run.db.rows, p, t);
    }
  }

  /** So a chart of whatever the fill job and the live increments left behind misses no row in its range. */
  lemma ChartOfHistory(c: Config, history: seq<Action>, p: Property, table: Table, id: int, s: Subgroup,
                       start: int, end: int, minLength: Option<int>, times: seq<int>)
    requires ValidConfig(c) && IsTimeRange(times, start, end, Step(c, p), minLength)
    ensures var rows, step := After(c, history).run.db.rows, Step(c, p);
            Total(Series(rows, p, table, id, s, times))
              == Sum(InRange(rows, p, table, id, s, start, end, step, minLength), Values(rows))
  {
    var rows := After(c, history).run.db.rows;
    forall k | k in SeriesKeys(rows, p, table, id, s)
      ensures k.endTime % Step(c, p) == 0
    {
      RowsOnGrid(c, history, k);
    }
    ChartTotal(rows, p, table, id, s, start, end, Step(c, p), minLength, times);
  }

  /**
   * The installation's default range, from the epoch to the last successful fill, shows everything once that fill is
   * done.
   */
  lemma DefaultRangeShowsAll(c: Config, history: seq<Action>, p: Property, table: Table, id: int, s: Subgroup,
                             minLength: Option<int>, times: seq<int>)
    requires ValidConfig(c) && !IsLogged(c, p)
    requires var fills := After(c, history).run.db.fills;
             && p in fills && fills[p].status == Done
             && IsTimeRange(times, c.epoch, LastFill(c, fills, p), Step(c, p), minLength)
    ensures var rows := After(c, history).run.db.rows;
            Total(Series(rows, p, table, id, s, times)) == Sum(SeriesKeys(rows, p, table, id, s), Values(rows))
  {
    var db, step := After(c, history).run.db, Step(c, p);
    var end := LastFill(c, db.fills, p);
    ChartOfHistory(c, history, p, table, id, s, c.epoch, end, minLength, times);
    forall k | k in SeriesKeys(db.rows, p, table, id, s)
      ensures c.epoch < k.endTime <= end
    {
      CrashInvariant(c, history, p, k.endTime);
      assert k in Slice(db.rows, p, k.endTime);
    }
    assert InRange(db.rows, p, table, id, s, c.epoch, end, step, minLength) == SeriesKeys(db.rows, p, table, id, s);
  }

  // ----- Client labels -----

  predicate StartsWith(s: string, prefix: string) {
    prefix <= s
  }

  predicate EndsWith(s: string, suffix: string) {
    |suffix| <= |s| && s[|s| - |suffix|..] == suffix
  }

  lemma WebhookLength(name: string)
    requires StartsWith(name, "Zulip") && EndsWith(name, "Webhook")
    ensures |name| >= 12
  {
    assert name[|name| - 7] == name[|name| - 7..][0] == 'W';
    assert forall i :: 0 <= i < 5 ==> name[i] == "Zulip"[i] && name[i] != 'W';
  }

  function ClientLabelMap(name: string): string {
    if name == "website" then "Website"
    else if StartsWith(name, "desktop app") then "Old desktop app"
    else if name == "ZulipElectron" then "Desktop app"
    else if name == "ZulipAndroid" then "Old Android app"
    else if name == "ZulipiOS" then "Old iOS app"
    else if name == "ZulipMobile" then "Mobile app"
    else if name in ["ZulipPython", "API: Python"] then "Python API"
    else if StartsWith(name, "Zulip") && EndsWith(name, "Webhook") then
      WebhookLength(name);
      name[5..|name| - 7] + " webhook"
    else name
  }

  /** The names under which the clients of this repository are known, and those that stay as they are. */
  lemma ClientLabels(version: string, integration: string, other: string)
    ensures ClientLabelMap("website") == "Website" && ClientLabelMap("desktop app" + version) == "Old desktop app"
    ensures ClientLabelMap("ZulipElectron") == "Desktop app" && ClientLabelMap("ZulipMobile") == "Mobile app"
    ensures ClientLabelMap("ZulipAndroid") == "Old Android app" && ClientLabelMap("ZulipiOS") == "Old iOS app"
    ensures ClientLabelMap("ZulipPython") == ClientLabelMap("API: Python") == "Python API"
    ensures ClientLabelMap("Zulip" + integration + "Webhook") == integration + " webhook"
    ensures ClientLabelMap(other) != other ==>
              || other in ["website", "ZulipElectron", "ZulipMobile", "ZulipAndroid", "ZulipiOS", "ZulipPython",
                           "API: Python"]
              || StartsWith(other, "desktop app") || (StartsWith(other, "Zulip") && EndsWith(other, "Webhook"))
  {
    var desktop, webhook := "desktop app" + version, "Zulip" + integration + "Webhook";
    assert desktop[0] == 'd';
    assert webhook[0] == 'Z' && webhook[|webhook| - 1] == 'k';
    assert EndsWith(webhook, "Webhook") && StartsWith(webhook, "Zulip");
    assert webhook[5..|webhook| - 7] == integration;
  }

  ghost function Contents(arrays: map<string, array<int>>): map<string, seq<int>>
    reads set name | name in arrays :: arrays[name]
  {
    map name | name in arrays :: arrays[name][..]
  }

  ghost predicate SameLengths(arrays: map<string, seq<int>>, n: nat) {
    forall name :: name in arrays ==> |arrays[name]| == n
  }

  /** The names that are shown as `shown`. */
  ghost function ShownAs(names: set<string>, labelOf: string -> string, shown: string): set<string> {
    Fibre(names, labelOf, shown)
  }

  ghost function MergedAt(arrays: map<string, seq<int>>, names: set<string>, labelOf: string -> string, shown: string,
                          i: nat): int {
    Sum(ShownAs(names, labelOf, shown), At(arrays, i))
  }

  /** Every shown label holds the pointwise sum of all the arrays it stands for. */
  ghost predicate IsMerge(arrays: map<string, seq<int>>, names: set<string>, labelOf: string -> string, n: nat,
                          merged: map<string, seq<int>>) {
    && SameLengths(merged, n)
    && (forall shown :: shown in merged <==> ShownAs(names, labelOf, shown) != {})
    && forall shown, i: nat :: shown in merged && i < n ==>
        At(merged, i)(shown) == MergedAt(arrays, names, labelOf, shown, i)
  }

  /** Merging moves counts between labels and changes no total. */
  lemma MergeConserves(arrays: map<string, seq<int>>, labelOf: string -> string, n: nat, merged: map<string, seq<int>>,
                       i: nat)
    requires IsMerge(arrays, arrays.Keys, labelOf, n, merged) && i < n
    ensures Sum(merged.Keys, At(merged, i)) == Sum(arrays.Keys, At(arrays, i))
  {
    forall name | name in arrays.Keys
      ensures labelOf(name) in merged.Keys
    {
      assert name in ShownAs(arrays.Keys, labelOf, labelOf(name));
    }
    forall shown | shown in merged.Keys
      ensures At(merged, i)(shown) == Sum(Fibre(arrays.Keys, labelOf, shown), At(arrays, i))
    {
      assert At(merged, i)(shown) == MergedAt(arrays, arrays.Keys, labelOf, shown, i);
    }
    SumByGroups(arrays.Keys, At(arrays, i), merged.Keys, labelOf, At(merged, i));
  }

  /** So at each end time the merged client labels still share out exactly the stored rows. */
  lemma ClientChartTotal(rows: Rows, table: Table, id: int, endTimes: seq<int>, labels: seq<(Subgroup, string)>,
                         includeEmpty: bool,
                         merged: map<string, seq<int>>, i: nat)
    requires i < |endTimes|
    requires forall j, k :: 0 <= j < k < |labels| ==> labels[j].0 != labels[k].0 && labels[j].1 != labels[k].1
    requires var series := Labelled(rows, MessagesSentClientDay, table, id, endTimes, labels, includeEmpty);
             IsMerge(series, series.Keys, ClientLabelMap, |endTimes|, merged)
    ensures Sum(merged.Keys, At(merged, i))
         == Sum(ShownAt(rows, MessagesSentClientDay, table, id, labels, endTimes[i]), Values(rows))
  {
    var series := Labelled(rows, MessagesSentClientDay, table, id, endTimes, labels, includeEmpty);
    MergeConserves(series, ClientLabelMap, |endTimes|, merged, i);
    LabelledTotal(rows, MessagesSentClientDay, table, id, endTimes, labels, includeEmpty, i);
  }

  lemma ShownMore(names: set<string>, labelOf: string -> string, name: string, shown: string)
    ensures ShownAs(names + {name}, labelOf, shown)
         == ShownAs(names, labelOf, shown) + if shown == labelOf(name) then {name} else {}
  {
  }

  lemma MergedMore(arrays: map<string, seq<int>>, names: set<string>, labelOf: string -> string, name: string,
                   shown: string, i: nat)
    requires name !in names
    ensures MergedAt(arrays, names + {name}, labelOf, shown, i)
         == MergedAt(arrays, names, labelOf, shown, i) + if shown == labelOf(name) then At(arrays, i)(name) else 0
  {
    var before, after := ShownAs(names, labelOf, shown), ShownAs(names + {name}, labelOf, shown);
    ShownMore(names, labelOf, name, shown);
    if shown == labelOf(name) {
      SumRemove(after, At(arrays, i), name);
      assert after - {name} == before;
    } else {
      assert after == before;
    }
  }

  function Plus(a: seq<int>, b: seq<int>): seq<int>
    requires |a| == |b|
  {
    seq(|a|, i requires 0 <= i < |a| => a[i] + b[i])
  }

  /** One more array, added to the array of its shown label or copied to start one. */
  function Added(merged: map<string, seq<int>>, shown: string, values: seq<int>): map<string, seq<int>>
    requires shown in merged ==> |merged[shown]| == |values|
  {
    merged[shown := if shown in merged then Plus(merged[shown], values) else values]
  }

  lemma MergeOne(arrays: map<string, seq<int>>, names: set<string>, labelOf: string -> string, n: nat,
                 merged: map<string, seq<int>>, name: string)
    requires IsMerge(arrays, names, labelOf, n, merged) && name in arrays && name !in names && |arrays[name]| == n
    ensures IsMerge(arrays, names + {name}, labelOf, n, Added(merged, labelOf(name), arrays[name]))
  {
    var more := Added(merged, labelOf(name), arrays[name]);
    forall shown
      ensures shown in more <==> ShownAs(names + {name}, labelOf, shown) != {}
    {
      ShownMore(names, labelOf, name, shown);
    }
    forall shown, i: nat | shown in more && i < n
      ensures At(more, i)(shown) == MergedAt(arrays, names + {name}, labelOf, shown, i)
    {
      MergedMore(arrays, names, labelOf, name, shown, i);
      if shown in merged {
        assert At(merged, i)(shown) == MergedAt(arrays, names, labelOf, shown, i);
      } else {
        assert ShownAs(names, labelOf, shown) == {};
      }
    }
  }

  method AddInto(target: array<int>, source: array<int>)
    requires target != source && target.Length == source.Length
    modifies target
    ensures target[..] == Plus(old(target[..]), source[..])
  {
    for i := 0 to source.Length
      invariant forall j :: 0 <= j < target.Length ==> target[j] == old(target[j]) + if j < i then source[j] else 0
    {
      target[i] := target[i] + source[i];
    }
  }

  method CopyOf(source: array<int>) returns (copy: array<int>)
    ensures fresh(copy) && copy[..] == source[..]
  {
    copy := new int[source.Length];
    for i := 0 to source.Length
      invariant copy[..i] == source[..i]
    {
      copy[i] := source[i];
    }
  }

  ghost predicate AllOfLength(arrays: map<string, array<int>>, n: nat) {
    forall name :: name in arrays ==> arrays[name].Length == n
  }

  ghost predicate Unshared(arrays: map<string, array<int>>) {
    forall a, b :: a in arrays && b in arrays && a != b ==> arrays[a] != arrays[b]
  }

  ghost function ArraysOf(arrays: map<string, array<int>>): set<array<int>> {
    set name | name in arrays :: arrays[name]
  }

  method MergeArray(mapped: map<string, array<int>>, shown: string, source: array<int>,
                    ghost before: map<string, seq<int>>)
    returns (more: map<string, array<int>>)
    requires Unshared(mapped) && AllOfLength(mapped, source.Length) && source !in ArraysOf(mapped)
    requires Contents(mapped) == before
    modifies ArraysOf(mapped)
    ensures Unshared(more) && AllOfLength(more, source.Length) && fresh(ArraysOf(more) - ArraysOf(mapped))
    ensures shown in before ==> |before[shown]| == source.Length
    ensures Contents(more) == Added(before, shown, source[..])
  {
    if shown in mapped {
      assert mapped[shown] in ArraysOf(mapped);
      AddInto(mapped[shown], source);
      more := mapped;
    } else {
      var copy := CopyOf(source);
      more := mapped[shown := copy];
    }
  }

  method MergeNext(mapped: map<string, array<int>>, labelOf: string -> string, name: string, source: array<int>,
                   ghost arrays: map<string, seq<int>>, ghost names: set<string>)
    returns (more: map<string, array<int>>)
    requires name in arrays && name !in names && source[..] == arrays[name]
    requires Unshared(mapped) && source !in ArraysOf(mapped) &&
        IsMerge(arrays, names, labelOf, source.Length, Contents(mapped))
    modifies ArraysOf(mapped)
    ensures Unshared(more) && fresh(ArraysOf(more) - ArraysOf(mapped))
    ensures IsMerge(arrays, names + {name}, labelOf, source.Length, Contents(more))
  {
    ghost var merged := Contents(mapped);
    forall shown | shown in mapped
      ensures mapped[shown].Length == source.Length
    {
      assert |merged[shown]| == source.Length;
    }
    MergeOne(arrays, names, labelOf, source.Length, merged, name);
    more := MergeArray(mapped, labelOf(name), source, merged);
  }

  method MergeLabels(valueArrays: map<string, array<int>>, labelOf: string -> string,
                     ghost arrays: map<string, seq<int>>, ghost n: nat)
    returns (mapped: map<string, array<int>>)
    requires Contents(valueArrays) == arrays && SameLengths(arrays, n)
    ensures fresh(ArraysOf(mapped)) && Unshared(mapped)
    ensures IsMerge(arrays, arrays.Keys, labelOf, n, Contents(mapped))
  {
    mapped := map[];
    var todo := valueArrays.Keys;
    while todo != {}
      invariant todo <= arrays.Keys == valueArrays.Keys && fresh(ArraysOf(mapped)) && Unshared(mapped)
      invariant IsMerge(arrays, arrays.Keys - todo, labelOf, n, Contents(mapped))
      decreases |todo|
    {
      var name :| name in todo;
      var source := valueArrays[name];
      assert source[..] == old(Contents(valueArrays)[name]) == arrays[name];
      ghost var names := arrays.Keys - todo;
      mapped := MergeNext(mapped, labelOf, name, source, arrays, names);
      todo := todo - {name};
      assert names + {name} == arrays.Keys - todo;
    }
    assert arrays.Keys - todo == arrays.Keys;
  }

  /** `rewrite_client_arrays`: new arrays, shared with nothing; the given arrays keep their contents. */
  method RewriteClientArrays(valueArrays: map<string, array<int>>, ghost arrays: map<string, seq<int>>, ghost n: nat)
    returns (mapped: map<string, array<int>>)
    requires Contents(valueArrays) == arrays && SameLengths(arrays, n)
    ensures fresh(ArraysOf(mapped)) && Unshared(mapped) && Contents(valueArrays) == arrays
    ensures IsMerge(arrays, arrays.Keys, ClientLabelMap, n, Contents(mapped))
  {
    mapped := MergeLabels(valueArrays, ClientLabelMap, arrays, n);
  }

  method ReadSeries(dicts: ValueDicts, s: Subgroup, endTimes: seq<int>,
                    ghost rows: Rows, ghost p: Property, ghost table: Table, ghost id: int) returns (values: array<int>)
    requires Gathered(rows, p, table, id, dicts)
    ensures fresh(values) && values[..] == Series(rows, p, table, id, s, endTimes)
  {
    values := new int[|endTimes|];
    for j := 0 to |endTimes|
      invariant values[..j] == Series(rows, p, table, id, s, endTimes)[..j]
    {
      values[j] := Lookup(dicts, s, endTimes[j]);
    }
  }

  lemma PutContents(arrays: map<string, array<int>>, name: string, values: array<int>)
    ensures Contents(arrays[name := values]) == Contents(arrays)[name := values[..]]
  {
  }

  lemma {:induction false} LabelledLengths(rows: Rows, p: Property, table: Table, id: int, endTimes: seq<int>,
                                           labels: seq<(Subgroup, string)>, includeEmpty: bool)
    ensures SameLengths(Labelled(rows, p, table, id, endTimes, labels, includeEmpty), |endTimes|)
  {
    if labels != [] {
      LabelledLengths(rows, p, table, id, endTimes, labels[..|labels| - 1], includeEmpty);
    }
  }

  method LabelledArrays(rows: Rows, p: Property, table: Table, id: int, endTimes: seq<int>,
                        labels: seq<(Subgroup, string)>, includeEmpty: bool)
    returns (arrays: map<string, array<int>>)
    ensures Contents(arrays) == Labelled(rows, p, table, id, endTimes, labels, includeEmpty)
  {
    var dicts := GatherValues(rows, p, table, id);
    arrays := map[];
    for i := 0 to |labels|
      invariant Contents(arrays) == Labelled(rows, p, table, id, endTimes, labels[..i], includeEmpty)
    {
      var s, name := labels[i].0, labels[i].1;
      assert labels[..i + 1] == labels[..i] + [labels[i]];
      LabelledOneMore(rows, p, table, id, endTimes, labels[..i], includeEmpty, labels[i]);
      if s in dicts || includeEmpty {
        var values := ReadSeries(dicts, s, endTimes, rows, p, table, id);
        PutContents(arrays, name, values);
        arrays := arrays[name := values];
      }
    }
    assert labels[..|labels|] == labels;
  }

  /** `get_time_series_by_subgroup`: the labelled series, merged if the statistic is the one kept by client. */
  method GetTimeSeriesBySubgroup(rows: Rows, p: Property, table: Table, id: int, endTimes: seq<int>,
                                 labels: seq<(Subgroup, string)>, includeEmpty: bool)
    returns (arrays: map<string, array<int>>)
    ensures var series := Labelled(rows, p, table, id, endTimes, labels, includeEmpty);
            if p == MessagesSentClientDay then IsMerge(series, series.Keys, ClientLabelMap, |endTimes|,
                                                       Contents(arrays))
            else Contents(arrays) == series
  {
    var valueArrays := LabelledArrays(rows, p, table, id, endTimes, labels, includeEmpty);
    if p == MessagesSentClientDay {
      LabelledLengths(rows, p, table, id, endTimes, labels, includeEmpty);
      arrays := RewriteClientArrays(valueArrays, Labelled(rows, p, table, id, endTimes, labels, includeEmpty),
                                    |endTimes|);
    } else {
      arrays := valueArrays;
    }
  }
}

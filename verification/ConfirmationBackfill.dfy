/** The batched backfill of expiry dates, confirmation/migrations/0009_confirmation_expiry_date_backfill.py. */
module ConfirmationBackfill {
  import opened Options
  import opened SetSums
  import opened Times

  /** A row of the table; the type is the stored small integer. */
  datatype Confirmation = Confirmation(kind: int, dateSent: int, expiryDate: Option<int>)

  datatype Settings = Settings(invitationLinkValidityDays: int, confirmationLinkDefaultValidityDays: int)

  const USER_REGISTRATION := 1
  const INVITATION := 2
  const EMAIL_CHANGE := 3
  const UNSUBSCRIBE := 4
  const SERVER_REGISTRATION := 5
  const MULTIUSE_INVITE := 6
  const REALM_CREATION := 7
  const REALM_REACTIVATION := 8

  /** `_properties[confirmation_type].validity_in_days`; None where the dictionary has no entry. */
  function ValidityInDays(settings: Settings, kind: int): Option<int> {
    if kind in [USER_REGISTRATION, EMAIL_CHANGE, REALM_CREATION, REALM_REACTIVATION] then
      Some(settings.confirmationLinkDefaultValidityDays)
    else if kind in [INVITATION, MULTIUSE_INVITE] then Some(settings.invitationLinkValidityDays)
    else if kind == UNSUBSCRIBE then Some(1000000)
    else None
  }

  /**
   * The row `create_confirmation_link` makes at `now`, or None for its KeyError. An override of zero days counts as
   * none.
   */
  function CreateConfirmationLink(settings: Settings, kind: int, now: int,
                                  validityInDays: Option<int>): Option<Confirmation> {
    if validityInDays.Some? && validityInDays.value != 0 then
      Some(Confirmation(kind, now, Some(now + validityInDays.value * DAY)))
    else
      match ValidityInDays(settings, kind)
      case None => None
      case Some(days) => Some(Confirmation(kind, now, Some(now + days * DAY)))
  }

  /** What the migration makes of one row. */
  function Backfilled(settings: Settings, c: Confirmation): Confirmation {
    var days :=
      if c.kind in [INVITATION, MULTIUSE_INVITE] then settings.invitationLinkValidityDays
      else if c.kind == UNSUBSCRIBE then 1000000
      else settings.confirmationLinkDefaultValidityDays;
    c.(expiryDate := Some(c.dateSent + days * DAY))
  }

  predicate IsKind(kind: int) {
    USER_REGISTRATION <= kind <= REALM_REACTIVATION
  }

  /**
   * Of the eight types, every row becomes what a default link sent at that date would have been, but for the type
   * without properties.
   */
  lemma BackfillIsDefault(settings: Settings, c: Confirmation)
    requires IsKind(c.kind)
    ensures CreateConfirmationLink(settings, c.kind, c.dateSent, None) == Some(Backfilled(settings, c))
       <==> c.kind != SERVER_REGISTRATION
  {
  }

  /** A link of its own number of days is such a row when that makes the same date; zero days count as none. */
  lemma OverrideIsBackfill(settings: Settings, c: Confirmation, days: int)
    requires IsKind(c.kind)
    ensures CreateConfirmationLink(settings, c.kind, c.dateSent, Some(days)) == Some(Backfilled(settings, c)) <==>
              if days == 0 then c.kind != SERVER_REGISTRATION
              else Backfilled(settings, c).expiryDate == Some(c.dateSent + days * 86400)
  {
    BackfillIsDefault(settings, c);
    if days != 0 {
      assert CreateConfirmationLink(settings, c.kind, c.dateSent, Some(days))
          == Some(Backfilled(settings, c).(expiryDate := Some(c.dateSent + days * DAY)));
    }
  }

  type Rows = map<int, Confirmation>

  function BackfilledBetween(settings: Settings, rows: Rows, lower: int, upper: int): Rows {
    map id | id in rows :: if lower <= id <= upper then Backfilled(settings, rows[id]) else rows[id]
  }

  function AllBackfilled(settings: Settings, rows: Rows): Rows {
    map id | id in rows :: Backfilled(settings, rows[id])
  }

  ghost predicate IsFirst(rows: Rows, first: int) {
    first in rows && forall id :: id in rows ==> first <= id
  }

  ghost predicate IsLast(rows: Rows, last: int) {
    last in rows && forall id :: id in rows ==> id <= last
  }

  datatype Range = Range(lower: int, upper: int)

  /**
   * Ranges that begin at `first`, follow one another without gap or overlap, hold 1000 ids each, and stop once past
   * `last`.
   */
  ghost predicate Tile(ranges: seq<Range>, first: int, last: int) {
    && (forall i :: 0 <= i < |ranges| ==> ranges[i] == Range(first + 1000 * i, first + 1000 * i + 999))
    && first + 1000 * (|ranges| - 1) <= last < first + 1000 * |ranges|
  }

  /** Every id from first to last lies in exactly one of the ranges. */
  lemma VisitedOnce(ranges: seq<Range>, first: int, last: int, id: int) returns (i: nat)
    requires Tile(ranges, first, last) && first <= id <= last
    ensures i < |ranges| && ranges[i].lower <= id <= ranges[i].upper
    ensures forall j :: 0 <= j < |ranges| && ranges[j].lower <= id <= ranges[j].upper ==> j == i
  {
    i := (id - first) / 1000;
  }

  function AfterRanges(settings: Settings, rows: Rows, ranges: seq<Range>): Rows {
    if ranges == [] then rows
    else
      var last := ranges[|ranges| - 1];
      BackfilledBetween(settings, AfterRanges(settings, rows, ranges[..|ranges| - 1]), last.lower, last.upper)
  }

  lemma AfterOneMore(settings: Settings, rows: Rows, ranges: seq<Range>, range: Range)
    ensures AfterRanges(settings, rows, ranges + [range])
         == BackfilledBetween(settings, AfterRanges(settings, rows, ranges), range.lower, range.upper)
  {
    assert (ranges + [range])[..|ranges|] == ranges;
  }

  /** What the first batches have made of one row: nothing yet, or its default if its batch is among them. */
  lemma {:induction false} RowAfter(settings: Settings, rows: Rows, ranges: seq<Range>, first: int, last: int, id: int,
                                    i: nat, n: nat)
    requires Tile(ranges, first, last) && id in rows && n <= |ranges|
    requires forall j :: 0 <= j < |ranges| ==> (ranges[j].lower <= id <= ranges[j].upper <==> j == i)
    ensures id in AfterRanges(settings, rows, ranges[..n])
    ensures AfterRanges(settings, rows, ranges[..n])[id] == if n <= i then rows[id] else Backfilled(settings, rows[id])
  {
    if n > 0 {
      RowAfter(settings, rows, ranges, first, last, id, i, n - 1);
      assert ranges[..n] == ranges[..n - 1] + [ranges[n - 1]];
      AfterOneMore(settings, rows, ranges[..n - 1], ranges[n - 1]);
    }
  }

  /** Each row is written by exactly one batch: untouched before it, its default from then on. */
  lemma WrittenOnce(settings: Settings, rows: Rows, ranges: seq<Range>, first: int, last: int, id: int) returns (i: nat)
    requires Tile(ranges, first, last) && id in rows && first <= id <= last
    ensures i < |ranges|
    ensures forall j :: 0 <= j < |ranges| ==> (ranges[j].lower <= id <= ranges[j].upper <==> j == i)
    ensures forall n :: 0 <= n <= |ranges| ==>
              && id in AfterRanges(settings, rows, ranges[..n])
              && AfterRanges(settings, rows, ranges[..n])[id] == if n <= i then rows[id]
                                                                 else Backfilled(settings, rows[id])
  {
    i := VisitedOnce(ranges, first, last, id);
    forall n | 0 <= n <= |ranges|
      ensures id in AfterRanges(settings, rows, ranges[..n])
      ensures AfterRanges(settings, rows, ranges[..n])[id] == if n <= i then rows[id]
                                                              else Backfilled(settings, rows[id])
    {
      RowAfter(settings, rows, ranges, first, last, id, i, n);
    }
  }

  lemma {:induction false} AfterRangesKeys(settings: Settings, rows: Rows, ranges: seq<Range>)
    ensures AfterRanges(settings, rows, ranges).Keys == rows.Keys
  {
    if ranges != [] {
      AfterRangesKeys(settings, rows, ranges[..|ranges| - 1]);
    }
  }

  /** So batches that tile the ids from first to last give every row its default. */
  lemma TilesReachAll(settings: Settings, rows: Rows, ranges: seq<Range>, first: int, last: int)
    requires Tile(ranges, first, last) && IsFirst(rows, first) && IsLast(rows, last)
    ensures AfterRanges(settings, rows, ranges) == AllBackfilled(settings, rows)
  {
    AfterRangesKeys(settings, rows, ranges);
    forall id | id in rows
      ensures AfterRanges(settings, rows, ranges)[id] == AllBackfilled(settings, rows)[id]
    {
      var i := WrittenOnce(settings, rows, ranges, first, last, id);
      assert ranges[..|ranges|] == ranges;
    }
  }

  /** A run may stop after any batches and be started again: a complete run then leaves what it always leaves. */
  lemma {:induction false} RestartIsHarmless(settings: Settings, rows: Rows, ranges: seq<Range>)
    ensures AllBackfilled(settings, AfterRanges(settings, rows, ranges)) == AllBackfilled(settings, rows)
  {
    if ranges != [] {
      var n := |ranges| - 1;
      var before := AfterRanges(settings, rows, ranges[..n]);
      RestartIsHarmless(settings, rows, ranges[..n]);
      var after := AfterRanges(settings, rows, ranges);
      assert after.Keys == before.Keys;
      forall id | id in after
        ensures AllBackfilled(settings, after)[id] == AllBackfilled(settings, before)[id]
      {
      }
    }
  }

  /** `bulk_update`: the changed rows replace the stored ones. */
  function BulkUpdate(rows: Rows, changed: Rows): Rows {
    map id | id in rows :: if id in changed then changed[id] else rows[id]
  }

  lemma UpdateIsBackfill(settings: Settings, rows: Rows, changed: Rows, lower: int, upper: int)
    requires forall id :: id in changed <==> id in rows && lower <= id <= upper
    requires forall id :: id in changed ==> changed[id] == Backfilled(settings, rows[id])
    ensures BulkUpdate(rows, changed) == BackfilledBetween(settings, rows, lower, upper)
  {
    var a, b := BulkUpdate(rows, changed), BackfilledBetween(settings, rows, lower, upper);
    assert forall id :: id in a <==> id in rows;
    assert forall id :: id in b <==> id in rows;
    assert forall id :: id in rows ==> a[id] == b[id];
  }

  class ConfirmationTable {
    const settings: Settings
    var rows: Rows

    constructor (settings: Settings, rows: Rows)
      ensures this.settings == settings && this.rows == rows
    {
      this.settings := settings;
      this.rows := rows;
    }

    method BackfillConfirmationsBetween(lower: int, upper: int)
      modifies this
      ensures rows == BackfilledBetween(settings, old(rows), lower, upper)
    {
      var confirmations := map id | id in rows && lower <= id <= upper :: rows[id];
      var todo := confirmations.Keys;
      while todo != {}
        invariant rows == old(rows) && todo <= confirmations.Keys
        invariant forall id :: id in confirmations <==> id in rows && lower <= id <= upper
        invariant forall id :: id in confirmations ==>
                    confirmations[id] == if id in todo then rows[id] else Backfilled(settings, rows[id])
        decreases |todo|
      {
        var id := Pick(todo);
        var c := confirmations[id];
        if c.kind in [INVITATION, MULTIUSE_INVITE] {
          c := c.(expiryDate := Some(c.dateSent + settings.invitationLinkValidityDays * DAY));
        } else if c.kind == UNSUBSCRIBE {
          c := c.(expiryDate := Some(c.dateSent + 1000000 * DAY));
        } else {
          c := c.(expiryDate := Some(c.dateSent + settings.confirmationLinkDefaultValidityDays * DAY));
        }
        confirmations := confirmations[id := c];
        todo := todo - {id};
      }
      UpdateIsBackfill(settings, rows, confirmations, lower, upper);
      rows := BulkUpdate(rows, confirmations);
    }

    /**
     * The batches that are written tile the ids from first to last, so each row is written once (WrittenOnce), and each
     * ends as its default. An empty table is left alone.
     */
    method SetExpiryDateForExistingConfirmations() returns (ghost ranges: seq<Range>)
      modifies this
      ensures rows == AfterRanges(settings, old(rows), ranges)
      ensures rows == AllBackfilled(settings, old(rows))
      ensures old(rows) == map[] ==> ranges == []
      ensures forall first, last :: IsFirst(old(rows), first) && IsLast(old(rows), last) ==> Tile(ranges, first, last)
    {
      ranges := [];
      if rows == map[] {
        return;
      }
      var first := Earliest(rows);
      var last := Latest(rows);
      var lower := first;
      var upper := first + 999;
      while lower <= last
        invariant upper == lower + 999 && lower == first + 1000 * |ranges|
        invariant lower - 1000 <= last
        invariant forall i :: 0 <= i < |ranges| ==> ranges[i] == Range(first + 1000 * i, first + 1000 * i + 999)
        invariant rows == AfterRanges(settings, old(rows), ranges)
        decreases last - lower
      {
        AfterOneMore(settings, old(rows), ranges, Range(lower, upper));
        BackfillConfirmationsBetween(lower, upper);
        ranges := ranges + [Range(lower, upper)];
        lower := upper + 1;
        upper := lower + 999;
      }
      TilesReachAll(settings, old(rows), ranges, first, last);
    }
  }

  method Earliest(rows: Rows) returns (first: int)
    requires rows != map[]
    ensures IsFirst(rows, first)
  {
    first := Pick(rows.Keys);
    var todo := rows.Keys - {first};
    while todo != {}
      invariant first in rows && todo <= rows.Keys && forall id :: id in rows && id !in todo ==> first <= id
      decreases |todo|
    {
      var id := Pick(todo);
      first := if id < first then id else first;
      todo := todo - {id};
    }
  }

  method Latest(rows: Rows) returns (last: int)
    requires rows != map[]
    ensures IsLast(rows, last)
  {
    last := Pick(rows.Keys);
    var todo := rows.Keys - {last};
    while todo != {}
      invariant last in rows && todo <= rows.Keys && forall id :: id in rows && id !in todo ==> id <= last
      decreases |todo|
    {
      var id := Pick(todo);
      last := if id > last then id else last;
      todo := todo - {id};
    }
  }
}

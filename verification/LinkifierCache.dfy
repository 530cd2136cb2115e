/** The two-level cache of a realm's linkifiers, zerver/models.py: one shared cache, and one dictionary per process. */
module LinkifierCache {

  datatype Linkifier = Linkifier(id: int, pattern: string, urlFormat: string)

  type Linkifiers = seq<Linkifier>

  /**
   * The linkifiers of each realm in the database, in the shared cache and in each process; the list that a process in
   * the middle of a cache miss has read from the database and not yet stored; and the realm that a process has written
   * and whose caches its signal handler has not yet flushed.
   */
  datatype State = State(db: map<int, Linkifiers>, shared: map<int, Linkifiers>, local: map<int, map<int, Linkifiers>>,
                         fetching: map<int, (int, Linkifiers)>, flushing: map<int, int>)

  /**
   * A cache miss is two steps, `Read` and `Store`, and a write is two steps, `Save` or `Delete` and then `Flush`.
   * Anything may happen elsewhere in between.
   */
  datatype Event =
    | Save(process: int, realm: int, linkifier: Linkifier)
    | Delete(process: int, realm: int, id: int)
    | Flush(process: int)
    | Read(process: int, realm: int)
    | Store(process: int)
    | EndRequest(process: int)
    | Evict(realm: int)

  function DbRows(s: State, realm: int): Linkifiers {
    if realm in s.db then s.db[realm] else []
  }

  function Local(s: State, process: int): map<int, Linkifiers> {
    if process in s.local then s.local[process] else map[]
  }

  function Saved(rows: Linkifiers, linkifier: Linkifier): Linkifiers {
    if rows == [] then [linkifier]
    else if rows[0].id == linkifier.id then [linkifier] + rows[1..]
    else [rows[0]] + Saved(rows[1..], linkifier)
  }

  function Removed(rows: Linkifiers, id: int): Linkifiers {
    if rows == [] then [] else (if rows[0].id == id then [] else [rows[0]]) + Removed(rows[1..], id)
  }

  /** `flush_linkifiers`. */
  function Flushed(s: State, process: int, realm: int): State {
    s.(shared := s.shared - {realm}, local := s.local[process := Local(s, process) - {realm}])
  }

  /**
   * Whether a process may act: in the middle of a miss it only stores, and in the middle of a write it only flushes.
   */
  predicate Acts(s: State, e: Event) {
    e.Evict? || ((e.process in s.fetching <==> e.Store?) && (e.process in s.flushing <==> e.Flush?))
  }

  function Next(s: State, e: Event): State {
    if !Acts(s, e) then s
    else
      match e
      case Save(p, realm, linkifier) =>
        s.(db := s.db[realm := Saved(DbRows(s, realm), linkifier)], flushing := s.flushing[p := realm])
      case Delete(p, realm, id) =>
        s.(db := s.db[realm := Removed(DbRows(s, realm), id)], flushing := s.flushing[p := realm])
      case Flush(p) => Flushed(s, p, s.flushing[p]).(flushing := s.flushing - {p})
      case Read(p, realm) =>
        if realm in Local(s, p) then s
        else if realm in s.shared then s.(local := s.local[p := Local(s, p)[realm := s.shared[realm]]])
        else s.(fetching := s.fetching[p := (realm, DbRows(s, realm))])
      case Store(p) =>
        var (realm, rows) := s.fetching[p];
        s.(shared := s.shared[realm := rows], local := s.local[p := Local(s, p)[realm := rows]],
           fetching := s.fetching - {p})
      case EndRequest(p) => s.(local := s.local[p := map[]])
      case Evict(realm) => s.(shared := s.shared - {realm})
  }

  function After(history: seq<Event>): State {
    if history == [] then State(map[], map[], map[], map[], map[])
    else Next(After(history[..|history| - 1]), history[|history| - 1])
  }

  predicate Writes(e: Event, realm: int) {
    (e.Save? || e.Delete?) && e.realm == realm
  }

  predicate Flushes(s: State, e: Event, realm: int) {
    e.Flush? && e.process in s.flushing && s.flushing[e.process] == realm
  }

  /** The steps that clear a process's own entry for a realm. */
  predicate Refreshes(s: State, e: Event, process: int, realm: int) {
    Acts(s, e) && (e.EndRequest? || Flushes(s, e, realm)) && e.process == process
  }

  /** The moment after a process's last request end or own flush of the realm. */
  function FreshSince(history: seq<Event>, process: int, realm: int): (n: nat)
    ensures n <= |history|
  {
    if history == [] then 0
    else
      var front := history[..|history| - 1];
      if Refreshes(After(front), history[|history| - 1], process, realm) then |history|
      else FreshSince(front, process, realm)
  }

  /** No write of the realm is still to be flushed. */
  predicate Quiet(s: State, realm: int) {
    forall p :: p in s.flushing ==> s.flushing[p] != realm
  }

  /** The last quiet moment not after `n`. */
  function QuietBefore(history: seq<Event>, n: nat, realm: int): (q: nat)
    requires n <= |history|
    ensures q <= n
  {
    if n == 0 || Quiet(After(history[..n]), realm) then n else QuietBefore(history, n - 1, realm)
  }

  predicate IsFetching(s: State, process: int, realm: int) {
    process in s.fetching && s.fetching[process].0 == realm
  }

  ghost predicate SharedOk(s: State, realm: int) {
    realm in s.shared ==> s.shared[realm] == DbRows(s, realm)
  }

  // ----- What writes and evictions do -----

  predicate DistinctIds(rows: Linkifiers) {
    forall i, j :: 0 <= i < j < |rows| ==> rows[i].id != rows[j].id
  }

  lemma {:induction false} SavedRows(rows: Linkifiers, linkifier: Linkifier)
    requires DistinctIds(rows)
    ensures forall other ::
              other in Saved(rows, linkifier) <==> other == linkifier || (other in rows && other.id != linkifier.id)
    ensures DistinctIds(Saved(rows, linkifier))
  {
    if rows != [] {
      assert rows == [rows[0]] + rows[1..];
      if rows[0].id != linkifier.id {
        SavedRows(rows[1..], linkifier);
        var rest := Saved(rows[1..], linkifier);
        assert forall i :: 0 <= i < |rest| ==> rest[i] in rest && rest[i].id != rows[0].id;
      }
    }
  }

  lemma {:induction false} RemovedRows(rows: Linkifiers, id: int)
    requires DistinctIds(rows)
    ensures forall other :: other in Removed(rows, id) <==> other in rows && other.id != id
    ensures DistinctIds(Removed(rows, id))
  {
    if rows != [] {
      assert rows == [rows[0]] + rows[1..];
      RemovedRows(rows[1..], id);
      var rest := Removed(rows[1..], id);
      assert forall i :: 0 <= i < |rest| ==> rest[i] in rest && rest[i].id != rows[0].id;
    }
  }

  lemma {:induction false} IdsDiffer(history: seq<Event>, realm: int)
    ensures DistinctIds(DbRows(After(history), realm))
  {
    if history != [] {
      var s, e := After(history[..|history| - 1]), history[|history| - 1];
      IdsDiffer(history[..|history| - 1], realm);
      if e.Save? {
        SavedRows(DbRows(s, realm), e.linkifier);
      } else if e.Delete? {
        RemovedRows(DbRows(s, realm), e.id);
      }
    }
  }

  /** A realm has what was saved last under each id and not deleted since; no other step changes what it has. */
  lemma WritesAreKept(history: seq<Event>, e: Event, realm: int, other: Linkifier)
    requires Acts(After(history), e)
    ensures other in DbRows(Next(After(history), e), realm) <==>
              if Writes(e, realm) && e.Save? then
                other == e.linkifier || (other in DbRows(After(history), realm) && other.id != e.linkifier.id)
              else if Writes(e, realm) then other in DbRows(After(history), realm) && other.id != e.id
              else other in DbRows(After(history), realm)
  {
    IdsDiffer(history, realm);
    if e.Save? {
      SavedRows(DbRows(After(history), realm), e.linkifier);
    } else if e.Delete? {
      RemovedRows(DbRows(After(history), realm), e.id);
    }
  }

  /** An eviction takes the realm's shared entry and nothing else. */
  lemma EvictedIsGone(s: State, realm: int, other: int)
    ensures var after := Next(s, Evict(realm));
            && realm !in after.shared
            && (other != realm ==>
                  (other in after.shared <==> other in s.shared) &&
                  (other in s.shared ==> after.shared[other] == s.shared[other]))
            && after == s.(shared := after.shared)
  {
  }

  // ----- When the shared cache is coherent -----

  /** The step is the second one of a miss for the realm. */
  predicate EndsMiss(s: State, e: Event, realm: int) {
    e.Store? && IsFetching(s, e.process, realm)
  }

  /** Where the miss that a process is in the middle of began. */
  function FetchedAt(history: seq<Event>, process: int): (n: nat)
    requires process in After(history).fetching
    ensures n < |history|
  {
    var front := history[..|history| - 1];
    if process in After(front).fetching then FetchedAt(front, process) else |front|
  }

  lemma FetchStep(s: State, e: Event, process: int)
    requires process in Next(s, e).fetching
    ensures if process in s.fetching then Next(s, e).fetching[process] == s.fetching[process]
            else e.Read? && e.process == process && Next(s, e).fetching[process] == (e.realm, DbRows(s, e.realm))
  {
  }

  lemma {:induction false} FetchedList(history: seq<Event>, process: int)
    requires process in After(history).fetching
    ensures var (realm, rows) := After(history).fetching[process];
            var n := FetchedAt(history, process);
            history[n] == Read(process, realm) && rows == DbRows(After(history[..n]), realm)
  {
    var front, e := history[..|history| - 1], history[|history| - 1];
    FetchStep(After(front), e, process);
    if process in After(front).fetching {
      FetchedList(front, process);
      assert front[..FetchedAt(front, process)] == history[..FetchedAt(front, process)];
    }
  }

  /** If the last step ends a miss for the realm, the database's list is the one it had when the miss began. */
  ghost predicate StoresCurrent(history: seq<Event>, realm: int)
    requires history != []
  {
    var front, e := history[..|history| - 1], history[|history| - 1];
    EndsMiss(After(front), e, realm) ==>
      DbRows(After(front[..FetchedAt(front, e.process)]), realm) == DbRows(After(front), realm)
  }

  /** No miss for the realm ends, with no flush to come, when the list is another than when it began. */
  ghost predicate MissesCurrent(history: seq<Event>, realm: int) {
    history == [] ||
    var front := history[..|history| - 1];
    MissesCurrent(front, realm) && (Quiet(After(front), realm) ==> StoresCurrent(history, realm))
  }

  ghost predicate CurrentIfQuiet(s: State, realm: int) {
    Quiet(s, realm) ==> SharedOk(s, realm)
  }

  /**
   * Whenever no flush is to come the shared entry is absent or equal to the database, now and at every moment before.
   */
  ghost predicate AlwaysCurrent(history: seq<Event>, realm: int) {
    CurrentIfQuiet(After(history), realm) && (history == [] || AlwaysCurrent(history[..|history| - 1], realm))
  }

  lemma QuietStep(s: State, e: Event, realm: int)
    requires Acts(s, e)
    ensures Writes(e, realm) ==> !Quiet(Next(s, e), realm)
    ensures !Writes(e, realm) && !Flushes(s, e, realm) ==> (Quiet(Next(s, e), realm) <==> Quiet(s, realm))
  {
    var after := Next(s, e).flushing;
    if Writes(e, realm) {
      assert after[e.process] == realm;
    } else if !Flushes(s, e, realm) {
      forall p | p in s.flushing && s.flushing[p] == realm
        ensures p in after && after[p] == realm
      {
      }
    }
  }

  /**
   * One step from a coherent state leads to one exactly when it does not store an outdated list with no flush to come.
   */
  lemma StepKeepsCurrent(s: State, e: Event, realm: int)
    requires CurrentIfQuiet(s, realm)
    ensures CurrentIfQuiet(Next(s, e), realm)
       <==> (Quiet(s, realm) && EndsMiss(s, e, realm) && Acts(s, e) ==> s.fetching[e.process].1 == DbRows(s, realm))
  {
    if Acts(s, e) {
      QuietStep(s, e, realm);
    }
  }

  /** A process in the middle of a miss has nothing to flush. */
  lemma {:induction false} FetchingActs(history: seq<Event>, process: int)
    ensures !(process in After(history).fetching && process in After(history).flushing)
  {
    if history != [] {
      FetchingActs(history[..|history| - 1], process);
    }
  }

  /**
   * Whenever no flush is to come, the shared entry is absent or current exactly when no miss ends, with no flush to
   * come, on a list that changed since the miss began.
   */
  lemma {:induction false} SharedIsCurrent(history: seq<Event>, realm: int)
    ensures AlwaysCurrent(history, realm) <==> MissesCurrent(history, realm)
  {
    if history != [] {
      var front, e := history[..|history| - 1], history[|history| - 1];
      SharedIsCurrent(front, realm);
      if AlwaysCurrent(front, realm) {
        StepKeepsCurrent(After(front), e, realm);
        if EndsMiss(After(front), e, realm) {
          FetchedList(front, e.process);
          FetchingActs(front, e.process);
        }
      }
    }
  }

  /** Until it is flushed, a write that changes the list leaves the shared entry outdated, with no miss at all. */
  lemma UnflushedWrite(s: State, write: Event, realm: int)
    requires SharedOk(s, realm) && realm in s.shared && Writes(write, realm) && Acts(s, write)
    requires DbRows(Next(s, write), realm) != DbRows(s, realm)
    ensures !SharedOk(Next(s, write), realm) && !Quiet(Next(s, write), realm)
    ensures SharedOk(Next(Next(s, write), Flush(write.process)), realm)
  {
    assert Next(s, write).flushing[write.process] == realm;
  }

  lemma AfterAppend(history: seq<Event>, e: Event)
    ensures After(history + [e]) == Next(After(history), e)
  {
    assert (history + [e])[..|history|] == history;
  }

  /** Whenever the list changes between the two steps of a miss, the miss leaves the shared entry outdated. */
  lemma DisturbedMiss(history: seq<Event>, process: int, realm: int)
    requires IsFetching(After(history), process, realm)
    requires DbRows(After(history[..FetchedAt(history, process)]), realm) != DbRows(After(history), realm)
    ensures !SharedOk(After(history + [Store(process)]), realm)
  {
    FetchedList(history, process);
    FetchingActs(history, process);
    AfterAppend(history, Store(process));
  }

  /** The steps that replace or remove the shared entry. */
  predicate Replaces(s: State, e: Event, realm: int) {
    Writes(e, realm) || Flushes(s, e, realm) || EndsMiss(s, e, realm) || (e.Evict? && e.realm == realm)
  }

  ghost predicate NeverReplaces(history: seq<Event>, more: seq<Event>, realm: int) {
    more == [] ||
    var front := more[..|more| - 1];
    NeverReplaces(history, front, realm) && !Replaces(After(history + front), more[|more| - 1], realm)
  }

  lemma StepKeepsOutdated(s: State, e: Event, realm: int)
    requires !SharedOk(s, realm) && !Replaces(s, e, realm)
    ensures !SharedOk(Next(s, e), realm)
  {
  }

  /** It stays outdated until the next write, flush, eviction or miss of the realm. */
  lemma {:induction false} OutdatedLasts(history: seq<Event>, more: seq<Event>, realm: int)
    requires !SharedOk(After(history), realm) && NeverReplaces(history, more, realm)
    ensures !SharedOk(After(history + more), realm)
  {
    if more == [] {
      assert history + more == history;
    } else {
      var front, e := more[..|more| - 1], more[|more| - 1];
      OutdatedLasts(history, front, realm);
      assert history + more == history + front + [e];
      AfterAppend(history + front, e);
      StepKeepsOutdated(After(history + front), e, realm);
    }
  }

  // ----- What a process sees -----

  /** A whole read: both steps, if it misses. */
  function Settled(s: State, process: int): State {
    if process in s.fetching then Next(s, Store(process)) else s
  }

  function ReadWhole(s: State, process: int, realm: int): State {
    Settled(Next(s, Read(process, realm)), process)
  }

  /** A process without an entry of its own reads the current list exactly when the shared entry is coherent. */
  lemma ReadIsCurrent(s: State, process: int, realm: int)
    requires process !in s.fetching && process !in s.flushing && realm !in Local(s, process)
    ensures var after := ReadWhole(s, process, realm);
            realm in Local(after, process) &&
                (Local(after, process)[realm] == DbRows(after, realm) <==> SharedOk(s, realm))
  {
  }

  ghost predicate WasAt(history: seq<Event>, realm: int, rows: Linkifiers, i: int) {
    0 <= i <= |history| && rows == DbRows(After(history[..i]), realm)
  }

  ghost predicate WasEver(history: seq<Event>, realm: int, rows: Linkifiers) {
    exists i :: WasAt(history, realm, rows, i)
  }

  lemma StillWas(history: seq<Event>, e: Event, realm: int, rows: Linkifiers)
    requires WasEver(history, realm, rows) || rows == DbRows(After(history + [e]), realm)
    ensures WasEver(history + [e], realm, rows)
  {
    var more := history + [e];
    if WasEver(history, realm, rows) {
      var i :| WasAt(history, realm, rows, i);
      assert more[..i] == history[..i];
      assert WasAt(more, realm, rows, i);
    } else {
      assert more[..|more|] == more;
      assert WasAt(more, realm, rows, |more|);
    }
  }

  /** The lists that the caches hold for a realm, or that are on their way into them. */
  predicate IsCached(s: State, realm: int, rows: Linkifiers) {
    || (realm in s.shared && s.shared[realm] == rows)
    || (exists p :: p in s.local && realm in s.local[p] && s.local[p][realm] == rows)
    || (exists p :: p in s.fetching && s.fetching[p] == (realm, rows))
  }

  lemma CachedBefore(s: State, e: Event, realm: int, rows: Linkifiers)
    requires IsCached(Next(s, e), realm, rows)
    ensures IsCached(s, realm, rows) || rows == DbRows(s, realm)
  {
  }

  /** Needing no condition: no cache ever holds a list that the database never held. */
  lemma {:induction false} CachedWasCurrent(history: seq<Event>, realm: int, rows: Linkifiers)
    requires IsCached(After(history), realm, rows)
    ensures WasEver(history, realm, rows)
  {
    if history != [] {
      var front, e := history[..|history| - 1], history[|history| - 1];
      CachedBefore(After(front), e, realm, rows);
      if IsCached(After(front), realm, rows) {
        CachedWasCurrent(front, realm, rows);
      } else {
        assert front[..|front|] == front;
        assert WasAt(front, realm, rows, |front|);
      }
      assert history == front + [e];
      StillWas(front, e, realm, rows);
    }
  }

  ghost predicate WasSince(history: seq<Event>, n: int, realm: int, rows: Linkifiers) {
    exists i :: n <= i && WasAt(history, realm, rows, i)
  }

  lemma StillWasSince(front: seq<Event>, e: Event, n: int, realm: int, rows: Linkifiers)
    requires WasSince(front, n, realm, rows)
    ensures WasSince(front + [e], n, realm, rows)
  {
    var i :| n <= i && WasAt(front, realm, rows, i);
    assert (front + [e])[..i] == front[..i];
    assert WasAt(front + [e], realm, rows, i);
  }

  lemma IsSince(history: seq<Event>, n: nat, realm: int)
    requires n <= |history|
    ensures WasSince(history, n, realm, DbRows(After(history), realm))
  {
    assert history[..|history|] == history;
    assert WasAt(history, realm, DbRows(After(history), realm), |history|);
  }

  /** No miss for the realm ends when the list is another than when it began. */
  ghost predicate MissesUnchanged(history: seq<Event>, realm: int) {
    history == [] || (MissesUnchanged(history[..|history| - 1], realm) && StoresCurrent(history, realm))
  }

  lemma {:induction false} UnchangedIsCurrent(history: seq<Event>, realm: int)
    requires MissesUnchanged(history, realm)
    ensures MissesCurrent(history, realm)
  {
    if history != [] {
      UnchangedIsCurrent(history[..|history| - 1], realm);
    }
  }

  lemma {:induction false} QuietFront(front: seq<Event>, e: Event, n: nat, realm: int)
    requires n <= |front|
    ensures QuietBefore(front + [e], n, realm) == QuietBefore(front, n, realm)
  {
    assert (front + [e])[..n] == front[..n];
    if n > 0 {
      QuietFront(front, e, n - 1, realm);
    }
  }

  lemma {:induction false} QuietGrows(history: seq<Event>, m: nat, n: nat, realm: int)
    requires m <= n <= |history|
    ensures QuietBefore(history, m, realm) <= QuietBefore(history, n, realm)
  {
    if m < n {
      QuietGrows(history, m, n - 1, realm);
    }
  }

  lemma SharedStep(s: State, e: Event, realm: int)
    requires realm in Next(s, e).shared
    ensures (EndsMiss(s, e, realm) && Acts(s, e) && Next(s, e).shared[realm] == s.fetching[e.process].1)
         || (realm in s.shared && Next(s, e).shared[realm] == s.shared[realm])
  {
  }

  /** Then a shared entry is a list that was current since the last moment with no flush to come. */
  lemma {:induction false} SharedWasCurrent(history: seq<Event>, realm: int)
    requires MissesUnchanged(history, realm) && realm in After(history).shared
    ensures WasSince(history, QuietBefore(history, |history|, realm), realm, After(history).shared[realm])
  {
    if history != [] {
      var front, e := history[..|history| - 1], history[|history| - 1];
      assert history == front + [e] && history[..|history|] == history;
      UnchangedIsCurrent(history, realm);
      SharedIsCurrent(history, realm);
      if SharedOk(After(history), realm) {
        IsSince(history, QuietBefore(history, |history|, realm), realm);
      } else {
        SharedStep(After(front), e, realm);
        if EndsMiss(After(front), e, realm) {
          FetchedList(front, e.process);
          OtherKeepsDb(After(front), e, realm);
        }
        SharedWasCurrent(front, realm);
        QuietFront(front, e, |front|, realm);
        StillWasSince(front, e, QuietBefore(front, |front|, realm), realm, After(front).shared[realm]);
      }
    }
  }

  /** The last quiet moment not after a process was last fresh. */
  function KnownSince(history: seq<Event>, process: int, realm: int): (n: nat)
    ensures n <= |history|
  {
    QuietBefore(history, FreshSince(history, process, realm), realm)
  }

  /** A process's own entry is what the database held at some moment since then. */
  ghost predicate LocalOk(history: seq<Event>, process: int, realm: int) {
    var s := After(history);
    realm in Local(s, process) ==>
        WasSince(history, KnownSince(history, process, realm), realm, Local(s, process)[realm])
  }

  /**
   * One step keeps a process's entry, unless it refreshes it, or takes the shared one, or ends the process's own miss.
   */
  lemma StepLocal(s: State, e: Event, process: int, realm: int)
    requires realm in Local(Next(s, e), process)
    ensures var entry := Local(Next(s, e), process)[realm];
            || (EndsMiss(s, e, realm) && Acts(s, e) && entry == s.fetching[e.process].1)
            || (e.Read? && realm in s.shared && entry == s.shared[realm])
            || (realm in Local(s, process) && entry == Local(s, process)[realm] && !Refreshes(s, e, process, realm))
  {
  }

  lemma KnownStep(front: seq<Event>, e: Event, process: int, realm: int)
    requires !Refreshes(After(front), e, process, realm)
    ensures KnownSince(front + [e], process, realm) ==
        KnownSince(front, process, realm) <= QuietBefore(front, |front|, realm)
  {
    assert (front + [e])[..|front|] == front;
    QuietFront(front, e, FreshSince(front, process, realm), realm);
    QuietGrows(front, FreshSince(front, process, realm), |front|, realm);
  }

  lemma WasSinceEarlier(history: seq<Event>, m: int, n: int, realm: int, rows: Linkifiers)
    requires m <= n && WasSince(history, n, realm, rows)
    ensures WasSince(history, m, realm, rows)
  {
    var i :| n <= i && WasAt(history, realm, rows, i);
    assert m <= i && WasAt(history, realm, rows, i);
  }

  /** When no miss ends on another list, each process's entry is a list that was current since the process was fresh. */
  lemma {:induction false} LocalWasCurrent(history: seq<Event>, process: int, realm: int)
    requires MissesUnchanged(history, realm)
    ensures LocalOk(history, process, realm)
  {
    if history != [] && realm in Local(After(history), process) {
      var front, e := history[..|history| - 1], history[|history| - 1];
      var s, entry := After(front), Local(After(history), process)[realm];
      assert history == front + [e];
      LocalWasCurrent(front, process, realm);
      StepLocal(s, e, process, realm);
      if EndsMiss(s, e, realm) && entry == s.fetching[e.process].1 {
        FetchedList(front, e.process);
        OtherKeepsDb(s, e, realm);
        IsSince(history, KnownSince(history, process, realm), realm);
      } else {
        assert !Refreshes(s, e, process, realm);
        KnownStep(front, e, process, realm);
        var known := KnownSince(front, process, realm);
        if e.Read? && realm in s.shared && entry == s.shared[realm] {
          SharedWasCurrent(front, realm);
          WasSinceEarlier(front, known, QuietBefore(front, |front|, realm), realm, entry);
        }
        StillWasSince(front, e, known, realm, entry);
      }
    }
  }

  predicate Unwritten(history: seq<Event>, from: nat, realm: int) {
    forall i :: from <= i < |history| ==> !Writes(history[i], realm)
  }

  lemma OtherKeepsDb(s: State, e: Event, realm: int)
    requires !Writes(e, realm)
    ensures DbRows(Next(s, e), realm) == DbRows(s, realm)
  {
  }

  lemma {:induction false} DbUnwritten(history: seq<Event>, i: nat, realm: int)
    requires i <= |history| && Unwritten(history, i, realm)
    ensures DbRows(After(history[..i]), realm) == DbRows(After(history), realm)
  {
    if i < |history| {
      var n := |history| - 1;
      assert history[..n][..i] == history[..i];
      DbUnwritten(history[..n], i, realm);
      OtherKeepsDb(After(history[..n]), history[n], realm);
    } else {
      assert history[..i] == history;
    }
  }

  /**
   * So a process sees the current list unless the realm was written since its last own flush or request end, or since
   * the last quiet moment before that. In particular it reads its own writes unless another write was then still to be
   * flushed.
   */
  lemma ReadsOwnWrites(history: seq<Event>, process: int, realm: int)
    requires MissesUnchanged(history, realm) && Unwritten(history, KnownSince(history, process, realm), realm)
    requires realm in Local(After(history), process)
    ensures Local(After(history), process)[realm] == DbRows(After(history), realm)
  {
    LocalWasCurrent(history, process, realm);
    var i :| KnownSince(history, process, realm) <= i &&
        WasAt(history, realm, Local(After(history), process)[realm], i);
    DbUnwritten(history, i, realm);
  }

  /**
   * Otherwise it need not: while another process is in the middle of a miss, any write that makes the list another than
   * the one being fetched is lost to its own process as soon as the miss ends.
   */
  lemma OwnWriteUnseen(history: seq<Event>, write: Event, other: int, realm: int)
    requires Writes(write, realm) && Acts(After(history), write) && IsFetching(After(history), other, realm)
    requires DbRows(Next(After(history), write), realm) != After(history).fetching[other].1
    ensures var s := After(history + [write] + [Flush(write.process)] + [Store(other)] + [Read(write.process, realm)]);
            realm in Local(s, write.process) && Local(s, write.process)[realm] != DbRows(s, realm)
  {
    var flush := Flush(write.process);
    FetchingActs(history, other);
    AfterAppend(history, write);
    AfterAppend(history + [write], flush);
    AfterAppend(history + [write] + [flush], Store(other));
    AfterAppend(history + [write] + [flush] + [Store(other)], Read(write.process, realm));
  }

  lemma SavedDuringMiss(rule: Linkifier)
    ensures var s := After([] + [Read(2, 7)] + [Save(1, 7, rule)]);
            && DbRows(s, 7) == [rule] && s.shared == map[] && s.local == map[]
            && s.fetching == map[2 := (7, [])] && s.flushing == map[1 := 7]
  {
    AfterAppend([], Read(2, 7));
    AfterAppend([] + [Read(2, 7)], Save(1, 7, rule));
  }

  /**
   * Process 2 misses, process 1 saves a rule and flushes, process 2 stores, and process 1 does not see its own rule.
   */
  lemma StaleOwnWrite(rule: Linkifier)
    ensures var history := [] + [Read(2, 7)] + [Save(1, 7, rule)] + [Flush(1)] + [Store(2)] + [Read(1, 7)];
            Local(After(history), 1) == map[7 := []] && DbRows(After(history), 7) == [rule]
  {
    var h2 := [] + [Read(2, 7)] + [Save(1, 7, rule)];
    SavedDuringMiss(rule);
    AfterAppend(h2, Flush(1));
    AfterAppend(h2 + [Flush(1)], Store(2));
    AfterAppend(h2 + [Flush(1)] + [Store(2)], Read(1, 7));
  }

  /** Process 1 saves a rule; before it flushes, process 2 begins a new request and reads a list without the rule. */
  lemma StaleBeforeFlush(rule: Linkifier)
    ensures var history := [] + [Read(2, 7)] + [Store(2)] + [Save(1, 7, rule)] + [EndRequest(2)] + [Read(2, 7)];
            Local(After(history), 2) == map[7 := []] && DbRows(After(history), 7) == [rule]
  {
    var h2 := [] + [Read(2, 7)] + [Store(2)];
    AfterAppend([], Read(2, 7));
    AfterAppend([] + [Read(2, 7)], Store(2));
    AfterAppend(h2, Save(1, 7, rule));
    AfterAppend(h2 + [Save(1, 7, rule)], EndRequest(2));
    AfterAppend(h2 + [Save(1, 7, rule)] + [EndRequest(2)], Read(2, 7));
  }

  // ----- Histories in which the shared cache is coherent -----

  /** No write to the realm falls between the two steps of a miss for the same realm. */
  ghost predicate Undisturbed(history: seq<Event>, realm: int) {
    forall i, p :: 0 <= i < |history| && Writes(history[i], realm) ==> !IsFetching(After(history[..i]), p, realm)
  }

  lemma UndisturbedFront(history: seq<Event>, realm: int)
    requires history != [] && Undisturbed(history, realm)
    ensures Undisturbed(history[..|history| - 1], realm)
  {
    var front := history[..|history| - 1];
    forall i, p | 0 <= i < |front| && Writes(front[i], realm)
      ensures !IsFetching(After(front[..i]), p, realm)
    {
      assert front[..i] == history[..i] && front[i] == history[i];
    }
  }

  /** Then a list being fetched is the current one. */
  lemma {:induction false} FetchingIsCurrent(history: seq<Event>, process: int, realm: int)
    requires Undisturbed(history, realm) && IsFetching(After(history), process, realm)
    ensures After(history).fetching[process].1 == DbRows(After(history), realm)
  {
    var front, e := history[..|history| - 1], history[|history| - 1];
    UndisturbedFront(history, realm);
    FetchStep(After(front), e, process);
    if IsFetching(After(front), process, realm) {
      FetchingIsCurrent(front, process, realm);
      assert history[..|front|] == front;
      assert !Writes(e, realm);
      OtherKeepsDb(After(front), e, realm);
    } else {
      OtherKeepsDb(After(front), e, realm);
    }
  }

  lemma {:induction false} UndisturbedIsUnchanged(history: seq<Event>, realm: int)
    requires Undisturbed(history, realm)
    ensures MissesUnchanged(history, realm)
  {
    if history != [] {
      var front, e := history[..|history| - 1], history[|history| - 1];
      UndisturbedFront(history, realm);
      UndisturbedIsUnchanged(front, realm);
      if EndsMiss(After(front), e, realm) {
        FetchingIsCurrent(front, e.process, realm);
        FetchedList(front, e.process);
      }
    }
  }

  /** Every miss is stored at once. */
  predicate AtomicReads(history: seq<Event>) {
    forall i :: 0 <= i < |history| && history[i].Read? ==>
        i + 1 < |history| && history[i + 1] == Store(history[i].process)
  }

  lemma {:induction false} OnlyReadsFetch(history: seq<Event>, i: nat)
    requires AtomicReads(history) && i <= |history|
    ensures After(history[..i]).fetching != map[] ==>
              i > 0 && history[i - 1].Read? && After(history[..i]).fetching.Keys == {history[i - 1].process}
  {
    if i > 0 {
      OnlyReadsFetch(history, i - 1);
      if history[i - 1].Store? {
        FetchingActs(history[..i - 1], history[i - 1].process);
      }
      assert history[..i][..i - 1] == history[..i - 1];
    }
  }

  /** When a read is one step, no miss is disturbed, and the shared cache of every realm is coherent. */
  lemma AtomicIsCurrent(history: seq<Event>, realm: int)
    requires AtomicReads(history)
    ensures MissesUnchanged(history, realm) && AlwaysCurrent(history, realm)
  {
    forall i, p | 0 <= i < |history| && Writes(history[i], realm)
      ensures !IsFetching(After(history[..i]), p, realm)
    {
      OnlyReadsFetch(history, i);
      if i > 0 && history[i - 1].Read? {
        assert history[i] == Store(history[i - 1].process);
      }
    }
    UndisturbedIsUnchanged(history, realm);
    UnchangedIsCurrent(history, realm);
    SharedIsCurrent(history, realm);
  }

  // ----- Other processes -----

  lemma MissGoesOn(s: State, e: Event, process: int)
    requires process in s.fetching && process in Next(s, e).fetching
    ensures Local(Next(s, e), process) == Local(s, process)
  {
  }

  lemma MissBegins(s: State, e: Event, process: int, realm: int)
    requires process !in s.fetching && IsFetching(Next(s, e), process, realm)
    ensures realm !in Local(Next(s, e), process)
  {
  }

  /** A process fetches only what it has no entry for. */
  lemma {:induction false} FetchingIsMissing(history: seq<Event>, process: int, realm: int)
    requires IsFetching(After(history), process, realm)
    ensures realm !in Local(After(history), process)
  {
    var front, e := history[..|history| - 1], history[|history| - 1];
    FetchStep(After(front), e, process);
    if IsFetching(After(front), process, realm) {
      FetchingIsMissing(front, process, realm);
      MissGoesOn(After(front), e, process);
    } else {
      MissBegins(After(front), e, process, realm);
    }
  }

  ghost predicate NeverRefreshes(history: seq<Event>, more: seq<Event>, process: int, realm: int) {
    more == [] ||
    var front := more[..|more| - 1];
    NeverRefreshes(history, front, process, realm) &&
        !Refreshes(After(history + front), more[|more| - 1], process, realm)
  }

  lemma StepKeepsEntry(s: State, e: Event, process: int, realm: int)
    requires realm in Local(s, process) && !Refreshes(s, e, process, realm)
    requires IsFetching(s, process, realm) ==> e != Store(process)
    ensures realm in Local(Next(s, e), process) && Local(Next(s, e), process)[realm] == Local(s, process)[realm]
  {
  }

  /** Whatever others write and flush, a process serves the list it has until its request ends or it flushes itself. */
  lemma {:induction false} OthersLag(history: seq<Event>, more: seq<Event>, process: int, realm: int)
    requires realm in Local(After(history), process) && NeverRefreshes(history, more, process, realm)
    ensures var s := After(history + more);
            realm in Local(s, process) && Local(s, process)[realm] == Local(After(history), process)[realm]
  {
    if more == [] {
      assert history + more == history;
    } else {
      var front, e := more[..|more| - 1], more[|more| - 1];
      OthersLag(history, front, process, realm);
      assert history + more == history + front + [e];
      AfterAppend(history + front, e);
      if IsFetching(After(history + front), process, realm) {
        FetchingIsMissing(history + front, process, realm);
      }
      StepKeepsEntry(After(history + front), e, process, realm);
    }
  }

  /** And no longer. */
  lemma RefreshedIsGone(history: seq<Event>, e: Event, process: int, realm: int)
    requires Refreshes(After(history), e, process, realm)
    ensures realm !in Local(After(history + [e]), process)
  {
    AfterAppend(history, e);
  }

  // ----- The caches, changed in place -----

  class Caches {
    var db: map<int, Linkifiers>
    var shared: map<int, Linkifiers>
    var perRequest: map<int, map<int, Linkifiers>>

    /** As a state in which no process is in the middle of a miss or of a write. */
    function View(): State
      reads this
    {
      State(db, shared, perRequest, map[], map[])
    }

    constructor ()
      ensures View() == After([])
    {
      db, shared, perRequest := map[], map[], map[];
    }

    method LinkifiersForRealmRemoteCache(realm: int) returns (rows: Linkifiers)
      modifies this`shared
      ensures rows == if realm in old(shared) then old(shared)[realm] else DbRows(View(), realm)
      ensures shared == if realm in old(shared) then old(shared) else old(shared)[realm := rows]
    {
      if realm in shared {
        return shared[realm];
      }
      rows := DbRows(View(), realm);
      shared := shared[realm := rows];
    }

    /** `linkifiers_for_realm`, undisturbed: the two steps of a miss one after the other. */
    method LinkifiersForRealm(process: int, realm: int) returns (rows: Linkifiers)
      modifies this
      ensures View() == Settled(Next(old(View()), Read(process, realm)), process)
      ensures realm in Local(View(), process) && rows == Local(View(), process)[realm]
    {
      var own := if process in perRequest then perRequest[process] else map[];
      if realm !in own {
        rows := LinkifiersForRealmRemoteCache(realm);
        own := own[realm := rows];
        perRequest := perRequest[process := own];
      }
      rows := own[realm];
    }

    /** `flush_linkifiers`, run in the process that saved or deleted. */
    method FlushLinkifiers(process: int, realm: int)
      modifies this
      ensures View() == Flushed(old(View()), process, realm)
    {
      shared := shared - {realm};
      var own := if process in perRequest then perRequest[process] else map[];
      if realm in own {
        own := own - {realm};
      } else {
        assert own - {realm} == own;
      }
      perRequest := perRequest[process := own];
    }

    method SaveLinkifier(process: int, realm: int, linkifier: Linkifier)
      modifies this
      ensures View() == Next(Next(old(View()), Save(process, realm, linkifier)), Flush(process))
    {
      db := db[realm := Saved(DbRows(View(), realm), linkifier)];
      FlushLinkifiers(process, realm);
    }

    method DeleteLinkifier(process: int, realm: int, id: int)
      modifies this
      ensures View() == Next(Next(old(View()), Delete(process, realm, id)), Flush(process))
    {
      db := db[realm := Removed(DbRows(View(), realm), id)];
      FlushLinkifiers(process, realm);
    }

    method FlushPerRequestCaches(process: int)
      modifies this
      ensures View() == Next(old(View()), EndRequest(process))
    {
      perRequest := perRequest[process := map[]];
    }
  }
}

/** Group conversations found by the set of their members: `get_huddle` of zerver/models.py. */
module Huddles {
  import opened Integers
  import opened Sequences

  // ----- The canonical list -----

  predicate StrictlyAscending(ids: seq<int>) {
    forall i, j :: 0 <= i < j < |ids| ==> ids[i] < ids[j]
  }

  function InsertOnce(ids: seq<int>, x: int): seq<int> {
    if ids == [] || x < ids[0] then [x] + ids
    else if x == ids[0] then ids
    else [ids[0]] + InsertOnce(ids[1..], x)
  }

  /** `sorted(set(id_list))`. */
  function SortedSet(ids: seq<int>): seq<int> {
    if ids == [] then [] else InsertOnce(SortedSet(ids[1..]), ids[0])
  }

  lemma {:induction false} InsertOnceSorts(ids: seq<int>, x: int)
    requires StrictlyAscending(ids)
    ensures StrictlyAscending(InsertOnce(ids, x))
    ensures forall y :: y in InsertOnce(ids, x) <==> y == x || y in ids
  {
    if ids != [] && x > ids[0] {
      InsertOnceSorts(ids[1..], x);
      assert ids == [ids[0]] + ids[1..];
      forall y | y in InsertOnce(ids[1..], x)
        ensures ids[0] < y
      {
      }
    }
  }

  lemma {:induction false} SortedSetSorts(ids: seq<int>)
    ensures StrictlyAscending(SortedSet(ids)) && Elements(SortedSet(ids)) == Elements(ids)
  {
    if ids != [] {
      SortedSetSorts(ids[1..]);
      InsertOnceSorts(SortedSet(ids[1..]), ids[0]);
      forall y
        ensures y in SortedSet(ids) <==> y in ids
      {
        assert y in SortedSet(ids[1..]) <==> y in Elements(SortedSet(ids[1..]));
        assert y in ids[1..] <==> y in Elements(ids[1..]);
        assert ids == [ids[0]] + ids[1..];
      }
    }
  }

  /** A set of numbers has one strictly ascending listing. */
  lemma {:induction false} AscendingUnique(a: seq<int>, b: seq<int>)
    requires StrictlyAscending(a) && StrictlyAscending(b) && Elements(a) == Elements(b)
    ensures a == b
  {
    if a == [] || b == [] {
      NoElements(a);
      NoElements(b);
    } else {
      assert a[0] in Elements(b) && b[0] in Elements(a);
      TailElements(a);
      TailElements(b);
      AscendingUnique(a[1..], b[1..]);
    }
  }

  lemma TailElements(a: seq<int>)
    requires StrictlyAscending(a) && a != []
    ensures Elements(a[1..]) == Elements(a) - {a[0]}
  {
    assert a == [a[0]] + a[1..];
  }

  // ----- The printed key, and how it reads back -----

  /** `",".join(...)`. */
  function Join(parts: seq<string>): string {
    if parts == [] then ""
    else if |parts| == 1 then parts[0]
    else parts[0] + "," + Join(parts[1..])
  }

  function PrintAll(ids: seq<int>): seq<string> {
    seq(|ids|, i requires 0 <= i < |ids| => Print(ids[i]))
  }

  /** What `get_huddle_hash` digests. */
  function HashKey(ids: seq<int>): string {
    Join(PrintAll(SortedSet(ids)))
  }

  function FirstComma(s: string): nat
    ensures FirstComma(s) <= |s|
  {
    if s == "" || s[0] == ',' then 0 else 1 + FirstComma(s[1..])
  }

  function Split(s: string): seq<string>
    decreases |s|
  {
    var n := FirstComma(s);
    if n == |s| then [s] else [s[..n]] + Split(s[n + 1..])
  }

  function ReadAll(parts: seq<string>): seq<int> {
    seq(|parts|, i requires 0 <= i < |parts| => Read(parts[i]))
  }

  function ReadKey(s: string): seq<int> {
    if s == "" then [] else ReadAll(Split(s))
  }

  lemma {:induction false} FirstCommaAfter(part: string, rest: string)
    requires ',' !in part && (rest == "" || rest[0] == ',')
    ensures FirstComma(part + rest) == |part|
  {
    if part == "" {
      assert part + rest == rest;
    } else {
      assert part[0] in part && (part + rest)[1..] == part[1..] + rest;
      FirstCommaAfter(part[1..], rest);
    }
  }

  lemma {:induction false} SplitJoined(parts: seq<string>)
    requires parts != [] && forall i :: 0 <= i < |parts| ==> ',' !in parts[i]
    ensures Split(Join(parts)) == parts
  {
    if |parts| == 1 {
      assert parts[0] + "" == parts[0];
      FirstCommaAfter(parts[0], "");
    } else {
      var joined := Join(parts[1..]);
      FirstCommaAfter(parts[0], "," + joined);
      assert Join(parts) == parts[0] + ("," + joined);
      assert Join(parts)[..|parts[0]|] == parts[0] && Join(parts)[|parts[0]| + 1..] == joined;
      SplitJoined(parts[1..]);
    }
  }

  /** Reading a printed list gives the list back, whatever its numbers. */
  lemma ReadBack(ids: seq<int>)
    ensures ReadKey(Join(PrintAll(ids))) == ids
  {
    forall i | 0 <= i < |ids|
      ensures PrintAll(ids)[i] != "" && ',' !in PrintAll(ids)[i] && Read(PrintAll(ids)[i]) == ids[i]
    {
      ReadPrinted(ids[i]);
    }
    if ids != [] {
      SplitJoined(PrintAll(ids));
      assert ReadAll(PrintAll(ids)) == ids;
      assert Join(PrintAll(ids))[..|PrintAll(ids)[0]|] == PrintAll(ids)[0];
    }
  }

  /** The key is canonical and injective: two lists share it exactly when they name the same users. */
  lemma KeyIsTheSet(a: seq<int>, b: seq<int>)
    ensures HashKey(a) == HashKey(b) <==> Elements(a) == Elements(b)
  {
    SortedSetSorts(a);
    SortedSetSorts(b);
    ReadBack(SortedSet(a));
    ReadBack(SortedSet(b));
    if Elements(a) == Elements(b) {
      AscendingUnique(SortedSet(a), SortedSet(b));
    }
  }

  // ----- Histories -----

  datatype Huddle = Huddle(id: int, recipient: int)
  datatype Subscription = Subscription(recipient: int, user: int, isUserActive: bool)

  /**
   * User rows with their `is_active`, huddles by digest, subscriptions, cached huddles by digest, and the next fresh
   * id.
   */
  datatype Store = Store(users: map<int, bool>, huddles: map<string, Huddle>, subscriptions: set<Subscription>,
                         cache: map<string, Huddle>, next: int)

  /** Cache entries may time out or be lost at any moment. */
  datatype Event = SaveUser(id: int, active: bool) | GetHuddle(ids: seq<int>) | Evict(digest: string)

  function NewSubscriptions(users: map<int, bool>, recipient: int, who: set<int>): set<Subscription> {
    set u | u in users && u in who :: Subscription(recipient, u, users[u])
  }

  /** `get_or_create` and the rows that come with a new huddle, in one transaction. */
  function Find(s: Store, digest: string, ids: seq<int>): Store {
    if digest in s.huddles then s
    else
      var h := Huddle(s.next, s.next + 1);
      s.(huddles := s.huddles[digest := h], next := s.next + 2,
         subscriptions := s.subscriptions + NewSubscriptions(s.users, h.recipient, Elements(ids)))
  }

  function Lookup(s: Store, digest: string, ids: seq<int>): Store {
    if digest in s.cache then s
    else
      var found := Find(s, digest, ids);
      found.(cache := found.cache[digest := found.huddles[digest]])
  }

  function Next(hash: string -> string, s: Store, e: Event): Store {
    match e
    case SaveUser(id, active) => s.(users := s.users[id := active])
    case GetHuddle(ids) => Lookup(s, hash(HashKey(ids)), ids)
    case Evict(digest) => s.(cache := s.cache - {digest})
  }

  function After(hash: string -> string, history: seq<Event>): Store {
    if history == [] then Store(map[], map[], {}, map[], 1)
    else Next(hash, After(hash, history[..|history| - 1]), history[|history| - 1])
  }

  function SubscriptionsOf(s: Store, recipient: int): set<Subscription> {
    set sub | sub in s.subscriptions && sub.recipient == recipient
  }

  function Members(s: Store, recipient: int): set<int> {
    set sub | sub in SubscriptionsOf(s, recipient) :: sub.user
  }

  ghost predicate Injective(hash: string -> string) {
    forall a, b :: hash(a) == hash(b) ==> a == b
  }

  ghost predicate Inv(s: Store) {
    && (forall d :: d in s.cache ==> d in s.huddles && s.huddles[d] == s.cache[d])
    && (forall d :: d in s.huddles ==> s.huddles[d].id < s.next && s.huddles[d].recipient < s.next)
    && (forall d, e :: d in s.huddles && e in s.huddles && d != e ==>
          s.huddles[d].id != s.huddles[e].id && s.huddles[d].recipient != s.huddles[e].recipient)
    && (forall sub :: sub in s.subscriptions ==> sub.recipient < s.next)
    && forall a, b :: a in s.subscriptions && b in s.subscriptions && a.recipient == b.recipient && a.user == b.user ==>
        a == b
  }

  lemma {:induction false} EveryHistory(hash: string -> string, history: seq<Event>)
    ensures Inv(After(hash, history))
  {
    if history != [] {
      EveryHistory(hash, history[..|history| - 1]);
    }
  }

  /** The huddle that the call at position `i` of a history returns. */
  function Returned(hash: string -> string, history: seq<Event>, i: nat): Huddle
    requires i < |history| && history[i].GetHuddle?
  {
    var digest, s := hash(HashKey(history[i].ids)), After(hash, history[..i]);
    if digest in s.cache then s.cache[digest] else Find(s, digest, history[i].ids).huddles[digest]
  }

  /** A huddle, once found, stays what it is, and so do its subscriptions. */
  lemma {:induction false} HuddlesStay(hash: string -> string, history: seq<Event>, n: nat, digest: string)
    requires n <= |history| && digest in After(hash, history[..n]).huddles
    ensures var s, t := After(hash, history[..n]), After(hash, history);
            && digest in t.huddles && t.huddles[digest] == s.huddles[digest]
            && SubscriptionsOf(t, t.huddles[digest].recipient) == SubscriptionsOf(s, s.huddles[digest].recipient)
  {
    if n == |history| {
      assert history[..n] == history;
    } else {
      var front := history[..|history| - 1];
      assert front[..n] == history[..n];
      HuddlesStay(hash, front, n, digest);
      EveryHistory(hash, front);
      StepKeepsMembers(hash, After(hash, front), history[|history| - 1], digest);
    }
  }

  lemma StepKeepsMembers(hash: string -> string, s: Store, e: Event, digest: string)
    requires Inv(s) && digest in s.huddles
    ensures var t := Next(hash, s, e);
            && digest in t.huddles && t.huddles[digest] == s.huddles[digest]
            && SubscriptionsOf(t, t.huddles[digest].recipient) == SubscriptionsOf(s, s.huddles[digest].recipient)
  {
  }

  lemma AfterCall(hash: string -> string, history: seq<Event>, i: nat)
    requires i < |history| && history[i].GetHuddle?
    ensures After(hash, history[..i + 1]) ==
        Lookup(After(hash, history[..i]), hash(HashKey(history[i].ids)), history[i].ids)
  {
    assert history[..i + 1][..i] == history[..i];
  }

  lemma ReturnedStays(hash: string -> string, history: seq<Event>, i: nat)
    requires i < |history| && history[i].GetHuddle?
    ensures var t, digest := After(hash, history), hash(HashKey(history[i].ids));
            digest in t.huddles && t.huddles[digest] == Returned(hash, history, i)
  {
    var s, digest := After(hash, history[..i]), hash(HashKey(history[i].ids));
    EveryHistory(hash, history[..i]);
    LookupFinds(s, digest, history[i].ids);
    AfterCall(hash, history, i);
    HuddlesStay(hash, history, i + 1, digest);
  }

  lemma LookupFinds(s: Store, digest: string, ids: seq<int>)
    requires Inv(s)
    ensures var found := Lookup(s, digest, ids).huddles;
            && digest in found
            && found[digest] == if digest in s.cache then s.cache[digest] else Find(s, digest, ids).huddles[digest]
  {
  }

  /** Over any history, two calls return the same huddle exactly when they name the same set of users. */
  lemma OneHuddlePerSet(hash: string -> string, history: seq<Event>, i: nat, j: nat)
    requires Injective(hash) && i < |history| && j < |history| && history[i].GetHuddle? && history[j].GetHuddle?
    ensures Returned(hash, history, i) == Returned(hash, history, j)
       <==> Elements(history[i].ids) == Elements(history[j].ids)
    ensures Returned(hash, history, i).id == Returned(hash, history, j).id
       <==> Returned(hash, history, i) == Returned(hash, history, j)
  {
    ReturnedStays(hash, history, i);
    ReturnedStays(hash, history, j);
    EveryHistory(hash, history);
    KeyIsTheSet(history[i].ids, history[j].ids);
  }

  lemma {:induction false} HuddlesWereAsked(hash: string -> string, history: seq<Event>, digest: string)
    requires digest in After(hash, history).huddles
    ensures exists i :: 0 <= i < |history| && history[i].GetHuddle? && hash(HashKey(history[i].ids)) == digest
  {
    if history != [] {
      var n := |history| - 1;
      if digest in After(hash, history[..n]).huddles {
        HuddlesWereAsked(hash, history[..n], digest);
        var i :| 0 <= i < n && history[..n][i].GetHuddle? && hash(HashKey(history[..n][i].ids)) == digest;
        assert history[i] == history[..n][i];
      } else {
        assert history[n].GetHuddle?;
      }
    }
  }

  lemma FirstCallCreates(hash: string -> string, history: seq<Event>, first: nat)
    requires Injective(hash) && first < |history| && history[first].GetHuddle?
    requires forall i :: 0 <= i < first && history[i].GetHuddle? ==>
        Elements(history[i].ids) != Elements(history[first].ids)
    ensures hash(HashKey(history[first].ids)) !in After(hash, history[..first]).huddles
  {
    var before, digest := history[..first], hash(HashKey(history[first].ids));
    if digest in After(hash, before).huddles {
      HuddlesWereAsked(hash, before, digest);
      var i :| 0 <= i < first && before[i].GetHuddle? && hash(HashKey(before[i].ids)) == digest;
      KeyIsTheSet(before[i].ids, history[first].ids);
      assert false;
    }
  }

  /**
   * Its members are for ever the users of the set that existed at the first call for the set, each with one
   * subscription, which says whether the user was active then.
   */
  lemma MembersAreTheSet(hash: string -> string, history: seq<Event>, first: nat)
    requires Injective(hash) && first < |history| && history[first].GetHuddle?
    requires forall i :: 0 <= i < first && history[i].GetHuddle? ==>
        Elements(history[i].ids) != Elements(history[first].ids)
    ensures Members(After(hash, history), Returned(hash, history, first).recipient)
         == Elements(history[first].ids) * After(hash, history[..first]).users.Keys
    ensures forall u, active ::
              var recipient := Returned(hash, history, first).recipient;
              Subscription(recipient, u, active) in After(hash, history).subscriptions <==>
                && u in history[first].ids && u in After(hash, history[..first]).users
                && After(hash, history[..first]).users[u] == active
  {
    var ids, before := history[first].ids, After(hash, history[..first]);
    var digest := hash(HashKey(ids));
    FirstCallCreates(hash, history, first);
    EveryHistory(hash, history[..first]);
    NewMembers(before, digest, ids);
    LookupFinds(before, digest, ids);
    AfterCall(hash, history, first);
    HuddlesStay(hash, history, first + 1, digest);
  }

  lemma NewMembers(s: Store, digest: string, ids: seq<int>)
    requires Inv(s) && digest !in s.huddles
    ensures var t := Find(s, digest, ids);
            && Lookup(s, digest, ids).subscriptions == t.subscriptions
            && Members(t, t.huddles[digest].recipient) == Elements(ids) * s.users.Keys
            && forall sub :: sub in SubscriptionsOf(t, t.huddles[digest].recipient) <==>
                 && sub.recipient == t.huddles[digest].recipient && sub.user in ids && sub.user in s.users
                 && s.users[sub.user] == sub.isUserActive
  {
    var t := Find(s, digest, ids);
    var r := t.huddles[digest].recipient;
    forall u | u in Elements(ids) * s.users.Keys
      ensures u in Members(t, r)
    {
      assert Subscription(r, u, s.users[u]) in t.subscriptions;
    }
  }

  // ----- The tables and the cache, changed in place -----

  class HuddleTables {
    const digest: string -> string
    var users: map<int, bool>
    var huddles: map<string, Huddle>
    var subscriptions: set<Subscription>
    var cache: map<string, Huddle>
    var next: int

    function View(): Store
      reads this
    {
      Store(users, huddles, subscriptions, cache, next)
    }

    constructor (digest: string -> string)
      ensures this.digest == digest && View() == After(digest, [])
    {
      this.digest := digest;
      users, huddles, subscriptions, cache, next := map[], map[], {}, map[], 1;
    }

    method BulkCreateSubscriptions(recipient: int, ids: seq<int>)
      modifies this`subscriptions
      ensures subscriptions == old(subscriptions) + NewSubscriptions(users, recipient, Elements(ids))
    {
      for i := 0 to |ids|
        invariant subscriptions == old(subscriptions) + NewSubscriptions(users, recipient, Elements(ids[..i]))
      {
        assert ids[..i + 1] == ids[..i] + [ids[i]];
        if ids[i] in users {
          subscriptions := subscriptions + {Subscription(recipient, ids[i], users[ids[i]])};
        }
      }
      assert ids[..|ids|] == ids;
    }

    method GetHuddleBackend(hash: string, ids: seq<int>) returns (huddle: Huddle)
      requires Inv(View())
      modifies this
      ensures View() == Lookup(old(View()), hash, ids)
      ensures hash in cache && huddle == cache[hash]
    {
      if hash in cache {
        return cache[hash];
      }
      if hash in huddles {
        huddle := huddles[hash];
      } else {
        huddle := Huddle(next, next + 1);
        next := next + 2;
        huddles := huddles[hash := huddle];
        BulkCreateSubscriptions(huddle.recipient, ids);
      }
      cache := cache[hash := huddle];
    }

    method GetHuddle(ids: seq<int>) returns (huddle: Huddle)
      requires Inv(View())
      modifies this
      ensures View() == Next(digest, old(View()), Event.GetHuddle(ids)) && Inv(View())
      ensures digest(HashKey(ids)) in huddles && huddle == huddles[digest(HashKey(ids))]
    {
      huddle := GetHuddleBackend(digest(HashKey(ids)), ids);
    }
  }
}

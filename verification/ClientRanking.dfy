/** The orders of analytics/views/stats.py in which a chart lists its labels. */
module ClientRanking {
  import opened Integers
  import opened Sequences

  // ----- Strings in code point order -----

  predicate LexLess(a: string, b: string) {
    b != [] && (a == [] || a[0] < b[0] || (a[0] == b[0] && LexLess(a[1..], b[1..])))
  }

  lemma {:induction false} LexTotal(a: string, b: string)
    ensures a == b || LexLess(a, b) || LexLess(b, a)
    ensures !(LexLess(a, b) && LexLess(b, a)) && !LexLess(a, a)
  {
    if a != [] {
      LexTotal(a[1..], if b == [] then [] else b[1..]);
      if b != [] && a[0] == b[0] {
        assert a == [a[0]] + a[1..] && b == [b[0]] + b[1..];
      }
    }
  }

  lemma {:induction false} LexTransitive(a: string, b: string, c: string)
    requires LexLess(a, b) && LexLess(b, c)
    ensures LexLess(a, c)
  {
    if a != [] && a[0] == b[0] == c[0] {
      LexTransitive(a[1..], b[1..], c[1..]);
    }
  }

  /** The strings agree up to `n`, where `a` ends or has the smaller character. */
  predicate LessAt(a: string, b: string, n: nat) {
    n <= |a| && n < |b| && a[..n] == b[..n] && (n == |a| || a[n] < b[n])
  }

  lemma SameStart(a: string, b: string, n: nat)
    requires LessAt(a, b, n)
    ensures n > 0 ==> a != [] && b != [] && a[0] == b[0]
  {
    if n > 0 {
      assert a[..n][0] == a[0] && b[..n][0] == b[0];
    }
  }

  lemma {:induction false} LexMeaning(a: string, b: string)
    ensures LexLess(a, b) <==> exists n: nat :: LessAt(a, b, n)
  {
    if b == [] || a == [] || a[0] != b[0] {
      if LexLess(a, b) {
        assert LessAt(a, b, 0);
      }
      if n: nat :| LessAt(a, b, n) {
        SameStart(a, b, n);
      }
    } else {
      LexMeaning(a[1..], b[1..]);
      if n: nat :| LessAt(a[1..], b[1..], n) {
        assert a[..n + 1] == [a[0]] + a[1..][..n] && b[..n + 1] == [b[0]] + b[1..][..n];
        assert LessAt(a, b, n + 1);
      }
      if n: nat :| LessAt(a, b, n) {
        assert n > 0 && a[1..][..n - 1] == a[..n][1..] && b[1..][..n - 1] == b[..n][1..];
        assert LessAt(a[1..], b[1..], n - 1);
      }
    }
  }

  // ----- Rankings -----

  function Total(values: seq<int>): int {
    if values == [] then 0 else Total(values[..|values| - 1]) + values[|values| - 1]
  }

  /** `a` is listed before `b`: larger total first, and among equal totals the later label. */
  predicate Before(arrays: map<string, seq<int>>, a: string, b: string)
    requires a in arrays && b in arrays
  {
    Total(arrays[a]) > Total(arrays[b]) || (Total(arrays[a]) == Total(arrays[b]) && LexLess(b, a))
  }

  predicate Listed(order: seq<string>, labels: set<string>) {
    Distinct(order) && Elements(order) == labels
  }

  ghost predicate RankedByTotal(arrays: map<string, seq<int>>, order: seq<string>) {
    && (forall x :: x in order ==> x in arrays)
    && forall i, j :: 0 <= i < j < |order| ==> Before(arrays, order[i], order[j])
  }

  lemma BeforeTotal(arrays: map<string, seq<int>>, a: string, b: string)
    requires a in arrays && b in arrays
    ensures a == b || Before(arrays, a, b) || Before(arrays, b, a)
    ensures !(Before(arrays, a, b) && Before(arrays, b, a))
  {
    LexTotal(a, b);
  }

  lemma BeforeTransitive(arrays: map<string, seq<int>>, a: string, b: string, c: string)
    requires a in arrays && b in arrays && c in arrays
    requires Before(arrays, a, b) && Before(arrays, b, c)
    ensures Before(arrays, a, c)
  {
    if Total(arrays[a]) == Total(arrays[b]) == Total(arrays[c]) {
      LexTransitive(c, b, a);
    }
  }

  /** The sort keys leave no freedom: there is only one ranking of a set of labels. */
  lemma {:induction false} RankingUnique(arrays: map<string, seq<int>>, a: seq<string>, b: seq<string>)
    requires RankedByTotal(arrays, a) && RankedByTotal(arrays, b)
    requires Elements(a) == Elements(b)
    ensures a == b
  {
    if a == [] || b == [] {
      NoElements(a);
      NoElements(b);
    } else {
      assert a[0] in Elements(b) && b[0] in Elements(a);
      if a[0] != b[0] {
        assert Before(arrays, a[0], b[0]) && Before(arrays, b[0], a[0]);
        BeforeTotal(arrays, a[0], b[0]);
      }
      RankedTail(arrays, a);
      RankedTail(arrays, b);
      RankingUnique(arrays, a[1..], b[1..]);
    }
  }

  lemma RankedTail(arrays: map<string, seq<int>>, a: seq<string>)
    requires RankedByTotal(arrays, a) && a != []
    ensures RankedByTotal(arrays, a[1..]) && Elements(a[1..]) == Elements(a) - {a[0]}
  {
    forall x | x in a[1..]
      ensures x in a && x != a[0]
    {
      var i :| 0 <= i < |a[1..]| && a[1..][i] == x;
      assert Before(arrays, a[0], a[i + 1]);
      BeforeTotal(arrays, a[0], a[i + 1]);
    }
  }

  /** `sort_by_totals`: every name once, by falling total. */
  method SortByTotals(arrays: map<string, seq<int>>) returns (order: seq<string>)
    ensures Listed(order, arrays.Keys) && RankedByTotal(arrays, order)
    ensures forall i, j :: 0 <= i < j < |order| ==>
              || Total(arrays[order[i]]) > Total(arrays[order[j]])
              || (Total(arrays[order[i]]) == Total(arrays[order[j]]) && LexLess(order[j], order[i]))
  {
    order := [];
    var todo := arrays.Keys;
    while todo != {}
      invariant todo <= arrays.Keys && Listed(order, arrays.Keys - todo) && RankedByTotal(arrays, order)
      decreases |todo|
    {
      var name :| name in todo;
      todo := todo - {name};
      var i := 0;
      while i < |order| && Before(arrays, order[i], name)
        invariant 0 <= i <= |order| && forall j :: 0 <= j < i ==> Before(arrays, order[j], name)
      {
        i := i + 1;
      }
      InsertRanked(arrays, order, i, name);
      order := order[..i] + [name] + order[i..];
    }
  }

  lemma InsertRanked(arrays: map<string, seq<int>>, order: seq<string>, i: nat, name: string)
    requires RankedByTotal(arrays, order) && Distinct(order) && name in arrays && name !in order && i <= |order|
    requires forall j :: 0 <= j < i ==> Before(arrays, order[j], name)
    requires i < |order| ==> !Before(arrays, order[i], name)
    ensures var longer := order[..i] + [name] + order[i..];
            RankedByTotal(arrays, longer) && Listed(longer, Elements(order) + {name})
  {
    var longer := order[..i] + [name] + order[i..];
    assert forall x :: x in longer <==> x == name || x in order by {
      assert order == order[..i] + order[i..];
    }
    forall j | i <= j < |order|
      ensures Before(arrays, name, order[j])
    {
      BeforeTotal(arrays, name, order[i]);
      if i < j {
        BeforeTransitive(arrays, name, order[i], order[j]);
      }
    }
  }

  // ----- The two rankings of the clients merged -----

  function IndexOf(order: seq<string>, name: string): (i: nat)
    ensures i <= |order| && (i < |order| <==> name in order)
    ensures i < |order| ==> order[i] == name
  {
    if order == [] then 0 else if order[0] == name then 0 else 1 + IndexOf(order[1..], name)
  }

  /** The sort value, in tenths, of a label found in either order. */
  function SortValue(realm: seq<string>, user: seq<string>, name: string): int {
    var r, u := IndexOf(realm, name), IndexOf(user, name);
    if u == |user| then 10 * r
    else if r == |realm| || 10 * u - 1 < 10 * r then 10 * u - 1
    else 10 * r
  }

  lemma {:induction false} IndexOfAt(order: seq<string>, i: nat)
    requires Distinct(order) && i < |order|
    ensures IndexOf(order, order[i]) == i
  {
    if i > 0 {
      assert order[0] != order[i] && order[1..][i - 1] == order[i];
      IndexOfAt(order[1..], i - 1);
    }
  }

  /** No two labels share a sort value, so the order is settled by the values alone. */
  lemma NoTies(realm: seq<string>, user: seq<string>, a: string, b: string)
    requires a in realm || a in user
    requires b in realm || b in user
    requires SortValue(realm, user, a) == SortValue(realm, user, b)
    ensures a == b
  {
    var ra, ua, rb, ub := IndexOf(realm, a), IndexOf(user, a), IndexOf(realm, b), IndexOf(user, b);
    assert (SortValue(realm, user, a) == 10 * ra && ra < |realm|) ||
        (SortValue(realm, user, a) == 10 * ua - 1 && ua < |user|);
    assert (SortValue(realm, user, b) == 10 * rb && rb < |realm|) ||
        (SortValue(realm, user, b) == 10 * ub - 1 && ub < |user|);
  }

  ghost predicate RankedByValue(realm: seq<string>, user: seq<string>, order: seq<string>) {
    forall i, j :: 0 <= i < j < |order| ==> SortValue(realm, user, order[i]) < SortValue(realm, user, order[j])
  }

  lemma IndexBelow(order: seq<string>, name: string, i: nat)
    requires Distinct(order) && i < |order|
    ensures IndexOf(order, name) == i <==> name == order[i]
  {
    IndexOfAt(order, i);
  }

  lemma AllIndexBelow(order: seq<string>, i: nat)
    requires Distinct(order) && i < |order|
    ensures forall x :: IndexOf(order, x) == i <==> x == order[i]
  {
    forall x
      ensures IndexOf(order, x) == i <==> x == order[i]
    {
      IndexBelow(order, x, i);
    }
  }

  method RealmSortValues(realmOrder: seq<string>) returns (values: map<string, int>)
    requires Distinct(realmOrder)
    ensures forall x :: x in values <==> x in realmOrder
    ensures forall x :: x in values ==> values[x] == 10 * IndexOf(realmOrder, x)
  {
    values := map[];
    for i := 0 to |realmOrder|
      invariant forall x :: x in values <==> IndexOf(realmOrder, x) < i
      invariant forall x :: x in values ==> values[x] == 10 * IndexOf(realmOrder, x)
    {
      AllIndexBelow(realmOrder, i);
      values := values[realmOrder[i] := 10 * i];
    }
  }

  /** The value of a label once the first `i` labels of the user order have been seen. */
  function ValueSoFar(realm: seq<string>, user: seq<string>, i: nat, name: string): int {
    if IndexOf(user, name) < i then SortValue(realm, user, name) else 10 * IndexOf(realm, name)
  }

  lemma SeeUserLabel(realm: seq<string>, user: seq<string>, i: nat, values: map<string, int>, present: int)
    requires Distinct(user) && i < |user|
    requires forall x :: x in values <==> x in realm || IndexOf(user, x) < i
    requires forall x :: x in values ==> values[x] == ValueSoFar(realm, user, i, x)
    requires present == if user[i] in values then values[user[i]] else 10 * i
    ensures var more := values[user[i] := if 10 * i - 1 < present then 10 * i - 1 else present];
            && (forall x :: x in more <==> x in realm || IndexOf(user, x) < i + 1)
            && forall x :: x in more ==> more[x] == ValueSoFar(realm, user, i + 1, x)
  {
    AllIndexBelow(user, i);
  }

  /** The two loops that fill `label_sort_values`. */
  method LabelSortValues(realmOrder: seq<string>, userOrder: seq<string>) returns (values: map<string, int>)
    requires Distinct(realmOrder) && Distinct(userOrder)
    ensures forall x :: x in values <==> x in realmOrder || x in userOrder
    ensures forall x :: x in values ==> values[x] == SortValue(realmOrder, userOrder, x)
  {
    values := RealmSortValues(realmOrder);
    for i := 0 to |userOrder|
      invariant forall x :: x in values <==> x in realmOrder || IndexOf(userOrder, x) < i
      invariant forall x :: x in values ==> values[x] == ValueSoFar(realmOrder, userOrder, i, x)
    {
      var name := userOrder[i];
      var present := if name in values then values[name] else 10 * i;
      SeeUserLabel(realmOrder, userOrder, i, values, present);
      values := values[name := if 10 * i - 1 < present then 10 * i - 1 else present];
    }
  }

  /** `sort_client_labels`: every label of either ranking once, in the strict order of the sort values. */
  method SortClientLabels(everyone: map<string, seq<int>>, user: map<string, seq<int>>)
    returns (order: seq<string>, ghost realmOrder: seq<string>, ghost userOrder: seq<string>)
    ensures Listed(realmOrder, everyone.Keys) && RankedByTotal(everyone, realmOrder)
    ensures Listed(userOrder, user.Keys) && RankedByTotal(user, userOrder)
    ensures Listed(order, everyone.Keys + user.Keys) && RankedByValue(realmOrder, userOrder, order)
  {
    var first := SortByTotals(everyone);
    var second := SortByTotals(user);
    realmOrder, userOrder := first, second;
    var values := LabelSortValues(first, second);
    assert forall x :: x in everyone.Keys <==> x in Elements(first);
    assert forall x :: x in user.Keys <==> x in Elements(second);
    assert values.Keys == everyone.Keys + user.Keys;
    order := SortByValue(values);
    StrictlyRanked(values, first, second, order);
  }

  lemma StrictlyRanked(values: map<string, int>, realm: seq<string>, user: seq<string>, order: seq<string>)
    requires forall x :: x in values ==> (x in realm || x in user) && values[x] == SortValue(realm, user, x)
    requires Distinct(order) && SortedByValue(values, order)
    ensures RankedByValue(realm, user, order)
  {
    forall i, j | 0 <= i < j < |order|
      ensures SortValue(realm, user, order[i]) < SortValue(realm, user, order[j])
    {
      if SortValue(realm, user, order[i]) == SortValue(realm, user, order[j]) {
        NoTies(realm, user, order[i], order[j]);
      }
    }
  }

  ghost predicate SortedByValue(values: map<string, int>, order: seq<string>) {
    && (forall x :: x in order ==> x in values)
    && forall i, j :: 0 <= i < j < |order| ==> values[order[i]] <= values[order[j]]
  }

  /** `sorted(label_sort_values.items(), key=lambda x: x[1])`. */
  method SortByValue(values: map<string, int>) returns (order: seq<string>)
    ensures Listed(order, values.Keys) && SortedByValue(values, order)
  {
    order := [];
    var todo := values.Keys;
    while todo != {}
      invariant todo <= values.Keys && Listed(order, values.Keys - todo) && SortedByValue(values, order)
      decreases |todo|
    {
      var name :| name in todo;
      todo := todo - {name};
      var i := 0;
      while i < |order| && values[order[i]] <= values[name]
        invariant 0 <= i <= |order| && forall j :: 0 <= j < i ==> values[order[j]] <= values[name]
      {
        i := i + 1;
      }
      assert name !in Elements(order);
      InsertSorted(values, order, i, name);
      order := order[..i] + [name] + order[i..];
    }
  }

  lemma InsertSorted(values: map<string, int>, order: seq<string>, i: nat, name: string)
    requires SortedByValue(values, order) && Distinct(order) && name in values && name !in order && i <= |order|
    requires forall j :: 0 <= j < i ==> values[order[j]] <= values[name]
    requires i < |order| ==> values[name] < values[order[i]]
    ensures var longer := order[..i] + [name] + order[i..];
            SortedByValue(values, longer) && Listed(longer, Elements(order) + {name})
  {
    InsertedOnce(order, i, name);
    InsertedAt(order, i, name);
  }

  lemma InsertedOnce(order: seq<string>, i: nat, name: string)
    requires Distinct(order) && name !in order && i <= |order|
    ensures Listed(order[..i] + [name] + order[i..], Elements(order) + {name})
  {
    var longer := order[..i] + [name] + order[i..];
    assert forall x :: x in longer <==> x == name || x in order by {
      assert order == order[..i] + order[i..];
    }
  }

  lemma InsertedAt(order: seq<string>, i: nat, name: string)
    requires i <= |order|
    ensures var longer := order[..i] + [name] + order[i..];
            forall j :: 0 <= j < |longer| ==> longer[j] == if j < i then order[j] else if j == i then name
                                                           else order[j - 1]
  {
  }

  /**
   * For every N, the first N labels of the everyone order and the first N of the user order are all among the first 2N
   * of the merged order.
   */
  lemma TopN(realm: seq<string>, user: seq<string>, order: seq<string>, n: nat, j: nat)
    requires Distinct(realm) && Distinct(user) && Distinct(order) && RankedByValue(realm, user, order)
    requires Elements(order) == Elements(realm) + Elements(user)
    requires j < |order| && IsLeader(realm, user, n, order[j])
    ensures j < 2 * n
  {
    var leading := realm[..Min(n, |realm|)] + user[..Min(n, |user|)];
    forall i | 0 <= i <= j
      ensures order[i] in leading
    {
      assert i < j ==> SortValue(realm, user, order[i]) < SortValue(realm, user, order[j]);
      assert order[i] in Elements(order);
      SmallerLeads(realm, user, n, order[i], order[j]);
      LeadersLead(realm, user, n, order[i]);
    }
    DistinctFits(order[..j + 1], leading);
  }

  /** The label stands at place `n` of one order or the other, and at no earlier place of either. */
  predicate StandsAt(realm: seq<string>, user: seq<string>, name: string, n: nat) {
    (n < |realm| && realm[n] == name) || (n < |user| && user[n] == name)
  }

  predicate FirstStandsAt(realm: seq<string>, user: seq<string>, name: string, n: nat) {
    StandsAt(realm, user, name, n) && forall m: nat :: m < n ==> !StandsAt(realm, user, name, m)
  }

  lemma ValueOfPlace(realm: seq<string>, user: seq<string>, name: string) returns (n: nat)
    requires Distinct(realm) && Distinct(user) && (name in realm || name in user)
    ensures FirstStandsAt(realm, user, name, n)
    ensures SortValue(realm, user, name) == if n < |user| && user[n] == name then 10 * n - 1 else 10 * n
  {
    var r, u := IndexOf(realm, name), IndexOf(user, name);
    n := if u < |user| && (r == |realm| || u <= r) then u else r;
    forall m: nat | m < n
      ensures !StandsAt(realm, user, name, m)
    {
      if m < |realm| {
        IndexBelow(realm, name, m);
      }
      if m < |user| {
        IndexBelow(user, name, m);
      }
    }
    if n < |user| {
      IndexBelow(user, name, n);
    }
  }

  /**
   * The merged order takes the labels by their first place in either order, and of the two labels that first stand at
   * the same place it takes the user's one first.
   */
  lemma MergedByPlace(realm: seq<string>, user: seq<string>, order: seq<string>, i: nat, j: nat)
      returns (m: nat, n: nat)
    requires Distinct(realm) && Distinct(user) && RankedByValue(realm, user, order)
    requires Elements(order) == Elements(realm) + Elements(user) && i < |order| && j < |order| && i != j
    ensures FirstStandsAt(realm, user, order[i], m) && FirstStandsAt(realm, user, order[j], n)
    ensures i < j <==> m < n || (m == n && m < |user| && user[m] == order[i])
  {
    assert order[i] in Elements(order) && order[j] in Elements(order);
    m := ValueOfPlace(realm, user, order[i]);
    n := ValueOfPlace(realm, user, order[j]);
    assert i < j ==> SortValue(realm, user, order[i]) < SortValue(realm, user, order[j]);
    assert j < i ==> SortValue(realm, user, order[j]) < SortValue(realm, user, order[i]);
  }

  /** Among the first `n` of either order. */
  predicate IsLeader(realm: seq<string>, user: seq<string>, n: nat, name: string) {
    IndexOf(realm, name) < Min(n, |realm|) || IndexOf(user, name) < Min(n, |user|)
  }

  lemma SmallerLeads(realm: seq<string>, user: seq<string>, n: nat, a: string, b: string)
    requires SortValue(realm, user, a) <= SortValue(realm, user, b) && IsLeader(realm, user, n, b)
    requires a in realm || a in user
    ensures IsLeader(realm, user, n, a)
  {
  }

  lemma LeadersLead(realm: seq<string>, user: seq<string>, n: nat, name: string)
    requires IsLeader(realm, user, n, name)
    ensures name in realm[..Min(n, |realm|)] + user[..Min(n, |user|)]
  {
    var leading := realm[..Min(n, |realm|)] + user[..Min(n, |user|)];
    var r, u := IndexOf(realm, name), IndexOf(user, name);
    if r < Min(n, |realm|) {
      assert leading[r] == name;
    } else {
      assert leading[Min(n, |realm|) + u] == name;
    }
  }

  lemma {:induction false} DistinctFits<T>(s: seq<T>, t: seq<T>)
    requires Distinct(s) && forall x :: x in s ==> x in t
    ensures |s| <= |t|
  {
    if s != [] {
      assert s[0] in s;
      var k :| 0 <= k < |t| && t[k] == s[0];
      var rest := t[..k] + t[k + 1..];
      forall x | x in s[1..]
        ensures x in rest
      {
        var i :| 0 <= i < |s[1..]| && s[1..][i] == x;
        assert s[i + 1] == x && x in s;
        var m :| 0 <= m < |t| && t[m] == x;
        assert m != k;
        assert x == if m < k then rest[m] else rest[m - 1];
      }
      DistinctFits(s[1..], rest);
    }
  }
}

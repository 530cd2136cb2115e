/** Sums over finite sets, the meaning of SQL's `sum` and `count` with `GROUP BY`: no row order is involved. */
module SetSums {

  ghost function Sum<T(!new)>(s: set<T>, f: T -> int): int {
    if s == {} then 0 else var x :| x in s; f(x) + Sum(s - {x}, f)
  }

  lemma {:induction false} SumRemove<T(!new)>(s: set<T>, f: T -> int, x: T)
    requires x in s
    ensures Sum(s, f) == f(x) + Sum(s - {x}, f)
  {
    var y :| y in s && Sum(s, f) == f(y) + Sum(s - {y}, f);
    if y != x {
      SumRemove(s - {y}, f, x);
      SumRemove(s - {x}, f, y);
      assert s - {y} - {x} == s - {x} - {y};
    }
  }

  lemma {:induction false} SumAgree<T(!new)>(s: set<T>, f: T -> int, g: T -> int)
    requires forall x :: x in s ==> f(x) == g(x)
    ensures Sum(s, f) == Sum(s, g)
  {
    if s != {} {
      var x :| x in s;
      SumRemove(s, f, x);
      SumRemove(s, g, x);
      SumAgree(s - {x}, f, g);
    }
  }

  lemma {:induction false} SumUnion<T(!new)>(a: set<T>, b: set<T>, f: T -> int)
    requires a !! b
    ensures Sum(a + b, f) == Sum(a, f) + Sum(b, f)
  {
    if a == {} {
      assert a + b == b;
    } else {
      var x :| x in a;
      SumRemove(a, f, x);
      SumRemove(a + b, f, x);
      assert a + b - {x} == (a - {x}) + b;
      SumUnion(a - {x}, b, f);
    }
  }

  lemma {:induction false} SumConst<T(!new)>(s: set<T>, f: T -> int, c: int)
    requires forall x :: x in s ==> f(x) == c
    ensures Sum(s, f) == c * |s|
  {
    if s != {} {
      var x :| x in s;
      SumRemove(s, f, x);
      SumConst(s - {x}, f, c);
    }
  }

  /** The elements of `s` that fall in group `y`. */
  ghost function Fibre<T(!new), G(!new)>(s: set<T>, group: T -> G, y: G): set<T> {
    set x | x in s && group(x) == y
  }

  /** Summing each group first and then the groups gives the sum of the whole. */
  lemma {:induction false} SumByGroups<T(!new),
      G(!new)>(s: set<T>, f: T -> int, groups: set<G>, group: T -> G, total: G -> int)
    requires forall x :: x in s ==> group(x) in groups
    requires forall y :: y in groups ==> total(y) == Sum(Fibre(s, group, y), f)
    ensures Sum(groups, total) == Sum(s, f)
  {
    if groups == {} {
      assert s == {};
    } else {
      var y :| y in groups;
      var inside, rest := Fibre(s, group, y), s - Fibre(s, group, y);
      forall z | z in groups - {y}
        ensures total(z) == Sum(Fibre(rest, group, z), f)
      {
        assert Fibre(rest, group, z) == Fibre(s, group, z);
      }
      SumByGroups(rest, f, groups - {y}, group, total);
      SumRemove(groups, total, y);
      assert s == inside + rest;
      SumUnion(inside, rest, f);
    }
  }

  // ----- Iteration over a set of ids -----

  lemma EmptySet(ids: set<int>)
    ensures ids == {} <==> forall id :: id !in ids
  {
    if forall id :: id !in ids {
      assert ids == {};
    }
  }

  method Pick(ids: set<int>) returns (id: int)
    requires ids != {}
    ensures id in ids
  {
    EmptySet(ids);
    id :| id in ids;
  }
}

/** Sizes of finite sets, and adding up a number over one, in whatever order. */
module Sums {

  ghost function Sum<T(!new)>(s: set<T>, f: T -> int): int {
    if s == {} then 0
    else
      var x :| x in s;
      f(x) + Sum(s - {x}, f)
  }

  lemma {:induction false} SumPick<T(!new)>(s: set<T>, x: T, f: T -> int)
    requires x in s
    ensures Sum(s, f) == f(x) + Sum(s - {x}, f)
    decreases |s|
  {
    var y :| y in s && Sum(s, f) == f(y) + Sum(s - {y}, f);
    if y != x {
      SumPick(s - {y}, x, f);
      SumPick(s - {x}, y, f);
      assert s - {y} - {x} == s - {x} - {y};
    }
  }

  lemma SumAdd<T(!new)>(s: set<T>, x: T, f: T -> int)
    requires x !in s
    ensures Sum(s + {x}, f) == f(x) + Sum(s, f)
  {
    SumPick(s + {x}, x, f);
    assert s + {x} - {x} == s;
  }

  lemma {:induction false} SumSame<T(!new)>(s: set<T>, f: T -> int, g: T -> int)
    requires forall x :: x in s ==> f(x) == g(x)
    ensures Sum(s, f) == Sum(s, g)
    decreases |s|
  {
    if s != {} {
      var x :| x in s;
      SumPick(s, x, f);
      SumPick(s, x, g);
      SumSame(s - {x}, f, g);
    }
  }

  lemma {:induction false} SumSubset<T(!new)>(s: set<T>, t: set<T>, f: T -> int)
    requires s <= t && forall x :: x in t ==> f(x) >= 0
    ensures Sum(s, f) <= Sum(t, f)
    decreases |t|
  {
    if t != s {
      var x :| x in t && x !in s;
      SumPick(t, x, f);
      SumSubset(s, t - {x}, f);
    }
  }

  /** Members that contribute nothing can be left out. */
  lemma {:induction false} SumSupport<T(!new)>(s: set<T>, t: set<T>, f: T -> int)
    requires s <= t && forall x :: x in t && x !in s ==> f(x) == 0
    ensures Sum(s, f) == Sum(t, f)
    decreases |t|
  {
    if t != s {
      var x :| x in t && x !in s;
      SumPick(t, x, f);
      SumSupport(s, t - {x}, f);
    }
  }

  /** `name` takes the members of s to those of t, one to one, and each carries its value along. */
  ghost predicate Renames(s: set<nat>, t: set<nat>, f: nat -> int, name: nat -> nat, g: nat -> int) {
    && (forall x :: x in s ==> name(x) in t && g(name(x)) == f(x))
    && (forall x, y :: x in s && y in s && name(x) == name(y) ==> x == y)
    && (forall y :: y in t ==> exists x :: x in s && name(x) == y)
  }

  lemma RenamesRest(s: set<nat>, t: set<nat>, f: nat -> int, name: nat -> nat, g: nat -> int, x: nat)
    requires Renames(s, t, f, name, g) && x in s
    ensures Renames(s - {x}, t - {name(x)}, f, name, g)
  {
    forall y | y in t - {name(x)} ensures exists z :: z in s - {x} && name(z) == y {
      var z :| z in s && name(z) == y;
      assert z in s - {x};
    }
  }

  /** Renaming the members, one to one, does not change the sum. */
  lemma {:induction false} SumRenamed(s: set<nat>, t: set<nat>, f: nat -> int, name: nat -> nat, g: nat -> int)
    requires Renames(s, t, f, name, g)
    ensures Sum(s, f) == Sum(t, g)
    decreases |s|
  {
    if s == {} {
      assert t == {};
    } else {
      var x :| x in s;
      RenamesRest(s, t, f, name, g, x);
      SumRenamed(s - {x}, t - {name(x)}, f, name, g);
      SumPick(s, x, f);
      SumPick(t, name(x), g);
    }
  }

  lemma {:induction false} NoLarger<T>(a: set<T>, b: set<T>)
    requires a <= b
    ensures |a| <= |b|
  {
    if a != {} {
      var x :| x in a;
      NoLarger(a - {x}, b - {x});
    }
  }

  lemma SmallerSubset<T>(a: set<T>, b: set<T>)
    requires a < b
    ensures |a| < |b|
  {
    var x :| x in b && x !in a;
    assert a <= b - {x};
    NoLarger(a, b - {x});
  }

  /** Members with different names in a set are no more than the set. */
  lemma {:induction false} NoMoreNames(s: set<nat>, name: nat -> nat, names: set<nat>)
    requires forall x :: x in s ==> name(x) in names
    requires forall x, y :: x in s && y in s && name(x) == name(y) ==> x == y
    ensures |s| <= |names|
    decreases |s|
  {
    if s != {} {
      var x :| x in s;
      NoMoreNames(s - {x}, name, names - {name(x)});
    }
  }
}

/** The browser's choice of Idempotency-Key for a checkout (web/src/lib/idempotency.ts). */
module KeyKeeper {
  import opened Domain
  import O = Sorting
  import S = Saga
  import P = Purchase
  import PT = PurchaseTheorems

  /** How a request can fail: the API answered with a status (0 if no answer came), or the page itself broke. */
  datatype Failure = ApiError(status: int) | OtherError

  /** isUnknownOutcome */
  predicate UnknownOutcome(error: Option<Failure>) {
    error.Some? && error.value.ApiError? && (error.value.status == 0 || error.value.status == 504)
  }

  // ---- the name of a set of seats: sorted, joined with commas ----

  predicate TextLeq(a: string, b: string) {
    if a == [] then true
    else if b == [] then false
    else if a[0] != b[0] then a[0] < b[0]
    else TextLeq(a[1..], b[1..])
  }

  lemma {:induction false} TextTotal(a: string, b: string)
    ensures TextLeq(a, b) || TextLeq(b, a)
    ensures TextLeq(a, b) && TextLeq(b, a) ==> a == b
  {
    if a != [] && b != [] && a[0] == b[0] {
      TextTotal(a[1..], b[1..]);
      assert a == [a[0]] + a[1..] && b == [b[0]] + b[1..];
    }
  }

  lemma {:induction false} TextTransitive(a: string, b: string, c: string)
    requires TextLeq(a, b) && TextLeq(b, c)
    ensures TextLeq(a, c)
  {
    if a != [] && b != [] && c != [] && a[0] == b[0] == c[0] {
      TextTransitive(a[1..], b[1..], c[1..]);
    }
  }

  lemma TextOrder()
    ensures O.TotalOrder(TextLeq)
  {
    forall a, b ensures TextLeq(a, b) || TextLeq(b, a) { TextTotal(a, b); }
    forall a, b | TextLeq(a, b) && TextLeq(b, a) ensures a == b { TextTotal(a, b); }
    forall a, b, c | TextLeq(a, b) && TextLeq(b, c) ensures TextLeq(a, c) { TextTransitive(a, b, c); }
  }

  function Join(xs: seq<string>): string {
    if xs == [] then ""
    else if |xs| == 1 then xs[0]
    else xs[0] + "," + Join(xs[1..])
  }

  function SeatsName(seatIDs: seq<string>): string {
    Join(O.Sort(seatIDs, TextLeq))
  }

  ghost predicate CommaFree(xs: seq<string>) {
    forall i :: 0 <= i < |xs| ==> ',' !in xs[i]
  }

  lemma JoinHead(xs: seq<string>)
    requires xs != []
    ensures Join(xs) == xs[0] + (if |xs| == 1 then "" else "," + Join(xs[1..]))
  {
  }

  /** The first word ends where the text does, or at a comma. */
  lemma FirstWord(a: seq<string>, b: seq<string>)
    requires a != [] && b != [] && CommaFree(a) && CommaFree(b) && Join(a) == Join(b)
    ensures |b[0]| <= |a[0]|
  {
    JoinHead(a);
    JoinHead(b);
    assert |Join(a)| == |a[0]| || Join(a)[|a[0]|] == ',';
    assert forall k :: 0 <= k < |b[0]| ==> b[0][k] in b[0] && Join(b)[k] == b[0][k];
  }

  lemma {:induction false} JoinInjective(a: seq<string>, b: seq<string>)
    requires a != [] && b != [] && CommaFree(a) && CommaFree(b) && Join(a) == Join(b)
    ensures a == b
  {
    FirstWord(a, b);
    FirstWord(b, a);
    JoinHead(a);
    JoinHead(b);
    var n, all := |a[0]|, Join(a);
    assert a[0] == all[..n] == b[0];
    if |a| > 1 {
      assert all[n + 1..] == Join(a[1..]);
      assert |b| > 1;
      assert all[n + 1..] == Join(b[1..]);
      JoinInjective(a[1..], b[1..]);
    }
    assert a == [a[0]] + a[1..] && b == [b[0]] + b[1..];
  }

  /** The same seats in any order; no seat at all and one seat without an id count as the same. */
  ghost predicate SameSelection(a: seq<string>, b: seq<string>) {
    multiset(a) == multiset(b) || (a == [] && b == [""]) || (a == [""] && b == [])
  }

  /** For comma-free ids two lists get one name exactly when they select the same seats. */
  lemma NameDecidesSeats(a: seq<string>, b: seq<string>)
    requires CommaFree(a) && CommaFree(b)
    ensures SeatsName(a) == SeatsName(b) <==> SameSelection(a, b)
  {
    TextOrder();
    O.SortDecidesBags(a, b, TextLeq);
    var sa, sb := O.Sort(a, TextLeq), O.Sort(b, TextLeq);
    O.SortSorts(a, TextLeq);
    O.SortSorts(b, TextLeq);
    SortedCommaFree(a, sa);
    SortedCommaFree(b, sb);
    if sa != [] && sb != [] {
      if Join(sa) == Join(sb) { JoinInjective(sa, sb); }
    } else {
      SortedNothing(a, sa);
      SortedNothing(b, sb);
      EmptyName(sa);
      EmptyName(sb);
    }
  }

  lemma SortedCommaFree(a: seq<string>, s: seq<string>)
    requires CommaFree(a) && multiset(s) == multiset(a)
    ensures CommaFree(s)
  {
    forall i | 0 <= i < |s| ensures ',' !in s[i] {
      assert s[i] in multiset(a);
    }
  }

  lemma SortedNothing(a: seq<string>, s: seq<string>)
    requires multiset(s) == multiset(a)
    ensures s == [] <==> a == []
    ensures s == [""] <==> a == [""]
  {
    assert |multiset(s)| == |s| && |multiset(a)| == |a|;
    if |a| == 1 && |s| == 1 {
      assert a[0] in multiset(s) && s[0] in multiset(a);
    }
  }

  lemma EmptyName(s: seq<string>)
    requires CommaFree(s)
    ensures Join(s) == "" <==> s == [] || s == [""]
  {
    if s != [] { JoinHead(s); }
  }

  /** With commas allowed the rule breaks: two different selections get one name, hence one key. */
  lemma CommasMislead()
    ensures SeatsName(["x,y"]) == SeatsName(["x", "y"]) && multiset(["x,y"]) != multiset(["x", "y"])
  {
    var a, b := ["x,y"], ["x", "y"];
    assert a[1..] == [] && b[1..] == ["y"] && b[1..][1..] == [];
    assert O.Sort(a, TextLeq) == a;
    assert O.Sort(["y"], TextLeq) == ["y"];
    assert TextLeq("x", "y");
    assert O.Sort(b, TextLeq) == b;
    assert Join(["y"]) == "y";
    assert Join(b) == "x,y" == Join(a);
    assert |multiset(a)| == 1 && |multiset(b)| == 2;
  }

  // ---- the keeper ----

  datatype Unsettled = Unsettled(seats: string, key: string)

  function KeyAfter(current: Option<Unsettled>, seatIDs: seq<string>, random: string): Unsettled {
    if current.Some? && current.value.seats == SeatsName(seatIDs) then current.value
    else Unsettled(SeatsName(seatIDs), random)
  }

  class KeyKeeper {
    var current: Option<Unsettled>

    constructor ()
      ensures current == None
    {
      current := None;
    }

    /** keyFor; `random` is what crypto.randomUUID would return. */
    method KeyFor(seatIDs: seq<string>, random: string) returns (key: string)
      modifies this
      ensures current == Some(KeyAfter(old(current), seatIDs, random)) && key == current.value.key
      ensures old(current).Some? && old(current).value.seats == SeatsName(seatIDs) ==>
        current == old(current) && key == old(current).value.key
      ensures old(current).None? || old(current).value.seats != SeatsName(seatIDs) ==>
        current == Some(Unsettled(SeatsName(seatIDs), random)) && key == random
    {
      var seats := SeatsName(seatIDs);
      if current.None? || current.value.seats != seats {
        current := Some(Unsettled(seats, random));
      }
      return current.value.key;
    }

    method Settle(error: Option<Failure>)
      modifies this
      ensures current == if UnknownOutcome(error) then old(current) else None
      ensures error == Some(ApiError(0)) || error == Some(ApiError(504)) ==> current == old(current)
      ensures error != Some(ApiError(0)) && error != Some(ApiError(504)) ==> current == None
    {
      if UnknownOutcome(error) {
        return;
      }
      current := None;
    }
  }

  // ---- a customer's checkouts, one after another ----

  datatype Checkout = Checkout(seatIDs: seq<string>, random: string, error: Option<Failure>)

  /** The keeper after these checkouts. */
  ghost function Kept(cs: seq<Checkout>): Option<Unsettled> {
    if cs == [] then None
    else
      var last := cs[|cs| - 1];
      if UnknownOutcome(last.error) then Some(KeyAfter(Kept(cs[..|cs| - 1]), last.seatIDs, last.random)) else None
  }

  /** The key the i-th checkout carries. */
  ghost function KeyOf(cs: seq<Checkout>, i: nat): string
    requires i < |cs|
  {
    KeyAfter(Kept(cs[..i]), cs[i].seatIDs, cs[i].random).key
  }

  lemma KeptOne(cs: seq<Checkout>, i: nat)
    requires i < |cs|
    ensures Kept(cs[..i + 1]) ==
      if UnknownOutcome(cs[i].error) then Some(KeyAfter(Kept(cs[..i]), cs[i].seatIDs, cs[i].random)) else None
  {
    assert cs[..i + 1][..i] == cs[..i];
  }

  /** Retries of one purchase: the same seats in any order, no earlier try got an answer. */
  ghost predicate Retries(cs: seq<Checkout>, i: nat, j: nat) {
    && i <= j < |cs|
    && (forall k :: i <= k <= j ==> multiset(cs[k].seatIDs) == multiset(cs[i].seatIDs))
    && (forall k :: i <= k < j ==> UnknownOutcome(cs[k].error))
  }

  /** All retries of one purchase carry the key of the first try. */
  lemma {:induction false} RetriesShareTheKey(cs: seq<Checkout>, i: nat, j: nat)
    requires Retries(cs, i, j)
    ensures KeyOf(cs, j) == KeyOf(cs, i)
    ensures KeyAfter(Kept(cs[..j]), cs[j].seatIDs, cs[j].random) == Unsettled(SeatsName(cs[i].seatIDs), KeyOf(cs, i))
    decreases j
  {
    if i < j {
      RetriesShareTheKey(cs, i, j - 1);
      KeptOne(cs, j - 1);
      TextOrder();
      O.SortDecidesBags(cs[j].seatIDs, cs[i].seatIDs, TextLeq);
    }
  }

  ghost predicate FreshKeys(cs: seq<Checkout>) {
    forall i, j :: 0 <= i < j < |cs| ==> cs[i].random != cs[j].random
  }

  /** Every key in use was drawn by some earlier checkout. */
  lemma {:induction false} KeysAreDrawn(cs: seq<Checkout>, n: nat)
    requires n <= |cs|
    ensures Kept(cs[..n]).Some? ==> exists i :: 0 <= i < n && Kept(cs[..n]).value.key == cs[i].random
  {
    if n > 0 {
      KeysAreDrawn(cs, n - 1);
      KeptOne(cs, n - 1);
      if Kept(cs[..n]).Some? && Kept(cs[..n]).value.key != cs[n - 1].random {
        var i :| 0 <= i < n - 1 && Kept(cs[..n - 1]).value.key == cs[i].random;
        assert 0 <= i < n;
      }
    }
  }

  lemma KeyIsDrawn(cs: seq<Checkout>, n: nat)
    requires n < |cs|
    ensures exists i :: 0 <= i <= n && KeyOf(cs, n) == cs[i].random
  {
    KeysAreDrawn(cs, n);
    if KeyOf(cs, n) != cs[n].random {
      var i :| 0 <= i < n && Kept(cs[..n]).value.key == cs[i].random;
      assert 0 <= i <= n;
    }
  }

  /** After a definite answer, or for other seats, the next checkout's key is new: no earlier checkout carried it. */
  lemma NewPurchaseNewKey(cs: seq<Checkout>, j: nat, i: nat)
    requires FreshKeys(cs) && i < j < |cs|
    requires !UnknownOutcome(cs[j - 1].error)
      || (CommaFree(cs[j].seatIDs) && CommaFree(cs[j - 1].seatIDs) && !SameSelection(cs[j].seatIDs, cs[j - 1].seatIDs))
    ensures KeyOf(cs, j) == cs[j].random && KeyOf(cs, i) != KeyOf(cs, j)
  {
    KeptOne(cs, j - 1);
    if UnknownOutcome(cs[j - 1].error) { NameDecidesSeats(cs[j].seatIDs, cs[j - 1].seatIDs); }
    KeptHasLastName(cs, j - 1);
    KeyIsDrawn(cs, i);
  }

  lemma KeptHasLastName(cs: seq<Checkout>, i: nat)
    requires i < |cs|
    ensures KeyAfter(Kept(cs[..i]), cs[i].seatIDs, cs[i].random).seats == SeatsName(cs[i].seatIDs)
  {
  }

  /**
   * End to end: in any run of the purchase protocol, if two retries of one purchase reached the server as
   * attempts of one user, at most one of them has an order, and at most one was sent to be charged.
   */
  lemma RetriesBuyOnce(cs: seq<Checkout>, i: nat, j: nat, x: nat, y: nat, run: seq<P.State>, n: nat, o: OrderId, p: OrderId)
    requires Retries(cs, i, j) && i <= x <= j && i <= y <= j && KeyOf(cs, i) != ""
    requires P.IsRun(run) && n < |run| && o in run[n].attempts && p in run[n].attempts
    requires run[n].attempts[o].req.user == run[n].attempts[p].req.user
    requires run[n].attempts[o].req.key == KeyOf(cs, x) && run[n].attempts[p].req.key == KeyOf(cs, y)
    ensures o in run[n].orders && p in run[n].orders ==> o == p
    ensures run[n].attempts[o].charge != S.Unsent && run[n].attempts[p].charge != S.Unsent ==> o == p
  {
    RetriesShareTheKey(cs, i, x);
    RetriesShareTheKey(cs, i, y);
    PT.OneOrderPerKey(run, n, o, p);
  }
}

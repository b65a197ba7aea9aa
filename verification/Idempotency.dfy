/** Answering a repeated request from the first attempt (order-svc's idempotency.go). */
module Idempotency {
  import opened Domain
  import O = Sorting
  import S = Saga

  ghost predicate SameKey(row: OrderRow, r: Request) {
    row.user == r.user && r.key != "" && row.key == Some(r.key)
  }

  /** The partial unique index on (user_id, idempotency_key) already holds this request's pair. */
  ghost predicate KeyTaken(orders: map<OrderId, OrderRow>, r: Request) {
    exists p :: p in orders && SameKey(orders[p], r)
  }

  /** The stored ids come back from the database in canonical spelling; the request's are compared as typed. */
  predicate SameRequest(row: OrderRow, r: Request) {
    && Canonical(row.event) == r.words.event
    && row.amount == r.amount
    && multiset(Texts(row.seats)) == multiset(r.words.seats)
  }

  /** replay(): the answer to a request whose key belongs to order `o`. */
  function Replayed(o: OrderId, row: OrderRow, r: Request): S.Answer {
    if !SameRequest(row, r) then S.ErrKeyReused
    else match row.status
      case Confirmed => S.OrderPlaced(o)
      case Failed => S.FailureFor(row.failureReason)
      case Pending => S.ErrInProgress
  }

  // ---- sameRequest, as the code computes it ----

  /** Some fixed order on texts; slices.Sort needs no more than that it is total. */
  predicate TextLeq(a: Text, b: Text) {
    if a.id != b.id then a.id < b.id
    else if a.Canonical? || b.Canonical? then a.Canonical?
    else a.spelling <= b.spelling
  }

  lemma TextOrder()
    ensures O.TotalOrder(TextLeq)
  {
  }

  /** sameRequest: two fields compared, then sorted copies of the seat lists, element by element. */
  method CompareRequest(row: OrderRow, r: Request) returns (same: bool)
    ensures same <==> SameRequest(row, r)
  {
    if Canonical(row.event) != r.words.event || row.amount != r.amount {
      return false;
    }
    var a, b := O.Sort(Texts(row.seats), TextLeq), O.Sort(r.words.seats, TextLeq);
    TextOrder();
    O.SortDecidesBags(Texts(row.seats), r.words.seats, TextLeq);
    same := EqualTexts(a, b);
  }

  /** slices.Equal */
  method EqualTexts(a: seq<Text>, b: seq<Text>) returns (same: bool)
    ensures same <==> a == b
  {
    if |a| != |b| {
      return false;
    }
    var i := 0;
    while i < |a|
      invariant 0 <= i <= |a| == |b|
      invariant a[..i] == b[..i]
    {
      if a[i] != b[i] {
        return false;
      }
      i := i + 1;
    }
    assert a == a[..i] == b[..i] == b;
    return true;
  }

  // ---- when a repeated request is recognised ----

  ghost predicate CanonicallySpelled(r: Request) {
    r.words.event.Canonical? && forall i :: 0 <= i < |r.words.seats| ==> r.words.seats[i].Canonical?
  }

  /** The request asks for what the row records, seats in any order. */
  ghost predicate AsksFor(r: Request, row: OrderRow) {
    r.event == row.event && r.amount == row.amount && multiset(r.seats) == multiset(row.seats)
  }

  lemma {:induction false} TextsCount(ids: seq<nat>, id: nat)
    ensures multiset(Texts(ids))[Canonical(id)] == multiset(ids)[id]
  {
    if ids != [] {
      var front, last := ids[..|ids| - 1], ids[|ids| - 1];
      TextsCount(front, id);
      assert ids == front + [last];
      assert Texts(ids) == Texts(front) + [Canonical(last)];
    }
  }

  lemma TextsBags(xs: seq<nat>, ys: seq<nat>)
    ensures multiset(Texts(xs)) == multiset(Texts(ys)) <==> multiset(xs) == multiset(ys)
  {
    if multiset(Texts(xs)) == multiset(Texts(ys)) {
      forall id: nat ensures multiset(xs)[id] == multiset(ys)[id] {
        TextsCount(xs, id);
        TextsCount(ys, id);
      }
    }
    if multiset(xs) == multiset(ys) {
      forall t: Text ensures multiset(Texts(xs))[t] == multiset(Texts(ys))[t] {
        if t.Canonical? { TextsCount(xs, t.id); TextsCount(ys, t.id); } else { NoVariants(xs, t); NoVariants(ys, t); }
      }
    }
  }

  lemma NoVariants(ids: seq<nat>, t: Text)
    requires t.Variant?
    ensures t !in multiset(Texts(ids))
  {
  }

  /** A repeated request is recognised as the same one exactly when it also spells its ids canonically. */
  lemma RecognisedExactly(row: OrderRow, r: Request)
    requires S.ValidRequest(r)
    ensures SameRequest(row, r) <==> AsksFor(r, row) && CanonicallySpelled(r)
  {
    if SameRequest(row, r) {
      forall i | 0 <= i < |r.words.seats| ensures r.words.seats[i].Canonical? {
        assert r.words.seats[i] in multiset(r.words.seats);
        if r.words.seats[i].Variant? { NoVariants(row.seats, r.words.seats[i]); }
      }
    }
    if CanonicallySpelled(r) {
      assert r.words.seats == Texts(r.seats);
      TextsBags(row.seats, r.seats);
    }
  }
}

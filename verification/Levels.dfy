/**
  A side of the book as a list of price levels, each a first-in first-out queue, and what the queue
  operations on single levels mean for the flat priority list.
 */
module Levels {
  import opened Types
  import opened Sequences
  import opened Matching
  import opened MatchingLaws
  import opened EngineLaws

  ghost predicate PricesOrdered(forBuys: bool, prices: seq<int>) {
    forall i, j | 0 <= i < j < |prices| :: Before(forBuys, prices[i], prices[j])
  }

  ghost predicate PricedAt(prices: seq<int>, qs: seq<seq<OrderData>>) {
    && |prices| == |qs|
    && forall i | 0 <= i < |qs| :: forall o <- qs[i] :: o.price == prices[i]
  }

  /** The levels of one side, some of them possibly empty. */
  ghost predicate SideOk(forBuys: bool, prices: seq<int>, qs: seq<seq<OrderData>>) {
    && PricesOrdered(forBuys, prices)
    && PricedAt(prices, qs)
    && QueueOk(forBuys, Concat(qs))
  }

  lemma ShorterShape(
    forBuys: bool, prices: seq<int>, qs: seq<seq<OrderData>>, ps: seq<int>, rs: seq<seq<OrderData>>, i: nat)
    requires WithEntry(ps, prices, i) && WithEntry(rs, qs, i)
    requires PricesOrdered(forBuys, prices) && PricedAt(prices, qs)
    ensures PricesOrdered(forBuys, ps) && PricedAt(ps, rs)
  {
    forall j | 0 <= j < |rs| ensures forall o <- rs[j] :: o.price == ps[j] {
      var k := if j < i then j else j + 1;
      assert rs[j] == qs[k] && ps[j] == prices[k];
    }
  }

  lemma LongerShape(
    forBuys: bool, prices: seq<int>, qs: seq<seq<OrderData>>, ps: seq<int>, rs: seq<seq<OrderData>>, i: nat)
    requires WithEntry(prices, ps, i) && WithEntry(qs, rs, i) && rs[i] == []
    requires PricesOrdered(forBuys, prices) && PricedAt(prices, qs)
    requires forall j | 0 <= j < i :: Before(forBuys, prices[j], ps[i])
    requires i < |prices| ==> Before(forBuys, ps[i], prices[i])
    ensures PricesOrdered(forBuys, ps) && PricedAt(ps, rs)
  {
    forall j, k | 0 <= j < k < |ps| ensures Before(forBuys, ps[j], ps[k]) {
      assert j != i ==> ps[j] == prices[if j < i then j else j - 1];
      assert k != i ==> ps[k] == prices[if k < i then k else k - 1];
    }
    forall j | 0 <= j < |rs| ensures forall o <- rs[j] :: o.price == ps[j] {
      if j != i {
        var k := if j < i then j else j - 1;
        assert rs[j] == qs[k] && ps[j] == prices[k];
      }
    }
  }

  lemma NewLevelOk(
    forBuys: bool, prices: seq<int>, qs: seq<seq<OrderData>>, ps: seq<int>, rs: seq<seq<OrderData>>, i: nat)
    requires SideOk(forBuys, prices, qs)
    requires WithEntry(prices, ps, i) && WithEntry(qs, rs, i) && rs[i] == []
    requires forall j | 0 <= j < i :: Before(forBuys, prices[j], ps[i])
    requires i < |prices| ==> Before(forBuys, ps[i], prices[i])
    ensures SideOk(forBuys, ps, rs)
    ensures Concat(rs) == Concat(qs)
  {
    ConcatEmpty(qs, rs, i);
    LongerShape(forBuys, prices, qs, ps, rs, i);
  }

  lemma DropLevelOk(
    forBuys: bool, prices: seq<int>, qs: seq<seq<OrderData>>, ps: seq<int>, rs: seq<seq<OrderData>>, i: nat)
    requires SideOk(forBuys, prices, qs)
    requires WithEntry(ps, prices, i) && WithEntry(rs, qs, i) && qs[i] == []
    ensures SideOk(forBuys, ps, rs)
    ensures Concat(rs) == Concat(qs)
  {
    ConcatEmpty(rs, qs, i);
    ShorterShape(forBuys, prices, qs, ps, rs, i);
  }

  lemma AppendOk(forBuys: bool, prices: seq<int>, qs: seq<seq<OrderData>>, i: nat, o: OrderData)
    requires SideOk(forBuys, prices, qs)
    requires i < |qs| && prices[i] == o.price && IsBuy(o.side) == forBuys && o.id !in Ids(Concat(qs))
    ensures SideOk(forBuys, prices, qs[i := qs[i] + [o]])
    ensures Concat(qs[i := qs[i] + [o]]) == Insert(forBuys, Concat(qs), o)
    ensures Ids(Concat(qs[i := qs[i] + [o]])) == Ids(Concat(qs)) + {o.id}
  {
    AppendIsInsert(forBuys, prices, qs, i, o);
    InsertLaw(forBuys, Concat(qs), o);
  }

  lemma EraseOk(forBuys: bool, prices: seq<int>, qs: seq<seq<OrderData>>, i: nat, k: nat)
    requires SideOk(forBuys, prices, qs) && i < |qs| && k < |qs[i]|
    ensures SideOk(forBuys, prices, qs[i := qs[i][..k] + qs[i][k + 1..]])
    ensures Concat(qs[i := qs[i][..k] + qs[i][k + 1..]]) == Remove(Concat(qs), qs[i][k].id)
    ensures Ids(Concat(qs[i := qs[i][..k] + qs[i][k + 1..]])) == Ids(Concat(qs)) - {qs[i][k].id}
  {
    AtPosition(qs, i, k);
    EraseIsRemove(qs, i, k);
    RemoveLaw(forBuys, Concat(qs), qs[i][k].id);
  }

  /** Setting one order is setting one place of the flat list. */
  lemma SetAtPosition(qs: seq<seq<OrderData>>, i: nat, k: nat, o: OrderData)
    requires i < |qs| && k < |qs[i]|
    ensures Position(qs, i, k) < |Concat(qs)|
    ensures Concat(qs[i := qs[i][k := o]]) == Concat(qs)[Position(qs, i, k) := o]
  {
    hide Concat;
    ConcatAround(qs, i);
    ConcatUpdate(qs, i, qs[i][k := o]);
    SetMiddle(Concat(qs[..i]), qs[i], Concat(qs[i + 1..]), k, o);
  }

  lemma SetMiddle(a: seq<OrderData>, q: seq<OrderData>, b: seq<OrderData>, k: nat, o: OrderData)
    requires k < |q|
    ensures a + q[k := o] + b == (a + q + b)[|a| + k := o]
  {
  }

  lemma SetKeepsPlaces(q: seq<OrderData>, p: nat, o: OrderData)
    requires p < |q| && SamePlace(o, q[p])
    ensures SuffixOf(q[p := o], q) && SuffixOf(q, q[p := o])
  {
  }

  lemma ReplaceOk(forBuys: bool, prices: seq<int>, qs: seq<seq<OrderData>>, i: nat, k: nat, o: OrderData)
    requires SideOk(forBuys, prices, qs) && i < |qs| && k < |qs[i]| && SamePlace(o, qs[i][k])
    ensures SideOk(forBuys, prices, qs[i := qs[i][k := o]])
    ensures Ids(Concat(qs[i := qs[i][k := o]])) == Ids(Concat(qs))
  {
    hide Concat, Ids, SuffixOf, QueueOk;
    AtPosition(qs, i, k);
    SetAtPosition(qs, i, k, o);
    var q, r := Concat(qs), Concat(qs[i := qs[i][k := o]]);
    SetKeepsPlaces(q, Position(qs, i, k), o);
    SuffixOk(forBuys, r, q);
    SuffixIds(q, r);
  }

  /** All orders of the levels up to the i-th are at least as good as its price. */
  lemma UpToLevel(forBuys: bool, prices: seq<int>, qs: seq<seq<OrderData>>, i: nat)
    requires PricesOrdered(forBuys, prices) && PricedAt(prices, qs) && i < |qs|
    ensures forall o <- Concat(qs[..i]) + qs[i] :: !Before(forBuys, prices[i], o.price)
  {
    hide Concat;
    forall o <- Concat(qs[..i]) + qs[i] ensures !Before(forBuys, prices[i], o.price) {
      if o in Concat(qs[..i]) {
        var j := ConcatMember(qs[..i], o);
        assert o in qs[j] && Before(forBuys, prices[j], prices[i]);
      }
    }
  }

  /** All orders of the levels behind the i-th are worse than its price. */
  lemma BehindLevel(forBuys: bool, prices: seq<int>, qs: seq<seq<OrderData>>, i: nat)
    requires PricesOrdered(forBuys, prices) && PricedAt(prices, qs) && i < |qs|
    ensures forall o <- Concat(qs[i + 1..]) :: Before(forBuys, prices[i], o.price)
  {
    hide Concat;
    forall o <- Concat(qs[i + 1..]) ensures Before(forBuys, prices[i], o.price) {
      var j := ConcatMember(qs[i + 1..], o);
      assert o in qs[i + 1 + j] && Before(forBuys, prices[i], prices[i + 1 + j]);
    }
  }

  /** Appending to the queue at the order's own price is inserting it in priority order. */
  lemma AppendIsInsert(forBuys: bool, prices: seq<int>, qs: seq<seq<OrderData>>, i: nat, o: OrderData)
    requires PricesOrdered(forBuys, prices) && PricedAt(prices, qs)
    requires i < |qs| && prices[i] == o.price
    ensures Insert(forBuys, Concat(qs), o) == Concat(qs[i := qs[i] + [o]])
  {
    hide Concat, Insert, Before, PricesOrdered, PricedAt;
    var front, back := Concat(qs[..i]) + qs[i], Concat(qs[i + 1..]);
    ConcatAround(qs, i);
    ConcatUpdate(qs, i, qs[i] + [o]);
    UpToLevel(forBuys, prices, qs, i);
    BehindLevel(forBuys, prices, qs, i);
    InsertBetween(forBuys, front, back, o);
    assert Concat(qs[..i]) + (qs[i] + [o]) + back == front + [o] + back;
  }

  lemma InsertBetween(forBuys: bool, front: seq<OrderData>, back: seq<OrderData>, o: OrderData)
    requires forall x <- front :: !Before(forBuys, o.price, x.price)
    requires forall x <- back :: Before(forBuys, o.price, x.price)
    ensures Insert(forBuys, front + back, o) == front + [o] + back
  {
    hide Insert, Before;
    var q, p := front + back, |front|;
    assert forall k | 0 <= k < p :: q[k] == front[k] && front[k] in front;
    assert back != [] ==> q[p] == back[0] && back[0] in back;
    InsertAt(forBuys, q, o, p);
    assert q[..p] == front && q[p..] == back;
  }

  /** Where the k-th order of the i-th queue stands in the flat list. */
  function Position(qs: seq<seq<OrderData>>, i: nat, k: nat): nat
    requires i < |qs|
  {
    |Concat(qs[..i])| + k
  }

  lemma AtPosition(qs: seq<seq<OrderData>>, i: nat, k: nat)
    requires i < |qs| && k < |qs[i]|
    ensures Position(qs, i, k) < |Concat(qs)|
    ensures Concat(qs)[Position(qs, i, k)] == qs[i][k]
  {
    ConcatAround(qs, i);
  }

  lemma EraseIsRemove(qs: seq<seq<OrderData>>, i: nat, k: nat)
    requires UniqueIds(Concat(qs)) && i < |qs| && k < |qs[i]|
    ensures Remove(Concat(qs), qs[i][k].id) == Concat(qs[i := qs[i][..k] + qs[i][k + 1..]])
    ensures Find(Concat(qs), qs[i][k].id) == Some(qs[i][k])
  {
    AtPosition(qs, i, k);
    RemoveAt(Concat(qs), Position(qs, i, k));
    EraseAtPosition(qs, i, k);
  }

  lemma EraseAtPosition(qs: seq<seq<OrderData>>, i: nat, k: nat)
    requires i < |qs| && k < |qs[i]|
    ensures Position(qs, i, k) < |Concat(qs)|
    ensures Concat(qs)[..Position(qs, i, k)] + Concat(qs)[Position(qs, i, k) + 1..]
         == Concat(qs[i := qs[i][..k] + qs[i][k + 1..]])
  {
    ConcatAround(qs, i);
    ConcatUpdate(qs, i, qs[i][..k] + qs[i][k + 1..]);
    EraseMiddle(Concat(qs[..i]), qs[i], Concat(qs[i + 1..]), k);
  }

  lemma SetIsResize(qs: seq<seq<OrderData>>, i: nat, k: nat, n: int)
    requires UniqueIds(Concat(qs)) && i < |qs| && k < |qs[i]|
    ensures Resize(Concat(qs), qs[i][k].id, n)
         == Concat(qs[i := qs[i][k := qs[i][k].Modify(qs[i][k].price, n)]])
  {
    hide Concat, Resize, UniqueIds;
    AtPosition(qs, i, k);
    SetAtPosition(qs, i, k, qs[i][k].Modify(qs[i][k].price, n));
    ResizeAt(Concat(qs), Position(qs, i, k), n);
  }

  lemma EarlierLevelEarlierPosition(qs: seq<seq<OrderData>>, i: nat, k: nat, j: nat, m: nat)
    requires i < j < |qs| && k < |qs[i]|
    ensures Position(qs, i, k) < Position(qs, j, m)
  {
    ConcatAround(qs[..j], i);
    assert qs[..j][..i] == qs[..i];
  }

  /** No id is queued twice, within a level or across levels. */
  lemma QueuedOnce(qs: seq<seq<OrderData>>, i: nat, k: nat, j: nat, m: nat)
    requires UniqueIds(Concat(qs))
    requires i < |qs| && k < |qs[i]| && j < |qs| && m < |qs[j]|
    requires qs[i][k].id == qs[j][m].id
    ensures i == j && k == m
  {
    AtPosition(qs, i, k);
    AtPosition(qs, j, m);
    if i < j {
      EarlierLevelEarlierPosition(qs, i, k, j, m);
    } else if j < i {
      EarlierLevelEarlierPosition(qs, j, m, i, k);
    }
  }

  /** The front of the first queue is the front of the side. */
  lemma FrontOfSide(qs: seq<seq<OrderData>>)
    requires qs != [] && qs[0] != []
    ensures Concat(qs) != [] && Concat(qs)[0] == qs[0][0]
    ensures Concat(qs[0 := qs[0][1..]]) == Concat(qs)[1..]
    ensures forall o: OrderData :: Concat(qs[0 := [o] + qs[0][1..]]) == [o] + Concat(qs)[1..]
  {
    forall o: OrderData ensures Concat(qs[0 := [o] + qs[0][1..]]) == [o] + Concat(qs)[1..] {
      assert qs[0 := [o] + qs[0][1..]][1..] == qs[1..];
    }
    assert qs[0 := qs[0][1..]][1..] == qs[1..];
  }
}

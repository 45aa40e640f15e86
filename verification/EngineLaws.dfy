/** What submit, cancel and modify keep, and how they relate to each other. */
module EngineLaws {
  import opened Types
  import opened Matching
  import opened MatchingLaws

  // ---------- Sums and id sets under the queue operations ----------

  lemma {:induction false} SumsConcat(a: seq<OrderData>, b: seq<OrderData>)
    ensures Volume(a + b) == Volume(a) + Volume(b)
    ensures Notional(a + b) == Notional(a) + Notional(b)
    ensures Reserved(a + b) == Reserved(a) + Reserved(b)
  {
    if a == [] {
      assert a + b == b;
    } else {
      SumsConcat(a[1..], b);
      assert (a + b)[1..] == a[1..] + b;
    }
  }

  /** The effect on the sums of putting `o` into a queue, or of taking it out. */
  lemma SumsAround(a: seq<OrderData>, o: OrderData, b: seq<OrderData>)
    ensures Volume(a + [o] + b) == Volume(a + b) + o.remaining
    ensures Notional(a + [o] + b) == Notional(a + b) + o.price * o.remaining
    ensures Reserved(a + [o] + b) == Reserved(a + b) + Max(0, o.price * o.remaining)
  {
    SumsConcat(a, [o]);
    SumsConcat(a + [o], b);
    SumsConcat(a, b);
  }

  lemma IdsConcat(a: seq<OrderData>, b: seq<OrderData>)
    ensures Ids(a + b) == Ids(a) + Ids(b)
  {
    forall x ensures x in Ids(a + b) <==> x in Ids(a) + Ids(b) {
      assert forall o :: o in a + b <==> o in a || o in b;
    }
  }

  lemma IdsAround(a: seq<OrderData>, o: OrderData, b: seq<OrderData>)
    ensures Ids(a + [o] + b) == Ids(a + b) + {o.id}
  {
    IdsConcat(a, [o]);
    IdsConcat(a + [o], b);
    IdsConcat(a, b);
    assert Ids([o]) == {o.id};
  }

  lemma SplitUniqueIds(a: seq<OrderData>, o: OrderData, b: seq<OrderData>)
    requires UniqueIds(a + [o] + b)
    ensures UniqueIds(a + b) && o.id !in Ids(a + b)
  {
    var s := a + [o] + b;
    assert forall i | 0 <= i < |a + b| :: (a + b)[i] == s[if i < |a| then i else i + 1];
    assert s[|a|] == o;
  }

  lemma JoinUniqueIds(a: seq<OrderData>, o: OrderData, b: seq<OrderData>)
    requires UniqueIds(a + b) && o.id !in Ids(a + b)
    ensures UniqueIds(a + [o] + b)
  {
    var s := a + [o] + b;
    assert forall i | 0 <= i < |a + b| :: (a + b)[i].id in Ids(a + b);
    forall i, j | 0 <= i < j < |s| ensures s[i].id != s[j].id {
      assert i != |a| ==> s[i] == (a + b)[if i < |a| then i else i - 1];
      assert j != |a| ==> s[j] == (a + b)[if j < |a| then j else j - 1];
    }
  }

  lemma JoinSorted(forBuys: bool, a: seq<OrderData>, o: OrderData, b: seq<OrderData>)
    requires Sorted(forBuys, a + b)
    requires forall i | 0 <= i < |a| :: !Before(forBuys, o.price, a[i].price)
    requires forall i | 0 <= i < |b| :: Before(forBuys, o.price, b[i].price)
    ensures Sorted(forBuys, a + [o] + b)
  {
    var s := a + [o] + b;
    forall i, j | 0 <= i < j < |s| ensures !Before(forBuys, s[j].price, s[i].price) {
      assert i != |a| ==> s[i] == (a + b)[if i < |a| then i else i - 1];
      assert j != |a| ==> s[j] == (a + b)[if j < |a| then j else j - 1];
    }
  }

  lemma SplitSorted(forBuys: bool, a: seq<OrderData>, o: OrderData, b: seq<OrderData>)
    requires Sorted(forBuys, a + [o] + b)
    ensures Sorted(forBuys, a + b)
  {
    var s := a + [o] + b;
    assert forall i | 0 <= i < |a + b| :: (a + b)[i] == s[if i < |a| then i else i + 1];
  }

  lemma InsertLaw(forBuys: bool, q: seq<OrderData>, o: OrderData)
    requires QueueOk(forBuys, q) && IsBuy(o.side) == forBuys && o.id !in Ids(q)
    ensures QueueOk(forBuys, Insert(forBuys, q, o))
    ensures Ids(Insert(forBuys, q, o)) == Ids(q) + {o.id}
    ensures forall x :: x in Insert(forBuys, q, o) <==> x in q || x == o
  {
    hide Sorted, UniqueIds, Insert, Ids, Before;
    var p := InsertPlace(forBuys, q, o);
    var a, b := q[..p], q[p..];
    assert q == a + b;
    IdsAround(a, o, b);
    JoinUniqueIds(a, o, b);
    JoinSorted(forBuys, a, o, b);
    assert forall x :: x in a + [o] + b <==> x in a + b || x == o;
  }

  lemma InsertSums(forBuys: bool, q: seq<OrderData>, o: OrderData)
    requires Sorted(forBuys, q)
    ensures Volume(Insert(forBuys, q, o)) == Volume(q) + o.remaining
    ensures Notional(Insert(forBuys, q, o)) == Notional(q) + o.price * o.remaining
    ensures Reserved(Insert(forBuys, q, o)) == Reserved(q) + Max(0, o.price * o.remaining)
  {
    var p := InsertPlace(forBuys, q, o);
    assert q == q[..p] + q[p..];
    SumsAround(q[..p], o, q[p..]);
  }

  /** The one place where an id is queued, and what removing it leaves. */
  lemma Around(q: seq<OrderData>, id: nat) returns (a: seq<OrderData>, o: OrderData, b: seq<OrderData>)
    requires UniqueIds(q) && id in Ids(q)
    ensures q == a + [o] + b && o.id == id
    ensures Find(q, id) == Some(o)
    ensures Remove(q, id) == a + b
    ensures forall n :: Resize(q, id, n) == a + [o.Modify(o.price, n)] + b
  {
    var p := PositionOf(q, id);
    a, o, b := q[..p], q[p], q[p + 1..];
    RemoveAt(q, p);
    forall n ensures Resize(q, id, n) == a + [o.Modify(o.price, n)] + b {
      ResizeAt(q, p, n);
    }
  }

  lemma RemoveLaw(forBuys: bool, q: seq<OrderData>, id: nat)
    requires QueueOk(forBuys, q) && id in Ids(q)
    ensures QueueOk(forBuys, Remove(q, id))
    ensures Ids(Remove(q, id)) == Ids(q) - {id}
    ensures forall x <- Remove(q, id) :: x in q
  {
    hide Sorted, UniqueIds, Remove, Ids, Find, Resize;
    var a, o, b := Around(q, id);
    SplitUniqueIds(a, o, b);
    SplitSorted(forBuys, a, o, b);
    IdsAround(a, o, b);
    assert forall x <- a + b :: x in a + [o] + b;
  }

  lemma RemoveSums(q: seq<OrderData>, id: nat)
    requires UniqueIds(q) && id in Ids(q)
    ensures Find(q, id).Some?
    ensures Volume(Remove(q, id)) == Volume(q) - Find(q, id).value.remaining
    ensures Notional(Remove(q, id)) == Notional(q) - Find(q, id).value.price * Find(q, id).value.remaining
    ensures Reserved(Remove(q, id)) == Reserved(q) - Max(0, Find(q, id).value.price * Find(q, id).value.remaining)
  {
    var a, o, b := Around(q, id);
    SumsAround(a, o, b);
  }

  ghost predicate SameButFor(q: seq<OrderData>, r: seq<OrderData>, id: nat, newQuantity: int) {
    && |q| == |r|
    && forall i | 0 <= i < |q| ::
         r[i] == if q[i].id == id then q[i].(quantity := newQuantity, remaining := newQuantity) else q[i]
  }

  lemma ResizeLaw(forBuys: bool, q: seq<OrderData>, id: nat, n: int)
    requires QueueOk(forBuys, q) && id in Ids(q)
    ensures QueueOk(forBuys, Resize(q, id, n))
    ensures Ids(Resize(q, id, n)) == Ids(q)
    ensures SameButFor(q, Resize(q, id, n), id, n)
  {
    var a, o, b := Around(q, id);
    var o' := o.Modify(o.price, n);
    var r := a + [o'] + b;
    SplitUniqueIds(a, o, b);
    IdsAround(a, o, b);
    IdsAround(a, o', b);
    JoinUniqueIds(a, o', b);
    forall i | 0 <= i < |q|
      ensures r[i] == if q[i].id == id then q[i].(quantity := n, remaining := n) else q[i]
    {
      if i != |a| {
        assert q[i] == (a + b)[if i < |a| then i else i - 1];
        assert q[i].id in Ids(a + b);
      }
    }
  }

  lemma ResizeSums(q: seq<OrderData>, id: nat, n: int)
    requires UniqueIds(q) && id in Ids(q)
    ensures Find(q, id).Some?
    ensures Volume(Resize(q, id, n)) == Volume(q) + n - Find(q, id).value.remaining
    ensures Notional(Resize(q, id, n))
         == Notional(q) + Find(q, id).value.price * n - Find(q, id).value.price * Find(q, id).value.remaining
    ensures Reserved(Resize(q, id, n))
         == Reserved(q) + Max(0, Find(q, id).value.price * n)
            - Max(0, Find(q, id).value.price * Find(q, id).value.remaining)
  {
    var a, o, b := Around(q, id);
    SumsAround(a, o, b);
    SumsAround(a, o.Modify(o.price, n), b);
  }

  /** The same order, up to how much of it is open. */
  predicate SamePlace(o: OrderData, r: OrderData) {
    o.id == r.id && o.symbol == r.symbol && o.side == r.side && o.price == r.price
  }

  /** `left` is what remains of `q` when orders are taken from its front. */
  ghost predicate SuffixOf(left: seq<OrderData>, q: seq<OrderData>) {
    && |left| <= |q|
    && forall i | 0 <= i < |left| :: SamePlace(left[i], q[|q| - |left| + i])
  }

  lemma MatchLeavesSuffix(incoming: OrderData, resting: seq<OrderData>, nextId: nat, clock: Clock, tick: nat)
    ensures SuffixOf(Match(incoming, resting, nextId, clock, tick).resting, resting)
  {
    hide Match, TradesInPriorityOrder;
    var m := Match(incoming, resting, nextId, clock, tick);
    MatchTakesPriorityPrefix(incoming, resting, nextId, clock, tick);
    PartialLeavesSuffix(resting, m.trades, m.resting);
  }

  lemma PartialLeavesSuffix(resting: seq<OrderData>, trades: seq<Trade>, left: seq<OrderData>)
    requires |trades| <= |resting| && OnlyLastPartial(resting, trades, left)
    ensures SuffixOf(left, resting)
  {
    var n := |trades|;
    if left != resting[n..] {
      forall i | 0 <= i < |left| ensures SamePlace(left[i], resting[n - 1 + i]) {
        if i > 0 {
          assert left[i] == resting[n..][i - 1];
        }
      }
    }
  }

  lemma SuffixIds(left: seq<OrderData>, q: seq<OrderData>)
    requires SuffixOf(left, q)
    ensures Ids(left) <= Ids(q)
    ensures forall x <- left :: exists y <- q :: SamePlace(x, y)
  {
    forall x <- left ensures exists y <- q :: SamePlace(x, y) {
      var i :| 0 <= i < |left| && left[i] == x;
      assert SamePlace(x, q[|q| - |left| + i]);
    }
  }

  lemma SuffixOk(forBuys: bool, left: seq<OrderData>, q: seq<OrderData>)
    requires SuffixOf(left, q) && QueueOk(forBuys, q)
    ensures QueueOk(forBuys, left) && Ids(left) <= Ids(q)
    ensures forall x <- left :: exists y <- q :: SamePlace(x, y)
  {
    var d := |q| - |left|;
    SuffixIds(left, q);
    forall i, j | 0 <= i < j < |left|
      ensures left[i].id != left[j].id && !Before(forBuys, left[j].price, left[i].price)
    {
      assert SamePlace(left[i], q[d + i]) && SamePlace(left[j], q[d + j]);
    }
  }

  // ---------- Invariants of one engine ----------

  lemma SubmitKeepsWellFormed(e: Engine, o: OrderData, clock: Clock, tick: nat)
    requires WellFormed(e) && o.id !in e.RestingIds()
    ensures var e' := Submit(e, o, clock, tick).0;
            && WellFormed(e')
            && e'.RestingIds() <= e.RestingIds() + {o.id}
            && e'.symbol == e.symbol
  {
    hide Match, Insert, Sorted, UniqueIds, Ids, SuffixOf, QueueOk;
    var own := IsBuy(o.side);
    MatchLeavesSuffix(o, e.Queue(!own), e.nextTradeId, clock, tick);
    var m := Match(o, e.Queue(!own), e.nextTradeId, clock, tick);
    SuffixOk(!own, m.resting, e.Queue(!own));
    MatchConservesQuantity(o, e.Queue(!own), e.nextTradeId, clock, tick);
    InsertLaw(own, e.Queue(own), m.incoming);
  }

  /** A remainder rests only where nothing crosses it, so the book is never crossed. */
  lemma {:induction false} SubmitKeepsUncrossed(e: Engine, o: OrderData, clock: Clock, tick: nat)
    requires WellFormed(e) && Uncrossed(e) && o.id !in e.RestingIds()
    ensures Uncrossed(Submit(e, o, clock, tick).0)
  {
    hide Match, Insert, Sorted, UniqueIds, Ids, SuffixOf;
    var own := IsBuy(o.side);
    var opp := e.Queue(!own);
    var m := Match(o, opp, e.nextTradeId, clock, tick);
    MatchLeavesSuffix(o, opp, e.nextTradeId, clock, tick);
    SuffixOk(!own, m.resting, opp);
    RemainderCrossesNothing(o, opp, e.nextTradeId, clock, tick);
    MatchConservesQuantity(o, opp, e.nextTradeId, clock, tick);
    InsertLaw(own, e.Queue(own), m.incoming);
    var e' := Submit(e, o, clock, tick).0;
    forall b <- e'.buys, s <- e'.sells ensures b.price < s.price {
      var x := if own then s else b;
      var y :| y in opp && SamePlace(x, y);
    }
  }

  lemma NothingCrosses(incoming: OrderData, q: seq<OrderData>)
    requires Sorted(!IsBuy(incoming.side), q)
    requires q == [] || !PricesCross(incoming, q[0].price)
    ensures forall x <- q :: !PricesCross(incoming, x.price)
  {
    forall i | 0 <= i < |q| ensures !PricesCross(incoming, q[i].price) {
      assert i > 0 ==> !Before(!IsBuy(incoming.side), q[i].price, q[0].price);
    }
  }

  lemma RemainderCrossesNothing(
    incoming: OrderData, resting: seq<OrderData>, nextId: nat, clock: Clock, tick: nat)
    requires QueueOk(!IsBuy(incoming.side), resting)
    ensures var m := Match(incoming, resting, nextId, clock, tick);
            m.incoming.remaining != 0 ==> forall x <- m.resting :: !PricesCross(incoming, x.price)
  {
    var m := Match(incoming, resting, nextId, clock, tick);
    MatchStopsOnlyWhenDone(incoming, resting, nextId, clock, tick);
    MatchLeavesSuffix(incoming, resting, nextId, clock, tick);
    SuffixOk(!IsBuy(incoming.side), m.resting, resting);
    if m.incoming.remaining != 0 {
      NothingCrosses(incoming, m.resting);
    }
  }

  lemma CancelLaw(e: Engine, id: nat)
    requires WellFormed(e)
    ensures WellFormed(Cancel(e, id))
    ensures Cancel(e, id).RestingIds() == e.RestingIds() - {id}
    ensures Uncrossed(e) ==> Uncrossed(Cancel(e, id))
    ensures Cancel(e, id).symbol == e.symbol
    ensures FindOrder(e, id).Some? <==> id in e.RestingIds()
    ensures id !in e.RestingIds() ==> Cancel(e, id) == e
  {
    FindIsScan(e.buys, id);
    FindIsScan(e.sells, id);
    if id in Ids(e.buys) { RemoveLaw(true, e.buys, id); } else { AbsentUnchanged(e.buys, id); }
    if id in Ids(e.sells) { RemoveLaw(false, e.sells, id); } else { AbsentUnchanged(e.sells, id); }
  }

  /** The order found is the one queued, on the side its own side byte names. */
  lemma FindOrderLaw(e: Engine, id: nat)
    requires WellFormed(e)
    ensures FindOrder(e, id).Some? <==> id in e.RestingIds()
    ensures FindOrder(e, id).Some? ==>
            var o := FindOrder(e, id).value;
            && o.id == id
            && o in e.Queue(IsBuy(o.side))
            && Find(e.Queue(IsBuy(o.side)), id) == Some(o)
            && id !in Ids(e.Queue(!IsBuy(o.side)))
  {
    FindIsScan(e.buys, id);
    FindIsScan(e.sells, id);
  }

  lemma ModifyKeepsInvariants(e: Engine, id: nat, newPrice: int, newQuantity: int, clock: Clock)
    requires WellFormed(e)
    ensures var (e', result) := Modify(e, id, newPrice, newQuantity, clock);
            && WellFormed(e')
            && e'.RestingIds() <= e.RestingIds()
            && e'.symbol == e.symbol
            && (Uncrossed(e) ==> Uncrossed(e'))
            && (result.Some? <==> id in e.RestingIds())
  {
    CancelLaw(e, id);
    if id in e.RestingIds() {
      FindOrderLaw(e, id);
      var current := FindOrder(e, id).value;
      if LosesPriority(current, newPrice, newQuantity) {
        var replacement := NewOrder(id, current.symbol, current.side, newPrice, newQuantity, clock(0));
        SubmitKeepsWellFormed(Cancel(e, id), replacement, clock, 1);
        if Uncrossed(e) {
          SubmitKeepsUncrossed(Cancel(e, id), replacement, clock, 1);
        }
      } else {
        ResizeInPlace(e, id, newPrice, newQuantity, clock);
      }
    }
  }

  lemma AbsentSame(q: seq<OrderData>, id: nat, newQuantity: int)
    requires id !in Ids(q)
    ensures SameButFor(q, Resize(q, id, newQuantity), id, newQuantity)
  {
    AbsentUnchanged(q, id);
    assert forall i | 0 <= i < |q| :: q[i].id in Ids(q);
  }

  lemma ResizeOrderLaw(e: Engine, id: nat, newQuantity: int)
    requires WellFormed(e) && id in e.RestingIds()
    ensures var e' := ResizeOrder(e, id, newQuantity);
            && WellFormed(e')
            && e'.RestingIds() == e.RestingIds()
            && SameButFor(e.buys, e'.buys, id, newQuantity)
            && SameButFor(e.sells, e'.sells, id, newQuantity)
  {
    hide Resize, QueueOk, Ids, SameButFor;
    var own := id in Ids(e.buys);
    ResizeLaw(own, e.Queue(own), id, newQuantity);
    AbsentUnchanged(e.Queue(!own), id);
    AbsentSame(e.Queue(!own), id, newQuantity);
  }

  lemma SameButForKeepsUncrossed(e: Engine, e': Engine, id: nat, newQuantity: int)
    requires SameButFor(e.buys, e'.buys, id, newQuantity) && SameButFor(e.sells, e'.sells, id, newQuantity)
    requires Uncrossed(e)
    ensures Uncrossed(e')
  {
    forall b <- e'.buys, s <- e'.sells ensures b.price < s.price {
      var i :| 0 <= i < |e'.buys| && e'.buys[i] == b;
      var j :| 0 <= j < |e'.sells| && e'.sells[j] == s;
      assert e.buys[i].price < e.sells[j].price;
    }
  }

  /** A pure decrease: no trade, no order moves, and only that order's quantity changes. */
  lemma ResizeInPlace(e: Engine, id: nat, newPrice: int, newQuantity: int, clock: Clock)
    requires WellFormed(e) && FindOrder(e, id).Some?
    requires newPrice == FindOrder(e, id).value.price && newQuantity <= FindOrder(e, id).value.remaining
    ensures var (e', result) := Modify(e, id, newPrice, newQuantity, clock);
            && e' == ResizeOrder(e, id, newQuantity)
            && WellFormed(e')
            && (Uncrossed(e) ==> Uncrossed(e'))
            && e'.RestingIds() == e.RestingIds()
            && e'.nextTradeId == e.nextTradeId
            && result == Some([])
            && SameButFor(e.buys, e'.buys, id, newQuantity)
            && SameButFor(e.sells, e'.sells, id, newQuantity)
  {
    FindOrderLaw(e, id);
    ResizeOrderLaw(e, id, newQuantity);
    if Uncrossed(e) {
      SameButForKeepsUncrossed(e, ResizeOrder(e, id, newQuantity), id, newQuantity);
    }
  }

  /**
    Every trade of a submission is between the submitted order, on its side, and one resting opposite;
    the k-th carries the k-th next id and the k-th reading of the clock.
   */
  lemma TradeParties(e: Engine, o: OrderData, clock: Clock, tick: nat)
    ensures var trades := Submit(e, o, clock, tick).1;
            forall k | 0 <= k < |trades| ::
              var t := trades[k];
              && t.id == e.nextTradeId + k && t.timestamp == clock(tick + k) && t.symbol == o.symbol
              && (if o.side == 0 then t.buyId == o.id && t.sellId in Ids(e.sells)
                  else t.sellId == o.id && t.buyId in Ids(e.buys))
  {
    hide Ids, Match;
    var opposite := e.Queue(!IsBuy(o.side));
    MatchTakesPriorityPrefix(o, opposite, e.nextTradeId, clock, tick);
    forall k: nat | k < |opposite| ensures opposite[k].id in Ids(opposite) {
      QueuedId(opposite, k);
    }
  }

  /** The trades of a modify are stamped after the reading that stamps the renewed order. */
  lemma ModifyTimes(e: Engine, id: nat, newPrice: int, newQuantity: int, clock: Clock)
    ensures var result := Modify(e, id, newPrice, newQuantity, clock).1;
            result.Some? ==>
              forall k | 0 <= k < |result.value| ::
                && result.value[k].timestamp == clock(1 + k)
                && result.value[k].id == e.nextTradeId + k
  {
    hide Submit, FindOrder;
    var found := FindOrder(e, id);
    if found.Some? {
      var o := found.value;
      TradeParties(Cancel(e, id), NewOrder(id, o.symbol, o.side, newPrice, newQuantity, clock(0)), clock, 1);
    }
  }

  lemma QueuedId(q: seq<OrderData>, k: nat)
    requires k < |q|
    ensures q[k].id in Ids(q)
  {
  }

  /** The book is uncrossed exactly when one side is empty or the best bid is below the best ask. */
  lemma UncrossedIff(e: Engine)
    requires WellFormed(e)
    ensures Uncrossed(e) <==> e.buys == [] || e.sells == [] || e.buys[0].price < e.sells[0].price
  {
  }

  // ---------- Laws relating operations ----------

  /** The clock of whoever starts reading it one reading later. */
  function Later(clock: Clock): Clock {
    (n: nat) => clock(n + 1)
  }

  /** A match depends on the readings it makes, not on where in the request they are made. */
  lemma {:induction false} MatchOneLater(
    incoming: OrderData, resting: seq<OrderData>, nextId: nat, clock: Clock, tick: nat)
    ensures Match(incoming, resting, nextId, clock, tick + 1) == Match(incoming, resting, nextId, Later(clock), tick)
    decreases |resting|
  {
    if !(incoming.remaining == 0 || resting == [] || !PricesCross(incoming, resting[0].price)) {
      var fill := Min(incoming.remaining, resting[0].remaining);
      if resting[0].ApplyFill(fill).remaining == 0 {
        MatchOneLater(incoming.ApplyFill(fill), resting[1..], nextId + 1, clock, tick + 1);
      }
    }
  }

  lemma SubmitOneLater(e: Engine, o: OrderData, clock: Clock, tick: nat)
    ensures Submit(e, o, clock, tick + 1) == Submit(e, o, Later(clock), tick)
  {
    hide Match, Insert, Later;
    MatchOneLater(o, e.Queue(!IsBuy(o.side)), e.nextTradeId, clock, tick);
  }

  /**
    Any other modify is what a client gets who cancels the order and then sends it anew under the same
    id, stamped with the first reading: two requests of their own, the second reading the clock afresh.
   */
  lemma ModifyIsCancelThenSubmit(e: Engine, id: nat, newPrice: int, newQuantity: int, clock: Clock)
    requires WellFormed(e) && FindOrder(e, id).Some?
    requires newPrice != FindOrder(e, id).value.price || newQuantity > FindOrder(e, id).value.remaining
    ensures var current := FindOrder(e, id).value;
            var renewed := NewOrder(id, current.symbol, current.side, newPrice, newQuantity, clock(0));
            var (e', trades) := Submit(Cancel(e, id), renewed, Later(clock), 0);
            && id !in Cancel(e, id).RestingIds()
            && Modify(e, id, newPrice, newQuantity, clock) == (e', Some(trades))
  {
    hide WellFormed, FindOrder, Cancel, Submit, Later;
    var current := FindOrder(e, id).value;
    var renewed := NewOrder(id, current.symbol, current.side, newPrice, newQuantity, clock(0));
    CancelLaw(e, id);
    SubmitOneLater(Cancel(e, id), renewed, clock, 0);
  }

  /** Only a price change can trade: in an uncrossed book the old price still crosses nothing. */
  lemma SamePriceNeverTrades(e: Engine, id: nat, newQuantity: int, clock: Clock)
    requires WellFormed(e) && Uncrossed(e) && FindOrder(e, id).Some?
    ensures Modify(e, id, FindOrder(e, id).value.price, newQuantity, clock).1 == Some([])
  {
    FindOrderLaw(e, id);
    var o := FindOrder(e, id).value;
    var opposite := e.Queue(!IsBuy(o.side));
    AbsentUnchanged(opposite, id);
    if opposite != [] {
      assert opposite[0] in opposite;
    }
  }

  lemma InsertThenRemove(forBuys: bool, q: seq<OrderData>, o: OrderData)
    requires QueueOk(forBuys, q) && IsBuy(o.side) == forBuys && o.id !in Ids(q)
    ensures Remove(Insert(forBuys, q, o), o.id) == q
    ensures Find(Insert(forBuys, q, o), o.id) == Some(o)
  {
    hide Insert, Remove, Find, Ids;
    var p := InsertPlace(forBuys, q, o);
    InsertLaw(forBuys, q, o);
    var r := Insert(forBuys, q, o);
    RemoveAt(r, p);
    assert r[..p] + r[p + 1..] == q[..p] + q[p..] == q;
  }

  /** An order that crosses nothing is only put in its place. */
  lemma SubmitRests(e: Engine, o: OrderData, clock: Clock, tick: nat)
    requires o.remaining != 0
    requires forall x <- e.Queue(!IsBuy(o.side)) :: !PricesCross(o, x.price)
    ensures var own := IsBuy(o.side);
            Submit(e, o, clock, tick) == (e.WithQueue(own, Insert(own, e.Queue(own), o)), [])
  {
    hide Insert;
  }

  /** Resting an order that crosses nothing and cancelling it again gives back the very same book. */
  lemma SubmitThenCancelRestores(e: Engine, o: OrderData, clock: Clock, tick: nat)
    requires WellFormed(e) && o.id !in e.RestingIds() && o.remaining != 0
    requires forall x <- e.Queue(!IsBuy(o.side)) :: !PricesCross(o, x.price)
    ensures var (e', trades) := Submit(e, o, clock, tick);
            trades == [] && FindOrder(e', o.id) == Some(o) && Cancel(e', o.id) == e
  {
    hide Insert, Remove, Find, Ids, QueueOk;
    var own := IsBuy(o.side);
    InsertThenRemove(own, e.Queue(own), o);
    AbsentUnchanged(e.Queue(!own), o.id);
    SubmitRests(e, o, clock, tick);
  }

  lemma ResizeKeepsPositiveIff(q: seq<OrderData>, id: nat, newQuantity: int)
    requires UniqueIds(q) && Positive(q) && id in Ids(q)
    ensures Positive(Resize(q, id, newQuantity)) <==> newQuantity > 0
  {
    var a, o, b := Around(q, id);
    assert forall x :: x in a + [o.Modify(o.price, newQuantity)] + b
                       <==> x in a || x == o.Modify(o.price, newQuantity) || x in b;
    assert forall x :: x in q <==> x in a || x == o || x in b;
  }

  lemma CancelKeepsPositive(e: Engine, id: nat)
    requires WellFormed(e) && Positive(e.buys) && Positive(e.sells) && id in e.RestingIds()
    ensures Positive(Cancel(e, id).buys) && Positive(Cancel(e, id).sells)
  {
    var own := id in Ids(e.buys);
    RemoveLaw(own, e.Queue(own), id);
    AbsentUnchanged(e.Queue(!own), id);
  }

  lemma SubmitKeepsPositive(e: Engine, o: OrderData, clock: Clock, tick: nat)
    requires WellFormed(e) && Positive(e.buys) && Positive(e.sells)
    requires o.id !in e.RestingIds() && o.remaining >= 0
    ensures var (e', trades) := Submit(e, o, clock, tick);
            Positive(e'.buys) && Positive(e'.sells) && forall t <- trades :: t.quantity > 0
  {
    var own := IsBuy(o.side);
    MatchKeepsPositive(o, e.Queue(!own), e.nextTradeId, clock, tick);
    MatchConservesQuantity(o, e.Queue(!own), e.nextTradeId, clock, tick);
    var m := Match(o, e.Queue(!own), e.nextTradeId, clock, tick);
    InsertLaw(own, e.Queue(own), m.incoming);
  }

  /** The order would trade at once. */
  predicate Meets(e: Engine, o: OrderData) {
    var opposite := e.Queue(!IsBuy(o.side));
    opposite != [] && PricesCross(o, opposite[0].price)
  }

  /** A negative quantity is taken up whole by the first order it meets, and rests if it meets none. */
  lemma SubmitKeepsPositiveIff(e: Engine, o: OrderData, clock: Clock, tick: nat)
    requires WellFormed(e) && Positive(e.buys) && Positive(e.sells) && o.id !in e.RestingIds()
    ensures var e' := Submit(e, o, clock, tick).0;
            Positive(e'.buys) && Positive(e'.sells) <==> o.remaining >= 0 || Meets(e, o)
  {
    var own := IsBuy(o.side);
    var opposite := e.Queue(!own);
    if o.remaining >= 0 {
      SubmitKeepsPositive(e, o, clock, tick);
    } else if Meets(e, o) {
      var m := Match(o, opposite, e.nextTradeId, clock, tick);
      assert opposite[0] in opposite;
      assert m.resting == [opposite[0].ApplyFill(o.remaining)] + opposite[1..];
      assert forall x <- opposite[1..] :: x in opposite;
    } else {
      InsertLaw(own, e.Queue(own), o);
      assert o in Insert(own, e.Queue(own), o);
    }
  }

  /**
    The open quantities stay positive exactly when a modify asks for a positive one, or for none at a
    new price, or for a negative one at a price that trades at once.
   */
  lemma ModifyKeepsPositiveIff(e: Engine, id: nat, newPrice: int, newQuantity: int, clock: Clock)
    requires WellFormed(e) && Positive(e.buys) && Positive(e.sells) && FindOrder(e, id).Some?
    ensures var e' := Modify(e, id, newPrice, newQuantity, clock).0;
            var current := FindOrder(e, id).value;
            && Positive(e'.buys) && Positive(e'.sells)
            <==> || newQuantity > 0
                 || (newPrice != current.price && (newQuantity == 0 || Meets(e, current.Modify(newPrice, newQuantity))))
  {
    FindOrderLaw(e, id);
    var current := FindOrder(e, id).value;
    var own := IsBuy(current.side);
    if LosesPriority(current, newPrice, newQuantity) {
      CancelLaw(e, id);
      CancelKeepsPositive(e, id);
      AbsentUnchanged(e.Queue(!own), id);
      var replacement := NewOrder(id, current.symbol, current.side, newPrice, newQuantity, clock(0));
      SubmitKeepsPositiveIff(Cancel(e, id), replacement, clock, 1);
    } else {
      ResizeKeepsPositiveIff(e.Queue(own), id, newQuantity);
      AbsentUnchanged(e.Queue(!own), id);
    }
  }
}

/**
  The order book as mutable objects: orders in queues, queues in price levels, levels in two sides,
  and an index from order id to the queued order itself, which stands for the C++ list iterator.
 */
module Book {
  import opened Types
  import opened Sequences
  import opened Matching
  import opened MatchingLaws
  import opened EngineLaws
  import opened Levels

  class Order {
    const id: nat
    const symbol: Symbol
    const side: Side
    var price: int
    var quantity: int
    var remaining: int
    const timestamp: int

    constructor (o: OrderData)
      ensures Data() == o
    {
      id, symbol, side := o.id, o.symbol, o.side;
      price, quantity, remaining, timestamp := o.price, o.quantity, o.remaining, o.timestamp;
    }

    function Data(): OrderData
      reads this
    {
      OrderData(id, symbol, side, price, quantity, remaining, timestamp)
    }

    predicate IsFullyFilled()
      reads this
    {
      remaining == 0
    }

    method ApplyFill(fill: int)
      requires fill <= remaining
      modifies this
      ensures Data() == old(Data()).ApplyFill(fill)
    {
      remaining := remaining - fill;
    }

    method Modify(newPrice: int, newQuantity: int)
      modifies this
      ensures Data() == old(Data()).Modify(newPrice, newQuantity)
    {
      price, quantity, remaining := newPrice, newQuantity, newQuantity;
    }
  }

  /** All resting orders at one price, oldest first. */
  class PriceLevel {
    const price: int
    var orders: seq<Order>

    constructor (price: int)
      ensures this.price == price && orders == []
    {
      this.price := price;
      orders := [];
    }

    ghost function Values(): seq<OrderData>
      reads this, orders
    {
      seq(|orders|, i requires 0 <= i < |orders| reads this, orders => orders[i].Data())
    }

    method AddOrder(o: OrderData) returns (node: Order)
      modifies this
      ensures fresh(node) && node.Data() == o
      ensures orders == old(orders) + [node]
    {
      node := new Order(o);
      orders := orders + [node];
    }

    method RemoveOrder(node: Order, ghost k: nat)
      requires k < |orders| && orders[k] == node
      requires forall i | 0 <= i < |orders| && i != k :: orders[i] != node
      modifies this
      ensures orders == old(orders)[..k] + old(orders)[k + 1..]
    {
      var i :| 0 <= i < |orders| && orders[i] == node;
      orders := orders[..i] + orders[i + 1..];
    }

    /** Display only: the sum of the open quantities. */
    method TotalQuantity() returns (total: int)
      ensures total == Volume(Values())
    {
      total := 0;
      for i := 0 to |orders|
        invariant total == Volume(Values()[..i])
      {
        SumsConcat(Values()[..i], [Values()[i]]);
        assert Values()[..i + 1] == Values()[..i] + [Values()[i]];
        total := total + orders[i].remaining;
      }
      assert Values()[..|orders|] == Values();
    }
  }

  /** An entry of the id index: where an order rests, and the queued object itself. */
  datatype Location = Location(side: Side, price: int, node: Order)

  /** One side: the C++ std::map from price to level, with the comparator given by `forBuys`. */
  class BookSide {
    const forBuys: bool
    var levels: seq<PriceLevel>
    ghost var Repr: set<object>

    constructor (forBuys: bool)
      ensures this.forBuys == forBuys && levels == []
      ensures Valid() && fresh(Repr) && Flat() == []
    {
      this.forBuys := forBuys;
      levels := [];
      Repr := {this};
    }

    ghost predicate Owned()
      reads this, Repr
    {
      && this in Repr
      && (forall l <- levels :: l in Repr)
      && (forall l <- levels, o <- l.orders :: o in Repr)
    }

    ghost function Queues(): seq<seq<OrderData>>
      requires Owned()
      reads this, Repr
    {
      seq(|levels|, i requires 0 <= i < |levels| && Owned() reads this, Repr => levels[i].Values())
    }

    ghost function Prices(): seq<int>
      reads this
    {
      seq(|levels|, i requires 0 <= i < |levels| reads this => levels[i].price)
    }

    /** The side as one list in priority order. */
    ghost function Flat(): seq<OrderData>
      requires Owned()
      reads this, Repr
    {
      Concat(Queues())
    }

    ghost function Rows(): seq<seq<Order>>
      requires Owned()
      reads this, Repr
    {
      seq(|levels|, i requires 0 <= i < |levels| && Owned() reads this, Repr => levels[i].orders)
    }

    /** The queued order objects. */
    ghost function Nodes(): (nodes: set<Order>)
      requires Owned()
      reads this, Repr
      ensures forall o <- nodes :: o in Repr
    {
      Members(Rows())
    }

    /** `catalog` lists exactly the queued orders, each with its real side, price and node. */
    ghost predicate Catalogued(catalog: map<nat, Location>)
      requires Owned()
      reads this, Repr
    {
      && catalog.Keys == Ids(Flat())
      && forall id <- catalog.Keys ::
           var loc := catalog[id];
           && loc.node in Nodes()
           && loc.node.id == id
           && loc.node.side == loc.side
           && loc.node.price == loc.price
           && IsBuy(loc.side) == forBuys
    }

    /** What holds even while a level is empty for a moment: sorted, priced, well-formed queues. */
    ghost predicate Sound()
      reads this, Repr
      ensures Sound() ==> Owned()
    {
      && Owned()
      && SideOk(forBuys, Prices(), Queues())
    }

    ghost predicate NonEmptyFrom(i: nat)
      requires Owned()
      reads this, Repr
    {
      forall j | i <= j < |levels| :: levels[j].orders != []
    }

    ghost predicate Valid()
      reads this, Repr
      ensures Valid() ==> Sound()
    {
      Sound() && NonEmptyFrom(0)
    }

    /** The first level whose price is not better than `price`. */
    method LowerBound(price: int) returns (i: nat)
      requires Owned()
      ensures i <= |levels|
      ensures forall j | 0 <= j < i :: Before(forBuys, levels[j].price, price)
      ensures i < |levels| ==> !Before(forBuys, levels[i].price, price)
    {
      i := 0;
      while i < |levels| && Before(forBuys, levels[i].price, price)
        invariant i <= |levels|
        invariant forall j | 0 <= j < i :: Before(forBuys, levels[j].price, price)
      {
        i := i + 1;
      }
    }

    /** The order at this place has no namesake anywhere on the side. */
    ghost predicate OnlyAt(i: nat, k: nat)
      requires Owned() && i < |levels| && k < |levels[i].orders|
      reads this, Repr
    {
      forall j, m | 0 <= j < |levels| && 0 <= m < |levels[j].orders|
                    && levels[j].orders[m].id == levels[i].orders[k].id :: (j, m) == (i, k)
    }

    lemma Located(i: nat, k: nat)
      requires Sound() && i < |levels| && k < |levels[i].orders|
      ensures levels[i].orders[k] in Nodes()
      ensures levels[i].orders[k].Data() in Flat()
      ensures levels[i].orders[k].price == levels[i].price
      ensures OnlyAt(i, k)
    {
      var qs := Queues();
      MemberAt(Rows(), i, k);
      assert qs[i][k] == levels[i].orders[k].Data();
      assert qs[i][k].price == Prices()[i];
      AtPosition(qs, i, k);
      forall j, m | 0 <= j < |levels| && 0 <= m < |levels[j].orders|
                    && levels[j].orders[m].id == levels[i].orders[k].id
        ensures (j, m) == (i, k)
      {
        assert qs[j][m] == levels[j].orders[m].Data();
        QueuedOnce(qs, i, k, j, m);
      }
    }

    /** Where a queued order is. */
    lemma Locate(node: Order) returns (i: nat, k: nat)
      requires Sound() && node in Nodes()
      ensures i < |levels| && k < |levels[i].orders| && levels[i].orders[k] == node
    {
      i, k := FindMember(Rows(), node);
    }

    lemma NodeFound(node: Order)
      requires Sound() && node in Nodes()
      ensures Find(Flat(), node.id) == Some(node.Data())
      ensures node.id in Ids(Flat())
    {
      var i, k := Locate(node);
      AtPosition(Queues(), i, k);
      EraseIsRemove(Queues(), i, k);
    }

    /** Puts a new, still empty level in place `i`. */
    method EmplaceAt(i: nat, price: int)
      requires Owned() && i <= |levels|
      modifies this
      ensures Owned() && fresh(Repr - old(Repr))
      ensures WithEntry(old(levels), levels, i) && levels[i].orders == [] && fresh(levels[i])
      ensures WithEntry(old(Prices()), Prices(), i) && Prices()[i] == price
      ensures WithEntry(old(Queues()), Queues(), i) && Queues()[i] == []
      ensures Nodes() == old(Nodes())
    {
      hide Concat;
      ghost var rows := Rows();
      var level := new PriceLevel(price);
      levels := levels[..i] + [level] + levels[i..];
      Repr := Repr + {level};
      assert WithEntry(old(levels), levels, i);
      MembersEmptyRow(rows, Rows(), i);
    }

    method EmplaceNew(i: nat, price: int)
      requires Sound() && i <= |levels|
      requires forall j | 0 <= j < i :: Before(forBuys, levels[j].price, price)
      requires i < |levels| ==> Before(forBuys, price, levels[i].price)
      modifies this
      ensures Sound() && fresh(Repr - old(Repr))
      ensures WithEntry(old(levels), levels, i) && fresh(levels[i])
      ensures levels[i].price == price && levels[i].orders == []
      ensures Flat() == old(Flat()) && Nodes() == old(Nodes())
    {
      hide SideOk, Concat;
      ghost var prices, qs := Prices(), Queues();
      assert forall j | 0 <= j < |levels| :: prices[j] == levels[j].price;
      EmplaceAt(i, price);
      NewLevelOk(forBuys, prices, qs, Prices(), Queues(), i);
      assert Prices()[i] == levels[i].price;
    }

    /** The level for `price`, made where it belongs if there is none. */
    method TryEmplace(price: int) returns (i: nat)
      requires Valid()
      modifies this
      ensures Sound() && fresh(Repr - old(Repr))
      ensures i < |levels| && levels[i].price == price
      ensures levels[i] in old(levels) || fresh(levels[i])
      ensures forall j | 0 <= j < |levels| && j != i :: levels[j].orders != []
      ensures Flat() == old(Flat())
      ensures Nodes() == old(Nodes())
    {
      hide SideOk, Concat;
      i := LowerBound(price);
      if i == |levels| || levels[i].price != price {
        ghost var ls := levels;
        EmplaceNew(i, price);
        assert forall j | 0 <= j < |levels| && j != i :: levels[j] == ls[if j < i then j else j - 1];
      }
    }

    /** Queues `o` at the back of level `i`. */
    method AppendAt(i: nat, o: OrderData) returns (node: Order)
      requires Owned() && i < |levels|
      requires forall j | 0 <= j < |levels| && j != i :: levels[j] != levels[i]
      modifies this, levels[i]
      ensures Owned() && fresh(Repr - old(Repr)) && fresh(node)
      ensures levels == old(levels)
      ensures forall j | 0 <= j < |levels| && j != i :: levels[j].orders == old(levels[j].orders)
      ensures levels[i].orders == old(levels[i].orders) + [node]
      ensures Queues() == old(Queues())[i := old(Queues())[i] + [o]]
      ensures Nodes() == old(Nodes()) + {node}
      ensures node.Data() == o
    {
      hide Concat;
      ghost var qs := Queues();
      assert forall j | 0 <= j < |qs| :: qs[j] == levels[j].Values();
      node := levels[i].AddOrder(o);
      Repr := Repr + {node};
      assert levels[i].Values() == qs[i] + [o];
      assert forall j | 0 <= j < |qs| && j != i :: levels[j].Values() == qs[j];
      assert Rows() == old(Rows())[i := old(Rows())[i] + [node]];
      MembersAppend(old(Rows()), i, node);
    }

    /** Queues an order behind everything with an equal or better price. */
    method Enqueue(o: OrderData) returns (node: Order)
      requires Valid()
      requires IsBuy(o.side) == forBuys && o.id !in Ids(Flat())
      modifies this, levels
      ensures Valid() && fresh(Repr - old(Repr))
      ensures Flat() == Insert(forBuys, old(Flat()), o)
      ensures Ids(Flat()) == old(Ids(Flat())) + {o.id}
      ensures Nodes() == old(Nodes()) + {node}
      ensures fresh(node) && node.Data() == o
    {
      hide SideOk, Concat, Ids, Insert;
      var i := TryEmplace(o.price);
      ghost var prices, qs := Prices(), Queues();
      AppendOk(forBuys, prices, qs, i, o);
      DistinctLevels();
      node := AppendAt(i, o);
      assert Prices() == prices;
      assert Queues() == qs[i := qs[i] + [o]];
    }

    method AddOrder(o: OrderData, ghost catalog: map<nat, Location>) returns (node: Order)
      requires Valid() && Catalogued(catalog)
      requires IsBuy(o.side) == forBuys && o.id !in catalog
      modifies this, levels
      ensures Valid() && fresh(Repr - old(Repr))
      ensures Flat() == Insert(forBuys, old(Flat()), o)
      ensures Catalogued(catalog[o.id := Location(o.side, o.price, node)])
      ensures fresh(node) && node.Data() == o
    {
      hide SideOk, Flat, Nodes, Insert;
      node := Enqueue(o);
    }

    lemma DistinctLevels()
      requires Sound()
      ensures forall i, j | 0 <= i < j < |levels| ::
                Before(forBuys, levels[i].price, levels[j].price) && levels[i].price != levels[j].price
    {
      assert forall i | 0 <= i < |levels| :: Prices()[i] == levels[i].price;
    }

    /** Takes an order out of level `i`, leaving the level where it is. */
    method EraseAt(i: nat, node: Order, ghost k: nat)
      requires Sound() && i < |levels| && k < |levels[i].orders| && levels[i].orders[k] == node
      modifies levels[i]
      ensures Owned() && Prices() == old(Prices())
      ensures levels[i].orders == old(levels[i].orders)[..k] + old(levels[i].orders)[k + 1..]
      ensures Queues() == old(Queues())[i := old(Queues())[i][..k] + old(Queues())[i][k + 1..]]
      ensures Nodes() == old(Nodes()) - {node}
    {
      hide SideOk, Concat;
      ghost var qs := Queues();
      assert forall j | 0 <= j < |qs| :: qs[j] == levels[j].Values();
      DistinctLevels();
      Located(i, k);
      ghost var rows := Rows();
      MembersErase(rows, i, k);
      var level := levels[i];
      level.RemoveOrder(node, k);
      assert level.Values() == qs[i][..k] + qs[i][k + 1..];
      assert forall j | 0 <= j < |qs| && j != i :: levels[j].Values() == qs[j];
      assert Rows() == rows[i := rows[i][..k] + rows[i][k + 1..]];
    }

    /** Drops a level that has become empty. */
    method DropLevel(i: nat)
      requires Sound() && i < |levels| && levels[i].orders == []
      modifies this`levels
      ensures Sound()
      ensures WithEntry(levels, old(levels), i)
      ensures Flat() == old(Flat()) && Nodes() == old(Nodes())
    {
      hide SideOk, Concat;
      ghost var prices, qs, rows := Prices(), Queues(), Rows();
      levels := levels[..i] + levels[i + 1..];
      assert WithEntry(levels, old(levels), i);
      DropLevelOk(forBuys, prices, qs, Prices(), Queues(), i);
      MembersEmptyRow(Rows(), rows, i);
    }

    /** Erases a queued order through its price and its node, dropping the level if that empties it. */
    method Unqueue(price: int, node: Order)
      requires Valid() && node in Nodes() && node.price == price
      modifies this`levels, levels
      ensures Valid()
      ensures Flat() == Remove(old(Flat()), node.id)
      ensures Ids(Flat()) == old(Ids(Flat())) - {node.id}
      ensures Nodes() == old(Nodes()) - {node}
    {
      hide SideOk, Concat, Ids, Remove;
      var i := LowerBound(price);
      ghost var m, k := Locate(node);
      Located(m, k);
      DistinctLevels();
      ghost var prices, qs := Prices(), Queues();
      EraseOk(forBuys, prices, qs, i, k);
      EraseAt(i, node, k);
      if levels[i].orders == [] {
        DropLevel(i);
      }
    }

    method RemoveOrder(price: int, node: Order, ghost catalog: map<nat, Location>)
      requires Valid() && Catalogued(catalog)
      requires node.id in catalog && catalog[node.id] == Location(node.side, price, node)
      modifies this`levels, levels
      ensures Valid()
      ensures Flat() == Remove(old(Flat()), node.id)
      ensures Catalogued(catalog - {node.id})
    {
      hide SideOk, Flat, Nodes, Remove;
      Unqueue(price, node);
    }

    /**
      The side after the order in place (i, k) got a new open quantity: `qs` are the queues before.
     */
    lemma QuantityChanged(qs: seq<seq<OrderData>>, i: nat, k: nat)
      requires Owned() && SideOk(forBuys, Prices(), qs)
      requires i < |levels| && k < |levels[i].orders|
      requires |qs| == |levels| && forall j | 0 <= j < |levels| :: |qs[j]| == |levels[j].orders|
      requires forall j, m | 0 <= j < |levels| && 0 <= m < |levels[j].orders| && (j, m) != (i, k) ::
                 levels[j].orders[m].Data() == qs[j][m]
      requires SamePlace(levels[i].orders[k].Data(), qs[i][k])
      ensures Sound()
      ensures Queues() == qs[i := qs[i][k := levels[i].orders[k].Data()]]
      ensures Ids(Flat()) == Ids(Concat(qs))
    {
      hide SideOk, Concat, Ids;
      assert forall j | 0 <= j < |qs| && j != i :: Queues()[j] == qs[j];
      assert Queues()[i] == qs[i][k := levels[i].orders[k].Data()];
      assert Queues() == qs[i := qs[i][k := levels[i].orders[k].Data()]];
      ReplaceOk(forBuys, Prices(), qs, i, k, levels[i].orders[k].Data());
    }

    /** The fill of the order at the front of the best level. */
    method FillFront(fill: int, ghost catalog: map<nat, Location>)
      requires Sound() && Catalogued(catalog)
      requires levels != [] && levels[0].orders != [] && fill <= levels[0].orders[0].remaining
      modifies levels[0].orders[0]
      ensures Sound() && Catalogued(catalog)
      ensures |old(Flat())| > 0 && old(Flat())[0] == old(levels[0].orders[0].Data())
      ensures levels[0].orders[0].Data() == old(levels[0].orders[0].Data()).ApplyFill(fill)
      ensures Flat() == [levels[0].orders[0].Data()] + old(Flat())[1..]
    {
      hide SideOk, Concat, Ids;
      ghost var qs, rows := Queues(), Rows();
      Located(0, 0);
      var node := levels[0].orders[0];
      node.ApplyFill(fill);
      assert Rows() == rows;
      QuantityChanged(qs, 0, 0);
      FrontOfSide(qs);
      assert qs[0][0 := node.Data()] == [node.Data()] + qs[0][1..];
    }

    /** Erases the order at the front of the best level, leaving the level in place. */
    method EraseFront(ghost catalog: map<nat, Location>)
      requires Sound() && Catalogued(catalog)
      requires levels != [] && levels[0].orders != []
      modifies levels[0]
      ensures Sound() && Catalogued(catalog - {old(levels[0].orders[0]).id})
      ensures levels[0].orders == old(levels[0].orders)[1..]
      ensures |old(Flat())| > 0 && Flat() == old(Flat())[1..]
    {
      hide SideOk, Concat;
      ghost var prices, qs := Prices(), Queues();
      var node := levels[0].orders[0];
      assert qs[0][0] == node.Data();
      FrontOfSide(qs);
      EraseOk(forBuys, prices, qs, 0, 0);
      EraseAt(0, node, 0);
      assert qs[0][..0] + qs[0][1..] == qs[0][1..];
    }

    /** A quantity decrease in place. */
    method ResizeOrder(node: Order, newQuantity: int, ghost catalog: map<nat, Location>)
      requires Valid() && Catalogued(catalog) && node in Nodes()
      modifies node
      ensures Valid() && Catalogued(catalog)
      ensures Flat() == Resize(old(Flat()), node.id, newQuantity)
    {
      hide SideOk, Concat, Ids, Resize;
      ghost var qs, rows := Queues(), Rows();
      ghost var i, k := Locate(node);
      Located(i, k);
      assert qs[i][k] == node.Data();
      SideUnique();
      SetIsResize(qs, i, k, newQuantity);
      node.Modify(node.price, newQuantity);
      assert Rows() == rows;
      QuantityChanged(qs, i, k);
    }

    lemma SideUnique()
      requires Sound()
      ensures UniqueIds(Concat(Queues()))
    {
    }

    /** The price at the front of the map is the best on the side. */
    method BestPrice() returns (best: Option<int>)
      requires Valid()
      ensures best.None? <==> Flat() == []
      ensures best.Some? ==> forall o <- Flat() :: !Before(forBuys, o.price, best.value)
      ensures best.Some? ==> exists o <- Flat() :: o.price == best.value
    {
      if levels == [] {
        best := None;
      } else {
        best := Some(levels[0].price);
        ghost var qs := Queues();
        FrontOfSide(qs);
        assert qs[0][0].price == Prices()[0];
        assert forall o <- Flat() :: exists i :: 0 <= i < |Flat()| && Flat()[i] == o;
      }
    }
  }

  class OrderBook {
    const symbol: Symbol
    const buys: BookSide
    const sells: BookSide
    var index: map<nat, Location>
    ghost var buyCatalog: map<nat, Location>
    ghost var sellCatalog: map<nat, Location>

    constructor (symbol: Symbol)
      ensures Valid() && fresh(Repr())
      ensures this.symbol == symbol && buys.Flat() == [] && sells.Flat() == []
    {
      this.symbol := symbol;
      buys := new BookSide(true);
      sells := new BookSide(false);
      index, buyCatalog, sellCatalog := map[], map[], map[];
    }

    ghost function Repr(): set<object>
      reads this, buys, sells
    {
      {this} + buys.Repr + sells.Repr
    }

    function SideFor(forBuys: bool): BookSide {
      if forBuys then buys else sells
    }

    ghost predicate Separate()
      reads this, buys, sells
    {
      && buys.forBuys && !sells.forBuys
      && buys in buys.Repr && sells in sells.Repr
      && buys.Repr !! sells.Repr
      && this !in buys.Repr && this !in sells.Repr
    }

    /**
      The index knows exactly the queued orders, each with its real side, price and node, and no id
      rests on both sides.
     */
    ghost predicate Indexed()
      requires buys.Owned() && sells.Owned()
      reads this, buys, sells, buys.Repr, sells.Repr
    {
      && buys.Catalogued(buyCatalog)
      && sells.Catalogued(sellCatalog)
      && buyCatalog.Keys !! sellCatalog.Keys
      && index == buyCatalog + sellCatalog
    }

    ghost predicate Sound()
      reads this, buys, sells, buys.Repr, sells.Repr
    {
      && Separate()
      && buys.Sound() && sells.Sound()
      && Indexed()
    }

    ghost predicate Valid()
      reads this, buys, sells, buys.Repr, sells.Repr
    {
      && Separate()
      && buys.Valid() && sells.Valid()
      && Indexed()
    }

    /** Lookup through the index finds what a scan of both sides would find. */
    lemma {:induction false} IndexIsScan(id: nat)
      requires Sound()
      ensures id in index <==> id in Ids(buys.Flat()) + Ids(sells.Flat())
      ensures id in index ==>
                var own := IsBuy(index[id].side);
                && Find(SideFor(own).Flat(), id) == Some(index[id].node.Data())
                && Find(SideFor(!own).Flat(), id) == None
                && id !in Ids(SideFor(!own).Flat())
                && index[id].node in SideFor(own).Nodes()
                && index[id].node.id == id
                && index[id] == Location(index[id].node.side, index[id].node.price, index[id].node)
                && (if own then id in buyCatalog && index[id] == buyCatalog[id] && id !in sellCatalog
                    else id in sellCatalog && index[id] == sellCatalog[id] && id !in buyCatalog)
    {
      if id in index {
        var own := IsBuy(index[id].side);
        SideFor(own).NodeFound(index[id].node);
        AbsentUnchanged(SideFor(!own).Flat(), id);
      }
    }

    method AddOrder(o: OrderData)
      requires Valid() && o.id !in index
      modifies Repr()
      ensures Valid() && fresh(Repr() - old(Repr()))
      ensures var own := IsBuy(o.side);
              && SideFor(own).Flat() == Insert(own, old(SideFor(own).Flat()), o)
              && SideFor(!own).Flat() == old(SideFor(!own).Flat())
    {
      hide SideOk, BookSide.Catalogued, BookSide.Flat, BookSide.NonEmptyFrom, Insert, BookSide.Valid, BookSide.Sound;
      assert o.id !in buyCatalog && o.id !in sellCatalog;
      if IsBuy(o.side) {
        var node := buys.AddOrder(o, buyCatalog);
        index := index[o.id := Location(o.side, o.price, node)];
        buyCatalog := buyCatalog[o.id := Location(o.side, o.price, node)];
      } else {
        var node := sells.AddOrder(o, sellCatalog);
        index := index[o.id := Location(o.side, o.price, node)];
        sellCatalog := sellCatalog[o.id := Location(o.side, o.price, node)];
      }
    }

    method RemoveFromLevel(id: nat, loc: Location)
      requires Valid() && id in index && index[id] == loc
      modifies Repr() - {this}, this`buyCatalog, this`sellCatalog
      ensures Separate() && Repr() == old(Repr())
      ensures buys.Valid() && buys.Catalogued(buyCatalog) && buyCatalog == old(buyCatalog) - {id}
      ensures sells.Valid() && sells.Catalogued(sellCatalog) && sellCatalog == old(sellCatalog) - {id}
      ensures buys.Flat() == Remove(old(buys.Flat()), id)
      ensures sells.Flat() == Remove(old(sells.Flat()), id)
    {
      hide SideOk, BookSide.Catalogued, BookSide.Flat, BookSide.NonEmptyFrom, Remove, BookSide.Valid, BookSide.Sound;
      IndexIsScan(id);
      if IsBuy(loc.side) {
        AbsentUnchanged(sells.Flat(), id);
        buys.RemoveOrder(loc.price, loc.node, buyCatalog);
        buyCatalog := buyCatalog - {id};
        assert sellCatalog - {id} == sellCatalog;
      } else {
        AbsentUnchanged(buys.Flat(), id);
        sells.RemoveOrder(loc.price, loc.node, sellCatalog);
        sellCatalog := sellCatalog - {id};
        assert buyCatalog - {id} == buyCatalog;
      }
    }

    /** The resting order itself, by reference. */
    method FindOrder(id: nat) returns (found: Option<Order>)
      requires Valid()
      ensures found.None? <==> id !in Ids(buys.Flat()) + Ids(sells.Flat())
      ensures found.Some? ==>
                var own := IsBuy(found.value.side);
                && found.value.id == id
                && found.value in SideFor(own).Nodes()
                && Find(SideFor(own).Flat(), id) == Some(found.value.Data())
                && Find(SideFor(!own).Flat(), id) == None
    {
      IndexIsScan(id);
      found := if id in index then Some(index[id].node) else None;
    }

    method HasOrder(id: nat) returns (has: bool)
      requires Valid()
      ensures has <==> id in Ids(buys.Flat()) + Ids(sells.Flat())
    {
      IndexIsScan(id);
      has := id in index;
    }

    method BestBid() returns (best: Option<int>)
      requires Valid()
      ensures best.None? <==> buys.Flat() == []
      ensures best.Some? ==> (forall o <- buys.Flat() :: o.price <= best.value)
      ensures best.Some? ==> exists o <- buys.Flat() :: o.price == best.value
    {
      best := buys.BestPrice();
    }

    method BestAsk() returns (best: Option<int>)
      requires Valid()
      ensures best.None? <==> sells.Flat() == []
      ensures best.Some? ==> (forall o <- sells.Flat() :: o.price >= best.value)
      ensures best.Some? ==> exists o <- sells.Flat() :: o.price == best.value
    {
      best := sells.BestPrice();
    }

    /** Drops an index entry only; its order has just left its level. */
    method ForgetOrder(id: nat)
      modifies this`index, this`buyCatalog, this`sellCatalog
      ensures index == old(index) - {id}
      ensures buyCatalog == old(buyCatalog) - {id}
      ensures sellCatalog == old(sellCatalog) - {id}
    {
      index, buyCatalog, sellCatalog := index - {id}, buyCatalog - {id}, sellCatalog - {id};
    }

    /** A fill of the front order of one side's best level. */
    method FillFront(forBuys: bool, fill: int)
      requires Sound()
      requires SideFor(forBuys).levels != [] && SideFor(forBuys).levels[0].orders != []
      requires fill <= SideFor(forBuys).levels[0].orders[0].remaining
      modifies SideFor(forBuys).levels[0].orders[0]
      ensures Sound()
      ensures var node := SideFor(forBuys).levels[0].orders[0];
              var flat := old(SideFor(forBuys).Flat());
              && |flat| > 0
              && flat[0] == old(node.Data())
              && flat[0].price == SideFor(forBuys).levels[0].price
              && node.Data() == flat[0].ApplyFill(fill)
              && SideFor(forBuys).Flat() == [node.Data()] + flat[1..]
    {
      hide SideOk, BookSide.Catalogued, BookSide.Flat;
      if forBuys {
        buys.Located(0, 0);
        buys.FillFront(fill, buyCatalog);
      } else {
        sells.Located(0, 0);
        sells.FillFront(fill, sellCatalog);
      }
    }

    /** Erases the front order of one side's best level, first from the level, then from the index. */
    method EraseFront(forBuys: bool)
      requires Sound()
      requires SideFor(forBuys).levels != [] && SideFor(forBuys).levels[0].orders != []
      modifies `index, `buyCatalog, `sellCatalog, SideFor(forBuys).levels[0]
      ensures Sound()
      ensures SideFor(forBuys).levels[0].orders == old(SideFor(forBuys).levels[0].orders)[1..]
      ensures |old(SideFor(forBuys).Flat())| > 0
      ensures SideFor(forBuys).Flat() == old(SideFor(forBuys).Flat())[1..]
    {
      hide SideOk, BookSide.Catalogued, BookSide.Flat;
      var id := SideFor(forBuys).levels[0].orders[0].id;
      FrontIndexed(forBuys);
      if forBuys {
        buys.EraseFront(buyCatalog);
      } else {
        sells.EraseFront(sellCatalog);
      }
      ghost var b, s := buyCatalog, sellCatalog;
      ForgetOrder(id);
      assert forBuys ==> s - {id} == s;
      assert !forBuys ==> b - {id} == b;
    }

    /** Erases the best level once it is empty. */
    method EraseLevel(forBuys: bool)
      requires Sound() && SideFor(forBuys).levels != [] && SideFor(forBuys).levels[0].orders == []
      modifies SideFor(forBuys)`levels
      ensures Sound()
      ensures SideFor(forBuys).levels == old(SideFor(forBuys).levels)[1..]
      ensures SideFor(forBuys).Flat() == old(SideFor(forBuys).Flat())
    {
      hide SideOk;
      if forBuys {
        buys.DropLevel(0);
        assert buys.levels == old(buys.levels)[1..];
      } else {
        sells.DropLevel(0);
        assert sells.levels == old(sells.levels)[1..];
      }
    }

    /** The best level's price is that of the first order. */
    lemma FrontPrice(forBuys: bool)
      requires Sound()
      ensures SideFor(forBuys).levels == [] ==> SideFor(forBuys).Flat() == []
      ensures SideFor(forBuys).levels != [] && SideFor(forBuys).levels[0].orders != [] ==>
                && SideFor(forBuys).Flat() != []
                && SideFor(forBuys).Flat()[0].price == SideFor(forBuys).levels[0].price
    {
      var side := SideFor(forBuys);
      if side.levels != [] && side.levels[0].orders != [] {
        FrontOfSide(side.Queues());
        assert side.Queues()[0][0] == side.levels[0].orders[0].Data();
        assert side.Queues()[0][0].price == side.Prices()[0];
      }
    }

    /** The front order is indexed on its own side only. */
    lemma FrontIndexed(forBuys: bool)
      requires Sound()
      requires SideFor(forBuys).levels != [] && SideFor(forBuys).levels[0].orders != []
      ensures var id := SideFor(forBuys).levels[0].orders[0].id;
              if forBuys then id in buyCatalog && id !in sellCatalog else id in sellCatalog && id !in buyCatalog
      ensures SideFor(forBuys).levels[0].orders[0] in Repr()
    {
      SideFor(forBuys).Located(0, 0);
      SideFor(forBuys).NodeFound(SideFor(forBuys).levels[0].orders[0]);
    }

    /** Shrinks an order where it stands; false if it is not resting. */
    method ModifyRestingOrderQuantity(id: nat, newQuantity: int) returns (modified: bool)
      requires Valid()
      modifies Repr()
      ensures Valid() && Repr() == old(Repr())
      ensures modified <==> id in old(Ids(buys.Flat()) + Ids(sells.Flat()))
      ensures buys.Flat() == Resize(old(buys.Flat()), id, newQuantity)
      ensures sells.Flat() == Resize(old(sells.Flat()), id, newQuantity)
    {
      hide SideOk, BookSide.Catalogued, BookSide.Flat, Resize, BookSide.Valid, BookSide.Sound, BookSide.Owned;
      IndexIsScan(id);
      if id !in index {
        AbsentUnchanged(buys.Flat(), id);
        AbsentUnchanged(sells.Flat(), id);
        return false;
      }
      var node := index[id].node;
      if IsBuy(index[id].side) {
        AbsentUnchanged(sells.Flat(), id);
        buys.ResizeOrder(node, newQuantity, buyCatalog);
      } else {
        AbsentUnchanged(buys.Flat(), id);
        sells.ResizeOrder(node, newQuantity, sellCatalog);
      }
      return true;
    }

    /** Takes an order out by id; false if it is not resting. */
    method CancelOrder(id: nat) returns (cancelled: bool)
      requires Valid()
      modifies Repr()
      ensures Valid() && Repr() == old(Repr())
      ensures cancelled <==> id in old(Ids(buys.Flat()) + Ids(sells.Flat()))
      ensures buys.Flat() == Remove(old(buys.Flat()), id)
      ensures sells.Flat() == Remove(old(sells.Flat()), id)
    {
      hide SideOk, BookSide.Catalogued, BookSide.Flat, BookSide.NonEmptyFrom, Remove,
           BookSide.Valid, BookSide.Sound, BookSide.Owned;
      IndexIsScan(id);
      if id !in index {
        AbsentUnchanged(buys.Flat(), id);
        AbsentUnchanged(sells.Flat(), id);
        return false;
      }
      RemoveFromLevel(id, index[id]);
      index := index - {id};
      return true;
    }
  }
}

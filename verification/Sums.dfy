/** Sums over the engines of all symbols. */
module Sums {
  import opened Types
  import opened Matching
  import opened Exchange

  // ---------- Sums over all symbols ----------

  ghost function SumOver(keys: set<Symbol>, w: map<Symbol, int>): int
    requires keys <= w.Keys
  {
    if keys == {} then 0
    else
      var s :| s in keys;
      w[s] + SumOver(keys - {s}, w)
  }

  lemma {:induction false} TakeOut(keys: set<Symbol>, w: map<Symbol, int>, s: Symbol)
    requires keys <= w.Keys && s in keys
    ensures SumOver(keys, w) == w[s] + SumOver(keys - {s}, w)
  {
    var t :| t in keys && SumOver(keys, w) == w[t] + SumOver(keys - {t}, w);
    if t != s {
      TakeOut(keys - {t}, w, s);
      TakeOut(keys - {s}, w, t);
      assert keys - {t} - {s} == keys - {s} - {t};
    }
  }

  lemma {:induction false} SameSum(keys: set<Symbol>, v: map<Symbol, int>, w: map<Symbol, int>)
    requires keys <= v.Keys && keys <= w.Keys
    requires forall s <- keys :: v[s] == w[s]
    ensures SumOver(keys, v) == SumOver(keys, w)
  {
    if keys != {} {
      var s :| s in keys;
      TakeOut(keys, v, s);
      TakeOut(keys, w, s);
      SameSum(keys - {s}, v, w);
    }
  }

  ghost function Total(w: map<Symbol, int>): int {
    SumOver(w.Keys, w)
  }

  lemma TotalPut(w: map<Symbol, int>, s: Symbol, v: int)
    ensures Total(w[s := v]) == Total(w) - (if s in w then w[s] else 0) + v
  {
    var others := w.Keys - {s};
    TakeOut(w[s := v].Keys, w[s := v], s);
    assert w[s := v].Keys - {s} == others;
    SameSum(others, w, w[s := v]);
    if s in w {
      TakeOut(w.Keys, w, s);
    } else {
      assert others == w.Keys;
    }
  }

  ghost function Notionals(es: Engines): map<Symbol, int> {
    map s | s in es :: Notional(es[s].buys)
  }

  ghost function Reservations(es: Engines): map<Symbol, int> {
    map s | s in es :: Reserved(es[s].buys)
  }

  /** Price times open quantity over all resting buys of all symbols. */
  ghost function RestingBuys(es: Engines): int {
    Total(Notionals(es))
  }

  ghost function ReservedBuys(es: Engines): int {
    Total(Reservations(es))
  }

  lemma PutEngineNotional(es: Engines, s: Symbol, e: Engine)
    ensures RestingBuys(es[s := e]) == RestingBuys(es) - Notional(EngineFor(es, s).buys) + Notional(e.buys)
  {
    hide SumOver, Total, Notional;
    assert Notionals(es[s := e]) == Notionals(es)[s := Notional(e.buys)];
    TotalPut(Notionals(es), s, Notional(e.buys));
    assert Notional([]) == 0 by { NothingReserved(); }
  }

  lemma PutEngineReserved(es: Engines, s: Symbol, e: Engine)
    ensures ReservedBuys(es[s := e]) == ReservedBuys(es) - Reserved(EngineFor(es, s).buys) + Reserved(e.buys)
  {
    hide SumOver, Total, Reserved;
    assert Reservations(es[s := e]) == Reservations(es)[s := Reserved(e.buys)];
    TotalPut(Reservations(es), s, Reserved(e.buys));
    assert Reserved([]) == 0 by { NothingReserved(); }
  }

  lemma NothingReserved()
    ensures Notional([]) == 0 && Reserved([]) == 0
  {
  }

  lemma {:induction false} SumAtMost(keys: set<Symbol>, v: map<Symbol, int>, w: map<Symbol, int>)
    requires keys <= v.Keys && keys <= w.Keys
    requires forall s <- keys :: v[s] <= w[s]
    ensures SumOver(keys, v) <= SumOver(keys, w)
  {
    if keys != {} {
      var s :| s in keys;
      TakeOut(keys, v, s);
      TakeOut(keys, w, s);
      SumAtMost(keys - {s}, v, w);
    }
  }

  lemma {:induction false} ReservedCoversNotional(q: seq<OrderData>)
    ensures Notional(q) <= Reserved(q)
  {
    if q != [] {
      ReservedCoversNotional(q[1..]);
    }
  }

  lemma EmptyExchange()
    ensures RestingBuys(map[]) == 0 && ReservedBuys(map[]) == 0
  {
    assert Notionals(map[]).Keys == {};
    assert Reservations(map[]).Keys == {};
  }
}

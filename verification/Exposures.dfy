/** Notional exposure by symbol, summed over a map of open or pending items. */
module Exposures {
  import opened MapSum

  datatype Exposure = Exposure(symbol: string, notional: real)

  ghost function Notionals<K>(m: map<K, Exposure>): map<K, real> {
    map k | k in m :: m[k].notional
  }

  ghost function NotionalsOf<K>(m: map<K, Exposure>, s: string): map<K, real> {
    map k | k in m && m[k].symbol == s :: m[k].notional
  }

  ghost function Total<K>(m: map<K, Exposure>): real {
    Sum(Notionals(m))
  }

  ghost function OfSymbol<K>(m: map<K, Exposure>, s: string): real {
    Sum(NotionalsOf(m, s))
  }

  lemma Add<K>(m: map<K, Exposure>, k: K, e: Exposure)
    requires k !in m
    ensures Total(m[k := e]) == Total(m) + e.notional
    ensures forall s :: OfSymbol(m[k := e], s) == OfSymbol(m, s) + (if e.symbol == s then e.notional else 0.0)
  {
    assert Notionals(m[k := e]) == Notionals(m)[k := e.notional];
    SumInsert(Notionals(m), k, e.notional);
    forall s
      ensures OfSymbol(m[k := e], s) == OfSymbol(m, s) + (if e.symbol == s then e.notional else 0.0)
    {
      if e.symbol == s {
        assert NotionalsOf(m[k := e], s) == NotionalsOf(m, s)[k := e.notional];
        SumInsert(NotionalsOf(m, s), k, e.notional);
      } else {
        assert NotionalsOf(m[k := e], s) == NotionalsOf(m, s);
      }
    }
  }

  lemma Remove<K>(m: map<K, Exposure>, k: K)
    requires k in m
    ensures Total(m - {k}) == Total(m) - m[k].notional
    ensures forall s :: OfSymbol(m - {k}, s) == OfSymbol(m, s) - (if m[k].symbol == s then m[k].notional else 0.0)
  {
    assert (m - {k})[k := m[k]] == m;
    Add(m - {k}, k, m[k]);
  }

  /** The accumulation loop over a hash map, whose visiting order is unspecified. */
  method Accumulate<K(==)>(m: map<K, Exposure>, symbol: string) returns (total: real, ofSymbol: real)
    ensures total == Total(m) && ofSymbol == OfSymbol(m, symbol)
  {
    total, ofSymbol := 0.0, 0.0;
    var rest := m;
    while rest.Keys != {}
      invariant total + Total(rest) == Total(m)
      invariant ofSymbol + OfSymbol(rest, symbol) == OfSymbol(m, symbol)
      decreases rest.Keys
    {
      var k :| k in rest.Keys;
      Remove(rest, k);
      total := total + rest[k].notional;
      if rest[k].symbol == symbol {
        ofSymbol := ofSymbol + rest[k].notional;
      }
      rest := rest - {k};
    }
  }
}

/** The token bucket with resets among the racing calls: what grants can number in any
    run, counted in instants of time credited and in resets. */
module LimiterResets {
  import opened Types
  import opened OrderRateLimiter
  import opened LimiterRaces

  // -------------------------------------------------------------------------
  // Spans that do not overlap fit in the time there is
  // -------------------------------------------------------------------------

  function Length(spans: seq<Span>): int {
    if spans == [] then 0 else Length(spans[..|spans| - 1]) + (spans[|spans| - 1].upTo - spans[|spans| - 1].after)
  }

  ghost function Instants(a: int, b: int): set<int> {
    set x: int | a < x <= b && Span(a, b).Has(x)
  }

  lemma {:induction false} InstantsSize(a: int, b: int)
    requires a <= b
    ensures |Instants(a, b)| == b - a
    decreases b - a
  {
    if a < b {
      InstantsSize(a, b - 1);
      assert Instants(a, b) == Instants(a, b - 1) + {b};
    } else {
      assert Instants(a, b) == {};
    }
  }

  ghost predicate Between(spans: seq<Span>, t0: int, until: int) {
    forall i | 0 <= i < |spans| :: t0 <= spans[i].after <= spans[i].upTo <= until
  }

  /** The instants of a sequence of spans. */
  ghost function AllInstants(spans: seq<Span>): set<int> {
    if spans == [] then {}
    else AllInstants(spans[..|spans| - 1]) + Instants(spans[|spans| - 1].after, spans[|spans| - 1].upTo)
  }

  lemma {:induction false} InstantsOfSpans(spans: seq<Span>, x: int)
    ensures x in AllInstants(spans) <==> Includes(spans, x)
  {
    if spans != [] {
      var n := |spans| - 1;
      InstantsOfSpans(spans[..n], x);
      if Includes(spans[..n], x) {
        var i :| 0 <= i < n && spans[..n][i].Has(x);
        assert spans[i].Has(x);
      }
      if Includes(spans, x) {
        var i :| 0 <= i < |spans| && spans[i].Has(x);
        if i < n {
          assert spans[..n][i].Has(x);
        }
      }
      assert spans[n].Has(x) ==> Includes(spans, x);
    }
  }

  lemma {:induction false} InstantsCount(spans: seq<Span>, t0: int, until: int)
    requires NoneTwice(spans) && Between(spans, t0, until)
    ensures |AllInstants(spans)| == Length(spans)
    ensures AllInstants(spans) <= Instants(t0, until)
  {
    if spans != [] {
      var n := |spans| - 1;
      PrefixSpans(spans, n, t0, until);
      InstantsCount(spans[..n], t0, until);
      InstantsSize(spans[n].after, spans[n].upTo);
      forall x | x in AllInstants(spans[..n])
        ensures x !in Instants(spans[n].after, spans[n].upTo)
      {
        InstantsOfSpans(spans[..n], x);
        var i :| 0 <= i < n && spans[..n][i].Has(x);
        assert spans[i].Has(x) && !(spans[i].Has(x) && spans[n].Has(x));
      }
      assert AllInstants(spans[..n]) !! Instants(spans[n].after, spans[n].upTo);
    }
  }

  lemma PrefixSpans(spans: seq<Span>, n: nat, t0: int, until: int)
    requires n <= |spans| && NoneTwice(spans) && Between(spans, t0, until)
    ensures NoneTwice(spans[..n]) && Between(spans[..n], t0, until)
  {
    forall x, i, j | 0 <= i < j < n
      ensures !(spans[..n][i].Has(x) && spans[..n][j].Has(x))
    {
      assert !(spans[i].Has(x) && spans[j].Has(x));
    }
  }

  lemma SpansFit(spans: seq<Span>, t0: int, until: int)
    requires NoneTwice(spans) && Between(spans, t0, until) && t0 <= until
    ensures Length(spans) <= until - t0
  {
    InstantsCount(spans, t0, until);
    InstantsSize(t0, until);
    SubsetSize(AllInstants(spans), Instants(t0, until));
  }

  lemma SubsetSize(a: set<int>, b: set<int>)
    requires a <= b
    ensures |a| <= |b|
  {
    assert b == a + (b - a);
  }

  lemma {:induction false} LengthConcat(a: seq<Span>, b: seq<Span>)
    ensures Length(a + b) == Length(a) + Length(b)
  {
    if b == [] {
      assert a + b == a;
    } else {
      LengthConcat(a, b[..|b| - 1]);
      assert (a + b)[..|a + b| - 1] == a + b[..|b| - 1];
    }
  }

  // -------------------------------------------------------------------------
  // What a run adds
  // -------------------------------------------------------------------------

  predicate Filling(s: System, e: Event) {
    e.Step? && e.tid in s.threads && s.threads[e.tid].StoreFull?
  }

  /** Resets that have filled the bucket in a run. */
  ghost function Resets(s: System, events: seq<Event>): nat
    decreases |events|
  {
    if events == [] then 0 else (if Filling(s, events[0]) then 1 else 0) + Resets(Next(s, events[0]), events[1..])
  }

  /** What n resets put into the bucket at most. */
  function Bursts(burst: nat, n: nat): real { (burst * n) as real }

  /** Every clock reading lies in [t0, until]; a reset reads it when it stores it. */
  ghost predicate ReadWithin(s: System, events: seq<Event>, t0: int, until: int)
    decreases |events|
  {
    events == [] ||
    (&& (events[0].CallAcquire? ==> events[0].now <= until)
     && (events[0].Step? && events[0].tid in s.threads && s.threads[events[0].tid].StoreNow? ==> t0 <= events[0].now)
     && ReadWithin(Next(s, events[0]), events[1..], t0, until))
  }

  ghost predicate ThreadClock(t: Thread, rate: nat, t0: int, until: int) {
    && (t.LoadLast? || InRefill(t) ==> t.now <= until)
    && (InRefill(t) ==> t0 <= t.last < t.now)
    && (t.LoadTokens? || t.SwapTokens? ==> t.credit == Credit(rate, t.now - t.last))
  }

  ghost predicate Clocks(s: System, t0: int, until: int) {
    t0 <= s.last && forall tid <- s.threads :: ThreadClock(s.threads[tid], s.rate, t0, until)
  }

  lemma StepKeepsClocks(s: System, e: Event, t0: int, until: int)
    requires Clocks(s, t0, until)
    requires e.CallAcquire? ==> e.now <= until
    requires e.Step? && e.tid in s.threads && s.threads[e.tid].StoreNow? ==> t0 <= e.now
    ensures Clocks(Next(s, e), t0, until) && Next(s, e).rate == s.rate && Next(s, e).burst == s.burst
  {
  }

  /** One step adds at most the credit of the span it credits, and a reset the burst. */
  lemma StepAdds(s: System, e: Event, t0: int, until: int)
    requires Inv(s) && Clocks(s, t0, until)
    ensures
      MaxR(0.0, Next(s, e).tokens - s.tokens) <=
      Credit(s.rate, Length(CreditOf(s, e))) + (if Filling(s, e) then s.burst as real else 0.0)
    ensures Between(CreditOf(s, e), t0, until)
  {
    CreditMonotone(s.rate, 0, 0);
    LengthOfOne(s, e);
    if Crediting(s, e) {
      CreditMonotone(s.rate, 0, s.threads[e.tid].now - s.threads[e.tid].last);
    }
  }

  lemma LengthOfOne(s: System, e: Event)
    ensures Length(CreditOf(s, e)) == if Crediting(s, e) then s.threads[e.tid].now - s.threads[e.tid].last else 0
  {
    if Crediting(s, e) {
      assert CreditOf(s, e)[..0] == [];
    }
  }

  /** In every interleaving, resets included: what is added is bounded by the time that
      was credited and by one burst for each reset. */
  lemma {:induction false} AddedIsCredited(s: System, events: seq<Event>, t0: int, until: int)
    requires Inv(s) && Clocks(s, t0, until) && ReadWithin(s, events, t0, until)
    ensures Added(s, events) <= Credit(s.rate, Length(Credited(s, events))) + Bursts(s.burst, Resets(s, events))
    decreases |events|
  {
    hide Inv, Clocks, Next, Credit, CreditOf, Filling, Bursts, Length, Between, MaxR;
    CreditedUnfold(s, events);
    if events == [] {
      ResetsStep(s.burst, 0, false);
      CreditMonotone(s.rate, 0, 0);
      NoLength();
    } else {
      var e, s', rest := events[0], Next(s, events[0]), events[1..];
      StepAccounts(s, e);
      StepKeepsClocks(s, e, t0, until);
      StepAdds(s, e, t0, until);
      AddedIsCredited(s', rest, t0, until);
      LengthConcat(CreditOf(s, e), Credited(s', rest));
      CreditSplit(s.rate, Length(CreditOf(s, e)), Length(Credited(s', rest)));
      ResetsStep(s.burst, Resets(s', rest), Filling(s, e));
    }
  }

  lemma NoLength()
    ensures Length([]) == 0
  {
  }

  lemma CreditedUnfold(s: System, events: seq<Event>)
    ensures Credited(s, events) ==
            if events == [] then [] else CreditOf(s, events[0]) + Credited(Next(s, events[0]), events[1..])
  {
  }

  lemma {:induction false} CreditedBetween(s: System, events: seq<Event>, t0: int, until: int)
    requires Inv(s) && Clocks(s, t0, until) && ReadWithin(s, events, t0, until)
    ensures Between(Credited(s, events), t0, until)
    decreases |events|
  {
    hide Inv, Clocks, Next, CreditOf;
    if events != [] {
      StepAccounts(s, events[0]);
      StepKeepsClocks(s, events[0], t0, until);
      StepAdds(s, events[0], t0, until);
      CreditedBetween(Next(s, events[0]), events[1..], t0, until);
    }
  }

  lemma ResetsStep(burst: nat, n: nat, more: bool)
    ensures Bursts(burst, (if more then 1 else 0) + n) == (if more then burst as real else 0.0) + Bursts(burst, n)
    ensures Bursts(burst, 0) == 0.0
  {
  }

  /** Then in any run in which no instant is credited twice, with threads racing for
      tokens, exchanges failing and resets falling anywhere: grants number at most one
      burst at the start, one for each reset, and the rate times the time gone by. */
  lemma GrantsWithinTimeAndResets(rate: nat, burst: nat, t0: int, events: seq<Event>, until: int)
    requires t0 <= until && ReadWithin(Init(rate, burst, t0), events, t0, until)
    requires NoneTwice(Credited(Init(rate, burst, t0), events))
    ensures
      var s := Init(rate, burst, t0);
      Granted(s, events) as real <=
      burst as real + Bursts(burst, Resets(s, events)) + Credit(rate, until - t0)
  {
    hide Clocks, NoneTwice, Between, Credited, Credit, Bursts, ReadWithin;
    var s := Init(rate, burst, t0);
    InitClocks(rate, burst, t0, until);
    AddedIsCredited(s, events, t0, until);
    CreditedBetween(s, events, t0, until);
    SpansFit(Credited(s, events), t0, until);
    CreditMonotone(rate, Length(Credited(s, events)), until - t0);
    TokensConserved(s, events);
  }

  lemma InitClocks(rate: nat, burst: nat, t0: int, until: int)
    ensures Inv(Init(rate, burst, t0)) && Clocks(Init(rate, burst, t0), t0, until)
  {
  }
}

/** The token bucket shared by any number of threads: each atomic load, store and
    compare-exchange of tryAcquire, refill and reset is a step, and a weak
    compare-exchange may fail spuriously. */
module LimiterRaces {
  import opened Types
  import opened OrderRateLimiter

  datatype Thread =
    | LoadLast(now: int)
    | LoadTokens(now: int, last: int, credit: real)
    | SwapTokens(now: int, last: int, credit: real, current: real)
    | SwapLast(now: int, last: int)
    | LoadToTake(tries: nat)
    | SwapToTake(tries: nat, current: real)
    | Finished(granted: bool)
    | StoreFull
    | StoreNow
    | ResetDone

  datatype System = System(rate: nat, burst: nat, tokens: real, last: int, threads: map<nat, Thread>)

  datatype Event =
    | CallAcquire(tid: nat, now: int)
    | CallReset(tid: nat)
    | Step(tid: nat, now: int, spurious: bool)

  function Init(rate: nat, burst: nat, now: int): System {
    System(rate, burst, burst as real, now, map[])
  }

  predicate Busy(s: System, tid: nat) {
    tid in s.threads && !s.threads[tid].Finished? && !s.threads[tid].ResetDone?
  }

  function StepThread(s: System, tid: nat, now: int, spurious: bool): System
    requires tid in s.threads
  {
    var goto := (t: Thread) => s.threads[tid := t];
    match s.threads[tid]
    case LoadLast(t) =>
      var credit := Credit(s.rate, t - s.last);
      s.(threads := goto(if t - s.last <= 0 || credit < 0.001 then LoadToTake(0)
                         else LoadTokens(t, s.last, credit)))
    case LoadTokens(t, last, credit) => s.(threads := goto(SwapTokens(t, last, credit, s.tokens)))
    case SwapTokens(t, last, credit, current) =>
      if s.tokens == current && !spurious then
        s.(tokens := MinR(current + credit, s.burst as real), threads := goto(SwapLast(t, last)))
      else s.(threads := goto(LoadToTake(0)))
    case SwapLast(t, last) =>
      s.(last := if s.last == last then t else s.last, threads := goto(LoadToTake(0)))
    case LoadToTake(tries) =>
      s.(threads := goto(if s.tokens < 1.0 then Finished(false) else SwapToTake(tries, s.tokens)))
    case SwapToTake(tries, current) =>
      if s.tokens == current && !spurious then
        s.(tokens := current - 1.0, threads := goto(Finished(true)))
      else s.(threads := goto(if tries + 1 < MAX_RETRIES then LoadToTake(tries + 1) else Finished(false)))
    case StoreFull => s.(tokens := s.burst as real, threads := goto(StoreNow))
    case StoreNow => s.(last := now, threads := goto(ResetDone))
    case Finished(_) => s
    case ResetDone => s
  }

  /** A choice that is not enabled leaves the state alone. */
  function Next(s: System, e: Event): System {
    match e
    case CallAcquire(tid, now) => if Busy(s, tid) then s else s.(threads := s.threads[tid := LoadLast(now)])
    case CallReset(tid) => if Busy(s, tid) then s else s.(threads := s.threads[tid := StoreFull])
    case Step(tid, now, spurious) => if tid in s.threads then StepThread(s, tid, now, spurious) else s
  }

  function Run(s: System, events: seq<Event>): System
    decreases |events|
  {
    if events == [] then s else Run(Next(s, events[0]), events[1..])
  }

  /** This step makes a pending tryAcquire return true. */
  ghost predicate Granting(s: System, e: Event) {
    && e.Step? && Busy(s, e.tid)
    && Next(s, e).threads[e.tid] == Finished(true)
  }

  /** Calls that have returned true. */
  ghost function Granted(s: System, events: seq<Event>): nat
    decreases |events|
  {
    if events == [] then 0
    else (if Granting(s, events[0]) then 1 else 0) + Granted(Next(s, events[0]), events[1..])
  }

  /** Everything ever put into the bucket: the sum of its increases. */
  ghost function Added(s: System, events: seq<Event>): real
    decreases |events|
  {
    if events == [] then 0.0
    else MaxR(0.0, Next(s, events[0]).tokens - s.tokens) + Added(Next(s, events[0]), events[1..])
  }

  ghost predicate ThreadInv(t: Thread, burst: nat) {
    && (t.LoadTokens? || t.SwapTokens? ==> t.credit >= 0.001)
    && (t.SwapTokens? ==> 0.0 <= t.current <= burst as real)
    && (t.SwapToTake? ==> 1.0 <= t.current && t.tries < MAX_RETRIES)
    && (t.LoadToTake? ==> t.tries < MAX_RETRIES)
  }

  ghost predicate Inv(s: System) {
    && 0.0 <= s.tokens <= s.burst as real
    && forall tid <- s.threads :: ThreadInv(s.threads[tid], s.burst)
  }

  /** A step takes a token away exactly when it makes a call return true, and then
      takes away exactly one. */
  lemma StepAccounts(s: System, e: Event)
    requires Inv(s)
    ensures Inv(Next(s, e)) && Next(s, e).burst == s.burst
    ensures Granting(s, e) ==> Next(s, e).tokens == s.tokens - 1.0
    ensures !Granting(s, e) ==> Next(s, e).tokens >= s.tokens
  {
  }

  /** Whatever the interleaving, the bucket never leaves [0, burst], and what is in
      it is what was there, plus what was added, less one token per granted call. */
  lemma {:induction false} TokensConserved(s: System, events: seq<Event>)
    requires Inv(s)
    ensures
      var s' := Run(s, events);
      && 0.0 <= s'.tokens <= s.burst as real
      && s'.tokens == s.tokens + Added(s, events) - Granted(s, events) as real
    decreases |events|
  {
    if events != [] {
      StepAccounts(s, events[0]);
      TokensConserved(Next(s, events[0]), events[1..]);
    }
  }

  /** So grants never exceed the initial burst plus everything credited since. */
  lemma GrantsAreFunded(rate: nat, burst: nat, now: int, events: seq<Event>)
    ensures
      var s := Init(rate, burst, now);
      && 0.0 <= Run(s, events).tokens <= burst as real
      && Granted(s, events) as real <= burst as real + Added(s, events)
  {
    TokensConserved(Init(rate, burst, now), events);
  }

  // -------------------------------------------------------------------------
  // A call left alone
  // -------------------------------------------------------------------------

  /** k steps of one thread, none of them failing spuriously. */
  function Alone(tid: nat, now: int, k: nat): seq<Event> {
    if k == 0 then [] else [Step(tid, now, false)] + Alone(tid, now, k - 1)
  }

  /** The refill: at most four steps bring the call to the acquire loop. */
  lemma LoneRefill(s: System, tid: nat, now: int)
    requires tid in s.threads && s.threads[tid] == LoadLast(now)
    ensures exists k :: 0 <= k <= 4 && Run(s, Alone(tid, now, k)) == AfterRefill(s, tid, now)
  {
    var s1 := Next(s, Step(tid, now, false));
    if s1.threads[tid].LoadToTake? {
      assert Run(s1, Alone(tid, now, 0)) == s1;
      assert Run(s, Alone(tid, now, 1)) == AfterRefill(s, tid, now) by {
        assert Alone(tid, now, 1)[1..] == Alone(tid, now, 0);
      }
    } else {
      var s2 := Next(s1, Step(tid, now, false));
      var s3 := Next(s2, Step(tid, now, false));
      var s4 := Next(s3, Step(tid, now, false));
      assert s4 == AfterRefill(s, tid, now);
      assert Run(s4, Alone(tid, now, 0)) == s4;
      AloneStep(s3, tid, now, 0);
      AloneStep(s2, tid, now, 1);
      AloneStep(s1, tid, now, 2);
      AloneStep(s, tid, now, 3);
    }
  }

  lemma AloneStep(s: System, tid: nat, now: int, k: nat)
    ensures Run(s, Alone(tid, now, k + 1)) == Run(Next(s, Step(tid, now, false)), Alone(tid, now, k))
  {
    assert Alone(tid, now, k + 1)[1..] == Alone(tid, now, k);
  }

  function BucketOf(s: System): Bucket { Bucket(s.tokens, s.last) }

  function AfterRefill(s: System, tid: nat, now: int): System {
    var r := Refill(BucketOf(s), s.rate, s.burst, now);
    s.(tokens := r.tokens, last := r.last, threads := s.threads[tid := LoadToTake(0)])
  }

  /** The acquire loop: two steps at most. */
  lemma LoneTake(s: System, tid: nat, now: int)
    requires tid in s.threads && s.threads[tid] == LoadToTake(0)
    ensures
      var s' := Run(s, Alone(tid, now, 2));
      && tid in s'.threads && s'.last == s.last
      && if s.tokens < 1.0 then s'.tokens == s.tokens && s'.threads[tid] == Finished(false)
         else s'.tokens == s.tokens - 1.0 && s'.threads[tid] == Finished(true)
  {
    var s1 := Next(s, Step(tid, now, false));
    AloneStep(s, tid, now, 1);
    AloneStep(s1, tid, now, 0);
  }

  /** A call that runs alone, without spurious failures, is one Attempt of the
      sequential bucket. */
  lemma LoneCallIsAttempt(s: System, tid: nat, now: int) returns (k: nat)
    requires !Busy(s, tid)
    ensures
      var s' := Run(Next(s, CallAcquire(tid, now)), Alone(tid, now, k));
      && tid in s'.threads
      && (BucketOf(s'), s'.threads[tid]) ==
         (Attempt(BucketOf(s), s.rate, s.burst, now).0, Finished(Attempt(BucketOf(s), s.rate, s.burst, now).1))
  {
    hide Run, Alone;
    var start := Next(s, CallAcquire(tid, now));
    LoneRefill(start, tid, now);
    var j :| 0 <= j <= 4 && Run(start, Alone(tid, now, j)) == AfterRefill(start, tid, now);
    LoneTake(AfterRefill(start, tid, now), tid, now);
    AloneAppend(tid, now, j, 2);
    RunAppend(start, Alone(tid, now, j), Alone(tid, now, 2));
    k := j + 2;
  }

  /** A reset that runs alone leaves a full bucket at the time it read. */
  lemma LoneResetFills(s: System, tid: nat, now: int)
    requires !Busy(s, tid)
    ensures BucketOf(Run(Next(s, CallReset(tid)), Alone(tid, now, 2))) == Bucket(s.burst as real, now)
  {
    var start := Next(s, CallReset(tid));
    AloneStep(start, tid, now, 1);
    AloneStep(Next(start, Step(tid, now, false)), tid, now, 0);
  }

  lemma {:induction false} AloneAppend(tid: nat, now: int, j: nat, k: nat)
    ensures Alone(tid, now, j) + Alone(tid, now, k) == Alone(tid, now, j + k)
  {
    if j > 0 {
      AloneAppend(tid, now, j - 1, k);
      assert Alone(tid, now, j) + Alone(tid, now, k) == [Step(tid, now, false)] + (Alone(tid, now, j - 1) + Alone(tid, now, k));
    } else {
      assert Alone(tid, now, 0) + Alone(tid, now, k) == Alone(tid, now, k);
    }
  }

  // -------------------------------------------------------------------------
  // No instant is credited twice, exactly when credits are up to date
  // -------------------------------------------------------------------------

  /** The time a refill credits: from the timestamp it loaded to its own. */
  datatype Span = Span(after: int, upTo: int)
  {
    predicate Has(x: int) { after < x <= upTo }
  }

  predicate InRefill(t: Thread) { t.LoadTokens? || t.SwapTokens? || t.SwapLast? }

  /** This step is a refill's successful token exchange. */
  predicate Crediting(s: System, e: Event) {
    && e.Step? && e.tid in s.threads && s.threads[e.tid].SwapTokens?
    && s.tokens == s.threads[e.tid].current && !e.spurious
  }

  /** The timestamp behind the credit is still in force, and no other thread that has
      credited it is about to replace it. */
  predicate UpToDate(s: System, tid: nat)
    requires tid in s.threads && s.threads[tid].SwapTokens?
  {
    s.threads[tid].last == s.last && forall other <- s.threads :: !s.threads[other].SwapLast?
  }

  ghost predicate CreditsUpToDate(s: System, events: seq<Event>)
    decreases |events|
  {
    events == [] ||
    ((Crediting(s, events[0]) ==> UpToDate(s, events[0].tid)) && CreditsUpToDate(Next(s, events[0]), events[1..]))
  }

  ghost function CreditOf(s: System, e: Event): seq<Span> {
    if Crediting(s, e) then [Span(s.threads[e.tid].last, s.threads[e.tid].now)] else []
  }

  /** The spans credited in a run, in order. */
  ghost function Credited(s: System, events: seq<Event>): seq<Span>
    decreases |events|
  {
    if events == [] then [] else CreditOf(s, events[0]) + Credited(Next(s, events[0]), events[1..])
  }

  ghost predicate NoneTwice(spans: seq<Span>) {
    forall x, i, j | 0 <= i < j < |spans| :: !(spans[i].Has(x) && spans[j].Has(x))
  }

  ghost predicate NoResets(events: seq<Event>) {
    forall e <- events :: !e.CallReset?
  }

  ghost predicate ThreadTimes(t: Thread, rate: nat, t0: int, last: int) {
    && !t.StoreFull? && !t.StoreNow?
    && (InRefill(t) ==> t0 <= t.last <= last && t.last < t.now)
    && (t.LoadTokens? || t.SwapTokens? ==> t.credit == Credit(rate, t.now - t.last))
    && (t.SwapLast? ==> t.last == last)
  }

  /** `upTo` is how far credit reaches: the timestamp, or what it is about to become. */
  ghost predicate Reaches(s: System, upTo: int) {
    && (forall tid <- s.threads :: s.threads[tid].SwapLast? ==> upTo == s.threads[tid].now)
    && (upTo == s.last || exists tid :: tid in s.threads && s.threads[tid].SwapLast?)
  }

  ghost predicate Times(s: System, t0: int, upTo: int) {
    && t0 <= s.last <= upTo
    && Reaches(s, upTo)
    && (forall tid <- s.threads :: ThreadTimes(s.threads[tid], s.rate, t0, s.last))
    && (forall a, b | a in s.threads && b in s.threads && s.threads[a].SwapLast? && s.threads[b].SwapLast? :: a == b)
  }

  /** How far credit reaches after a step. */
  function ReachAfter(s: System, e: Event, upTo: int): int {
    if Crediting(s, e) then s.threads[e.tid].now else upTo
  }

  lemma StepKeepsTimes(s: System, e: Event, t0: int, upTo: int)
    requires Times(s, t0, upTo) && !e.CallReset?
    requires Crediting(s, e) ==> UpToDate(s, e.tid)
    ensures Times(Next(s, e), t0, ReachAfter(s, e, upTo))
    ensures upTo <= ReachAfter(s, e, upTo) && Next(s, e).rate == s.rate
  {
    hide Times;
    TimesBounds(s, t0, upTo);
    if Crediting(s, e) {
      CreditKeepsTimes(s, e, t0, upTo);
    } else if e.Step? && e.tid in s.threads && s.threads[e.tid].SwapLast? {
      StampKeepsTimes(s, e, t0, upTo);
    } else {
      OtherKeepsTimes(s, e, t0, upTo);
    }
  }

  /** What a clock fact about one thread needs. */
  lemma TimesBounds(s: System, t0: int, upTo: int)
    requires Times(s, t0, upTo)
    ensures t0 <= s.last <= upTo
    ensures forall tid <- s.threads :: ThreadTimes(s.threads[tid], s.rate, t0, s.last)
    ensures (forall tid <- s.threads :: !s.threads[tid].SwapLast?) ==> upTo == s.last
  {
  }

  /** The refill's token exchange moves the reach to its own time. */
  lemma CreditKeepsTimes(s: System, e: Event, t0: int, upTo: int)
    requires Times(s, t0, upTo) && Crediting(s, e) && UpToDate(s, e.tid)
    ensures Times(Next(s, e), t0, s.threads[e.tid].now)
  {
    var s' := Next(s, e);
    var t := s.threads[e.tid];
    assert s'.threads == s.threads[e.tid := SwapLast(t.now, t.last)] && s'.last == s.last && s'.rate == s.rate;
    assert s'.threads[e.tid].SwapLast?;
  }

  /** The new timestamp is what the reach already was. */
  lemma StampKeepsTimes(s: System, e: Event, t0: int, upTo: int)
    requires Times(s, t0, upTo) && e.Step? && e.tid in s.threads && s.threads[e.tid].SwapLast?
    ensures Times(Next(s, e), t0, upTo)
  {
    var s' := Next(s, e);
    assert s'.threads == s.threads[e.tid := LoadToTake(0)] && s'.last == upTo && s'.rate == s.rate;
  }

  /** Any other step changes neither timestamp nor reach. */
  lemma OtherKeepsTimes(s: System, e: Event, t0: int, upTo: int)
    requires Times(s, t0, upTo) && !e.CallReset? && !Crediting(s, e)
    requires e.Step? && e.tid in s.threads ==> !s.threads[e.tid].SwapLast?
    ensures Times(Next(s, e), t0, upTo)
  {
    hide Next, Crediting, ThreadTimes;
    OtherStep(s, e, t0);
  }

  lemma OtherStep(s: System, e: Event, t0: int)
    requires !e.CallReset? && !Crediting(s, e)
    requires e.Step? && e.tid in s.threads ==> !s.threads[e.tid].SwapLast?
    requires t0 <= s.last && forall tid <- s.threads :: ThreadTimes(s.threads[tid], s.rate, t0, s.last)
    ensures
      var s' := Next(s, e);
      && s'.last == s.last && s'.rate == s.rate
      && (forall tid <- s'.threads :: s'.threads[tid].SwapLast? ==> tid in s.threads && s'.threads[tid] == s.threads[tid])
      && (forall tid <- s.threads :: s.threads[tid].SwapLast? ==> tid in s'.threads && s'.threads[tid] == s.threads[tid])
      && (forall tid <- s'.threads :: ThreadTimes(s'.threads[tid], s'.rate, t0, s'.last))
  {
  }

  /** The spans so far cover exactly the time up to which credit reaches. */
  ghost predicate Covers(spans: seq<Span>, t0: int, upTo: int) {
    && (forall i | 0 <= i < |spans| :: t0 <= spans[i].after && spans[i].upTo <= upTo)
    && (forall x | t0 < x <= upTo :: Includes(spans, x))
  }

  ghost predicate Includes(spans: seq<Span>, x: int) {
    exists i :: 0 <= i < |spans| && spans[i].Has(x)
  }

  lemma CoversMore(spans: seq<Span>, t0: int, upTo: int, now: int)
    requires NoneTwice(spans) && Covers(spans, t0, upTo) && t0 <= upTo <= now
    ensures NoneTwice(spans + [Span(upTo, now)]) && Covers(spans + [Span(upTo, now)], t0, now)
  {
    var more := spans + [Span(upTo, now)];
    forall x | t0 < x <= now
      ensures Includes(more, x)
    {
      if x <= upTo {
        assert Includes(spans, x);
        var i :| 0 <= i < |spans| && spans[i].Has(x);
        assert more[i].Has(x);
      } else {
        assert more[|spans|].Has(x);
      }
    }
  }

  /** A credit that is not up to date repeats the first instant of its span. */
  lemma StaleCreditRepeats(s: System, e: Event, t0: int, upTo: int, spans: seq<Span>, later: seq<Span>)
    requires Times(s, t0, upTo) && Covers(spans, t0, upTo)
    requires Crediting(s, e) && !UpToDate(s, e.tid)
    ensures !NoneTwice(spans + (CreditOf(s, e) + later))
  {
    var span := Span(s.threads[e.tid].last, s.threads[e.tid].now);
    var x := span.after + 1;
    assert span.Has(x) && x <= upTo && Includes(spans, x);
    var i :| 0 <= i < |spans| && spans[i].Has(x);
    var all := spans + (CreditOf(s, e) + later);
    assert all[i].Has(x) && all[|spans|].Has(x);
  }

  lemma {:induction false} NoneTwiceExactlyWhenFrom(s: System, events: seq<Event>, t0: int, upTo: int, spans: seq<Span>)
    requires Times(s, t0, upTo) && NoResets(events)
    requires NoneTwice(spans) && Covers(spans, t0, upTo)
    ensures NoneTwice(spans + Credited(s, events)) <==> CreditsUpToDate(s, events)
    decreases |events|
  {
    hide Times, Next, Covers, NoneTwice;
    if events == [] {
      assert spans + [] == spans;
    } else {
      var e, s', rest := events[0], Next(s, events[0]), events[1..];
      if Crediting(s, e) && !UpToDate(s, e.tid) {
        StaleCreditRepeats(s, e, t0, upTo, spans, Credited(s', rest));
      } else {
        StepKeepsTimes(s, e, t0, upTo);
        UpToDateCreditExtends(s, e, t0, upTo, spans);
        assert spans + Credited(s, events) == (spans + CreditOf(s, e)) + Credited(s', rest);
        NoneTwiceExactlyWhenFrom(s', rest, t0, ReachAfter(s, e, upTo), spans + CreditOf(s, e));
      }
    }
  }

  lemma UpToDateCreditExtends(s: System, e: Event, t0: int, upTo: int, spans: seq<Span>)
    requires Times(s, t0, upTo) && NoneTwice(spans) && Covers(spans, t0, upTo)
    requires Crediting(s, e) ==> UpToDate(s, e.tid)
    ensures NoneTwice(spans + CreditOf(s, e)) && Covers(spans + CreditOf(s, e), t0, ReachAfter(s, e, upTo))
  {
    if Crediting(s, e) {
      assert upTo == s.last;
      CoversMore(spans, t0, upTo, s.threads[e.tid].now);
    } else {
      assert spans + [] == spans;
    }
  }

  /** In every interleaving without a reset: no instant is ever credited twice if and
      only if every successful token exchange of a refill finds its timestamp still in
      force and no other refill between its own exchange and its new timestamp. */
  lemma NoInstantTwiceExactlyWhen(rate: nat, burst: nat, t0: int, events: seq<Event>)
    requires NoResets(events)
    ensures NoneTwice(Credited(Init(rate, burst, t0), events)) <==> CreditsUpToDate(Init(rate, burst, t0), events)
  {
    NoneTwiceExactlyWhenFrom(Init(rate, burst, t0), events, t0, t0, []);
    assert [] + Credited(Init(rate, burst, t0), events) == Credited(Init(rate, burst, t0), events);
  }

  // -------------------------------------------------------------------------
  // Grants against the clock
  // -------------------------------------------------------------------------

  /** No clock reading lies beyond `until`. */
  ghost predicate ReadBy(s: System, events: seq<Event>, until: int) {
    && (forall tid <- s.threads :: (s.threads[tid].LoadLast? || InRefill(s.threads[tid]) ==> s.threads[tid].now <= until))
    && (forall e <- events :: e.CallAcquire? ==> e.now <= until)
  }

  /** A step adds no more than the credit for the time by which the reach grows. */
  lemma StepAddsCredit(s: System, e: Event, t0: int, upTo: int)
    requires Inv(s) && Times(s, t0, upTo)
    requires Crediting(s, e) ==> UpToDate(s, e.tid)
    requires !e.CallReset?
    ensures MaxR(0.0, Next(s, e).tokens - s.tokens) <= Credit(s.rate, ReachAfter(s, e, upTo) - upTo)
  {
    CreditMonotone(s.rate, 0, 0);
    if Crediting(s, e) {
      assert upTo == s.last;
    } else {
      StepAccounts(s, e);
    }
  }

  lemma ReadByStep(s: System, events: seq<Event>, until: int)
    requires ReadBy(s, events, until) && events != []
    ensures ReadBy(Next(s, events[0]), events[1..], until)
    ensures Crediting(s, events[0]) ==> s.threads[events[0].tid].now <= until
  {
  }

  /** While credits are up to date, what is added is bounded by the clock. */
  lemma {:induction false} AddedWithinTime(s: System, events: seq<Event>, t0: int, upTo: int, until: int)
    requires Inv(s) && Times(s, t0, upTo) && upTo <= until
    requires NoResets(events) && ReadBy(s, events, until) && CreditsUpToDate(s, events)
    ensures Added(s, events) <= Credit(s.rate, until - upTo)
    decreases |events|
  {
    hide Inv, Times, Next, ReadBy, Credit;
    if events == [] {
      CreditMonotone(s.rate, 0, until - upTo);
    } else {
      var e, s', upTo' := events[0], Next(s, events[0]), ReachAfter(s, events[0], upTo);
      StepAccounts(s, e);
      StepKeepsTimes(s, e, t0, upTo);
      ReadByStep(s, events, until);
      StepAddsCredit(s, e, t0, upTo);
      AddedWithinTime(s', events[1..], t0, upTo', until);
      CreditSplit(s.rate, upTo' - upTo, until - upTo');
      assert upTo' - upTo + (until - upTo') == until - upTo;
    }
  }

  /** The bound from construction holds in every interleaving, with threads racing for
      tokens and exchanges failing, as long as no instant is credited twice. */
  lemma GrantsWithinTime(rate: nat, burst: nat, t0: int, events: seq<Event>, until: int)
    requires t0 <= until && NoResets(events) && ReadBy(Init(rate, burst, t0), events, until)
    requires NoneTwice(Credited(Init(rate, burst, t0), events))
    ensures Granted(Init(rate, burst, t0), events) as real <= burst as real + Credit(rate, until - t0)
  {
    var s := Init(rate, burst, t0);
    NoInstantTwiceExactlyWhen(rate, burst, t0, events);
    AddedWithinTime(s, events, t0, t0, until);
    TokensConserved(s, events);
  }

  /** Where a run leaves the clock, and what is left to ask of the rest of it. */
  lemma {:induction false} RunKeepsTimes(s: System, before: seq<Event>, rest: seq<Event>, t0: int, upTo: int, until: int)
    returns (upTo': int)
    requires Inv(s) && Times(s, t0, upTo) && upTo <= until
    requires NoResets(before + rest) && ReadBy(s, before + rest, until) && CreditsUpToDate(s, before + rest)
    ensures
      var s' := Run(s, before);
      && Inv(s') && Times(s', t0, upTo') && upTo' <= until && s'.rate == s.rate && s'.burst == s.burst
      && NoResets(rest) && ReadBy(s', rest, until) && CreditsUpToDate(s', rest)
    decreases |before|
  {
    hide Inv, Times, Next, ReadBy;
    if before == [] {
      assert before + rest == rest;
      upTo' := upTo;
    } else {
      assert (before + rest)[1..] == before[1..] + rest;
      StepAccounts(s, before[0]);
      StepKeepsTimes(s, before[0], t0, upTo);
      ReadByStep(s, before + rest, until);
      upTo' := RunKeepsTimes(Next(s, before[0]), before[1..], rest, t0, ReachAfter(s, before[0], upTo), until);
    }
  }

  /** The same from any moment of such a run: however it came about, the rest of the run
      grants at most the burst plus the credit for the time since the last refill. */
  lemma GrantsSinceLastRefill(rate: nat, burst: nat, t0: int, before: seq<Event>, rest: seq<Event>, until: int)
    requires t0 <= until && NoResets(before + rest) && ReadBy(Init(rate, burst, t0), before + rest, until)
    requires NoneTwice(Credited(Init(rate, burst, t0), before + rest))
    ensures
      var s := Run(Init(rate, burst, t0), before);
      Granted(s, rest) as real <= burst as real + Credit(rate, until - s.last)
  {
    hide Times, Inv, NoneTwice, ReadBy, CreditsUpToDate, Credited, Credit, Next;
    InitTimes(rate, burst, t0);
    NoInstantTwiceExactlyWhen(rate, burst, t0, before + rest);
    var upTo := RunKeepsTimes(Init(rate, burst, t0), before, rest, t0, t0, until);
    var s := Run(Init(rate, burst, t0), before);
    TimesBounds(s, t0, upTo);
    AddedWithinTime(s, rest, t0, upTo, until);
    TokensConserved(s, rest);
    InvBounds(s);
    CreditMonotone(rate, until - upTo, until - s.last);
  }

  lemma InitTimes(rate: nat, burst: nat, t0: int)
    ensures Inv(Init(rate, burst, t0)) && Times(Init(rate, burst, t0), t0, t0)
  {
  }

  lemma InvBounds(s: System)
    requires Inv(s)
    ensures 0.0 <= s.tokens <= s.burst as real
  {
  }

  /** Every refill loads the timestamp while no other refill is under way. */
  ghost predicate RefillsApart(s: System, events: seq<Event>)
    decreases |events|
  {
    events == [] ||
    (&& (events[0].Step? && events[0].tid in s.threads && s.threads[events[0].tid].LoadLast? ==>
           forall tid <- s.threads :: !InRefill(s.threads[tid]))
     && RefillsApart(Next(s, events[0]), events[1..]))
  }

  /** At most one thread is refilling, from the timestamp in force. */
  ghost predicate OneRefill(s: System) {
    && (forall a, b | a in s.threads && b in s.threads && InRefill(s.threads[a]) && InRefill(s.threads[b]) :: a == b)
    && (forall tid <- s.threads :: InRefill(s.threads[tid]) ==> s.threads[tid].last == s.last)
    && (forall tid <- s.threads :: !s.threads[tid].StoreFull? && !s.threads[tid].StoreNow?)
  }

  lemma {:induction false} ApartIsUpToDate(s: System, events: seq<Event>)
    requires OneRefill(s) && NoResets(events) && RefillsApart(s, events)
    ensures CreditsUpToDate(s, events)
    decreases |events|
  {
    if events != [] {
      assert OneRefill(Next(s, events[0]));
      ApartIsUpToDate(Next(s, events[0]), events[1..]);
    }
  }

  /** In particular when refills never overlap, however the acquires race. */
  lemma RefillsApartWithinTime(rate: nat, burst: nat, t0: int, events: seq<Event>, until: int)
    requires t0 <= until && NoResets(events) && ReadBy(Init(rate, burst, t0), events, until)
    requires RefillsApart(Init(rate, burst, t0), events)
    ensures Granted(Init(rate, burst, t0), events) as real <= burst as real + Credit(rate, until - t0)
  {
    ApartIsUpToDate(Init(rate, burst, t0), events);
    NoInstantTwiceExactlyWhen(rate, burst, t0, events);
    GrantsWithinTime(rate, burst, t0, events, until);
  }

  // -------------------------------------------------------------------------
  // A run that credits a second twice
  // -------------------------------------------------------------------------

  lemma {:induction false} RunAppend(s: System, a: seq<Event>, b: seq<Event>)
    ensures Run(s, a + b) == Run(Run(s, a), b)
    ensures Granted(s, a + b) == Granted(s, a) + Granted(Run(s, a), b)
    decreases |a|
  {
    if a == [] {
      assert a + b == b;
    } else {
      assert (a + b)[1..] == a[1..] + b;
      RunAppend(Next(s, a[0]), a[1..], b);
    }
  }

  lemma Unroll4(s: System, w: seq<Event>)
    requires |w| == 4
    ensures
      var x1 := Next(s, w[0]);
      var x2 := Next(x1, w[1]);
      var x3 := Next(x2, w[2]);
      && Run(s, w) == Next(x3, w[3])
      && Granted(s, w) == (if Granting(s, w[0]) then 1 else 0) + (if Granting(x1, w[1]) then 1 else 0)
                          + (if Granting(x2, w[2]) then 1 else 0) + (if Granting(x3, w[3]) then 1 else 0)
  {
    var x1 := Next(s, w[0]);
    var x2 := Next(x1, w[1]);
    var x3 := Next(x2, w[2]);
    assert w[1..][1..] == w[2..] && w[2..][1..] == w[3..] && w[3..][1..] == [];
    assert Granted(x3, w[3..]) == if Granting(x3, w[3]) then 1 else 0;
    assert Granted(x2, w[2..]) == (if Granting(x2, w[2]) then 1 else 0) + Granted(x3, w[3..]);
    assert Granted(x1, w[1..]) == (if Granting(x1, w[1]) then 1 else 0) + Granted(x2, w[2..]);
    assert Run(x3, w[3..]) == Next(x3, w[3]);
    assert Run(x2, w[2..]) == Run(x3, w[3..]);
    assert Run(x1, w[1..]) == Run(x2, w[2..]);
  }

  const SECOND := 1_000_000_000

  /** The state of the race below once call 0 took the only token. */
  function Spent(tokens: real, last: int, one: Thread, two: Thread): System {
    System(1, 1, tokens, last, map[0 := Finished(true), 1 := one, 2 := two])
  }

  /** `w` leads from s to s' and grants g calls, none of them before time 0 or after
      one second, without a reset. */
  ghost predicate Leads(s: System, w: seq<Event>, s': System, g: nat) {
    && Run(s, w) == s' && Granted(s, w) == g
    && forall e <- w :: !e.CallReset? && (e.CallAcquire? ==> 0 <= e.now <= SECOND)
  }

  lemma LeadsTwice(s: System, a: seq<Event>, s1: System, g: nat, b: seq<Event>, s2: System, g2: nat)
    requires Leads(s, a, s1, g) && Leads(s1, b, s2, g2)
    ensures Leads(s, a + b, s2, g + g2)
  {
    RunAppend(s, a, b);
  }

  lemma FirstCallTakesBurst() returns (s': System, w: seq<Event>)
    ensures s' == System(1, 1, 0.0, 0, map[0 := Finished(true)])
    ensures Leads(Init(1, 1, 0), w, s', 1)
  {
    s' := System(1, 1, 0.0, 0, map[0 := Finished(true)]);
    w := [CallAcquire(0, 0), Step(0, 0, false), Step(0, 0, false), Step(0, 0, false)];
    Unroll4(Init(1, 1, 0), w);
  }

  lemma BothReadOldStamp(s: System) returns (s': System, w: seq<Event>)
    requires s == System(1, 1, 0.0, 0, map[0 := Finished(true)])
    ensures s' == Spent(0.0, 0, LoadTokens(SECOND, 0, 1.0), LoadTokens(SECOND, 0, 1.0))
    ensures Leads(s, w, s', 0)
  {
    s' := Spent(0.0, 0, LoadTokens(SECOND, 0, 1.0), LoadTokens(SECOND, 0, 1.0));
    w := [CallAcquire(1, SECOND), CallAcquire(2, SECOND), Step(1, SECOND, false), Step(2, SECOND, false)];
    assert Credit(1, SECOND) == 1.0;
    Unroll4(s, w);
  }

  lemma OneCredits(s: System) returns (s': System, w: seq<Event>)
    requires s == Spent(0.0, 0, LoadTokens(SECOND, 0, 1.0), LoadTokens(SECOND, 0, 1.0))
    ensures s' == Spent(1.0, SECOND, SwapToTake(0, 1.0), LoadTokens(SECOND, 0, 1.0))
    ensures Leads(s, w, s', 0)
  {
    s' := Spent(1.0, SECOND, SwapToTake(0, 1.0), LoadTokens(SECOND, 0, 1.0));
    w := [Step(1, SECOND, false), Step(1, SECOND, false), Step(1, SECOND, false), Step(1, SECOND, false)];
    Unroll4(s, w);
  }

  lemma OneTakesTwoCredits(s: System) returns (s': System, w: seq<Event>)
    requires s == Spent(1.0, SECOND, SwapToTake(0, 1.0), LoadTokens(SECOND, 0, 1.0))
    ensures s' == Spent(1.0, SECOND, Finished(true), LoadToTake(0))
    ensures Leads(s, w, s', 1)
  {
    s' := Spent(1.0, SECOND, Finished(true), LoadToTake(0));
    w := [Step(1, SECOND, false), Step(2, SECOND, false), Step(2, SECOND, false), Step(2, SECOND, false)];
    Unroll4(s, w);
    var x := Next(Next(Next(s, w[0]), w[1]), w[2]);
    assert x.threads[2] == SwapLast(SECOND, 0);
  }

  lemma TwoTakes(s: System) returns (s': System, w: seq<Event>)
    requires s == Spent(1.0, SECOND, Finished(true), LoadToTake(0))
    ensures Leads(s, w, s', 1)
  {
    w := [Step(2, SECOND, false), Step(2, SECOND, false), Step(2, SECOND, false), Step(2, SECOND, false)];
    s' := Run(s, w);
    Unroll4(s, w);
  }

  /** The uncontended window bound fails under contention: two threads that both read
      the old timestamp each credit the same second. With rate 1 and burst 1, three
      calls are granted within one second, although burst + rate + 0.001 < 3. */
  lemma SameSecondCreditedTwice() returns (events: seq<Event>, s': System)
    ensures Leads(Init(1, 1, 0), events, s', 3)
    ensures 1.0 + Credit(1, SECOND) + 0.001 < 3.0
  {
    var s1, w1 := FirstCallTakesBurst();
    var s2, w2 := BothReadOldStamp(s1);
    var s3, w3 := OneCredits(s2);
    var s4, w4 := OneTakesTwoCredits(s3);
    var s5, w5 := TwoTakes(s4);
    LeadsTwice(Init(1, 1, 0), w1, s1, 1, w2, s2, 0);
    LeadsTwice(Init(1, 1, 0), w1 + w2, s2, 1, w3, s3, 0);
    LeadsTwice(Init(1, 1, 0), w1 + w2 + w3, s3, 1, w4, s4, 1);
    LeadsTwice(Init(1, 1, 0), w1 + w2 + w3 + w4, s4, 2, w5, s5, 1);
    events, s' := w1 + w2 + w3 + w4 + w5, s5;
  }
}

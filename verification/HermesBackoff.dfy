/** crank/hermesBackoff.ts:20-59 and the copy of it inlined in crank/bot.ts:625-707: how the
    settle loop paces its requests to the price service. */
module HermesBackoff {
  import opened Results

  const BACKOFF_MULTIPLIER: int := 2
  const RECOVER_AFTER_N_OK: nat := 3

  // ---- the helper ----

  datatype Backoff = Backoff(currentMs: int, consecutiveOk: int)

  function On429(b: Backoff, ceilingMs: int): Backoff {
    Backoff(Min(b.currentMs * BACKOFF_MULTIPLIER, ceilingMs), 0)
  }

  function OnOk(b: Backoff, baseMs: int): Backoff {
    if b.currentMs <= baseMs then b
    else if b.consecutiveOk + 1 >= RECOVER_AFTER_N_OK then Backoff(Max(b.currentMs / 2, baseMs), 0)
    else b.(consecutiveOk := b.consecutiveOk + 1)
  }

  class BackoffState {
    var currentMs: int
    var consecutiveOk: int

    ghost function View(): Backoff
      reads this
    {
      Backoff(currentMs, consecutiveOk)
    }

    constructor (baseMs: int)
      ensures View() == Backoff(baseMs, 0)
    {
      currentMs, consecutiveOk := baseMs, 0;
    }
  }

  method BackoffOn429(s: BackoffState, ceilingMs: int)
    modifies s
    ensures s.View() == On429(old(s.View()), ceilingMs)
  {
    s.currentMs := Min(s.currentMs * BACKOFF_MULTIPLIER, ceilingMs);
    s.consecutiveOk := 0;
  }

  method BackoffOnOk(s: BackoffState, baseMs: int)
    modifies s
    ensures s.View() == OnOk(old(s.View()), baseMs)
  {
    if s.currentMs <= baseMs {
      return;
    }
    s.consecutiveOk := s.consecutiveOk + 1;
    if s.consecutiveOk >= RECOVER_AFTER_N_OK {
      s.currentMs := Max(s.currentMs / 2, baseMs);
      s.consecutiveOk := 0;
    }
  }

  // ---- runs ----

  /** How the settlement of one tuple ends: done, or a failure by its class. */
  datatype Outcome = Settled | RateLimited | NoUpdate | Other

  function Step(b: Backoff, o: Outcome, baseMs: int, ceilingMs: int): Backoff {
    match o
    case Settled => OnOk(b, baseMs)
    case RateLimited => On429(b, ceilingMs)
    case _ => b
  }

  function Run(b: Backoff, os: seq<Outcome>, baseMs: int, ceilingMs: int): Backoff
    decreases os
  {
    if os == [] then b else Run(Step(b, os[0], baseMs, ceilingMs), os[1..], baseMs, ceilingMs)
  }

  predicate InRange(b: Backoff, baseMs: int, ceilingMs: int) {
    && baseMs <= b.currentMs <= ceilingMs
    && 0 <= b.consecutiveOk < RECOVER_AFTER_N_OK
    && (b.currentMs == baseMs ==> b.consecutiveOk == 0)
  }

  lemma {:induction false} RunKeepsRange(b: Backoff, os: seq<Outcome>, baseMs: int, ceilingMs: int)
    requires 0 <= baseMs && InRange(b, baseMs, ceilingMs)
    ensures InRange(Run(b, os, baseMs, ceilingMs), baseMs, ceilingMs)
    decreases os
  {
    if os != [] {
      RunKeepsRange(Step(b, os[0], baseMs, ceilingMs), os[1..], baseMs, ceilingMs);
    }
  }

  /** Every run from the start keeps base <= current <= ceiling, a streak below three and none at
      base, exactly when base <= ceiling. */
  lemma StaysInRangeExactlyWhen(baseMs: int, ceilingMs: int)
    requires 0 <= baseMs
    ensures (forall os :: InRange(Run(Backoff(baseMs, 0), os, baseMs, ceilingMs), baseMs, ceilingMs)) <==>
      baseMs <= ceilingMs
  {
    var start := Backoff(baseMs, 0);
    if baseMs <= ceilingMs {
      forall os ensures InRange(Run(start, os, baseMs, ceilingMs), baseMs, ceilingMs) {
        RunKeepsRange(start, os, baseMs, ceilingMs);
      }
    } else {
      assert Run(start, [], baseMs, ceilingMs) == start;
    }
  }

  lemma {:induction false} BelowStaysBelow(b: Backoff, os: seq<Outcome>, baseMs: int, ceilingMs: int)
    requires ceilingMs < baseMs && b.currentMs <= ceilingMs
    ensures Run(b, os, baseMs, ceilingMs).currentMs <= ceilingMs
    decreases os
  {
    if os != [] {
      BelowStaysBelow(Step(b, os[0], baseMs, ceilingMs), os[1..], baseMs, ceilingMs);
    }
  }

  /** With base above ceiling one rate limit takes the pace below base for good: no number of
      successes brings it back. */
  lemma StuckBelowBase(os: seq<Outcome>, baseMs: int, ceilingMs: int)
    requires ceilingMs < baseMs
    ensures Run(Backoff(baseMs, 0), [RateLimited] + os, baseMs, ceilingMs).currentMs < baseMs
  {
    var all := [RateLimited] + os;
    assert all[0] == RateLimited && all[1..] == os;
    BelowStaysBelow(On429(Backoff(baseMs, 0), ceilingMs), os, baseMs, ceilingMs);
  }

  // ---- recovery ----

  function Pow2(k: nat): nat {
    if k == 0 then 1 else 2 * Pow2(k - 1)
  }

  function Successes(os: seq<Outcome>): nat {
    if os == [] then 0 else (if os[0].Settled? then 1 else 0) + Successes(os[1..])
  }

  lemma {:induction false} BaseIsStable(b: Backoff, os: seq<Outcome>, baseMs: int, ceilingMs: int)
    requires b.currentMs == baseMs && RateLimited !in os
    ensures Run(b, os, baseMs, ceilingMs) == b
  {
    if os != [] {
      BaseIsStable(b, os[1..], baseMs, ceilingMs);
    }
  }

  lemma HalvingFits(x: int, baseMs: int, k: nat)
    requires 0 <= baseMs < x <= baseMs * Pow2(k)
    ensures k >= 1 && Max(x / 2, baseMs) <= baseMs * Pow2(k - 1)
  {
    assert k >= 1;
    Pow2Positive(k - 1);
    assert baseMs * Pow2(k) == 2 * (baseMs * Pow2(k - 1));
    assert baseMs * Pow2(k - 1) >= baseMs;
  }

  /** From current <= base * 2^k, any stretch without a rate limit that has 3k successes, counting
      those of the streak it starts with, returns to base. */
  lemma {:induction false} Recovers(b: Backoff, os: seq<Outcome>, k: nat, baseMs: int, ceilingMs: int)
    requires 0 <= baseMs && InRange(b, baseMs, ceilingMs) && b.currentMs <= baseMs * Pow2(k)
    requires RateLimited !in os && b.consecutiveOk + Successes(os) >= 3 * k
    ensures Run(b, os, baseMs, ceilingMs) == Backoff(baseMs, 0)
    decreases os
  {
    if b.currentMs == baseMs {
      BaseIsStable(b, os, baseMs, ceilingMs);
    } else {
      HalvingFits(b.currentMs, baseMs, k);
      hide Pow2;
      var next := Step(b, os[0], baseMs, ceilingMs);
      if os[0].Settled? && b.consecutiveOk + 1 >= 3 {
        Recovers(next, os[1..], k - 1, baseMs, ceilingMs);
      } else {
        Recovers(next, os[1..], k, baseMs, ceilingMs);
      }
    }
  }

  function Times(n: nat, o: Outcome): (os: seq<Outcome>)
    ensures |os| == n && forall i :: 0 <= i < n ==> os[i] == o
  {
    if n == 0 then [] else [o] + Times(n - 1, o)
  }

  lemma {:induction false} RunSplits(b: Backoff, xs: seq<Outcome>, ys: seq<Outcome>, baseMs: int, ceilingMs: int)
    ensures Run(b, xs + ys, baseMs, ceilingMs) == Run(Run(b, xs, baseMs, ceilingMs), ys, baseMs, ceilingMs)
    decreases xs
  {
    if xs == [] {
      assert xs + ys == ys;
    } else {
      assert (xs + ys)[1..] == xs[1..] + ys;
      RunSplits(Step(b, xs[0], baseMs, ceilingMs), xs[1..], ys, baseMs, ceilingMs);
    }
  }

  lemma ThreeSuccessesHalve(b: Backoff, baseMs: int, ceilingMs: int)
    requires b.consecutiveOk == 0 && b.currentMs > baseMs
    ensures Run(b, Times(3, Settled), baseMs, ceilingMs) == Backoff(Max(b.currentMs / 2, baseMs), 0)
    ensures Run(b, Times(2, Settled), baseMs, ceilingMs).currentMs == b.currentMs
  {
    var one, two := OnOk(b, baseMs), OnOk(OnOk(b, baseMs), baseMs);
    var t3, t2, t1 := Times(3, Settled), Times(2, Settled), Times(1, Settled);
    assert t3[1..] == t2 && t2[1..] == t1 && t1[1..] == [];
    assert Run(two, t1, baseMs, ceilingMs) == OnOk(two, baseMs);
    assert Run(one, t2, baseMs, ceilingMs) == Run(two, t1, baseMs, ceilingMs);
    assert Run(one, t1, baseMs, ceilingMs) == two;
  }

  /** No fewer will do: one success short of 3k, a pace of base * 2^k is still above base. */
  lemma {:induction false} RecoveryTakesThatLong(k: nat, baseMs: int, ceilingMs: int)
    requires baseMs >= 1 && k >= 1
    ensures Run(Backoff(baseMs * Pow2(k), 0), Times(3 * k - 1, Settled), baseMs, ceilingMs).currentMs > baseMs
  {
    var b := Backoff(baseMs * Pow2(k), 0);
    assert b.currentMs == 2 * (baseMs * Pow2(k - 1));
    Pow2Positive(k - 1);
    assert baseMs * Pow2(k - 1) >= baseMs;
    ThreeSuccessesHalve(b, baseMs, ceilingMs);
    if k > 1 {
      RecoveryTakesThatLong(k - 1, baseMs, ceilingMs);
      var rest := Times(3 * (k - 1) - 1, Settled);
      assert Times(3 * k - 1, Settled) == Times(3, Settled) + rest;
      RunSplits(b, Times(3, Settled), rest, baseMs, ceilingMs);
    }
  }

  lemma {:induction false} Pow2Positive(k: nat)
    ensures Pow2(k) >= 1
  {
    if k > 0 {
      Pow2Positive(k - 1);
    }
  }

  lemma {:induction false} RateLimitsDouble(k: nat, b: Backoff, baseMs: int, ceilingMs: int)
    requires 0 <= baseMs && InRange(b, baseMs, ceilingMs) && k >= 1
    ensures Run(b, Times(k, RateLimited), baseMs, ceilingMs) == Backoff(Min(b.currentMs * Pow2(k), ceilingMs), 0)
  {
    var next := Step(b, RateLimited, baseMs, ceilingMs);
    assert Times(k, RateLimited)[1..] == Times(k - 1, RateLimited);
    Pow2Positive(k - 1);
    if k > 1 {
      RateLimitsDouble(k - 1, next, baseMs, ceilingMs);
      DoubledOrCapped(b.currentMs, Pow2(k - 1), ceilingMs);
    }
  }

  lemma DoubledOrCapped(x: int, p: int, ceilingMs: int)
    requires 0 <= x <= ceilingMs && p >= 1
    ensures Min(Min(x * 2, ceilingMs) * p, ceilingMs) == Min(x * (2 * p), ceilingMs)
  {
    assert x * (2 * p) == (x * 2) * p;
    if x * 2 > ceilingMs {
      assert ceilingMs * p >= ceilingMs;
      assert (x * 2) * p >= (x * 2);
    }
  }

  /** What n rate limits in a row did from base, 3n successes undo. */
  lemma BurstIsUndone(n: nat, os: seq<Outcome>, baseMs: int, ceilingMs: int)
    requires 0 <= baseMs <= ceilingMs && RateLimited !in os && Successes(os) >= 3 * n
    ensures Run(Backoff(baseMs, 0), Times(n, RateLimited) + os, baseMs, ceilingMs) == Backoff(baseMs, 0)
  {
    var start := Backoff(baseMs, 0);
    RunSplits(start, Times(n, RateLimited), os, baseMs, ceilingMs);
    RunKeepsRange(start, Times(n, RateLimited), baseMs, ceilingMs);
    if n == 0 {
      BaseIsStable(start, os, baseMs, ceilingMs);
    } else {
      RateLimitsDouble(n, start, baseMs, ceilingMs);
      Recovers(Run(start, Times(n, RateLimited), baseMs, ceilingMs), os, n, baseMs, ceilingMs);
    }
  }

  // ---- the settle loop ----

  /** The failures of a class. */
  function Count(os: seq<Outcome>, o: Outcome): nat {
    if os == [] then 0 else (if os[0] == o then 1 else 0) + Count(os[1..], o)
  }

  lemma {:induction false} CountOneMore(os: seq<Outcome>, o: Outcome, last: Outcome)
    ensures Count(os + [last], o) == Count(os, o) + if last == o then 1 else 0
  {
    if os == [] {
      assert [last][1..] == [];
    } else {
      assert (os + [last])[1..] == os[1..] + [last];
      CountOneMore(os[1..], o, last);
    }
  }

  lemma {:induction false} CountsAddUp(os: seq<Outcome>)
    ensures Count(os, Settled) == Successes(os)
    ensures Count(os, Settled) + Count(os, RateLimited) + Count(os, NoUpdate) + Count(os, Other) == |os|
  {
    if os != [] {
      CountsAddUp(os[1..]);
    }
  }

  lemma RunOneMore(b: Backoff, os: seq<Outcome>, last: Outcome, baseMs: int, ceilingMs: int)
    ensures Run(b, os + [last], baseMs, ceilingMs) == Step(Run(b, os, baseMs, ceilingMs), last, baseMs, ceilingMs)
  {
    RunSplits(b, os, [last], baseMs, ceilingMs);
    var s := Run(b, os, baseMs, ceilingMs);
    assert [last][1..] == [] && Run(s, [last], baseMs, ceilingMs) == Step(s, last, baseMs, ceilingMs);
  }

  // ---- what the loop reports ----

  /** How many tuples are tried before a shutdown is seen. */
  function Tried(stops: seq<bool>): (n: nat)
    ensures n <= |stops|
  {
    if stops == [] || stops[0] then 0 else 1 + Tried(stops[1..])
  }

  /** `tuples.length - result.errors`. */
  function TuplesProcessed(outcomes: seq<Outcome>, stops: seq<bool>): int
    requires |stops| == |outcomes|
  {
    var tried := outcomes[..Tried(stops)];
    |outcomes| - (Count(tried, RateLimited) + Count(tried, NoUpdate) + Count(tried, Other))
  }

  lemma {:induction false} TriedIs(stops: seq<bool>, n: nat)
    requires n <= |stops| && (forall i :: 0 <= i < n ==> !stops[i]) && (n < |stops| ==> stops[n])
    ensures Tried(stops) == n
  {
    if n > 0 {
      TriedIs(stops[1..], n - 1);
    }
  }

  lemma {:induction false} AllTriedExactlyWhen(stops: seq<bool>)
    ensures Tried(stops) == |stops| <==> true !in stops
  {
    if stops != [] {
      assert stops == [stops[0]] + stops[1..];
      AllTriedExactlyWhen(stops[1..]);
    }
  }

  /** The number reported as processed is the number settled exactly when no shutdown is seen before a
      tuple. */
  lemma ProcessedMeansSettledExactlyWhen(outcomes: seq<Outcome>, stops: seq<bool>)
    requires |stops| == |outcomes|
    ensures TuplesProcessed(outcomes, stops) == Count(outcomes[..Tried(stops)], Settled) <==> true !in stops
  {
    CountsAddUp(outcomes[..Tried(stops)]);
    AllTriedExactlyWhen(stops);
  }

  /** One tuple settled, then a shutdown: two are reported. */
  lemma ProcessedCountsTheUntried()
    ensures var outcomes, stops := [Settled, Settled], [false, true];
      TuplesProcessed(outcomes, stops) == 2 && Count(outcomes[..Tried(stops)], Settled) == 1
  {
    var outcomes, stops := [Settled, Settled], [false, true];
    TriedIs(stops, 1);
    assert outcomes[..1] == [Settled] && [Settled][1..] == [];
  }

  class TickResult {
    var tuplesFound: nat
    var tuplesProcessed: int
    var errors: nat
    var errorsRateLimit: nat
    var errorsHermesNoUpdate: nat
    var errorsOther: nat

    constructor ()
      ensures tuplesFound == errors == errorsRateLimit == errorsHermesNoUpdate == errorsOther == 0 &&
        tuplesProcessed == 0
    {
      tuplesFound, errors, errorsRateLimit, errorsHermesNoUpdate, errorsOther, tuplesProcessed := 0, 0, 0, 0, 0, 0;
    }
  }

  /** One pass over the tuples: `outcomes[i]` is how the i-th settlement ends, `stops[i]` whether a
      shutdown was requested before it. The inlined pacing is the helper's state machine, each
      wait is its current pace, and the errors are counted by class. A tuple the shutdown left
      untried is still reported as processed. */
  method SettleTuples(outcomes: seq<Outcome>, stops: seq<bool>, b: BackoffState, baseMs: int, ceilingMs: int)
    returns (delays: seq<int>, result: TickResult)
    requires |stops| == |outcomes|
    modifies b
    ensures fresh(result) && result.tuplesFound == |outcomes|
    ensures |delays| <= |outcomes| && (forall i :: 0 <= i < |delays| ==> !stops[i])
    ensures |delays| < |outcomes| ==> stops[|delays|]
    ensures b.View() == Run(old(b.View()), outcomes[..|delays|], baseMs, ceilingMs)
    ensures forall i :: 0 <= i < |delays| ==>
      delays[i] == Run(old(b.View()), outcomes[..i], baseMs, ceilingMs).currentMs
    ensures 0 <= baseMs && InRange(old(b.View()), baseMs, ceilingMs) ==>
      forall d :: d in delays ==> baseMs <= d <= ceilingMs
    ensures var tried := outcomes[..|delays|];
      && result.errorsRateLimit == Count(tried, RateLimited)
      && result.errorsHermesNoUpdate == Count(tried, NoUpdate)
      && result.errorsOther == Count(tried, Other)
      && result.errors == |delays| - Count(tried, Settled)
      && result.tuplesProcessed == Count(tried, Settled) + (|outcomes| - |delays|)
    ensures |delays| == Tried(stops) && result.tuplesProcessed == TuplesProcessed(outcomes, stops)
  {
    hide Run, Count, Step;
    ghost var start := b.View();
    result := new TickResult();
    result.tuplesFound := |outcomes|;
    delays := [];
    var i := 0;
    StartOfPass(start, outcomes, baseMs, ceilingMs);
    while i < |outcomes|
      invariant 0 <= i == |delays| <= |outcomes| && fresh(result) && result.tuplesFound == |outcomes|
      invariant forall k :: 0 <= k < i ==> !stops[k]
      invariant b.View() == Run(start, outcomes[..i], baseMs, ceilingMs)
      invariant forall k :: 0 <= k < i ==> delays[k] == Run(start, outcomes[..k], baseMs, ceilingMs).currentMs
      invariant result.errorsRateLimit == Count(outcomes[..i], RateLimited)
      invariant result.errorsHermesNoUpdate == Count(outcomes[..i], NoUpdate)
      invariant result.errorsOther == Count(outcomes[..i], Other)
      invariant result.errors == result.errorsRateLimit + result.errorsHermesNoUpdate + result.errorsOther
      invariant result.tuplesProcessed == 0
      decreases |outcomes| - i
    {
      if stops[i] {
        break;
      }
      delays := delays + [b.currentMs];
      ghost var before := b.View();
      match outcomes[i] {
        case Settled =>
          if b.currentMs > baseMs {
            b.consecutiveOk := b.consecutiveOk + 1;
            if b.consecutiveOk >= RECOVER_AFTER_N_OK {
              var next := Max(b.currentMs / 2, baseMs);
              b.currentMs := next;
              b.consecutiveOk := 0;
            }
          }
        case RateLimited =>
          result.errors := result.errors + 1;
          result.errorsRateLimit := result.errorsRateLimit + 1;
          b.currentMs := Min(b.currentMs * BACKOFF_MULTIPLIER, ceilingMs);
          b.consecutiveOk := 0;
        case NoUpdate =>
          result.errors := result.errors + 1;
          result.errorsHermesNoUpdate := result.errorsHermesNoUpdate + 1;
        case Other =>
          result.errors := result.errors + 1;
          result.errorsOther := result.errorsOther + 1;
      }
      OneTupleFurther(start, outcomes, i, baseMs, ceilingMs);
      assert b.View() == Step(before, outcomes[i], baseMs, ceilingMs) by {
        StepByOutcome(before, outcomes[i], baseMs, ceilingMs);
      }
      i := i + 1;
    }
    CountsAddUp(outcomes[..i]);
    TriedIs(stops, i);
    if 0 <= baseMs && InRange(start, baseMs, ceilingMs) {
      forall k | 0 <= k < i ensures baseMs <= delays[k] <= ceilingMs {
        RunKeepsRange(start, outcomes[..k], baseMs, ceilingMs);
      }
    }
    if |outcomes| > 0 {
      result.tuplesProcessed := |outcomes| - result.errors;
    }
  }

  lemma StartOfPass(start: Backoff, outcomes: seq<Outcome>, baseMs: int, ceilingMs: int)
    ensures Run(start, outcomes[..0], baseMs, ceilingMs) == start
    ensures forall o :: Count(outcomes[..0], o) == 0
  {
  }

  lemma StepByOutcome(b: Backoff, o: Outcome, baseMs: int, ceilingMs: int)
    ensures Step(b, o, baseMs, ceilingMs) ==
      if o.Settled? then OnOk(b, baseMs) else if o.RateLimited? then On429(b, ceilingMs) else b
  {
  }

  lemma OneTupleFurther(start: Backoff, outcomes: seq<Outcome>, i: nat, baseMs: int, ceilingMs: int)
    requires i < |outcomes|
    ensures Run(start, outcomes[..i + 1], baseMs, ceilingMs) ==
      Step(Run(start, outcomes[..i], baseMs, ceilingMs), outcomes[i], baseMs, ceilingMs)
    ensures forall o :: Count(outcomes[..i + 1], o) == Count(outcomes[..i], o) + if outcomes[i] == o then 1 else 0
  {
    assert outcomes[..i + 1] == outcomes[..i] + [outcomes[i]];
    RunOneMore(start, outcomes[..i], outcomes[i], baseMs, ceilingMs);
    forall o ensures Count(outcomes[..i + 1], o) == Count(outcomes[..i], o) + if outcomes[i] == o then 1 else 0 {
      CountOneMore(outcomes[..i], o, outcomes[i]);
    }
  }
}

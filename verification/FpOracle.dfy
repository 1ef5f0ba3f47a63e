/** crank/fpOracleRegistry.ts:240-255 and crank/fpOracleCrank.ts:109-371: the median and spread
    of a sample, and the gate every pushed price passes. Prices are reals. */
module FpOracle {
  import opened Counting
  import opened Results
  import opened StableSort

  const MIN_RESPONDERS: nat := 3
  const MAX_PUSH_SPREAD_BPS: real := 200.0
  const VERIFY_QUALITY_MAX_SPREAD_BPS: real := 20.0
  const RESEED_GAP_SECS: int := 900
  const MICRO: real := 1000000.0

  // ---- median and spread ----

  predicate Leq(a: real, b: real) {
    a <= b
  }

  function Ascending(xs: seq<real>): seq<real> {
    Sort(xs, Leq)
  }

  /** None stands for NaN. */
  function Median(xs: seq<real>): Option<real> {
    var s, n := Ascending(xs), |xs|;
    if n == 0 then None
    else if n % 2 == 1 then Some(s[(n - 1) / 2])
    else Some((s[n / 2 - 1] + s[n / 2]) / 2.0)
  }

  function MaxOf(xs: seq<real>): real
    requires xs != []
  {
    if |xs| == 1 then xs[0]
    else
      var m := MaxOf(xs[1..]);
      if xs[0] >= m then xs[0] else m
  }

  function MinOf(xs: seq<real>): real
    requires xs != []
  {
    if |xs| == 1 then xs[0]
    else
      var m := MinOf(xs[1..]);
      if xs[0] <= m then xs[0] else m
  }

  datatype Spread = Bps(bps: real) | Infinite

  function SpreadBps(xs: seq<real>): Spread {
    if |xs| < 2 then Bps(0.0)
    else
      var m := Median(xs).value;
      if m > 0.0 then Bps((MaxOf(xs) - MinOf(xs)) / m * 10000.0) else Infinite
  }

  predicate Exceeds(s: Spread, limit: real) {
    s.Infinite? || s.bps > limit
  }

  lemma LeqIsATotalOrder()
    ensures TotalPreorder(Leq)
  {
  }

  lemma {:induction false} ExtremesBound(xs: seq<real>)
    requires xs != []
    ensures MaxOf(xs) in xs && MinOf(xs) in xs
    ensures forall x :: x in xs ==> MinOf(xs) <= x <= MaxOf(xs)
  {
    if |xs| > 1 {
      ExtremesBound(xs[1..]);
      assert xs == [xs[0]] + xs[1..];
    }
  }

  lemma HeadIsLeast(a: seq<real>, b: seq<real>)
    requires Sorted(a, Leq) && multiset(a) == multiset(b) && b != []
    ensures a != [] && a[0] <= b[0]
  {
    assert b[0] in multiset(a);
    var k :| 0 <= k < |a| && a[k] == b[0];
    assert k > 0 ==> Leq(a[0], a[k]);
  }

  lemma SortedRest(a: seq<real>)
    requires a != [] && Sorted(a, Leq)
    ensures Sorted(a[1..], Leq)
  {
  }

  lemma {:induction false} SortedListsAgree(a: seq<real>, b: seq<real>)
    requires Sorted(a, Leq) && Sorted(b, Leq) && multiset(a) == multiset(b)
    ensures a == b
  {
    if b != [] {
      HeadIsLeast(a, b);
      HeadIsLeast(b, a);
      assert a == [a[0]] + a[1..] && b == [b[0]] + b[1..];
      hide Sorted;
      assert multiset(a[1..]) == multiset(a) - multiset{a[0]};
      assert multiset(b[1..]) == multiset(b) - multiset{b[0]};
      SortedRest(a);
      SortedRest(b);
      SortedListsAgree(a[1..], b[1..]);
    } else {
      assert |multiset(a)| == 0;
    }
  }

  /** The order in which the venues answered does not matter. */
  lemma MedianIgnoresOrder(xs: seq<real>, ys: seq<real>)
    requires multiset(xs) == multiset(ys)
    ensures Median(xs) == Median(ys)
  {
    hide Sort, Sorted;
    LeqIsATotalOrder();
    SortSorts(xs, Leq);
    SortSorts(ys, Leq);
    assert |xs| == |multiset(xs)| == |ys|;
    SortedListsAgree(Ascending(xs), Ascending(ys));
  }

  lemma NoLargerMultiset(a: multiset<real>, b: multiset<real>)
    requires a <= b
    ensures |a| <= |b|
  {
    assert b == a + (b - a);
  }

  /** Part of a sample that avoids every good value is no longer than the bad part. */
  lemma AvoidingGood(part: seq<real>, all: multiset<real>, good: seq<real>, bad: seq<real>)
    requires multiset(part) <= all == multiset(good) + multiset(bad)
    requires forall x :: x in part ==> x !in good
    ensures |part| <= |bad|
  {
    forall x ensures multiset(part)[x] <= multiset(bad)[x] {
      if x in multiset(part) {
        assert x in part;
        assert multiset(good)[x] == 0;
      }
    }
    NoLargerMultiset(multiset(part), multiset(bad));
  }

  lemma NotBelowGood(s: seq<real>, good: seq<real>, bad: seq<real>, i: nat)
    requires Sorted(s, Leq) && multiset(s) == multiset(good) + multiset(bad)
    requires |bad| <= i < |s| && good != []
    ensures MinOf(good) <= s[i]
  {
    ExtremesBound(good);
    hide MinOf;
    if s[i] < MinOf(good) {
      var part := s[..i + 1];
      forall x | x in part ensures x !in good {
        var j :| 0 <= j < |part| && part[j] == x;
        assert j < i ==> Leq(s[j], s[i]);
      }
      assert s == part + s[i + 1..];
      AvoidingGood(part, multiset(s), good, bad);
    }
  }

  lemma NotAboveGood(s: seq<real>, good: seq<real>, bad: seq<real>, i: nat)
    requires Sorted(s, Leq) && multiset(s) == multiset(good) + multiset(bad)
    requires i < |s| && |bad| < |s| - i && good != []
    ensures s[i] <= MaxOf(good)
  {
    ExtremesBound(good);
    hide MaxOf;
    if s[i] > MaxOf(good) {
      var part := s[i..];
      forall x | x in part ensures x !in good {
        var j :| 0 <= j < |part| && part[j] == x;
        assert j > 0 ==> Leq(s[i], s[i + j]);
      }
      assert s == s[..i] + part;
      AvoidingGood(part, multiset(s), good, bad);
    }
  }

  /** With fewer than half of the sample arbitrary, the median stays within the rest of it. */
  lemma MedianIsRobust(xs: seq<real>, good: seq<real>, bad: seq<real>)
    requires multiset(xs) == multiset(good) + multiset(bad) && |bad| < |good|
    ensures Median(xs).Some? && MinOf(good) <= Median(xs).value <= MaxOf(good)
  {
    LeqIsATotalOrder();
    SortSorts(xs, Leq);
    hide MinOf, MaxOf, Sort, Sorted;
    var s, n := Ascending(xs), |xs|;
    assert n == |multiset(xs)| == |good| + |bad|;
    NotBelowGood(s, good, bad, (n - 1) / 2);
    NotAboveGood(s, good, bad, (n - 1) / 2);
    NotBelowGood(s, good, bad, n / 2);
    NotAboveGood(s, good, bad, n / 2);
  }

  lemma MedianIsInside(xs: seq<real>)
    requires xs != []
    ensures Median(xs).Some? && MinOf(xs) <= Median(xs).value <= MaxOf(xs)
    ensures MaxOf(xs) in xs && MinOf(xs) in xs && forall x :: x in xs ==> MinOf(xs) <= x <= MaxOf(xs)
  {
    assert multiset(xs) == multiset(xs) + multiset([]);
    MedianIsRobust(xs, xs, []);
    ExtremesBound(xs);
  }

  lemma LastIsGreatest(s: seq<real>)
    requires Sorted(s, Leq) && s != []
    ensures MaxOf(s) == s[|s| - 1]
  {
    ExtremesBound(s);
    hide MaxOf;
    var i :| 0 <= i < |s| && s[i] == MaxOf(s);
    assert s[|s| - 1] in s;
    assert i < |s| - 1 ==> Leq(s[i], s[|s| - 1]);
  }

  lemma NoneAboveMax(s: seq<real>)
    requires s != []
    ensures forall y :: y in s ==> y <= MaxOf(s)
  {
    ExtremesBound(s);
  }

  lemma SameElementsSameMax(a: seq<real>, b: seq<real>)
    requires a != [] && b != [] && multiset(a) == multiset(b)
    ensures MaxOf(a) == MaxOf(b)
  {
    ExtremesBound(a);
    ExtremesBound(b);
    hide MaxOf, MinOf;
    assert MaxOf(a) in multiset(a) && MaxOf(b) in multiset(b);
    assert MaxOf(a) in b && MaxOf(b) in a;
  }

  lemma SortedThenHigher(s: seq<real>, x: real, n: nat)
    requires Sorted(s, Leq) && forall y :: y in s ==> y <= x
    ensures Sorted(s + seq(n, _ => x), Leq)
  {
    var all := s + seq(n, _ => x);
    forall i, j | 0 <= i < j < |all| ensures Leq(all[i], all[j]) {
      if j < |s| {
        assert Leq(s[i], s[j]);
      } else if i < |s| {
        assert s[i] in s;
      }
    }
  }

  lemma OddMedian(xs: seq<real>, n: nat)
    requires |xs| == 2 * n + 1 && Sorted(xs, Leq)
    ensures Median(xs) == Some(xs[n])
  {
    LeqIsATotalOrder();
    SortSorts(xs, Leq);
    hide Sort, Sorted;
    SortedListsAgree(Ascending(xs), xs);
  }

  lemma EvenMedian(xs: seq<real>, s: seq<real>, n: nat)
    requires n > 0 && |xs| == 2 * n && Sorted(s, Leq) && multiset(s) == multiset(xs)
    ensures |s| == 2 * n && Median(xs) == Some((s[n - 1] + s[n]) / 2.0)
  {
    LeqIsATotalOrder();
    SortSorts(xs, Leq);
    hide Sort, Sorted;
    SortedListsAgree(Ascending(xs), s);
  }

  /** As many arbitrary values again can push the median of any sample out of its range. */
  lemma HalfIsTooMany(good: seq<real>) returns (bad: seq<real>)
    requires good != []
    ensures |bad| == |good| && Median(good + bad).Some? && Median(good + bad).value > MaxOf(good)
  {
    hide MaxOf, Sort, Sorted, Median, TotalPreorder;
    var n, s, x := |good|, Ascending(good), MaxOf(good) + 2.0;
    bad := seq(n, _ => x);
    LeqIsATotalOrder();
    SortSorts(good, Leq);
    LastIsGreatest(s);
    SameElementsSameMax(good, s);
    NoneAboveMax(s);
    SortedThenHigher(s, x, n);
    assert multiset(s + bad) == multiset(good + bad);
    EvenMedian(good + bad, s + bad, n);
    assert (s + bad)[n - 1] == MaxOf(good) && (s + bad)[n] == x;
  }

  // ---- the push gate ----

  /** What a venue gave: None for a failed fetch, or anything but a finite number. */
  type Reading = Option<real>

  /** fetchSide: failures and readings that are not positive drop out. */
  function Quotes(readings: seq<Reading>): seq<real> {
    if readings == [] then []
    else
      var before, r := Quotes(readings[..|readings| - 1]), readings[|readings| - 1];
      if r.Some? && r.value > 0.0 then before + [r.value] else before
  }

  lemma {:induction false} QuotesArePositive(readings: seq<Reading>)
    ensures forall q :: q in Quotes(readings) <==> q > 0.0 && Some(q) in readings
  {
    if readings != [] {
      var before := readings[..|readings| - 1];
      assert readings == before + [readings[|readings| - 1]];
      QuotesArePositive(before);
    }
  }

  /** Every venue counts, in order, as often as it answered with a positive number. */
  lemma {:induction false} QuotesInOrder(a: seq<Reading>, b: seq<Reading>)
    ensures Quotes(a + b) == Quotes(a) + Quotes(b)
    ensures forall r: Reading :: Quotes([r]) == if r.Some? && r.value > 0.0 then [r.value] else []
  {
    assert forall r: Reading :: [r][..0] == [];
    if b == [] {
      assert a + b == a;
    } else {
      assert (a + b)[..|a + b| - 1] == a + b[..|b| - 1];
      QuotesInOrder(a, b[..|b| - 1]);
    }
  }

  /** Math.round: halves go up. */
  function Round(x: real): int {
    (x + 0.5).Floor
  }

  function Price6(quotes: seq<real>): int
    requires quotes != []
  {
    Round(Median(quotes).value * MICRO)
  }

  function Conf6(quotes: seq<real>): int
    requires quotes != []
  {
    Max(1, Round((MaxOf(quotes) - MinOf(quotes)) / 2.0 * MICRO))
  }

  /** Enough venues answered, and they agree. */
  predicate Pushable(quotes: seq<real>) {
    |quotes| >= MIN_RESPONDERS && !Exceeds(SpreadBps(quotes), MAX_PUSH_SPREAD_BPS)
  }

  function Abs(x: real): real {
    if x >= 0.0 then x else -x
  }

  lemma SpreadScales(range: real, m: real, limit: real)
    requires m > 0.0
    ensures range / m * 10000.0 <= limit <==> range * 10000.0 <= limit * m
  {
    var x := range / m;
    assert x * m == range;
    if x * 10000.0 <= limit {
      assert (x * 10000.0) * m <= limit * m;
    } else {
      assert (x * 10000.0) * m > limit * m;
    }
  }

  /** a and b differ by at most `bps` ten-thousandths of `unit`. */
  predicate Within(a: real, b: real, bps: real, unit: real) {
    Abs(a - b) * 10000.0 <= bps * unit
  }

  /** All values are positive and within `bps` of the median. */
  ghost predicate Agree(xs: seq<real>, m: real, bps: real) {
    m > 0.0 && forall x :: x in xs ==> x > 0.0 && Within(x, m, bps, m)
  }

  /** The range is at most `limit` bps of m. */
  predicate RangeWithin(lo: real, hi: real, m: real, limit: real) {
    m > 0.0 && (hi - lo) / m * 10000.0 <= limit
  }

  lemma RangeBounds(lo: real, hi: real, m: real, x: real, limit: real)
    requires RangeWithin(lo, hi, m, limit) && lo <= x <= hi && lo <= m <= hi
    ensures Within(x, m, limit, m)
  {
    SpreadScales(hi - lo, m, limit);
  }

  lemma SpreadIsRange(xs: seq<real>, limit: real)
    requires |xs| >= 2 && Median(xs).Some? && !Exceeds(SpreadBps(xs), limit)
    ensures RangeWithin(MinOf(xs), MaxOf(xs), Median(xs).value, limit)
  {
    hide Median, MinOf, MaxOf;
  }

  lemma TightSamplesAgree(xs: seq<real>, limit: real)
    requires |xs| >= 2 && (forall x :: x in xs ==> x > 0.0) && !Exceeds(SpreadBps(xs), limit)
    ensures Median(xs).Some? && Agree(xs, Median(xs).value, limit)
  {
    hide Median, MinOf, MaxOf, Within, SpreadBps, Exceeds;
    MedianIsInside(xs);
    SpreadIsRange(xs, limit);
    var m := Median(xs).value;
    forall x | x in xs ensures Within(x, m, limit, m) {
      RangeBounds(MinOf(xs), MaxOf(xs), m, x, limit);
    }
  }

  /** Every pushable price comes from at least three positive quotes and is within 200 bps of
      itself of each of them. */
  lemma PushIsAgreed(readings: seq<Reading>)
    requires Pushable(Quotes(readings))
    ensures var quotes := Quotes(readings);
      && |quotes| >= 3 && Median(quotes).Some? && Agree(quotes, Median(quotes).value, 200.0)
      && (forall q :: q in quotes ==> Some(q) in readings)
  {
    QuotesArePositive(readings);
    TightSamplesAgree(Quotes(readings), MAX_PUSH_SPREAD_BPS);
  }

  lemma RoundIsNear(x: real)
    ensures x - 0.5 < Round(x) as real <= x + 0.5
  {
  }

  /** On the chain's scale: every quote lies within twice the pushed confidence of the pushed
      price, but for rounding; and the price rounds to zero only below half a micro-unit. */
  lemma ConfidenceCoversQuotes(quotes: seq<real>, q: real)
    requires q in quotes
    ensures Abs(q * MICRO - Price6(quotes) as real) <= 2.0 * Conf6(quotes) as real + 1.5
    ensures Conf6(quotes) >= 1
    ensures Price6(quotes) >= 1 <==> Median(quotes).value * MICRO >= 0.5
  {
    hide Median, MaxOf, MinOf;
    MedianIsInside(quotes);
    var m, range := Median(quotes).value, MaxOf(quotes) - MinOf(quotes);
    RoundIsNear(m * MICRO);
    RoundIsNear(range / 2.0 * MICRO);
    assert Abs(q - m) <= range;
  }

  function Midpoint(quotes: seq<real>): real
    requires quotes != []
  {
    (MaxOf(quotes) + MinOf(quotes)) / 2.0
  }

  function HalfRange(quotes: seq<real>): real
    requires quotes != []
  {
    (MaxOf(quotes) - MinOf(quotes)) / 2.0
  }

  /** A value is within reach of the pushed price, on the chain's scale. */
  predicate Covered(quotes: seq<real>, q: real)
    requires quotes != []
  {
    Abs(q * MICRO - Price6(quotes) as real) <= Conf6(quotes) as real
  }

  /** All quotes lie within the pushed confidence exactly when the pushed price is no further from
      the midpoint of their range than rounding has made the confidence exceed half of it. */
  lemma CoversExactlyWhen(quotes: seq<real>)
    requires quotes != []
    ensures (forall q :: q in quotes ==> Covered(quotes, q)) <==>
      Abs(Midpoint(quotes) * MICRO - Price6(quotes) as real) <= Conf6(quotes) as real - HalfRange(quotes) * MICRO
  {
    ExtremesBound(quotes);
    hide MaxOf, MinOf, Price6, Conf6;
    assert Covered(quotes, MaxOf(quotes)) && Covered(quotes, MinOf(quotes)) ==>
      forall q :: q in quotes ==> Covered(quotes, q);
  }

  /** Without the rounding: they lie within half their range of the median exactly when that is the
      midpoint. */
  lemma MidpointCoversExactly(quotes: seq<real>)
    requires quotes != []
    ensures (forall q :: q in quotes ==> Abs(q - Median(quotes).value) <= HalfRange(quotes)) <==>
      Median(quotes).value == Midpoint(quotes)
  {
    hide Median, MaxOf, MinOf;
    MedianIsInside(quotes);
    assert MaxOf(quotes) in quotes && MinOf(quotes) in quotes;
  }

  lemma ThreeExtremes(a: real, b: real, c: real)
    requires a <= b <= c
    ensures MaxOf([a, b, c]) == c && MinOf([a, b, c]) == a
  {
    assert [a, b, c][1..] == [b, c] && [b, c][1..] == [c];
    assert MaxOf([c]) == c && MaxOf([b, c]) == c && MinOf([c]) == c && MinOf([b, c]) == b;
  }

  lemma ThreeSorted(a: real, b: real, c: real)
    requires a <= b <= c
    ensures Sorted([a, b, c], Leq)
  {
  }

  lemma ThreeInOrder(a: real, b: real, c: real)
    requires a <= b <= c
    ensures Median([a, b, c]) == Some(b) && MaxOf([a, b, c]) == c && MinOf([a, b, c]) == a
  {
    hide Median, Sorted, MaxOf, MinOf;
    ThreeSorted(a, b, c);
    ThreeExtremes(a, b, c);
    OddMedian([a, b, c], 1);
  }

  /** A sample that passes the gate and has a quote outside its own confidence. */
  lemma ConfidenceMissesAQuote()
    ensures var quotes := [100.0, 100.0, 101.0];
      && Pushable(quotes) && Price6(quotes) == 100_000_000 && Conf6(quotes) == 500_000
      && 101.0 in quotes && !Covered(quotes, 101.0)
  {
    ThreeInOrder(100.0, 100.0, 101.0);
    hide Median, MaxOf, MinOf;
    var quotes := [100.0, 100.0, 101.0];
    assert SpreadBps(quotes) == Bps(100.0);
    assert quotes[2] == 101.0;
  }

  lemma PushedValues(quotes: seq<real>, lo: real, m: real, hi: real)
    requires |quotes| == 3 && Median(quotes) == Some(m) && MinOf(quotes) == lo && MaxOf(quotes) == hi && m > 0.0
    ensures Price6(quotes) == Round(m * MICRO) && Conf6(quotes) == Max(1, Round((hi - lo) / 2.0 * MICRO))
    ensures Midpoint(quotes) == (hi + lo) / 2.0
    ensures (hi - lo) * 10000.0 <= MAX_PUSH_SPREAD_BPS * m ==> Pushable(quotes)
  {
    hide MaxOf, MinOf, Median, Round;
    SpreadScales(hi - lo, m, MAX_PUSH_SPREAD_BPS);
  }

  /** That the median is the midpoint of the range is not enough: a pushable sample with a quote
      outside the rounded confidence. */
  lemma MidpointIsNotEnough()
    ensures var quotes := [1.0, 1.0000104, 1.0000208];
      Pushable(quotes) && Median(quotes) == Some(Midpoint(quotes)) && 1.0000208 in quotes &&
      !Covered(quotes, 1.0000208)
  {
    var quotes := [1.0, 1.0000104, 1.0000208];
    ThreeInOrder(1.0, 1.0000104, 1.0000208);
    hide Median, MaxOf, MinOf, Price6, Conf6, Pushable, Midpoint;
    PushedValues(quotes, 1.0, 1.0000104, 1.0000208);
    assert quotes[2] == 1.0000208;
  }

  /** Nor is it needed: a pushable sample, with its median off the midpoint, that is covered. */
  lemma MidpointIsNotNeeded()
    ensures var quotes := [1.0, 1.0, 1.0000005];
      && Pushable(quotes) && Median(quotes) != Some(Midpoint(quotes))
      && forall q :: q in quotes ==> Covered(quotes, q)
  {
    ThreeInOrder(1.0, 1.0, 1.0000005);
    hide Median, MaxOf, MinOf, Price6, Conf6, Pushable, Midpoint;
    PushedValues([1.0, 1.0, 1.0000005], 1.0, 1.0, 1.0000005);
  }

  // ---- one feed, one tick ----

  datatype Status = Aborted | DryRun | Sent | Failed | Crashed
  datatype Push = Push(price6: int, conf6: int, publishTime: int)

  datatype Sample = Sample(status: Status, push: Option<Push>, withinGate: Option<bool>, reseed: bool)

  /** The world a tick meets: both sides' readings, the feed account's last publish time (None
      when the account is absent), the clock, and what becomes of the transaction. */
  datatype World = World(push: seq<Reading>, verify: seq<Reading>, prevPublish: Option<int>, now: int,
                         dryRun: bool, buildOk: bool, sendOk: bool)

  predicate Unreliable(verify: seq<real>) {
    |verify| >= 2 && Exceeds(SpreadBps(verify), VERIFY_QUALITY_MAX_SPREAD_BPS)
  }

  class FpTickReport {
    var pushed: nat
    var aborted: nat
    var failed: nat
    var reseeds: nat
    var outsideGate: nat
    var referenceUnreliable: nat

    constructor ()
      ensures pushed == aborted == failed == reseeds == outsideGate == referenceUnreliable == 0
    {
      pushed, aborted, failed, reseeds, outsideGate, referenceUnreliable := 0, 0, 0, 0, 0, 0;
    }

    function Outcomes(): nat
      reads this
    {
      pushed + aborted + failed
    }
  }

  /** Of a sample of positive values: more than one, and a range above so many bps of the median. */
  lemma SpreadMeans(xs: seq<real>, limit: real)
    requires limit >= 0.0 && forall x :: x in xs ==> x > 0.0
    ensures Exceeds(SpreadBps(xs), limit) <==>
      |xs| >= 2 && (MaxOf(xs) - MinOf(xs)) * 10000.0 > limit * Median(xs).value
  {
    hide Median, MaxOf, MinOf;
    if |xs| >= 2 {
      MedianIsPositive(xs);
      var m, range := Median(xs).value, MaxOf(xs) - MinOf(xs);
      assert SpreadBps(xs) == Bps(range / m * 10000.0);
      hide SpreadBps;
      SpreadScales(range, m, limit);
    }
  }

  /** A price may be pushed with at least three quotes that lie within 2% of their median. */
  lemma PushableMeans(readings: seq<Reading>)
    ensures var quotes := Quotes(readings);
      Pushable(quotes) <==> |quotes| >= 3 && (MaxOf(quotes) - MinOf(quotes)) * 10000.0 <= 200.0 * Median(quotes).value
  {
    QuotesArePositive(readings);
    SpreadMeans(Quotes(readings), 200.0);
  }

  /** A reference is unreliable when two or more venues gave it and their range is above 0.2%. */
  lemma UnreliableMeans(readings: seq<Reading>)
    ensures var quotes := Quotes(readings);
      Unreliable(quotes) <==> |quotes| >= 2 && (MaxOf(quotes) - MinOf(quotes)) * 10000.0 > 20.0 * Median(quotes).value
  {
    QuotesArePositive(readings);
    SpreadMeans(Quotes(readings), 20.0);
  }

  /** The price differs from the reference by at most `gate` bps of it: `bpsDelta <= gate`. */
  method CompareWithReference(price: real, verify: seq<real>, gateBps: real) returns (withinGate: Option<bool>)
    requires forall v :: v in verify ==> v > 0.0
    ensures withinGate.Some? <==> |verify| >= MIN_RESPONDERS && !Unreliable(verify)
    ensures withinGate.Some? ==>
      Median(verify).Some? && (withinGate.value <==> Within(price, Median(verify).value, gateBps, Median(verify).value))
  {
    var refUnreliable := |verify| >= 2 && Exceeds(SpreadBps(verify), VERIFY_QUALITY_MAX_SPREAD_BPS);
    withinGate := None;
    if |verify| >= MIN_RESPONDERS {
      MedianIsPositive(verify);
      var refMedian := Median(verify).value;
      if refMedian > 0.0 {
        var bpsDelta := Abs(price - refMedian) / refMedian * 10000.0;
        SpreadScales(Abs(price - refMedian), refMedian, gateBps);
        if !refUnreliable {
          withinGate := Some(bpsDelta <= gateBps);
        }
      }
    }
  }

  lemma MedianIsPositive(xs: seq<real>)
    requires xs != [] && forall x :: x in xs ==> x > 0.0
    ensures Median(xs).Some? && Median(xs).value > 0.0
  {
    MedianIsInside(xs);
  }

  /** What a tick of a feed in a given world records. */
  ghost predicate Ticked(w: World, gateBps: real, rec: Sample) {
    var push, verify := Quotes(w.push), Quotes(w.verify);
    && (rec.status.Aborted? <==> !Pushable(push) || w.prevPublish.None?)
    && (rec.status.Crashed? ==> !w.buildOk) && (rec.status.DryRun? ==> w.buildOk && w.dryRun)
    && (rec.status.Sent? ==> w.buildOk && !w.dryRun && w.sendOk)
    && (rec.status.Failed? ==> w.buildOk && !w.dryRun && !w.sendOk)
    && (rec.push.Some? <==> rec.status in {DryRun, Sent, Failed})
    && (rec.push.Some? ==>
          && rec.push.value == Push(Price6(push), Conf6(push), w.now)
          && Agree(push, Median(push).value, 200.0))
    && (rec.reseed <==> !rec.status.Aborted? && w.prevPublish.value > 0 && w.now > w.prevPublish.value + 900)
    && (rec.withinGate.Some? <==> !rec.status.Aborted? && |verify| >= MIN_RESPONDERS && !Unreliable(verify))
    && (rec.withinGate.Some? ==>
          (rec.withinGate.value <==> Within(Median(push).value, Median(verify).value, gateBps, Median(verify).value)))
  }

  /** The rest of a tick that was not aborted: count what it is, build the transaction, send it. */
  method Offer(w: World, push: Push, withinGate: Option<bool>, reseed: bool, report: FpTickReport) returns (rec: Sample)
    modifies report
    ensures rec.withinGate == withinGate && rec.reseed == reseed
    ensures rec == Sample(rec.status, if w.buildOk then Some(push) else None, withinGate, reseed)
    ensures rec.status == if !w.buildOk then Crashed else if w.dryRun then DryRun else if w.sendOk then Sent else Failed
    ensures report.pushed == old(report.pushed) + if rec.status in {DryRun, Sent} then 1 else 0
    ensures report.failed == old(report.failed) + if rec.status == Failed then 1 else 0
    ensures report.reseeds == old(report.reseeds) + if reseed then 1 else 0
    ensures report.outsideGate == old(report.outsideGate) + if withinGate == Some(false) then 1 else 0
    ensures report.aborted == old(report.aborted) && report.referenceUnreliable == old(report.referenceUnreliable)
  {
    if reseed {
      report.reseeds := report.reseeds + 1;
    }
    if withinGate == Some(false) {
      report.outsideGate := report.outsideGate + 1;
    }
    if !w.buildOk {
      return Sample(Crashed, None, withinGate, reseed);
    }
    if w.dryRun {
      report.pushed := report.pushed + 1;
      return Sample(DryRun, Some(push), withinGate, reseed);
    }
    if w.sendOk {
      report.pushed := report.pushed + 1;
      return Sample(Sent, Some(push), withinGate, reseed);
    }
    report.failed := report.failed + 1;
    rec := Sample(Failed, Some(push), withinGate, reseed);
  }

  /** A tick aborts exactly when too few venues answered, they disagree, or the feed has never
      been published. Otherwise exactly the median of the positive readings is offered, and the
      reference comparison never stops a push. */
  method TickFeed(w: World, gateBps: real, report: FpTickReport) returns (rec: Sample)
    modifies report
    ensures Ticked(w, gateBps, rec)
    ensures report.pushed == old(report.pushed) + if rec.status in {DryRun, Sent} then 1 else 0
    ensures report.aborted == old(report.aborted) + if rec.status == Aborted then 1 else 0
    ensures report.failed == old(report.failed) + if rec.status == Failed then 1 else 0
    ensures report.referenceUnreliable == old(report.referenceUnreliable) +
      if Pushable(Quotes(w.push)) && Unreliable(Quotes(w.verify)) then 1 else 0
    ensures report.reseeds == old(report.reseeds) + if rec.reseed then 1 else 0
    ensures report.outsideGate == old(report.outsideGate) + if rec.withinGate == Some(false) then 1 else 0
  {
    hide Median, SpreadBps, MaxOf, MinOf, Quotes, Agree, Within, Round, Ticked, Unreliable, Exceeds;
    PushableQuotes(w.push);
    if !Pushable(Quotes(w.push)) || w.prevPublish.None? {
      AbortTicked(w, gateBps);
    }
    var pushVals, verifyVals := Quotes(w.push), Quotes(w.verify);
    if |pushVals| < MIN_RESPONDERS {
      report.aborted := report.aborted + 1;
      return Sample(Aborted, None, None, false);
    }
    var pushSpread := SpreadBps(pushVals);
    if Exceeds(pushSpread, MAX_PUSH_SPREAD_BPS) {
      report.aborted := report.aborted + 1;
      return Sample(Aborted, None, None, false);
    }
    PushIsAgreed(w.push);
    QuotesArePositive(w.verify);
    var price := Median(pushVals).value;
    var price6dec := Round(price * MICRO);
    var conf6dec := Max(1, Round((MaxOf(pushVals) - MinOf(pushVals)) / 2.0 * MICRO));
    var withinGate := CompareWithReference(price, verifyVals, gateBps);
    if Unreliable(verifyVals) {
      report.referenceUnreliable := report.referenceUnreliable + 1;
    }
    if w.prevPublish.None? {
      report.aborted := report.aborted + 1;
      return Sample(Aborted, None, None, false);
    }
    var reseed := false;
    if w.prevPublish.value > 0 {
      var gapSecs := w.now - w.prevPublish.value;
      reseed := gapSecs > RESEED_GAP_SECS;
    }
    rec := Offer(w, Push(price6dec, conf6dec, w.now), withinGate, reseed, report);
    EndTicked(w, gateBps, rec);
  }

  lemma AbortTicked(w: World, gateBps: real)
    requires !Pushable(Quotes(w.push)) || w.prevPublish.None?
    ensures Ticked(w, gateBps, Sample(Aborted, None, None, false))
  {
  }

  /** The record of a tick that was not aborted. */
  lemma EndTicked(w: World, gateBps: real, rec: Sample)
    requires Pushable(Quotes(w.push)) && w.prevPublish.Some? && Quotes(w.push) != []
    requires match rec.status
      case Aborted => false
      case Crashed => !w.buildOk && rec.push.None?
      case DryRun => w.buildOk && w.dryRun && rec.push.Some?
      case Sent => w.buildOk && !w.dryRun && w.sendOk && rec.push.Some?
      case Failed => w.buildOk && !w.dryRun && !w.sendOk && rec.push.Some?
    requires Median(Quotes(w.push)).Some? && Agree(Quotes(w.push), Median(Quotes(w.push)).value, 200.0)
    requires rec.push.Some? ==> rec.push.value == Push(Price6(Quotes(w.push)), Conf6(Quotes(w.push)), w.now)
    requires rec.reseed <==> w.prevPublish.value > 0 && w.now > w.prevPublish.value + 900
    requires rec.withinGate.Some? <==> |Quotes(w.verify)| >= MIN_RESPONDERS && !Unreliable(Quotes(w.verify))
    requires rec.withinGate.Some? ==> Median(Quotes(w.verify)).Some?
    requires rec.withinGate.Some? ==>
      (rec.withinGate.value <==>
       Within(Median(Quotes(w.push)).value, Median(Quotes(w.verify)).value, gateBps, Median(Quotes(w.verify)).value))
    ensures Ticked(w, gateBps, rec)
  {
    hide Median, Quotes, Agree, Within, Price6, Conf6, Unreliable, Pushable;
  }


  /** A sample within its gate of a reliable reference is within the gate and 20 bps more of every
      venue of the other, disjoint side. */
  lemma GateReachesEveryVenue(price: real, verify: seq<real>, gateBps: real, v: real)
    requires |verify| >= MIN_RESPONDERS && !Unreliable(verify) && (forall x :: x in verify ==> x > 0.0) && v in verify
    requires Median(verify).Some? && Within(price, Median(verify).value, gateBps, Median(verify).value)
    ensures Within(price, v, gateBps + 20.0, Median(verify).value)
  {
    TightSamplesAgree(verify, VERIFY_QUALITY_MAX_SPREAD_BPS);
    hide Median;
    var m := Median(verify).value;
    assert Within(v, m, 20.0, m);
    assert Abs(price - v) <= Abs(price - m) + Abs(v - m);
  }

  lemma PushableQuotes(readings: seq<Reading>)
    ensures Pushable(Quotes(readings)) ==> Quotes(readings) != [] && Median(Quotes(readings)).Some?
    ensures |Quotes(readings)| > 0 ==> Median(Quotes(readings)).Some?
  {
    if Quotes(readings) != [] {
      MedianIsInside(Quotes(readings));
    }
  }

  /** How many of the records are of one of these outcomes. */
  function Tally(recs: seq<Sample>, of: set<Status>): nat {
    |set i | 0 <= i < |recs| && recs[i].status in of|
  }

  lemma NoTally()
    ensures forall of :: Tally([], of) == 0
  {
  }

  lemma TallySnoc(recs: seq<Sample>, rec: Sample, of: set<Status>)
    ensures Tally(recs + [rec], of) == Tally(recs, of) + if rec.status in of then 1 else 0
  {
    OneMoreIndex(set i | 0 <= i < |recs| && recs[i].status in of,
                 set i | 0 <= i < |recs + [rec]| && (recs + [rec])[i].status in of, |recs|, rec.status in of);
  }

  /** One tick over the wanted feeds: a feed whose tick crashes costs the others nothing, and
      unless a shutdown cuts the tick short each feed is counted exactly once as pushed, aborted
      or failed. */
  method RunFpOracleTick(worlds: seq<World>, gates: seq<real>, stops: seq<bool>)
    returns (report: FpTickReport, done: nat, ghost recs: seq<Sample>)
    requires |worlds| == |gates| == |stops|
    ensures fresh(report)
    ensures report.Outcomes() == done == |recs| <= |worlds|
    ensures forall i :: 0 <= i < done ==> Ticked(worlds[i], gates[i], recs[i])
    ensures report.pushed == Tally(recs, {DryRun, Sent}) && report.aborted == Tally(recs, {Aborted})
    ensures report.failed == Tally(recs, {Status.Failed, Crashed})
    ensures done < |worlds| ==> stops[done]
    ensures forall i :: 0 <= i < done ==> !stops[i]
  {
    hide Ticked, Tally;
    report := new FpTickReport();
    done, recs := 0, [];
    NoTally();
    while done < |worlds|
      invariant done == |recs| <= |worlds| && fresh(report) && report.Outcomes() == done
      invariant forall i :: 0 <= i < done ==> Ticked(worlds[i], gates[i], recs[i])
      invariant report.pushed == Tally(recs, {DryRun, Sent}) && report.aborted == Tally(recs, {Aborted})
      invariant report.failed == Tally(recs, {Status.Failed, Crashed})
      invariant forall i :: 0 <= i < done ==> !stops[i]
    {
      if stops[done] {
        break;
      }
      var rec := TickFeed(worlds[done], gates[done], report);
      if rec.status.Crashed? {
        report.failed := report.failed + 1;
      }
      TallySnoc(recs, rec, {DryRun, Sent});
      TallySnoc(recs, rec, {Aborted});
      TallySnoc(recs, rec, {Status.Failed, Crashed});
      recs := recs + [rec];
      done := done + 1;
    }
  }
}

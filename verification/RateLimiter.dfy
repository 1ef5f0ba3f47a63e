/** crank/sbCreateMarketEndpoint.ts:153-176: the per-IP fixed-window rate limiter, whose bucket
    map is pruned now and then so that it cannot grow without bound. */
module RateLimiter {
  import opened Results

  datatype RateState = RateState(windowStart: int, count: int)
  datatype Request = Request(ip: string, now: int)

  type Buckets = map<string, RateState>

  const PRUNE_ABOVE: nat := 10_000

  // ---- one decision ----

  /** The bucket of an IP after a request, and whether the request is admitted. */
  function Decide(b: Option<RateState>, now: int, max: int, windowMs: int): (RateState, bool) {
    if b.None? || now - b.value.windowStart >= windowMs then (RateState(now, 1), true)
    else if b.value.count >= max then (b.value, false)
    else (b.value.(count := b.value.count + 1), true)
  }

  function Lookup(buckets: Buckets, ip: string): Option<RateState> {
    if ip in buckets then Some(buckets[ip]) else None
  }

  predicate Expired(b: RateState, now: int, windowMs: int) {
    now - b.windowStart >= windowMs
  }

  function Pruned(buckets: Buckets, now: int, windowMs: int): Buckets {
    map k | k in buckets && !Expired(buckets[k], now, windowMs) :: buckets[k]
  }

  /** The map after a request: a request that opens a window may trigger a prune. */
  function After(buckets: Buckets, r: Request, max: int, windowMs: int, pruneAbove: nat): Buckets {
    var b := Lookup(buckets, r.ip);
    var next := buckets[r.ip := Decide(b, r.now, max, windowMs).0];
    if (b.None? || Expired(b.value, r.now, windowMs)) && |next| > pruneAbove then Pruned(next, r.now, windowMs)
      else next
  }

  class Limiter {
    var buckets: Buckets
    const maxPerWindow: int
    const windowMs: int

    constructor (maxPerWindow: int, windowMs: int)
      ensures buckets == map[] && this.maxPerWindow == maxPerWindow && this.windowMs == windowMs
    {
      this.maxPerWindow, this.windowMs, buckets := maxPerWindow, windowMs, map[];
    }

    method Allow(ip: string, now: int) returns (ok: bool)
      modifies this
      ensures ok == Decide(Lookup(old(buckets), ip), now, maxPerWindow, windowMs).1
      ensures buckets == After(old(buckets), Request(ip, now), maxPerWindow, windowMs, PRUNE_ABOVE)
    {
      var b := Lookup(buckets, ip);
      if b.None? || now - b.value.windowStart >= windowMs {
        buckets := buckets[ip := RateState(now, 1)];
        if |buckets| > PRUNE_ABOVE {
          Prune(now);
        }
        return true;
      }
      if b.value.count >= maxPerWindow {
        assert buckets == buckets[ip := b.value];
        return false;
      }
      buckets := buckets[ip := b.value.(count := b.value.count + 1)];
      return true;
    }

    method Prune(now: int)
      modifies this
      ensures buckets == Pruned(old(buckets), now, windowMs)
    {
      var todo := buckets.Keys;
      while todo != {}
        invariant todo <= buckets.Keys <= old(buckets).Keys
        invariant forall k :: k in buckets ==> buckets[k] == old(buckets)[k]
        invariant forall k :: k in old(buckets) && k !in todo ==>
          (k in buckets <==> !Expired(old(buckets)[k], now, windowMs))
        decreases todo
      {
        var k :| k in todo;
        if now - buckets[k].windowStart >= windowMs {
          buckets := buckets - {k};
        }
        todo := todo - {k};
      }
    }
  }

  // ---- whole runs ----

  /** The bucket map after a run of requests. */
  function Run(reqs: seq<Request>, max: int, windowMs: int, pruneAbove: nat): Buckets {
    if reqs == [] then map[]
    else After(Run(reqs[..|reqs| - 1], max, windowMs, pruneAbove), reqs[|reqs| - 1], max, windowMs, pruneAbove)
  }

  /** One IP's requests in a run, each with its answer. */
  function Answers(reqs: seq<Request>, ip: string, max: int, windowMs: int, pruneAbove: nat): seq<(int, bool)> {
    if reqs == [] then []
    else
      var earlier, r := reqs[..|reqs| - 1], reqs[|reqs| - 1];
      var before := Answers(earlier, ip, max, windowMs, pruneAbove);
      if r.ip != ip then before
      else before + [(r.now, Decide(Lookup(Run(earlier, max, windowMs, pruneAbove), ip), r.now, max, windowMs).1)]
  }

  function TimesOf(reqs: seq<Request>, ip: string): seq<int> {
    if reqs == [] then []
    else
      var before, r := TimesOf(reqs[..|reqs| - 1], ip), reqs[|reqs| - 1];
      if r.ip == ip then before + [r.now] else before
  }

  /** The reference: a fixed-window limiter that serves one IP and forgets nothing. */
  function Alone(times: seq<int>, max: int, windowMs: int): Option<RateState> {
    if times == [] then None
    else Some(Decide(Alone(times[..|times| - 1], max, windowMs), times[|times| - 1], max, windowMs).0)
  }

  function AloneAnswers(times: seq<int>, max: int, windowMs: int): seq<(int, bool)> {
    if times == [] then []
    else
      var earlier, now := times[..|times| - 1], times[|times| - 1];
      AloneAnswers(earlier, max, windowMs) + [(now, Decide(Alone(earlier, max, windowMs), now, max, windowMs).1)]
  }

  ghost predicate ClockRuns(reqs: seq<Request>) {
    forall i, j :: 0 <= i < j < |reqs| ==> reqs[i].now <= reqs[j].now
  }

  ghost predicate NonDecreasing(times: seq<int>) {
    forall i, j :: 0 <= i < j < |times| ==> times[i] <= times[j]
  }

  /** A bucket map and the reference hold the same bucket, but for one that was pruned after
      its window had passed. */
  predicate Agree(kept: Option<RateState>, reference: Option<RateState>, now: int, windowMs: int) {
    kept == reference || (kept.None? && reference.Some? && Expired(reference.value, now, windowMs))
  }

  lemma AfterKeepsAgreement(buckets: Buckets, reference: Option<RateState>, r: Request, ip: string, was: int,
                            max: int, windowMs: int, pruneAbove: nat)
    requires Agree(Lookup(buckets, ip), reference, was, windowMs) && was <= r.now
    ensures r.ip != ip ==> Agree(Lookup(After(buckets, r, max, windowMs, pruneAbove), ip), reference, r.now, windowMs)
    ensures r.ip == ip ==>
      && Agree(Lookup(After(buckets, r, max, windowMs, pruneAbove), ip),
               Some(Decide(reference, r.now, max, windowMs).0), r.now, windowMs)
      && Decide(Lookup(buckets, ip), r.now, max, windowMs).1 == Decide(reference, r.now, max, windowMs).1
  {
  }

  lemma {:induction false} RunAgrees(reqs: seq<Request>, ip: string, max: int, windowMs: int, pruneAbove: nat)
    requires ClockRuns(reqs) && reqs != []
    ensures Agree(Lookup(Run(reqs, max, windowMs, pruneAbove), ip), Alone(TimesOf(reqs, ip), max, windowMs),
                  reqs[|reqs| - 1].now, windowMs)
    ensures Answers(reqs, ip, max, windowMs, pruneAbove) == AloneAnswers(TimesOf(reqs, ip), max, windowMs)
  {
    hide After, Decide, Agree, Lookup;
    var earlier, r := reqs[..|reqs| - 1], reqs[|reqs| - 1];
    var was := r.now;
    if earlier != [] {
      was := earlier[|earlier| - 1].now;
      RunAgrees(earlier, ip, max, windowMs, pruneAbove);
    } else {
      AgreeAtStart(ip, was, windowMs);
    }
    var buckets, times := Run(earlier, max, windowMs, pruneAbove), TimesOf(earlier, ip);
    AfterKeepsAgreement(buckets, Alone(times, max, windowMs), r, ip, was, max, windowMs, pruneAbove);
    assert (times + [r.now])[..|times|] == times;
  }

  lemma AgreeAtStart(ip: string, now: int, windowMs: int)
    ensures Agree(Lookup(map[], ip), None, now, windowMs)
  {
  }

  /** Pruning is invisible and the IPs do not affect one another: on every run with a clock that
      does not go back, an IP gets exactly the answers of a limiter that serves it alone and
      never forgets, whatever the prune threshold. */
  lemma PruningIsInvisible(reqs: seq<Request>, ip: string, max: int, windowMs: int, pruneAbove: nat)
    requires ClockRuns(reqs)
    ensures Answers(reqs, ip, max, windowMs, pruneAbove) == AloneAnswers(TimesOf(reqs, ip), max, windowMs)
  {
    if reqs != [] {
      RunAgrees(reqs, ip, max, windowMs, pruneAbove);
    }
  }

  // ---- when pruning shows ----

  /** The n-th request arrives inside a window of its IP whose bucket a prune has dropped. */
  ghost predicate Forgotten(reqs: seq<Request>, n: nat, max: int, windowMs: int, pruneAbove: nat)
    requires n < |reqs|
  {
    var r := reqs[n];
    var reference := Alone(TimesOf(reqs[..n], r.ip), max, windowMs);
    Lookup(Run(reqs[..n], max, windowMs, pruneAbove), r.ip).None? && reference.Some? &&
      !Expired(reference.value, r.now, windowMs)
  }

  ghost predicate NoneForgotten(reqs: seq<Request>, ip: string, max: int, windowMs: int, pruneAbove: nat) {
    forall n :: 0 <= n < |reqs| && reqs[n].ip == ip ==> !Forgotten(reqs, n, max, windowMs, pruneAbove)
  }

  /** The IP gets the answers of a limiter that serves it alone and never forgets. */
  ghost predicate AnsweredAsAlone(reqs: seq<Request>, ip: string, max: int, windowMs: int, pruneAbove: nat) {
    Answers(reqs, ip, max, windowMs, pruneAbove) == AloneAnswers(TimesOf(reqs, ip), max, windowMs)
  }

  /** The same request `m` times. */
  function Many(r: Request, m: nat): (rs: seq<Request>)
    ensures |rs| == m
  {
    if m == 0 then [] else Many(r, m - 1) + [r]
  }

  /** One request more: what becomes of the bucket and the answers of its IP, and of another. */
  lemma OneRequestMore(reqs: seq<Request>, r: Request, ip: string, max: int, windowMs: int, pruneAbove: nat)
    ensures Run(reqs + [r], max, windowMs, pruneAbove) ==
      After(Run(reqs, max, windowMs, pruneAbove), r, max, windowMs, pruneAbove)
    ensures r.ip != ip ==>
      && TimesOf(reqs + [r], ip) == TimesOf(reqs, ip)
      && Answers(reqs + [r], ip, max, windowMs, pruneAbove) == Answers(reqs, ip, max, windowMs, pruneAbove)
    ensures r.ip == ip ==>
      && TimesOf(reqs + [r], ip) == TimesOf(reqs, ip) + [r.now]
      && Answers(reqs + [r], ip, max, windowMs, pruneAbove) == Answers(reqs, ip, max, windowMs, pruneAbove) +
           [(r.now, Decide(Lookup(Run(reqs, max, windowMs, pruneAbove), ip), r.now, max, windowMs).1)]
  {
    hide Decide, After;
    assert (reqs + [r])[..|reqs|] == reqs;
  }

  lemma OneTimeMore(times: seq<int>, now: int, max: int, windowMs: int)
    ensures Alone(times + [now], max, windowMs) == Some(Decide(Alone(times, max, windowMs), now, max, windowMs).0)
    ensures AloneAnswers(times + [now], max, windowMs) ==
      AloneAnswers(times, max, windowMs) + [(now, Decide(Alone(times, max, windowMs), now, max, windowMs).1)]
  {
    hide Decide;
    assert (times + [now])[..|times|] == times;
  }

  /** The bucket is the reference's, or is gone. */
  predicate SameOrGone(kept: Option<RateState>, reference: Option<RateState>) {
    kept == reference || kept.None?
  }

  lemma AfterSameOrGone(buckets: Buckets, reference: Option<RateState>, r: Request, ip: string, max: int,
                        windowMs: int, pruneAbove: nat)
    requires SameOrGone(Lookup(buckets, ip), reference)
    requires r.ip == ip && Lookup(buckets, ip).None? && reference.Some? ==> Expired(reference.value, r.now, windowMs)
    ensures var kept := Lookup(After(buckets, r, max, windowMs, pruneAbove), ip);
      && SameOrGone(kept, if r.ip == ip then Some(Decide(reference, r.now, max, windowMs).0) else reference)
      && (r.ip == ip ==>
          Decide(Lookup(buckets, ip), r.now, max, windowMs).1 == Decide(reference, r.now, max, windowMs).1)
  {
  }

  /** Whatever the clock does, an IP none of whose requests meets a forgotten window is served as if
      nothing were ever pruned. */
  lemma {:induction false} UnforgottenIsAlone(reqs: seq<Request>, ip: string, max: int, windowMs: int, pruneAbove: nat)
    requires NoneForgotten(reqs, ip, max, windowMs, pruneAbove)
    ensures SameOrGone(Lookup(Run(reqs, max, windowMs, pruneAbove), ip), Alone(TimesOf(reqs, ip), max, windowMs))
    ensures AnsweredAsAlone(reqs, ip, max, windowMs, pruneAbove)
  {
    if reqs != [] {
      hide After, Decide, SameOrGone, Run, TimesOf, Answers, Alone, AloneAnswers;
      var earlier, r := reqs[..|reqs| - 1], reqs[|reqs| - 1];
      assert reqs == earlier + [r];
      forall n | 0 <= n < |earlier| && earlier[n].ip == ip ensures !Forgotten(earlier, n, max, windowMs, pruneAbove) {
        assert earlier[..n] == reqs[..n] && !Forgotten(reqs, n, max, windowMs, pruneAbove);
      }
      UnforgottenIsAlone(earlier, ip, max, windowMs, pruneAbove);
      assert r.ip == ip ==> !Forgotten(reqs, |earlier|, max, windowMs, pruneAbove);
      var reference := Alone(TimesOf(earlier, ip), max, windowMs);
      AfterSameOrGone(Run(earlier, max, windowMs, pruneAbove), reference, r, ip, max, windowMs, pruneAbove);
      OneRequestMore(earlier, r, ip, max, windowMs, pruneAbove);
      OneTimeMore(TimesOf(earlier, ip), r.now, max, windowMs);
    }
  }

  lemma NotForgottenAgrees(reqs: seq<Request>, n: nat, max: int, windowMs: int, pruneAbove: nat)
    requires n < |reqs| && NoneForgotten(reqs, reqs[n].ip, max, windowMs, pruneAbove)
    ensures var r, before := reqs[n], reqs[..n];
      && Agree(Lookup(Run(before, max, windowMs, pruneAbove), r.ip), Alone(TimesOf(before, r.ip), max, windowMs),
               r.now, windowMs)
      && AnsweredAsAlone(before, r.ip, max, windowMs, pruneAbove)
  {
    var r, before := reqs[n], reqs[..n];
    forall k | 0 <= k < |before| && before[k].ip == r.ip ensures !Forgotten(before, k, max, windowMs, pruneAbove) {
      assert before[..k] == reqs[..k] && !Forgotten(reqs, k, max, windowMs, pruneAbove);
    }
    UnforgottenIsAlone(before, r.ip, max, windowMs, pruneAbove);
    assert !Forgotten(reqs, n, max, windowMs, pruneAbove);
  }

  /** From a bucket that agrees with the reference, any number of requests at one instant are
      answered alike. */
  lemma {:induction false} ManyAlike(reqs: seq<Request>, r: Request, m: nat, max: int, windowMs: int, pruneAbove: nat)
    requires Agree(Lookup(Run(reqs, max, windowMs, pruneAbove), r.ip), Alone(TimesOf(reqs, r.ip), max, windowMs),
                   r.now, windowMs)
    requires AnsweredAsAlone(reqs, r.ip, max, windowMs, pruneAbove)
    ensures var all := reqs + Many(r, m);
      && Agree(Lookup(Run(all, max, windowMs, pruneAbove), r.ip), Alone(TimesOf(all, r.ip), max, windowMs), r.now,
               windowMs)
      && AnsweredAsAlone(all, r.ip, max, windowMs, pruneAbove)
  {
    hide After, Decide, Agree, Run, TimesOf, Answers, Alone, AloneAnswers, Lookup;
    if m == 0 {
      assert reqs + Many(r, m) == reqs;
    } else {
      ManyAlike(reqs, r, m - 1, max, windowMs, pruneAbove);
      var before := reqs + Many(r, m - 1);
      assert reqs + Many(r, m) == before + [r];
      var reference := Alone(TimesOf(before, r.ip), max, windowMs);
      AfterKeepsAgreement(Run(before, max, windowMs, pruneAbove), reference, r, r.ip, r.now, max, windowMs, pruneAbove);
      OneRequestMore(before, r, r.ip, max, windowMs, pruneAbove);
      OneTimeMore(TimesOf(before, r.ip), r.now, max, windowMs);
    }
  }

  lemma {:induction false} CountsArePositive(times: seq<int>, max: int, windowMs: int)
    ensures Alone(times, max, windowMs).Some? ==> Alone(times, max, windowMs).value.count >= 1
  {
    if times != [] {
      CountsArePositive(times[..|times| - 1], max, windowMs);
    }
  }

  /** A request's own bucket survives the prune it may trigger, unless windows have no length. */
  lemma OwnBucket(buckets: Buckets, r: Request, max: int, windowMs: int, pruneAbove: nat)
    ensures var kept := Lookup(After(buckets, r, max, windowMs, pruneAbove), r.ip);
      var next := Decide(Lookup(buckets, r.ip), r.now, max, windowMs).0;
      kept == Some(next) || (windowMs <= 0 && kept.None?)
  {
  }

  /** What the limiter holds for an IP after `m` requests at this instant, the first of which opened a
      window. */
  predicate Reopened(kept: Option<RateState>, now: int, m: nat, windowMs: int) {
    kept == Some(RateState(now, m)) || (windowMs <= 0 && (kept.None? || kept.value.windowStart == now))
  }

  lemma ReopenedAdmits(kept: Option<RateState>, now: int, m: nat, max: int, windowMs: int)
    requires kept.None? || Reopened(kept, now, m, windowMs)
    requires if m == 0 then kept.None? else kept.None? ==> windowMs <= 0
    requires m < Max(1, max)
    ensures Decide(kept, now, max, windowMs).1
    ensures Reopened(Some(Decide(kept, now, max, windowMs).0), now, m + 1, windowMs)
  {
  }

  /** After a forgotten window the limiter opens a new one, and counts from there. */
  lemma {:induction false} ForgetfulBurst(reqs: seq<Request>, r: Request, m: nat, max: int, windowMs: int,
                                          pruneAbove: nat)
    requires Lookup(Run(reqs, max, windowMs, pruneAbove), r.ip).None? && 1 <= m <= Max(1, max)
    ensures Reopened(Lookup(Run(reqs + Many(r, m), max, windowMs, pruneAbove), r.ip), r.now, m, windowMs)
    ensures Decide(Lookup(Run(reqs + Many(r, m - 1), max, windowMs, pruneAbove), r.ip), r.now, max, windowMs).1
  {
    hide Run, After, Decide, Lookup, TimesOf, Answers;
    var before := reqs + Many(r, m - 1);
    assert reqs + Many(r, m) == before + [r];
    if m == 1 {
      assert before == reqs;
    } else {
      ForgetfulBurst(reqs, r, m - 1, max, windowMs, pruneAbove);
    }
    var buckets := Run(before, max, windowMs, pruneAbove);
    ReopenedAdmits(Lookup(buckets, r.ip), r.now, m - 1, max, windowMs);
    OneRequestMore(before, r, r.ip, max, windowMs, pruneAbove);
    OwnBucket(buckets, r, max, windowMs, pruneAbove);
  }

  lemma {:induction false} ReferenceBurst(reqs: seq<Request>, r: Request, m: nat, max: int, windowMs: int)
    requires var reference := Alone(TimesOf(reqs, r.ip), max, windowMs);
      reference.Some? && !Expired(reference.value, r.now, windowMs) && reference.value.count + m <= max
    ensures var reference := Alone(TimesOf(reqs, r.ip), max, windowMs).value;
      Alone(TimesOf(reqs + Many(r, m), r.ip), max, windowMs) ==
        Some(RateState(reference.windowStart, reference.count + m))
  {
    hide Alone, TimesOf, Run, Answers, After, AloneAnswers, Lookup;
    if m == 0 {
      assert reqs + Many(r, m) == reqs;
    } else {
      ReferenceBurst(reqs, r, m - 1, max, windowMs);
      var before := reqs + Many(r, m - 1);
      assert reqs + Many(r, m) == before + [r];
      OneRequestMore(before, r, r.ip, max, windowMs, 0);
      OneTimeMore(TimesOf(before, r.ip), r.now, max, windowMs);
    }
  }

  lemma ForgottenBurst(reqs: seq<Request>, n: nat, max: int, windowMs: int, pruneAbove: nat) returns (m: nat)
    requires n < |reqs| && Forgotten(reqs, n, max, windowMs, pruneAbove)
    ensures m >= 1
    ensures var r, before := reqs[n], reqs[..n] + Many(reqs[n], m - 1);
      && Decide(Lookup(Run(before, max, windowMs, pruneAbove), r.ip), r.now, max, windowMs).1
      && !Decide(Alone(TimesOf(before, r.ip), max, windowMs), r.now, max, windowMs).1
  {
    hide Run, TimesOf, Alone;
    var r, before := reqs[n], reqs[..n];
    var reference := Alone(TimesOf(before, r.ip), max, windowMs).value;
    CountsArePositive(TimesOf(before, r.ip), max, windowMs);
    m := if reference.count >= max then 1 else max - reference.count + 1;
    ForgetfulBurst(before, r, m, max, windowMs, pruneAbove);
    if reference.count >= max {
      assert before + Many(r, 0) == before;
    } else {
      ReferenceBurst(before, r, m - 1, max, windowMs);
    }
  }

  /** A forgotten window can be told: some number of requests at that instant, at most one more than
      are left of the window, gets one more answer than the reference gives. */
  lemma ForgettingShows(reqs: seq<Request>, n: nat, max: int, windowMs: int, pruneAbove: nat) returns (m: nat)
    requires n < |reqs| && Forgotten(reqs, n, max, windowMs, pruneAbove)
    ensures !AnsweredAsAlone(reqs[..n] + Many(reqs[n], m), reqs[n].ip, max, windowMs, pruneAbove)
  {
    m := ForgottenBurst(reqs, n, max, windowMs, pruneAbove);
    hide Run, TimesOf, Alone, Decide, Answers, AloneAnswers, Forgotten;
    var r, before := reqs[n], reqs[..n] + Many(reqs[n], m - 1);
    assert reqs[..n] + Many(r, m) == before + [r];
    OneRequestMore(before, r, r.ip, max, windowMs, pruneAbove);
    OneTimeMore(TimesOf(before, r.ip), r.now, max, windowMs);
    LastDiffers(Answers(before, r.ip, max, windowMs, pruneAbove), AloneAnswers(TimesOf(before, r.ip), max, windowMs),
                r.now);
  }

  lemma LastDiffers(a: seq<(int, bool)>, b: seq<(int, bool)>, now: int)
    ensures a + [(now, true)] != b + [(now, false)]
  {
    var p, q := a + [(now, true)], b + [(now, false)];
    assert p[|p| - 1] != q[|q| - 1];
  }

  /** Exactly when pruning shows, whatever the clock does: at every point where the IP asks, however
      often it asks at that instant, it is answered as if alone, if and only if none of its requests
      arrives inside a window whose bucket a prune has dropped. */
  lemma PruningInvisibleExactlyWhen(reqs: seq<Request>, ip: string, max: int, windowMs: int, pruneAbove: nat)
    ensures (forall n, m: nat :: 0 <= n < |reqs| && reqs[n].ip == ip ==>
               AnsweredAsAlone(reqs[..n] + Many(reqs[n], m), ip, max, windowMs, pruneAbove)) <==>
      NoneForgotten(reqs, ip, max, windowMs, pruneAbove)
  {
    hide AnsweredAsAlone, Forgotten, Run, Answers, TimesOf, Alone, Agree;
    if NoneForgotten(reqs, ip, max, windowMs, pruneAbove) {
      forall n, m: nat | 0 <= n < |reqs| && reqs[n].ip == ip
        ensures AnsweredAsAlone(reqs[..n] + Many(reqs[n], m), ip, max, windowMs, pruneAbove)
      {
        NotForgottenAgrees(reqs, n, max, windowMs, pruneAbove);
        ManyAlike(reqs[..n], reqs[n], m, max, windowMs, pruneAbove);
      }
    } else {
      var n :| 0 <= n < |reqs| && reqs[n].ip == ip && Forgotten(reqs, n, max, windowMs, pruneAbove);
      var m := ForgettingShows(reqs, n, max, windowMs, pruneAbove);
    }
  }

  // ---- a run in which it shows ----

  function FillerIp(k: nat): string {
    seq(k + 2, _ => 'x')
  }

  /** One request at 10 ms from each of `k` other IPs, after one of "a" at 0 ms. */
  function Flood(k: nat): seq<Request> {
    if k == 0 then [Request("a", 0)] else Flood(k - 1) + [Request(FillerIp(k - 1), 10)]
  }

  function FloodMap(k: nat): Buckets {
    if k == 0 then map["a" := RateState(0, 1)] else FloodMap(k - 1)[FillerIp(k - 1) := RateState(10, 1)]
  }

  lemma {:induction false} FloodMapKeys(k: nat, ip: string)
    ensures ip in FloodMap(k) ==> ip == "a" || 2 <= |ip| < k + 2
    ensures "a" in FloodMap(k) && FloodMap(k)["a"] == RateState(0, 1)
  {
    if k > 0 {
      FloodMapKeys(k - 1, ip);
      assert |FillerIp(k - 1)| == k + 1;
    }
  }

  lemma {:induction false} FloodMapIs(k: nat)
    ensures |FloodMap(k)| == k + 1 && FillerIp(k) !in FloodMap(k)
  {
    FloodMapKeys(k, FillerIp(k));
    assert |FillerIp(k)| == k + 2;
    if k > 0 {
      FloodMapIs(k - 1);
      assert FloodMap(k).Keys == FloodMap(k - 1).Keys + {FillerIp(k - 1)};
    }
  }

  lemma {:induction false} FloodAnswers(k: nat, pruneAbove: nat)
    ensures Answers(Flood(k), "a", 1, 10, pruneAbove) == [(0, true)] && TimesOf(Flood(k), "a") == [0]
  {
    if k == 0 {
      assert [] + [Request("a", 0)] == Flood(0);
      OneRequestMore([], Request("a", 0), "a", 1, 10, pruneAbove);
    } else {
      hide Answers, TimesOf;
      FloodAnswers(k - 1, pruneAbove);
      OneRequestMore(Flood(k - 1), Request(FillerIp(k - 1), 10), "a", 1, 10, pruneAbove);
    }
  }

  lemma OpensWindow(buckets: Buckets, r: Request, max: int, windowMs: int, pruneAbove: nat)
    requires r.ip !in buckets
    ensures var next := buckets[r.ip := RateState(r.now, 1)];
      After(buckets, r, max, windowMs, pruneAbove) ==
      if |buckets| + 1 > pruneAbove then Pruned(next, r.now, windowMs) else next
  {
    assert buckets[r.ip := RateState(r.now, 1)].Keys == buckets.Keys + {r.ip};
  }

  /** What the k-th filler does to the map. */
  lemma FloodStep(k: nat, pruneAbove: nat)
    requires k >= 1 && Run(Flood(k - 1), 1, 10, pruneAbove) == FloodMap(k - 1)
    ensures Run(Flood(k), 1, 10, pruneAbove) == if k + 1 > pruneAbove then Pruned(FloodMap(k), 10, 10) else FloodMap(k)
  {
    hide Run, After, Pruned, Answers, TimesOf, Lookup, Decide;
    var r := Request(FillerIp(k - 1), 10);
    FloodMapIs(k - 1);
    OneRequestMore(Flood(k - 1), r, "a", 1, 10, pruneAbove);
    OpensWindow(FloodMap(k - 1), r, 1, 10, pruneAbove);
  }

  lemma {:induction false} FloodRun(k: nat, pruneAbove: nat)
    requires k < pruneAbove
    ensures Run(Flood(k), 1, 10, pruneAbove) == FloodMap(k)
  {
    hide FloodMap;
    if k == 0 {
      FloodStart(pruneAbove);
    } else {
      hide Run;
      FloodRun(k - 1, pruneAbove);
      FloodStep(k, pruneAbove);
    }
  }

  lemma FloodStart(pruneAbove: nat)
    requires pruneAbove >= 1
    ensures Run(Flood(0), 1, 10, pruneAbove) == FloodMap(0)
  {
    var r := Request("a", 0);
    assert [] + [r] == Flood(0);
    OneRequestMore([], r, "a", 1, 10, pruneAbove);
    OpensWindow(map[], r, 1, 10, pruneAbove);
  }

  lemma FloodForgets(k: nat)
    requires k >= 1
    ensures "a" !in Run(Flood(k), 1, 10, k)
  {
    hide Run, FloodMap;
    FloodRun(k - 1, k);
    FloodStep(k, k);
    FloodMapKeys(k, "a");
  }

  /** At the real threshold: ten thousand other IPs make the map forget "a", and when the clock is then
      set back into its window it is let in a second time, which the reference refuses. */
  lemma PruningShowsWhenTheClockGoesBack()
    ensures var reqs := Flood(PRUNE_ABOVE) + [Request("a", 5)];
      && Answers(reqs, "a", 1, 10, PRUNE_ABOVE) == [(0, true), (5, true)]
      && AloneAnswers(TimesOf(reqs, "a"), 1, 10) == [(0, true), (5, false)]
  {
    hide Flood, Run, Answers, TimesOf;
    FloodForgets(PRUNE_ABOVE);
    FloodAnswers(PRUNE_ABOVE, PRUNE_ABOVE);
    OneRequestMore(Flood(PRUNE_ABOVE), Request("a", 5), "a", 1, 10, PRUNE_ABOVE);
    assert [0][..0] == [] && [0] + [5] == [0, 5];
    assert Alone([0], 1, 10) == Some(RateState(0, 1)) && AloneAnswers([0], 1, 10) == [(0, true)];
    OneTimeMore([0], 5, 1, 10);
  }

  // ---- how many requests a window lets through ----

  /** Admitted requests at `lo` or later. */
  function Since(log: seq<(int, bool)>, lo: int): nat {
    if log == [] then 0
    else
      var p := log[|log| - 1];
      Since(log[..|log| - 1], lo) + if p.1 && lo <= p.0 then 1 else 0
  }

  /** Admitted requests in [lo, hi). */
  function Within(log: seq<(int, bool)>, lo: int, hi: int): nat {
    if log == [] then 0
    else
      var p := log[|log| - 1];
      Within(log[..|log| - 1], lo, hi) + if p.1 && lo <= p.0 < hi then 1 else 0
  }

  /** What is known about the admitted requests of one IP, seen from instant `t`. */
  ghost predicate Accounted(s: RateState, last: int, since: nat, within: nat, t: int, cap: int, windowMs: int) {
    && 1 <= s.count <= cap && s.windowStart <= last < s.windowStart + windowMs
    && within <= since
    && (t > last ==> since == 0)
    && (t > s.windowStart ==> since <= s.count - 1)
    && (s.windowStart - windowMs < t <= s.windowStart ==> since <= cap - 1 + s.count)
    && within <= 2 * cap - 1
  }

  lemma {:induction false} AloneIsAccounted(times: seq<int>, t: int, max: int, windowMs: int)
    requires NonDecreasing(times) && times != [] && windowMs > 0
    ensures Accounted(Alone(times, max, windowMs).value, times[|times| - 1],
                      Since(AloneAnswers(times, max, windowMs), t),
                      Within(AloneAnswers(times, max, windowMs), t, t + windowMs),
                      t, Max(1, max), windowMs)
  {
    var earlier, now := times[..|times| - 1], times[|times| - 1];
    var log := AloneAnswers(times, max, windowMs);
    assert log[..|log| - 1] == AloneAnswers(earlier, max, windowMs);
    if earlier != [] {
      AloneIsAccounted(earlier, t, max, windowMs);
    }
  }

  /** No half-open interval one window long ever admits 2 * max requests of an IP: at most one
      fewer, since two windows that both touch it cannot both have all their requests in it.
      (With max below 1 a window still admits the request that opens it.) */
  lemma WindowBound(reqs: seq<Request>, ip: string, t: int, max: int, windowMs: int, pruneAbove: nat)
    requires ClockRuns(reqs)
    ensures Within(Answers(reqs, ip, max, windowMs, pruneAbove), t, t + windowMs) <= 2 * Max(1, max) - 1
  {
    PruningIsInvisible(reqs, ip, max, windowMs, pruneAbove);
    var times := TimesOf(reqs, ip);
    TimesRun(reqs, ip);
    if windowMs <= 0 {
      NothingWithin(AloneAnswers(times, max, windowMs), t, t + windowMs);
    } else if times != [] {
      AloneIsAccounted(times, t, max, windowMs);
    }
  }

  lemma {:induction false} TimesRun(reqs: seq<Request>, ip: string)
    requires ClockRuns(reqs)
    ensures NonDecreasing(TimesOf(reqs, ip))
    ensures TimesOf(reqs, ip) != [] ==> reqs != [] && TimesOf(reqs, ip)[|TimesOf(reqs, ip)| - 1] <= reqs[|reqs| - 1].now
  {
    if reqs != [] {
      var earlier := reqs[..|reqs| - 1];
      TimesRun(earlier, ip);
      assert earlier != [] ==> earlier[|earlier| - 1].now <= reqs[|reqs| - 1].now;
    }
  }

  lemma {:induction false} NothingWithin(log: seq<(int, bool)>, lo: int, hi: int)
    requires hi <= lo
    ensures Within(log, lo, hi) == 0
  {
    if log != [] {
      NothingWithin(log[..|log| - 1], lo, hi);
    }
  }

  /** `n` requests at one instant. */
  function Burst(n: nat, now: int): seq<int> {
    if n == 0 then [] else Burst(n - 1, now) + [now]
  }

  lemma OneMore(times: seq<int>, now: int, lo: int, hi: int, max: int, windowMs: int)
    ensures var d := Decide(Alone(times, max, windowMs), now, max, windowMs);
      && Alone(times + [now], max, windowMs) == Some(d.0)
      && Within(AloneAnswers(times + [now], max, windowMs), lo, hi) ==
         Within(AloneAnswers(times, max, windowMs), lo, hi) + if d.1 && lo <= now < hi then 1 else 0
  {
    hide Decide;
    var all := times + [now];
    assert all[..|all| - 1] == times;
    var log := AloneAnswers(all, max, windowMs);
    assert log[..|log| - 1] == AloneAnswers(times, max, windowMs);
  }

  lemma {:induction false} BurstAdmitted(times: seq<int>, n: nat, now: int, lo: int, hi: int, max: int, windowMs: int)
    requires Alone(times, max, windowMs).Some?
    requires var s := Alone(times, max, windowMs).value; now - s.windowStart < windowMs && s.count + n <= max
    ensures var s := Alone(times, max, windowMs).value;
      Alone(times + Burst(n, now), max, windowMs) == Some(RateState(s.windowStart, s.count + n))
    ensures lo <= now < hi ==>
      Within(AloneAnswers(times + Burst(n, now), max, windowMs), lo, hi) ==
        Within(AloneAnswers(times, max, windowMs), lo, hi) + n
  {
    hide Alone, AloneAnswers, Within;
    if n == 0 {
      assert times + Burst(n, now) == times;
    } else {
      BurstAdmitted(times, n - 1, now, lo, hi, max, windowMs);
      var before := times + Burst(n - 1, now);
      assert times + Burst(n, now) == before + [now];
      OneMore(before, now, lo, hi, max, windowMs);
    }
  }

  /** The bound is reached: one early request, the rest of its window at the last moment, and a
      full window one tick later. */
  lemma WindowBoundIsTight(max: int, windowMs: int)
    requires max >= 1 && windowMs >= 2
    ensures var times := [0] + Burst(max - 1, windowMs - 1) + [windowMs] + Burst(max - 1, windowMs);
      Within(AloneAnswers(times, max, windowMs), 1, 1 + windowMs) == 2 * max - 1
  {
    var lo, hi := 1, 1 + windowMs;
    assert Alone([], max, windowMs) == None && Within(AloneAnswers([], max, windowMs), lo, hi) == 0;
    hide Alone, AloneAnswers, Within, Burst;
    OneMore([], 0, lo, hi, max, windowMs);
    assert [] + [0] == [0];
    BurstAdmitted([0], max - 1, windowMs - 1, lo, hi, max, windowMs);
    var first := [0] + Burst(max - 1, windowMs - 1);
    OneMore(first, windowMs, lo, hi, max, windowMs);
    BurstAdmitted(first + [windowMs], max - 1, windowMs, lo, hi, max, windowMs);
  }
}

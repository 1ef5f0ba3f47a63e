/** crank/livenessCrank.ts:111-176, 261-283: batched price probing that isolates unknown ids by
    bisection, and the hysteresis that turns probe outcomes into a live flag. */
module Liveness {
  import opened Results

  // ---- the price service ----

  /** The n-th request of the run, for a list of ids: None for a non-200, a network or a parse
      failure, else the (id, publish time) pairs of the body. */
  type Hermes = (nat, seq<string>) -> Option<seq<(string, int)>>

  /** What a body says is true: it lists requested ids only, with their publish times. */
  ghost predicate Truthful(hermes: Hermes, known: map<string, int>) {
    forall n: nat, ids :: hermes(n, ids).Some? ==>
      forall p :: p in hermes(n, ids).value ==> p.0 in ids && p.0 in known && known[p.0] == p.1 && p.0 != ""
  }

  /** A request succeeds exactly when all its ids are known, and then answers for all of them. */
  ghost predicate AllOrNothing(hermes: Hermes, known: map<string, int>) {
    && Truthful(hermes, known)
    && (forall n: nat, ids :: hermes(n, ids).Some? <==> forall id :: id in ids ==> id in known)
    && (forall n: nat, ids, id :: hermes(n, ids).Some? && id in ids ==>
          id in known && (id, known[id]) in hermes(n, ids).value)
  }

  /** `out.set(id, publish_time)` for every pair of a body; an empty id is skipped. */
  function Merge(m: map<string, int>, body: seq<(string, int)>): map<string, int> {
    if body == [] then m
    else
      var before, p := Merge(m, body[..|body| - 1]), body[|body| - 1];
      if p.0 != "" then before[p.0 := p.1] else before
  }

  /** The times found, the number of requests made, and the ids of each. */
  datatype Probed = Probed(times: map<string, int>, requests: nat, asked: seq<seq<string>>)

  /** One request; on failure the two halves, the smaller first. */
  function Probe(hermes: Hermes, ids: seq<string>, from: Probed): Probed
    decreases |ids|
  {
    if ids == [] then from
    else
      var asked := Probed(from.times, from.requests + 1, from.asked + [ids]);
      match hermes(from.requests, ids)
      case Some(body) => asked.(times := Merge(from.times, body))
      case None =>
        if |ids| == 1 then asked
        else
          var mid := |ids| / 2;
          Probe(hermes, ids[mid..], Probe(hermes, ids[..mid], asked))
  }

  class PublishTimes {
    var times: map<string, int>
    var requests: nat
    ghost var asked: seq<seq<string>>

    ghost function View(): Probed
      reads this
    {
      Probed(times, requests, asked)
    }

    constructor ()
      ensures View() == Probed(map[], 0, [])
    {
      times, requests, asked := map[], 0, [];
    }
  }

  lemma MergeNothing(m: map<string, int>, body: seq<(string, int)>)
    ensures Merge(m, body[..0]) == m
  {
  }

  lemma MergeOneMore(m: map<string, int>, body: seq<(string, int)>, i: nat)
    requires i < |body|
    ensures Merge(m, body[..i + 1]) ==
      if body[i].0 != "" then Merge(m, body[..i])[body[i].0 := body[i].1] else Merge(m, body[..i])
  {
    assert body[..i + 1][..i] == body[..i];
  }

  /** A request that succeeds, or has a single id, ends there. */
  lemma ProbedAtOnce(hermes: Hermes, ids: seq<string>, from: Probed)
    requires ids != [] && (hermes(from.requests, ids).Some? || |ids| == 1)
    ensures var resp := hermes(from.requests, ids);
      Probe(hermes, ids, from) ==
      Probed(if resp.Some? then Merge(from.times, resp.value) else from.times, from.requests + 1, from.asked + [ids])
  {
  }

  /** A failed request for several ids is asked again in two halves. */
  lemma AskedInHalves(hermes: Hermes, ids: seq<string>, from: Probed) returns (asked: Probed)
    requires |ids| > 1 && hermes(from.requests, ids).None?
    ensures asked == Probed(from.times, from.requests + 1, from.asked + [ids])
    ensures Probe(hermes, ids, from) ==
            Probe(hermes, ids[|ids| / 2..], Probe(hermes, ids[..|ids| / 2], asked))
  {
    asked := Probed(from.times, from.requests + 1, from.asked + [ids]);
  }

  method ProbePythInto(ids: seq<string>, hermes: Hermes, out: PublishTimes)
    modifies out
    ensures out.View() == Probe(hermes, ids, old(out.View()))
    decreases |ids|
  {
    if |ids| == 0 {
      assert Probe(hermes, ids, out.View()) == out.View();
      return;
    }
    hide Merge, Probe;
    ghost var from := out.View();
    if |ids| == 1 || hermes(out.requests, ids).Some? {
      ProbedAtOnce(hermes, ids, from);
    } else {
      var again := AskedInHalves(hermes, ids, from);
    }
    var resp := hermes(out.requests, ids);
    out.requests := out.requests + 1;
    out.asked := out.asked + [ids];
    if resp.Some? {
      ghost var before := out.times;
      MergeNothing(before, resp.value);
      for i := 0 to |resp.value|
        invariant out.times == Merge(before, resp.value[..i])
        invariant out.requests == old(out.requests) + 1 && out.asked == old(out.asked) + [ids]
      {
        MergeOneMore(before, resp.value, i);
        var p := resp.value[i];
        if p.0 != "" {
          out.times := out.times[p.0 := p.1];
        }
      }
      assert resp.value[..|resp.value|] == resp.value;
    }
    if resp.Some? || |ids| == 1 {
      return;
    }
    var mid := |ids| / 2;
    ProbePythInto(ids[..mid], hermes, out);
    ProbePythInto(ids[mid..], hermes, out);
  }

  // ---- bisection ----

  /** From the times `m`, exactly the known ids of the list have been added. */
  ghost predicate Adds(m: map<string, int>, ids: seq<string>, known: map<string, int>, r: map<string, int>) {
    && (forall k :: k in r <==> k in m || (k in ids && k in known))
    && (forall k :: k in r ==> r[k] == if k in ids && k in known then known[k] else m[k])
  }

  lemma {:induction false} MergeTruth(m: map<string, int>, body: seq<(string, int)>, known: map<string, int>)
    requires forall p :: p in body ==> p.0 in known && known[p.0] == p.1 && p.0 != ""
    ensures var r := Merge(m, body);
      && (forall k :: k in r <==> k in m || (k in known && (k, known[k]) in body))
      && (forall k :: k in r ==> r[k] == if k in known && (k, known[k]) in body then known[k] else m[k])
  {
    if body != [] {
      var before, p := body[..|body| - 1], body[|body| - 1];
      assert body == before + [p];
      MergeTruth(m, before, known);
    }
  }

  lemma AddsBoth(m: map<string, int>, a: seq<string>, b: seq<string>, known: map<string, int>, r: map<string, int>,
                 s: map<string, int>)
    requires Adds(m, a, known, r) && Adds(r, b, known, s)
    ensures Adds(m, a + b, known, s)
  {
  }

  lemma OneRequestFinds(hermes: Hermes, ids: seq<string>, n: nat, m: map<string, int>, known: map<string, int>)
    requires AllOrNothing(hermes, known) && ids != [] && (hermes(n, ids).Some? || |ids| == 1)
    ensures Adds(m, ids, known, if hermes(n, ids).Some? then Merge(m, hermes(n, ids).value) else m)
  {
    hide Merge;
    if hermes(n, ids).Some? {
      MergeTruth(m, hermes(n, ids).value, known);
    } else {
      assert ids == [ids[0]];
    }
  }

  lemma OneRequestTruth(hermes: Hermes, ids: seq<string>, n: nat, m: map<string, int>, known: map<string, int>,
                        k: string)
    requires Truthful(hermes, known) && hermes(n, ids).Some?
    ensures var r := Merge(m, hermes(n, ids).value);
      k in r ==> (k in ids && k in known && r[k] == known[k]) || (k in m && r[k] == m[k])
  {
    hide Merge;
    MergeTruth(m, hermes(n, ids).value, known);
  }

  /** Bisection fills the map with exactly the known ids and their times: one unknown id never
      costs the others in its batch their answer. */
  lemma {:induction false} ProbeFindsExactlyTheKnown(hermes: Hermes, ids: seq<string>, from: Probed,
                                                     known: map<string, int>)
    requires AllOrNothing(hermes, known)
    ensures Adds(from.times, ids, known, Probe(hermes, ids, from).times)
    decreases |ids|
  {
    hide AllOrNothing, Merge;
    if ids != [] {
      hide Adds, Probe;
      if hermes(from.requests, ids).Some? || |ids| == 1 {
        ProbedAtOnce(hermes, ids, from);
        OneRequestFinds(hermes, ids, from.requests, from.times, known);
      } else {
        var a, b := ids[..|ids| / 2], ids[|ids| / 2..];
        var asked := AskedInHalves(hermes, ids, from);
        var left := Probe(hermes, a, asked);
        ProbeFindsExactlyTheKnown(hermes, a, asked, known);
        ProbeFindsExactlyTheKnown(hermes, b, left, known);
        AddsBoth(from.times, a, b, known, left.times, Probe(hermes, b, left).times);
        assert a + b == ids;
      }
    }
  }

  /** Whatever requests fail, for whatever reason, nothing untrue is ever recorded. */
  lemma {:induction false} ProbeRecordsOnlyTruth(hermes: Hermes, ids: seq<string>, from: Probed,
                                                 known: map<string, int>, k: string)
    requires Truthful(hermes, known)
    ensures var r := Probe(hermes, ids, from).times;
      k in r ==> (k in ids && k in known && r[k] == known[k]) || (k in from.times && r[k] == from.times[k])
    decreases |ids|
  {
    hide Truthful, Merge;
    if ids != [] {
      hide Probe;
      if hermes(from.requests, ids).Some? || |ids| == 1 {
        ProbedAtOnce(hermes, ids, from);
        if hermes(from.requests, ids).Some? {
          OneRequestTruth(hermes, ids, from.requests, from.times, known, k);
        }
      } else {
        var a, b := ids[..|ids| / 2], ids[|ids| / 2..];
        var asked := AskedInHalves(hermes, ids, from);
        ProbeRecordsOnlyTruth(hermes, a, asked, known, k);
        ProbeRecordsOnlyTruth(hermes, b, Probe(hermes, a, asked), known, k);
        assert k in a || k in b ==> k in ids;
      }
    }
  }

  /** At most 2n - 1 requests for n ids, even if every one of them fails. */
  lemma {:induction false} ProbeIsLinear(hermes: Hermes, ids: seq<string>, from: Probed)
    requires ids != []
    ensures 1 <= Probe(hermes, ids, from).requests - from.requests <= 2 * |ids| - 1
    decreases |ids|
  {
    if hermes(from.requests, ids).None? && |ids| > 1 {
      var mid := |ids| / 2;
      var asked := Probed(from.times, from.requests + 1, from.asked + [ids]);
      ProbeIsLinear(hermes, ids[..mid], asked);
      ProbeIsLinear(hermes, ids[mid..], Probe(hermes, ids[..mid], asked));
    }
  }

  function CeilLog2(n: nat): nat {
    if n <= 1 then 0 else 1 + CeilLog2(n - n / 2)
  }

  function CountUnknown(ids: seq<string>, known: map<string, int>): nat {
    if ids == [] then 0 else (if ids[0] in known then 0 else 1) + CountUnknown(ids[1..], known)
  }

  function Pow2(n: nat): nat {
    if n == 0 then 1 else 2 * Pow2(n - 1)
  }

  /** The least power of two that is at least n. */
  lemma {:induction false} CeilLog2Is(n: nat)
    requires n >= 1
    ensures n <= Pow2(CeilLog2(n)) && (n > 1 ==> Pow2(CeilLog2(n) - 1) < n)
  {
    if n > 1 {
      CeilLog2Is(n - n / 2);
    }
  }

  lemma {:induction false} CeilLog2Grows(m: nat, n: nat)
    requires m <= n
    ensures CeilLog2(m) <= CeilLog2(n)
    decreases n
  {
    if m > 1 {
      CeilLog2Grows(m - m / 2, n - n / 2);
    }
  }

  lemma CeilLog2Halves(n: nat)
    requires n > 1
    ensures CeilLog2(n) == 1 + CeilLog2(n - n / 2) && CeilLog2(n / 2) <= CeilLog2(n - n / 2)
  {
    CeilLog2Grows(n / 2, n - n / 2);
  }

  lemma {:induction false} CountUnknownSplit(a: seq<string>, b: seq<string>, known: map<string, int>)
    ensures CountUnknown(a + b, known) == CountUnknown(a, known) + CountUnknown(b, known)
  {
    if a == [] {
      assert a + b == b;
    } else {
      assert (a + b)[1..] == a[1..] + b;
      CountUnknownSplit(a[1..], b, known);
    }
  }

  lemma {:induction false} NoneUnknown(ids: seq<string>, known: map<string, int>)
    ensures CountUnknown(ids, known) == 0 <==> forall id :: id in ids ==> id in known
  {
    if ids != [] {
      NoneUnknown(ids[1..], known);
      assert ids == [ids[0]] + ids[1..];
    }
  }

  lemma BisectionCost(left: int, right: int, b1: nat, b2: nat, l1: nat, l: nat)
    requires left <= 1 + 2 * (b1 * l1) && right <= 1 + 2 * (b2 * l)
    requires l1 <= l && b1 + b2 >= 1
    ensures 1 + left + right <= 1 + 2 * ((b1 + b2) * (1 + l))
  {
    assert b1 * l1 <= b1 * l;
    assert (b1 + b2) * (1 + l) == b1 * l + b2 * l + b1 + b2;
  }

  /** The requests spent on a list asked from a given state. */
  function Spent(hermes: Hermes, ids: seq<string>, from: Probed): int {
    Probe(hermes, ids, from).requests - from.requests
  }

  /** A failed request for several ids costs itself and its two halves. */
  lemma SpentOnFailure(hermes: Hermes, ids: seq<string>, from: Probed) returns (asked: Probed, half: Probed)
    requires |ids| > 1 && hermes(from.requests, ids).None?
    ensures Spent(hermes, ids, from) ==
      1 + Spent(hermes, ids[..|ids| / 2], asked) + Spent(hermes, ids[|ids| / 2..], half)
  {
    asked := Probed(from.times, from.requests + 1, from.asked + [ids]);
    half := Probe(hermes, ids[..|ids| / 2], asked);
  }

  /** One request is enough when nothing in the list is unknown, or nothing can be split. */
  lemma SpentAtOnce(hermes: Hermes, ids: seq<string>, from: Probed, known: map<string, int>)
    requires ids != [] && AllOrNothing(hermes, known)
    ensures CountUnknown(ids, known) == 0 ==> hermes(from.requests, ids).Some?
    ensures hermes(from.requests, ids).Some? || |ids| == 1 ==> Spent(hermes, ids, from) == 1
  {
    NoneUnknown(ids, known);
  }

  lemma NoLess(a: nat, b: nat)
    ensures a * b >= 0
  {
  }

  /** At most 1 + 2 b ceil(log2 n) requests to isolate b unknown ids among n. */
  lemma {:induction false} ProbeIsolatesCheaply(hermes: Hermes, ids: seq<string>, from: Probed, known: map<string, int>)
    requires AllOrNothing(hermes, known) && ids != []
    ensures Spent(hermes, ids, from) <= 1 + 2 * (CountUnknown(ids, known) * CeilLog2(|ids|))
    decreases |ids|
  {
    hide AllOrNothing, CountUnknown, Spent, Probe, CeilLog2;
    SpentAtOnce(hermes, ids, from, known);
    NoLess(CountUnknown(ids, known), CeilLog2(|ids|));
    if hermes(from.requests, ids).None? && |ids| > 1 {
      var mid := |ids| / 2;
      var a, b, l := ids[..mid], ids[mid..], CeilLog2(|ids| - mid);
      var asked, half := SpentOnFailure(hermes, ids, from);
      ProbeIsolatesCheaply(hermes, a, asked, known);
      ProbeIsolatesCheaply(hermes, b, half, known);
      CeilLog2Halves(|ids|);
      assert a + b == ids;
      CountUnknownSplit(a, b, known);
      BisectionCost(Spent(hermes, a, asked), Spent(hermes, b, half), CountUnknown(a, known), CountUnknown(b, known),
                    CeilLog2(mid), l);
    }
  }

  // ---- hysteresis ----

  datatype FeedState = FeedState(live: bool, asOf: int, misses: nat)

  /** A feed as it is first tracked. */
  const UNSEEN := FeedState(false, 0, 0)

  function Hit(s: FeedState, asOf: int): FeedState {
    FeedState(true, asOf, 0)
  }

  function Miss(s: FeedState, deadAfter: nat): FeedState {
    s.(misses := s.misses + 1, live := s.live && s.misses + 1 < deadAfter)
  }

  /** A probe history: the publish time of each hit, None for each miss. */
  function Replay(history: seq<Option<int>>, deadAfter: nat): FeedState {
    if history == [] then UNSEEN
    else
      var before := Replay(history[..|history| - 1], deadAfter);
      match history[|history| - 1]
      case Some(t) => Hit(before, t)
      case None => Miss(before, deadAfter)
  }

  /** Some hit among the last `n` outcomes. */
  ghost predicate HitAmongLast(history: seq<Option<int>>, n: nat) {
    exists i :: 0 <= i < |history| && |history| - n <= i && history[i].Some?
  }

  /** The counter is the number of misses since the last hit, or since tracking began. */
  lemma {:induction false} MissesCountTheTail(history: seq<Option<int>>, deadAfter: nat)
    ensures var s := Replay(history, deadAfter);
      && s.misses <= |history|
      && (forall i :: |history| - s.misses <= i < |history| ==> history[i].None?)
      && (s.misses < |history| ==> history[|history| - s.misses - 1].Some?)
  {
    if history != [] {
      var before := history[..|history| - 1];
      MissesCountTheTail(before, deadAfter);
      assert forall i :: 0 <= i < |before| ==> history[i] == before[i];
    }
  }

  lemma {:induction false} LiveMeansRecentHit(history: seq<Option<int>>, deadAfter: nat)
    requires deadAfter >= 1
    ensures var s := Replay(history, deadAfter);
      s.live <==> s.misses < deadAfter && s.misses < |history|
  {
    if history != [] {
      LiveMeansRecentHit(history[..|history| - 1], deadAfter);
      MissesCountTheTail(history[..|history| - 1], deadAfter);
    }
  }

  /** The miss counter is a window rule: after any history, however short, a feed is live
      exactly when at least one of its last `deadAfter` outcomes was a hit. */
  lemma LiveIsAWindowRule(history: seq<Option<int>>, deadAfter: nat)
    requires deadAfter >= 1
    ensures Replay(history, deadAfter).live <==> HitAmongLast(history, deadAfter)
  {
    var s := Replay(history, deadAfter);
    LiveMeansRecentHit(history, deadAfter);
    MissesCountTheTail(history, deadAfter);
    if HitAmongLast(history, deadAfter) {
      var i :| 0 <= i < |history| && |history| - deadAfter <= i && history[i].Some?;
      assert i < |history| - s.misses;
    }
  }

  /** And a live feed's time is that of its latest hit. */
  lemma {:induction false} AsOfIsTheLatestHit(history: seq<Option<int>>, deadAfter: nat, i: nat)
    requires i < |history| && history[i].Some? && forall j :: i < j < |history| ==> history[j].None?
    ensures Replay(history, deadAfter).asOf == history[i].value
  {
    if i < |history| - 1 {
      var before := history[..|history| - 1];
      assert forall j :: 0 <= j < |before| ==> history[j] == before[j];
      AsOfIsTheLatestHit(before, deadAfter, i);
    }
  }

  // ---- one Pyth probe round ----

  /** What a probe makes of one feed: a hit if its publish time came back fresh. */
  function Judge(times: map<string, int>, id: string, now: int, maxAge: int): Option<int> {
    if id in times && now - times[id] <= maxAge then Some(times[id]) else None
  }

  function Marked(s: FeedState, outcome: Option<int>, deadAfter: nat): FeedState {
    match outcome
    case Some(t) => Hit(s, t)
    case None => Miss(s, deadAfter)
  }

  /** What the n-th outcome of a feed can be: with an honest service a hit has the feed's true, fresh
      time; if also requests succeed exactly when all their ids are known, every known feed with a
      fresh time is hit. */
  ghost predicate Fair(outcome: Option<int>, hermes: Hermes, known: map<string, int>, id: string, now: int,
                       maxAge: int) {
    && (Truthful(hermes, known) && outcome.Some? ==> outcome == Judge(known, id, now, maxAge))
    && (AllOrNothing(hermes, known) ==> outcome == Judge(known, id, now, maxAge))
  }

  /** One turn of the loop: feeds found anew, the price service as it answers, and the clock. */
  datatype Round = Round(found: seq<string>, hermes: Hermes, now: int)

  type Histories = map<string, seq<Option<int>>>

  ghost predicate Replays(feeds: map<string, FeedState>, past: Histories, deadAfter: nat) {
    forall id :: id in feeds && id in past ==> feeds[id] == Replay(past[id], deadAfter)
  }

  lemma ReplaySnoc(history: seq<Option<int>>, outcome: Option<int>, deadAfter: nat)
    ensures Replay(history + [outcome], deadAfter) == Marked(Replay(history, deadAfter), outcome, deadAfter)
  {
    assert (history + [outcome])[..|history|] == history;
  }

  lemma StillReplays(feeds: map<string, FeedState>, past: Histories, deadAfter: nat, id: string, outcome: Option<int>)
    requires Replays(feeds, past, deadAfter) && id in feeds && id in past
    ensures Replays(feeds[id := Marked(feeds[id], outcome, deadAfter)], past[id := past[id] + [outcome]], deadAfter)
  {
    hide Replay, Marked;
    ReplaySnoc(past[id], outcome, deadAfter);
  }

  /** Each of these ids has been marked once, by its own outcome, and nothing else has changed. */
  ghost predicate AllMarked(feeds: map<string, FeedState>, past: Histories, feeds': map<string, FeedState>,
                            past': Histories, ids: seq<string>, times: map<string, int>, now: int, maxAge: int,
                            deadAfter: nat)
    requires feeds.Keys == past.Keys && forall id :: id in ids ==> id in feeds
  {
    && feeds'.Keys == past'.Keys == feeds.Keys
    && (forall id :: id in feeds && id !in ids ==> feeds'[id] == feeds[id] && past'[id] == past[id])
    && (forall id :: id in ids ==>
          && feeds'[id] == Marked(feeds[id], Judge(times, id, now, maxAge), deadAfter)
          && past'[id] == past[id] + [Judge(times, id, now, maxAge)])
  }

  lemma OneMoreMarked(feeds: map<string, FeedState>, past: Histories, feeds': map<string, FeedState>, past': Histories,
                      ids: seq<string>, k: nat, times: map<string, int>, now: int, maxAge: int, deadAfter: nat)
    requires feeds.Keys == past.Keys && (forall id :: id in ids ==> id in feeds)
    requires k < |ids| && forall i, j :: 0 <= i < j < |ids| ==> ids[i] != ids[j]
    requires AllMarked(feeds, past, feeds', past', ids[..k], times, now, maxAge, deadAfter)
    ensures ids[k] in feeds' && ids[k] in past'
    ensures var id := ids[k]; var outcome := Judge(times, id, now, maxAge);
      AllMarked(feeds, past, feeds'[id := Marked(feeds'[id], outcome, deadAfter)], past'[id := past'[id] + [outcome]],
                ids[..k + 1], times, now, maxAge, deadAfter)
  {
    hide Judge, Marked;
    assert ids[..k + 1] == ids[..k] + [ids[k]];
    assert ids[k] !in ids[..k];
  }

  lemma NoneMarked(feeds: map<string, FeedState>, past: Histories, ids: seq<string>, times: map<string, int>, now: int,
                   maxAge: int, deadAfter: nat)
    requires feeds.Keys == past.Keys
    ensures AllMarked(feeds, past, feeds, past, ids[..0], times, now, maxAge, deadAfter)
  {
  }

  lemma JudgeIs(times: map<string, int>, id: string, now: int, maxAge: int)
    ensures Judge(times, id, now, maxAge) == if id in times && now - times[id] <= maxAge then Some(times[id]) else None
  {
  }

  class Board {
    var feeds: map<string, FeedState>
    /** The tracked ids in the order they were first seen. */
    var order: seq<string>
    const deadAfter: nat
    /** The outcomes of each feed since it was first tracked. */
    ghost var past: Histories

    /** Each feed's state is what its own outcomes make of it. */
    ghost predicate Valid()
      reads this
    {
      && (forall i, j :: 0 <= i < j < |order| ==> order[i] != order[j])
      && feeds.Keys == past.Keys && (forall id :: id in order <==> id in feeds)
      && Replays(feeds, past, deadAfter)
    }

    constructor (deadAfter: nat)
      ensures Valid() && this.deadAfter == deadAfter && feeds == map[]
    {
      this.deadAfter, feeds, order, past := deadAfter, map[], [], map[];
    }

    /** Start tracking a feed; one already tracked keeps its state. */
    method Track(id: string)
      requires Valid()
      modifies this
      ensures Valid()
      ensures order == if id in old(feeds) then old(order) else old(order) + [id]
      ensures feeds == if id in old(feeds) then old(feeds) else old(feeds)[id := UNSEEN]
      ensures past == if id in old(feeds) then old(past) else old(past)[id := []]
    {
      if id !in feeds {
        assert id !in order;
        feeds, order, past := feeds[id := UNSEEN], order + [id], past[id := []];
      }
    }

    method MarkHit(id: string, asOf: int)
      requires Valid() && id in feeds
      modifies `feeds, `past
      ensures Valid()
      ensures feeds == old(feeds)[id := Hit(old(feeds)[id], asOf)]
      ensures past == old(past)[id := old(past)[id] + [Some(asOf)]]
    {
      StillReplays(feeds, past, deadAfter, id, Some(asOf));
      hide Replays, Replay;
      var s := feeds[id];
      s := s.(live := true);
      s := s.(misses := 0);
      s := s.(asOf := asOf);
      feeds, past := feeds[id := s], past[id := past[id] + [Some(asOf)]];
    }

    method MarkMiss(id: string)
      requires Valid() && id in feeds
      modifies `feeds, `past
      ensures Valid()
      ensures feeds == old(feeds)[id := Miss(old(feeds)[id], deadAfter)]
      ensures past == old(past)[id := old(past)[id] + [None]]
    {
      StillReplays(feeds, past, deadAfter, id, None);
      hide Replays, Replay;
      var s := feeds[id];
      s := s.(misses := s.misses + 1);
      if s.misses >= deadAfter {
        s := s.(live := false);
      }
      feeds, past := feeds[id := s], past[id := past[id] + [None]];
    }

    method MarkAll(ids: seq<string>, times: map<string, int>, now: int, maxAge: int)
      requires Valid()
      requires forall i :: 0 <= i < |ids| ==> ids[i] in feeds
      requires forall i, j :: 0 <= i < j < |ids| ==> ids[i] != ids[j]
      modifies `feeds, `past
      ensures Valid()
      ensures AllMarked(old(feeds), old(past), feeds, past, ids, times, now, maxAge, deadAfter)
    {
      hide Replays, AllMarked, Judge, Hit, Miss;
      NoneMarked(feeds, past, ids, times, now, maxAge, deadAfter);
      for k := 0 to |ids|
        invariant Valid() && feeds.Keys == old(feeds).Keys
        invariant AllMarked(old(feeds), old(past), feeds, past, ids[..k], times, now, maxAge, deadAfter)
      {
        OneMoreMarked(old(feeds), old(past), feeds, past, ids, k, times, now, maxAge, deadAfter);
        JudgeIs(times, ids[k], now, maxAge);
        if ids[k] in times && now - times[ids[k]] <= maxAge {
          MarkHit(ids[k], times[ids[k]]);
        } else {
          MarkMiss(ids[k]);
        }
      }
      assert ids[..|ids|] == ids;
    }

    /** One round over the tracked Pyth ids, in chunks of `batch`. Whatever requests fail, each probed
        feed is marked once, and a hit is a true one. When requests succeed exactly if all their ids
        are known, each feed is marked on its own merits: a hit if it is known and fresh, a miss
        otherwise, whoever shares its request. */
    method ProbePyth(ids: seq<string>, batch: nat, hermes: Hermes, now: int, maxAge: int, ghost known: map<string, int>)
      requires Valid() && batch > 0
      requires forall i :: 0 <= i < |ids| ==> ids[i] in feeds
      requires forall i, j :: 0 <= i < j < |ids| ==> ids[i] != ids[j]
      modifies `feeds, `past
      ensures Valid() && feeds.Keys == old(feeds).Keys
      ensures forall id :: id in old(feeds) && id !in ids ==> feeds[id] == old(feeds)[id] && past[id] == old(past)[id]
      ensures forall id :: id in ids ==> MarkedOnce(old(past)[id], past[id], hermes, known, id, now, maxAge)
      ensures AllOrNothing(hermes, known) ==>
        forall id :: id in ids ==> feeds[id] == Marked(old(feeds)[id], Judge(known, id, now, maxAge), deadAfter)
    {
      var times := FetchTimes(ids, batch, hermes, known);
      MarkAll(ids, times, now, maxAge);
      forall id | id in ids ensures Fair(Judge(times, id, now, maxAge), hermes, known, id, now, maxAge) {
        JudgedFairly(times, ids, hermes, known, id, now, maxAge);
      }
      hide AllOrNothing, Judge, Marked;
    }

    /** The feed-set refresh: feeds are only ever added. */
    method TrackAll(found: seq<string>)
      requires Valid()
      modifies this
      ensures Valid() && forall id :: id in old(feeds) ==>
        id in feeds && feeds[id] == old(feeds)[id] && past[id] == old(past)[id]
      ensures forall id :: id in feeds <==> id in old(feeds) || id in found
    {
      for i := 0 to |found|
        invariant Valid() && forall id :: id in old(feeds) ==>
          id in feeds && feeds[id] == old(feeds)[id] && past[id] == old(past)[id]
        invariant forall id :: id in feeds <==> id in old(feeds) || id in found[..i]
      {
        assert found[..i + 1] == found[..i] + [found[i]];
        Track(found[i]);
      }
      assert found[..|found|] == found;
    }

    lemma OrderIsTracked()
      requires Valid()
      ensures forall i :: 0 <= i < |order| ==> order[i] in feeds
      ensures forall i, j :: 0 <= i < j < |order| ==> order[i] != order[j]
      ensures forall id :: id in feeds ==> id in order && id in past
    {
    }

    /** The loop's turns: track what is found, then probe everything tracked. A feed tracked before
        them has one more outcome from each, and its state is the replay of all of them. */
    method RunRounds(rounds: seq<Round>, batch: nat, maxAge: int, ghost known: nat -> map<string, int>)
      requires Valid() && batch > 0
      modifies this
      ensures Valid()
      ensures forall id :: id in old(feeds) ==>
        id in feeds && Rounds(old(past)[id], past[id], rounds, known, id, maxAge)
    {
      for k := 0 to |rounds|
        invariant Valid()
        invariant forall id :: id in old(feeds) ==>
          id in feeds && Rounds(old(past)[id], past[id], rounds[..k], known, id, maxAge)
      {
        ghost var before := past;
        TrackAll(rounds[k].found);
        OrderIsTracked();
        hide Valid, Fair;
        ProbePyth(order, batch, rounds[k].hermes, rounds[k].now, maxAge, known(k));
        forall id | id in old(feeds)
          ensures id in feeds && Rounds(old(past)[id], past[id], rounds[..k + 1], known, id, maxAge)
        {
          OneMoreRound(old(past)[id], before[id], past[id], rounds, k, known, id, maxAge);
        }
      }
      assert rounds[..|rounds|] == rounds;
    }

    /** So at any time, a feed is live exactly when one of its last outcomes was a hit. */
    lemma LiveMeansHitLately(id: string)
      requires Valid() && id in feeds && deadAfter >= 1
      ensures feeds[id].live <==> HitAmongLast(past[id], deadAfter)
    {
      LiveIsAWindowRule(past[id], deadAfter);
    }
  }

  /** One outcome more, and a fair one. */
  ghost predicate MarkedOnce(before: seq<Option<int>>, after: seq<Option<int>>, hermes: Hermes,
                             known: map<string, int>, id: string, now: int, maxAge: int) {
    |after| == |before| + 1 && before <= after && Fair(after[|before|], hermes, known, id, now, maxAge)
  }

  /** One outcome more from each round, and a fair one. */
  ghost predicate Rounds(before: seq<Option<int>>, after: seq<Option<int>>, rounds: seq<Round>,
                         known: nat -> map<string, int>, id: string, maxAge: int) {
    && |after| == |before| + |rounds| && before <= after
    && forall k :: 0 <= k < |rounds| ==>
         Fair(after[|before| + k], rounds[k].hermes, known(k), id, rounds[k].now, maxAge)
  }

  lemma OneMoreRound(start: seq<Option<int>>, before: seq<Option<int>>, after: seq<Option<int>>, rounds: seq<Round>,
                     k: nat, known: nat -> map<string, int>, id: string, maxAge: int)
    requires k < |rounds| && Rounds(start, before, rounds[..k], known, id, maxAge)
    requires MarkedOnce(before, after, rounds[k].hermes, known(k), id, rounds[k].now, maxAge)
    ensures Rounds(start, after, rounds[..k + 1], known, id, maxAge)
  {
    hide Fair;
    forall j | 0 <= j < k + 1
      ensures Fair(after[|start| + j], rounds[j].hermes, known(j), id, rounds[j].now, maxAge)
    {
      assert j < k ==> after[|start| + j] == before[|start| + j] && rounds[..k][j] == rounds[j];
    }
  }

  /** Nothing untrue has been recorded. */
  ghost predicate OnlyTruth(times: map<string, int>, ids: seq<string>, known: map<string, int>) {
    forall k :: k in times ==> k in ids && k in known && times[k] == known[k]
  }

  lemma JudgedFairly(times: map<string, int>, ids: seq<string>, hermes: Hermes, known: map<string, int>, id: string,
                     now: int, maxAge: int)
    requires id in ids
    requires Truthful(hermes, known) ==> OnlyTruth(times, ids, known)
    requires AllOrNothing(hermes, known) ==> Adds(map[], ids, known, times)
    ensures Fair(Judge(times, id, now, maxAge), hermes, known, id, now, maxAge)
  {
    hide Truthful;
  }

  /** All ids, probed chunk after chunk. */
  function Fetched(hermes: Hermes, ids: seq<string>, batch: nat, from: Probed): Probed
    requires batch > 0
    decreases |ids|
  {
    if ids == [] then from
    else
      var n := Min(batch, |ids|);
      Fetched(hermes, ids[n..], batch, Probe(hermes, ids[..n], from))
  }

  lemma FetchedStep(hermes: Hermes, ids: seq<string>, i: nat, end: nat, batch: nat, from: Probed)
    requires batch > 0 && i < |ids| && end == Min(i + batch, |ids|)
    ensures Fetched(hermes, ids[i..], batch, from) ==
      Fetched(hermes, ids[end..], batch, Probe(hermes, ids[i..end], from))
  {
    hide Probe;
    assert ids[i..][..end - i] == ids[i..end] && ids[i..][end - i..] == ids[end..];
  }

  lemma NothingFetched(hermes: Hermes, ids: seq<string>, batch: nat, known: map<string, int>)
    requires batch > 0
    ensures OnlyTruth(map[], ids, known)
    ensures forall from :: Fetched(hermes, [], batch, from) == from
  {
  }

  /** Requests numbered since `from`, each for some of these ids and at most `most` of them. */
  ghost predicate AskedInBounds(from: Probed, r: Probed, ids: seq<string>, most: nat) {
    && from.asked <= r.asked
    && forall q :: q in r.asked[|from.asked|..] ==> 1 <= |q| <= most && forall id :: id in q ==> id in ids
  }

  lemma AskedThrough(a: Probed, b: Probed, c: Probed, front: seq<string>, back: seq<string>, ids: seq<string>,
                     most: nat)
    requires AskedInBounds(a, b, front, most) && AskedInBounds(b, c, back, most) && ids == front + back
    ensures AskedInBounds(a, c, ids, most)
  {
    assert c.asked[|a.asked|..] == b.asked[|a.asked|..] + c.asked[|b.asked|..];
  }

  lemma {:induction false} ProbeAsks(hermes: Hermes, ids: seq<string>, from: Probed, most: nat)
    requires |ids| <= most
    ensures AskedInBounds(from, Probe(hermes, ids, from), ids, most)
    decreases |ids|
  {
    hide Probe, AskedInBounds;
    if ids == [] {
      NothingAsked(hermes, from, most);
    } else if hermes(from.requests, ids).Some? || |ids| == 1 {
      ProbedAtOnce(hermes, ids, from);
      OneAsk(from, Probe(hermes, ids, from), ids, most);
    } else {
      var a, b := ids[..|ids| / 2], ids[|ids| / 2..];
      var asked := AskedInHalves(hermes, ids, from);
      var half := Probe(hermes, a, asked);
      ProbeAsks(hermes, a, asked, most);
      ProbeAsks(hermes, b, half, most);
      OneAsk(from, asked, ids, most);
      assert a + b == ids;
      AskedThrough(asked, half, Probe(hermes, b, half), a, b, ids, most);
      AskedAgain(from, asked, Probe(hermes, b, half), ids, most);
    }
  }

  lemma NothingAsked(hermes: Hermes, from: Probed, most: nat)
    ensures AskedInBounds(from, Probe(hermes, [], from), [], most)
  {
  }

  lemma OneAsk(from: Probed, r: Probed, ids: seq<string>, most: nat)
    requires r.asked == from.asked + [ids] && 1 <= |ids| <= most
    ensures AskedInBounds(from, r, ids, most)
  {
  }

  lemma AskedAgain(a: Probed, b: Probed, c: Probed, ids: seq<string>, most: nat)
    requires AskedInBounds(a, b, ids, most) && AskedInBounds(b, c, ids, most)
    ensures AskedInBounds(a, c, ids, most)
  {
    assert c.asked[|a.asked|..] == b.asked[|a.asked|..] + c.asked[|b.asked|..];
  }

  /** No request is for more ids than a batch, or for none, or for one that was not listed. */
  lemma {:induction false} FetchAsksInBatches(hermes: Hermes, ids: seq<string>, batch: nat, from: Probed)
    requires batch > 0
    ensures AskedInBounds(from, Fetched(hermes, ids, batch, from), ids, batch)
    decreases |ids|
  {
    if ids != [] {
      var n := Min(batch, |ids|);
      var next := Probe(hermes, ids[..n], from);
      ProbeAsks(hermes, ids[..n], from, batch);
      FetchAsksInBatches(hermes, ids[n..], batch, next);
      hide Probe, AskedInBounds;
      assert ids == ids[..n] + ids[n..];
      AskedThrough(from, next, Fetched(hermes, ids[n..], batch, next), ids[..n], ids[n..], ids, batch);
    }
  }

  /** The publish times of all ids, fetched in chunks of `batch`: never an untrue one, whatever
      requests fail; and if they succeed exactly when all their ids are known, every known one. */
  method FetchTimes(ids: seq<string>, batch: nat, hermes: Hermes, ghost known: map<string, int>)
    returns (times: map<string, int>)
    requires batch > 0
    ensures Truthful(hermes, known) ==> OnlyTruth(times, ids, known)
    ensures AllOrNothing(hermes, known) ==> Adds(map[], ids, known, times)
    ensures times == Fetched(hermes, ids, batch, Probed(map[], 0, [])).times
  {
    hide AllOrNothing, Truthful, Probe, Adds, Fetched, OnlyTruth;
    NothingFetched(hermes, ids, batch, known);
    var pt := new PublishTimes();
    NothingAdded(ids, known);
    ghost var all := Fetched(hermes, ids, batch, Probed(map[], 0, []));
    assert ids[0..] == ids && ids[|ids|..] == [];
    var i := 0;
    while i < |ids|
      invariant 0 <= i && fresh(pt)
      invariant Truthful(hermes, known) ==> OnlyTruth(pt.times, ids, known)
      invariant AllOrNothing(hermes, known) ==> Adds(map[], ids[..Min(i, |ids|)], known, pt.times)
      invariant all == Fetched(hermes, ids[Min(i, |ids|)..], batch, pt.View())
      decreases |ids| - i
    {
      var end := Min(i + batch, |ids|);
      ghost var before := pt.View();
      FetchedStep(hermes, ids, i, end, batch, before);
      ProbePythInto(ids[i..end], hermes, pt);
      if Truthful(hermes, known) {
        StillTrue(hermes, ids, i, end, before, known);
      }
      if AllOrNothing(hermes, known) {
        ProbeFindsExactlyTheKnown(hermes, ids[i..end], before, known);
        AddsBoth(map[], ids[..i], ids[i..end], known, before.times, pt.times);
        assert ids[..i] + ids[i..end] == ids[..end];
      }
      i := i + batch;
    }
    assert ids[..|ids|] == ids;
    times := pt.times;
  }

  lemma StillTrue(hermes: Hermes, ids: seq<string>, i: nat, end: nat, from: Probed, known: map<string, int>)
    requires Truthful(hermes, known) && i <= end <= |ids| && OnlyTruth(from.times, ids, known)
    ensures OnlyTruth(Probe(hermes, ids[i..end], from).times, ids, known)
  {
    hide Truthful, Probe;
    forall k | k in Probe(hermes, ids[i..end], from).times
      ensures k in ids && k in known && Probe(hermes, ids[i..end], from).times[k] == known[k]
    {
      ProbeRecordsOnlyTruth(hermes, ids[i..end], from, known, k);
    }
  }

  lemma NothingAdded(ids: seq<string>, known: map<string, int>)
    ensures Adds(map[], ids[..0], known, map[])
  {
  }
}

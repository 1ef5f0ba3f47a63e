/** The loop discovers: when it re-scans the chain, what it knows afterwards, and that a vault which the
    scans list is known, and so gets its window. */
module OptaSettleDiscovery {
  import opened Results
  import opened TupleKey
  import opened SettleRouting
  import opened SettleLanes
  import opened OptaSettle
  import opened OptaSettleSafety
  import opened OptaSettleScheduler
  import opened OptaSettleStatus
  import opened OptaSettleWindow
  import Grouping

  // ---- the state at the top of each turn ----

  /** The loop after i turns. */
  function TopOf(d: Deps, ctx: Ctx, l: Loop, i: nat): Loop
    decreases i
  {
    if i == 0 || !Ready(MaybeDiscover(d, ctx, Polled(l)).s) then l
    else TopOf(d, ctx, StepAndSleep(d, ctx, MaybeDiscover(d, ctx, Polled(l))).0, i - 1)
  }

  lemma {:induction false} TurnAt(d: Deps, ctx: Ctx, l: Loop, n: nat, i: nat)
    requires i < |LoopTurns(d, ctx, l, n)|
    ensures var m := MaybeDiscover(d, ctx, Polled(TopOf(d, ctx, l, i)));
      && Ready(m.s) && LoopTurns(d, ctx, l, n)[i] == StepAndSleep(d, ctx, m).1
      && TopOf(d, ctx, l, i + 1) == StepAndSleep(d, ctx, m).0
    decreases n
  {
    hide MaybeDiscover, StepAndSleep;
    if i > 0 {
      TurnAt(d, ctx, StepAndSleep(d, ctx, MaybeDiscover(d, ctx, Polled(l))).0, n - 1, i - 1);
    } else {
      assert TopOf(d, ctx, StepAndSleep(d, ctx, MaybeDiscover(d, ctx, Polled(l))).0, 0) ==
             StepAndSleep(d, ctx, MaybeDiscover(d, ctx, Polled(l))).0;
    }
  }

  // ---- what a discovery finds ----

  /** A live vault of this asset and expiry is in the scan, on a market that the lane takes. */
  ghost predicate Listed(scan: Scan, ctx: Ctx, key: string) {
    exists v, m :: v in scan.vaults && !v.isSettled && !v.voided &&
      Lookup(AcceptedOf(scan.markets, ctx.pda), v.market) == Some(m) && m.asset.Some? &&
      key == Key(m.asset.value, ':', v.expiry)
  }

  lemma ListedExactlyWhen(scan: Scan, ctx: Ctx, key: string)
    ensures Listed(scan, ctx, key) <==>
      exists t :: t in Source2Tuples(scan.vaults, scan.markets, ctx.pda, ctx.assetLe) && t.key == key
  {
    hide Source2Tuples, Key, Lookup, AcceptedOf;
    var tuples := Source2Tuples(scan.vaults, scan.markets, ctx.pda, ctx.assetLe);
    var accepted := AcceptedOf(scan.markets, ctx.pda);
    if v, m :| v in scan.vaults && !v.isSettled && !v.voided && Lookup(accepted, v.market) == Some(m) &&
               m.asset.Some? && key == Key(m.asset.value, ':', v.expiry) {
      var t := Source2TupleOf(scan.vaults, scan.markets, ctx.pda, ctx.assetLe, v);
    }
    forall t | t in tuples && t.key == key ensures Listed(scan, ctx, key) {
      Source2TupleIsExact(scan.vaults, scan.markets, ctx.pda, ctx.assetLe, t);
      var i := SomeLiveVault(t, scan.vaults, scan.markets, ctx);
    }
  }

  lemma SomeLiveVault(t: Source2Tuple, vs: seq<Vault>, markets: seq<Market>, ctx: Ctx) returns (i: nat)
    requires t in Source2Tuples(vs, markets, ctx.pda, ctx.assetLe) && Source2Exact(t, vs, markets, ctx.pda)
    ensures i < |vs| && InSource2Tuple(vs[i], AcceptedOf(markets, ctx.pda), t.asset, t.expiry)
  {
    hide AcceptedOf, Lookup, InSource2Tuple, Source2Tuples;
    Source2EnumerationIsExact(vs, markets, ctx.pda, ctx.assetLe);
    assert Source2Named(t, ctx.pda);
    var at := set i | 0 <= i < |vs| && InSource2Tuple(vs[i], AcceptedOf(markets, ctx.pda), t.asset, t.expiry);
    assert |at| > 0;
    i :| i in at;
  }

  /** After a discovery whose reads answered, the lane knows exactly what the scan lists: the tuples as
      the scan gives them, with the progress made on those known before, and none on the others. */
  ghost predicate Knows(s: Sched, before: Sched, scan: Scan, ctx: Ctx) {
    && (forall k :: k in s.states <==> Listed(scan, ctx, k))
    && (forall k :: k in s.states ==>
          s.states[k].tuple in Source2Tuples(scan.vaults, scan.markets, ctx.pda, ctx.assetLe))
    && (forall k :: k in s.states && k in before.states ==> Carried(before.states[k], s.states[k]))
    && (forall k :: k in s.states && k !in before.states ==> NewState(s.states[k]))
  }

  ghost predicate Names(ts: seq<Source2Tuple>, k: string) {
    exists t :: t in ts && t.key == k
  }

  lemma NamesSnoc(ts: seq<Source2Tuple>, k: string)
    requires ts != []
    ensures Names(ts, k) <==> Names(ts[..|ts| - 1], k) || ts[|ts| - 1].key == k
  {
    assert ts == ts[..|ts| - 1] + [ts[|ts| - 1]];
  }

  lemma {:induction false} ReconciledTuples(s: Sched, ts: seq<Source2Tuple>, k: string)
    ensures var r := ReconcileAll(s, ts);
      (k in r.states <==> k in s.states || Names(ts, k)) && (Names(ts, k) ==> r.states[k].tuple in ts)
  {
    if ts != [] {
      var before, last := ts[..|ts| - 1], ts[|ts| - 1];
      assert ts == before + [last];
      NamesSnoc(ts, k);
      ReconciledTuples(s, before, k);
      ReconciledOne(ReconcileAll(s, before), last);
      hide Reconcile, Names;
    }
  }

  lemma ReconciledOne(s: Sched, t: Source2Tuple)
    ensures var r := Reconcile(s, t);
      && r.states.Keys == s.states.Keys + {t.key} && r.states[t.key].tuple == t
      && forall k :: k in s.states && k != t.key ==> r.states[k] == s.states[k]
  {
  }

  lemma ReconciledStates(s: Sched, ts: seq<Source2Tuple>)
    requires Sound(s) && TuplesNamed(ts)
    ensures var r := ReconcileAll(s, ts);
      && (forall k :: k in s.states ==> k in r.states && Carried(s.states[k], r.states[k]))
      && (forall k :: k in r.states && k !in s.states ==> NewState(r.states[k]))
      && (forall k :: k in r.states <==> k in s.states || Names(ts, k))
      && (forall k :: Names(ts, k) ==> k in r.states && r.states[k].tuple in ts)
  {
    hide ReconcileAll, Sound, TuplesNamed, NewState, Carried, Names;
    ReconcileKeeps(s, ts);
    forall k {
      ReconciledTuples(s, ts, k);
    }
  }

  lemma DroppedStates(s: Sched, seen: set<string>, call: nat, now: int)
    ensures var r := DropUnseen(s, seen, call, now);
      && (forall k :: k in r.states <==> k in s.states && k in seen)
      && (forall k :: k in r.states ==> r.states[k] == s.states[k])
  {
    hide DropEvents, KeepKeys;
  }

  lemma DiscoveryKnows(d: Deps, ctx: Ctx, s: Sched)
    requires Inv(d, ctx.dryRun, s) && d.scan(s.calls).Got? && d.clusterNow(s.calls + 1).Got?
    ensures Knows(DiscoverFrom(d, ctx, s).0, s, d.scan(s.calls).value, ctx)
  {
    hide Source2Tuples, Listed, TuplesNamed, ReconcileAll, DropUnseen, History, Sound;
    var scan := d.scan(s.calls).value;
    var ts := Source2Tuples(scan.vaults, scan.markets, ctx.pda, ctx.assetLe);
    var read := s.(calls := s.calls + 2);
    SeenNamed(d, ctx, scan);
    CallsUnsound(s, s.calls + 2);
    ReconciledStates(read, ts);
    var seen, r := (set t | t in ts :: t.key), ReconcileAll(read, ts);
    DroppedStates(r, seen, s.calls + 1, d.clusterNow(s.calls + 1).value);
    var found := DropUnseen(r, seen, s.calls + 1, d.clusterNow(s.calls + 1).value);
    forall k ensures k in seen <==> Listed(scan, ctx, k)
      ensures k in seen <==> Names(ts, k)
    {
      ListedExactlyWhen(scan, ctx, k);
      assert k in seen <==> exists t :: t in ts && t.key == k;
    }
    assert DiscoverFrom(d, ctx, s).0 == found;
    hide DiscoverFrom;
    assert Knows(found, s, scan, ctx);
  }

  // ---- when the loop discovers ----

  /** What a turn's discovery leads to: what the pass starts from, and when the next discovery is due.
      From the loop at the top of the turn, call c polls the shutdown flag and call c + 1 reads the
      clock; if that is at or past the due time, calls c + 2 and c + 3 scan and read the cluster time. */
  ghost predicate DiscoversWhenDue(d: Deps, ctx: Ctx, top: Loop, before: Sched, nextDueMs: int) {
    var c := top.s.calls;
    if d.nowMs(c + 1) < top.nextDiscoveryMs then before.states == top.s.states && nextDueMs == top.nextDiscoveryMs
    else if d.scan(c + 2).Threw? then before.states == top.s.states && nextDueMs == d.nowMs(c + 3) + 30_000
    else if d.clusterNow(c + 3).Threw? then before.states == top.s.states && nextDueMs == d.nowMs(c + 4) + 30_000
    else Knows(before, top.s, d.scan(c + 2).value, ctx) && nextDueMs == d.nowMs(c + 4) + 240_000
  }

  /** The sleep is at least 250 ms, and beyond that does not run past the next discovery. */
  ghost predicate SleepsUntilDue(d: Deps, turn: Turn, next: Loop) {
    var asleep := d.nowMs(turn.step.s.calls + 1);
    250 <= turn.slept && (turn.slept == 250 || asleep + turn.slept <= next.nextDiscoveryMs)
  }

  lemma TopKeeps(d: Deps, ctx: Ctx, l: Loop, n: nat, i: nat)
    requires LoopInv(d, ctx.dryRun, l.s) && i <= |LoopTurns(d, ctx, l, n)|
    ensures LoopInv(d, ctx.dryRun, TopOf(d, ctx, l, i).s)
  {
    hide LoopInv, MaybeDiscover, StepFrom;
    if i > 0 {
      TopKeeps(d, ctx, l, n, i - 1);
      TurnAt(d, ctx, l, n, i - 1);
      var top := TopOf(d, ctx, l, i - 1);
      LoopInvCalls(d, ctx.dryRun, top.s, top.s.calls + 1);
      DiscoverTurn(d, ctx, Polled(top));
      var m := MaybeDiscover(d, ctx, Polled(top));
      StepLoopInv(d, ctx.dryRun, m.s);
      var step := StepFrom(d, ctx.dryRun, m.s);
      LoopInvCalls(d, ctx.dryRun, step.s, step.s.calls + 2);
    }
  }

  lemma DiscoverIsDue(d: Deps, ctx: Ctx, top: Loop)
    requires Inv(d, ctx.dryRun, top.s)
    ensures var m := MaybeDiscover(d, ctx, Polled(top)); DiscoversWhenDue(d, ctx, top, m.s, m.nextDiscoveryMs)
  {
    hide Knows, DropUnseen, ReconcileAll, Source2Tuples;
    var read := top.s.(calls := top.s.calls + 2);
    InvMoreCalls(d, ctx.dryRun, top.s, top.s.calls + 2);
    if d.scan(read.calls).Got? && d.clusterNow(read.calls + 1).Got? {
      DiscoveryKnows(d, ctx, read);
      DiscoveryCalls(d, ctx, read);
      SameKnown(DiscoverFrom(d, ctx, read).0, DiscoverFrom(d, ctx, read).0.calls + 1, read, top.s,
                d.scan(read.calls).value, ctx);
    }
  }

  lemma DiscoveryCalls(d: Deps, ctx: Ctx, s: Sched)
    requires d.scan(s.calls).Got? && d.clusterNow(s.calls + 1).Got?
    ensures DiscoverFrom(d, ctx, s).0.calls == s.calls + 2 && DiscoverFrom(d, ctx, s).1
  {
    hide Source2Tuples, DropEvents, KeepKeys;
    var scan := d.scan(s.calls).value;
    ReconcileCalls(s.(calls := s.calls + 2), Source2Tuples(scan.vaults, scan.markets, ctx.pda, ctx.assetLe));
  }

  lemma {:induction false} ReconcileCalls(s: Sched, ts: seq<Source2Tuple>)
    ensures ReconcileAll(s, ts).calls == s.calls
  {
    if ts != [] {
      ReconcileCalls(s, ts[..|ts| - 1]);
    }
  }

  lemma SameKnown(s: Sched, calls: nat, a: Sched, b: Sched, scan: Scan, ctx: Ctx)
    requires Knows(s, a, scan, ctx) && a.states == b.states
    ensures Knows(s.(calls := calls), b, scan, ctx)
  {
    hide Listed, Source2Tuples;
  }

  /** Every turn of the loop discovers when it is due, with these results, and sleeps until it is due. */
  lemma EveryTurnDiscoversWhenDue(d: Deps, ctx: Ctx, l: Loop, n: nat, i: nat)
    requires LoopInv(d, ctx.dryRun, l.s) && i < |LoopTurns(d, ctx, l, n)|
    ensures var top, turn, next := TopOf(d, ctx, l, i), LoopTurns(d, ctx, l, n)[i], TopOf(d, ctx, l, i + 1);
      DiscoversWhenDue(d, ctx, top, turn.before, next.nextDiscoveryMs) && SleepsUntilDue(d, turn, next)
  {
    hide DiscoversWhenDue, LoopTurns, TopOf, MaybeDiscover, StepFrom, VerdictInv, Inv;
    TopKeeps(d, ctx, l, n, i);
    TurnAt(d, ctx, l, n, i);
    DiscoverIsDue(d, ctx, TopOf(d, ctx, l, i));
  }

  /** The first turn of the loop is due. */
  lemma FirstTurnIsDue(d: Deps, ctx: Ctx)
    requires LocalClockMonotone(d)
    ensures var top := TopOf(d, ctx, Loop(Start(1), d.nowMs(0)), 0);
      top.s.calls == 1 && d.nowMs(top.s.calls + 1) >= top.nextDiscoveryMs
  {
  }

  // ---- a listed vault stays known ----

  /** Every scan that answers before the given call lists the key. */
  ghost predicate ListedUntil(d: Deps, ctx: Ctx, key: string, until: nat) {
    forall c: nat :: c < until && d.scan(c).Got? ==> Listed(d.scan(c).value, ctx, key)
  }

  /** The key is known, and for this expiry. */
  ghost predicate KnownAs(s: Sched, key: string, expiry: int) {
    key in s.states && s.states[key].tuple.expiry == expiry
  }

  lemma KeyFixesExpiry(d: Deps, dryRun: bool, s: Sched, key: string, expiry: int)
    requires Inv(d, dryRun, s) && key in s.states && KeyNames(key, expiry)
    ensures KnownAs(s, key, expiry)
  {
    hide Key, Grouping.Distinct;
    assert NamedState(key, s.states[key]);
    assert KeyNames(key, s.states[key].tuple.expiry);
    KeyNamesOne(key, s.states[key].tuple.expiry, expiry);
  }

  lemma StepKeepsKeys(d: Deps, dryRun: bool, s: Sched)
    requires Inv(d, dryRun, s)
    ensures Ready(s) && StepFrom(d, dryRun, s).s.states.Keys == s.states.Keys
  {
    hide StepFrom, History, NamedState, Grouping.Distinct;
    StepKeeps(d, dryRun, s);
    InvReady(d, dryRun, s);
    var r := StepFrom(d, dryRun, s).s;
    assert forall k :: k in r.states <==> k in r.keys;
    assert forall k :: k in s.states <==> k in s.keys;
  }

  /** Known at one turn, and listed by every scan since, a tuple is known at the next. */
  lemma StillKnown(d: Deps, ctx: Ctx, l: Loop, n: nat, i: nat, key: string)
    requires LoopInv(d, ctx.dryRun, l.s) && i + 1 < |LoopTurns(d, ctx, l, n)|
    requires key in LoopTurns(d, ctx, l, n)[i].before.states
    requires ListedUntil(d, ctx, key, LoopTurns(d, ctx, l, n)[i + 1].before.calls)
    ensures key in LoopTurns(d, ctx, l, n)[i + 1].before.states
  {
    hide LoopTurns, TopOf, StepFrom, MaybeDiscover, Listed, VerdictInv, Inv, ListedUntil, DiscoversWhenDue;
    TurnAt(d, ctx, l, n, i);
    TurnAt(d, ctx, l, n, i + 1);
    EveryTurnDiscoversWhenDue(d, ctx, l, n, i + 1);
    LoopTurnsOk(d, ctx, l, n, i);
    var turn, after := LoopTurns(d, ctx, l, n)[i], LoopTurns(d, ctx, l, n)[i + 1];
    var top := TopOf(d, ctx, l, i + 1);
    StepKeepsKeys(d, ctx.dryRun, turn.before);
    assert key in top.s.states;
    TopKeeps(d, ctx, l, n, i + 1);
    DiscoverMoves(d, ctx, top);
    KnownAgain(d, ctx, top, after.before, TopOf(d, ctx, l, i + 2).nextDiscoveryMs, key);
  }

  lemma KnownAgain(d: Deps, ctx: Ctx, top: Loop, before: Sched, nextDueMs: int, key: string)
    requires key in top.s.states && DiscoversWhenDue(d, ctx, top, before, nextDueMs)
    requires ListedUntil(d, ctx, key, before.calls)
    requires d.nowMs(top.s.calls + 1) >= top.nextDiscoveryMs ==> before.calls >= top.s.calls + 3
    ensures key in before.states
  {
    hide Listed, Source2Tuples;
  }

  lemma DiscoverMoves(d: Deps, ctx: Ctx, top: Loop)
    requires Inv(d, ctx.dryRun, top.s)
    ensures var m := MaybeDiscover(d, ctx, Polled(top));
      && m.s.calls >= top.s.calls + 2
      && (d.nowMs(top.s.calls + 1) >= top.nextDiscoveryMs ==> m.s.calls >= top.s.calls + 3)
  {
    hide Source2Tuples, DropUnseen, ReconcileAll;
    InvMoreCalls(d, ctx.dryRun, top.s, top.s.calls + 2);
    DiscoverKeeps(d, ctx, top.s.(calls := top.s.calls + 2));
  }

  lemma {:induction false} KnownFromThenOn(d: Deps, ctx: Ctx, l: Loop, n: nat, a: nat, b: nat, key: string, expiry: int)
    requires LoopInv(d, ctx.dryRun, l.s) && a <= b < |LoopTurns(d, ctx, l, n)|
    requires key in LoopTurns(d, ctx, l, n)[a].before.states && KeyNames(key, expiry)
    requires ListedUntil(d, ctx, key, LoopTurns(d, ctx, l, n)[b].before.calls)
    ensures forall j :: a <= j <= b ==> KnownAs(LoopTurns(d, ctx, l, n)[j].before, key, expiry)
    decreases b
  {
    hide LoopTurns, KeyNames, VerdictInv, StepFrom, Inv, Listed;
    LoopTurnsOk(d, ctx, l, n, b);
    if a < b {
      CallsGrow(d, ctx, l, n, b - 1);
      ListedEarlier(d, ctx, key, LoopTurns(d, ctx, l, n)[b - 1].before.calls, LoopTurns(d, ctx, l, n)[b].before.calls);
      KnownFromThenOn(d, ctx, l, n, a, b - 1, key, expiry);
      assert KnownAs(LoopTurns(d, ctx, l, n)[b - 1].before, key, expiry);
      StillKnown(d, ctx, l, n, b - 1, key);
    }
    KeyFixesExpiry(d, ctx.dryRun, LoopTurns(d, ctx, l, n)[b].before, key, expiry);
  }

  lemma CallsGrow(d: Deps, ctx: Ctx, l: Loop, n: nat, i: nat)
    requires LoopInv(d, ctx.dryRun, l.s) && i + 1 < |LoopTurns(d, ctx, l, n)|
    ensures LoopTurns(d, ctx, l, n)[i].before.calls <= LoopTurns(d, ctx, l, n)[i + 1].before.calls
  {
    TurnAt(d, ctx, l, n, i);
    TurnAt(d, ctx, l, n, i + 1);
    TopKeeps(d, ctx, l, n, i + 1);
    LoopTurnsOk(d, ctx, l, n, i);
    hide LoopTurns, TopOf, StepFrom, MaybeDiscover, VerdictInv;
    StepKeeps(d, ctx.dryRun, LoopTurns(d, ctx, l, n)[i].before);
    DiscoverMoves(d, ctx, TopOf(d, ctx, l, i + 1));
  }

  /** A turn whose discovery is due and whose reads answer. */
  ghost predicate DiscoverySucceeds(d: Deps, top: Loop) {
    var c := top.s.calls;
    d.nowMs(c + 1) >= top.nextDiscoveryMs && d.scan(c + 2).Got? && d.clusterNow(c + 3).Got?
  }

  lemma KnownAfterDiscovery(d: Deps, ctx: Ctx, l: Loop, n: nat, i: nat, key: string)
    requires LoopInv(d, ctx.dryRun, l.s) && i < |LoopTurns(d, ctx, l, n)|
    requires DiscoverySucceeds(d, TopOf(d, ctx, l, i))
    requires ListedUntil(d, ctx, key, LoopTurns(d, ctx, l, n)[i].before.calls)
    ensures key in LoopTurns(d, ctx, l, n)[i].before.states
  {
    hide LoopTurns, TopOf, StepFrom, MaybeDiscover, Listed, VerdictInv, Inv;
    TurnAt(d, ctx, l, n, i);
    TopKeeps(d, ctx, l, n, i);
    EveryTurnDiscoversWhenDue(d, ctx, l, n, i);
    DiscoverMoves(d, ctx, TopOf(d, ctx, l, i));
  }

  /** The window theorem from the chain's side: once a discovery has succeeded, a tuple that the scans
      keep listing gets a pass inside its window, and every pass inside the window attends to it. */
  lemma ListedTupleGetsItsWindow(d: Deps, ctx: Ctx, n: nat, first: nat, a: nat, b: nat, key: string, expiry: int,
                                 slack: nat)
    returns (i: nat)
    requires ClusterClockMonotone(d) && ShutdownSticks(d) && slack < 300 && KeyNames(key, expiry)
    requires var l := Loop(Start(1), d.nowMs(0)); var turns := LoopTurns(d, ctx, l, n);
      && first <= a < b < |turns| && DiscoverySucceeds(d, TopOf(d, ctx, l, first))
      && ListedUntil(d, ctx, key, turns[b].before.calls)
      && Reading(d, turns[a]).Got? && Reading(d, turns[b]).Got? && Paced(d, turns, a, b, slack)
      && Reading(d, turns[a]).value < expiry <= Reading(d, turns[b]).value
    ensures var turns := LoopTurns(d, ctx, Loop(Start(1), d.nowMs(0)), n);
      && a < i <= b && InItsWindow(d, turns[i], expiry)
      && (forall j :: a <= j <= b && InItsWindow(d, turns[j], expiry) ==> Attended(d, ctx.dryRun, turns[j], key))
  {
    hide LoopTurns, TopOf, Attended, ClusterClockMonotone, ShutdownSticks, LoopInv, Paced, InItsWindow, KeyNames,
      ListedUntil, DiscoverySucceeds;
    var l := Loop(Start(1), d.nowMs(0));
    var turns := LoopTurns(d, ctx, l, n);
    StartLoopInv(d, ctx.dryRun, 1);
    CallsGrowUpTo(d, ctx, l, n, first, b);
    ListedEarlier(d, ctx, key, turns[first].before.calls, turns[b].before.calls);
    KnownAfterDiscovery(d, ctx, l, n, first, key);
    KnownFromThenOn(d, ctx, l, n, first, b, key, expiry);
    assert KnownThroughout(turns, a, b, key, expiry) by {
      forall j | a <= j <= b && j < |turns|
        ensures key in turns[j].before.states && turns[j].before.states[key].tuple.expiry == expiry
      {
        assert KnownAs(turns[j].before, key, expiry);
      }
    }
    hide KnownThroughout;
    i := LoopSleepsThroughNoWindow(d, ctx, n, a, b, key, expiry, slack);
  }

  lemma ListedEarlier(d: Deps, ctx: Ctx, key: string, earlier: nat, until: nat)
    requires earlier <= until && ListedUntil(d, ctx, key, until)
    ensures ListedUntil(d, ctx, key, earlier)
  {
    hide Listed;
  }

  lemma {:induction false} CallsGrowUpTo(d: Deps, ctx: Ctx, l: Loop, n: nat, i: nat, j: nat)
    requires LoopInv(d, ctx.dryRun, l.s) && i <= j < |LoopTurns(d, ctx, l, n)|
    ensures LoopTurns(d, ctx, l, n)[i].before.calls <= LoopTurns(d, ctx, l, n)[j].before.calls
    decreases j
  {
    hide LoopTurns, LoopInv;
    if i < j {
      CallsGrowUpTo(d, ctx, l, n, i, j - 1);
      CallsGrow(d, ctx, l, n, j - 1);
    }
  }
}

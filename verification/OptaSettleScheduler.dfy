/** crank/optaSettleCrank.ts:266-443 in its own form: the scheduler object that mutates its
    map of tuple states, and the loop that drives it. Each method is proved to do exactly
    what the value-level description of the lane says. */
module OptaSettleScheduler {
  import opened Results
  import opened SettleRouting
  import opened OptaSettle

  class Scheduler {
    const ctx: Ctx
    const deps: Deps
    var keys: seq<string>
    var states: map<string, TupleState>
    var calls: nat
    ghost var log: seq<Event>

    ghost predicate Valid()
      reads this
    {
      forall k :: k in keys ==> k in states
    }

    ghost function View(): Sched
      reads this
    {
      Sched(keys, states, calls, log)
    }

    constructor (ctx: Ctx, deps: Deps, calls: nat)
      ensures Valid() && View() == Sched([], map[], calls, [])
      ensures this.ctx == ctx && this.deps == deps
    {
      this.ctx, this.deps, this.calls := ctx, deps, calls;
      keys, states, log := [], map[], [];
    }

    /** The catch block after a failed send. */
    method RecheckRecord(key: string, ghost pass: nat, now: int)
      requires Valid() && key in keys
      modifies this
      ensures Valid() && keys == old(keys)
      ensures var v := AfterFailure(deps, pass, now, old(states[key]), old(calls), old(log));
        states == old(states)[key := v.st] && calls == v.calls && log == v.events && !v.threw
    {
      var st := states[key];
      var rec := deps.fetchRecord(calls, st.tuple.key);
      match rec {
        case Threw =>
        case Got(None) =>
          log := log + [Note(pass, now, st.tuple, calls, RecordAbsent)];
        case Got(Some(_)) =>
          states := states[key := st.(status := Done)];
          log := log + [Note(pass, now, st.tuple, calls, RecordPresent), Note(pass, now, st.tuple, calls, MarkedDone)];
      }
      calls := calls + 1;
    }

    /** The try block: send, then require the record to read back. */
    method SendTuple(key: string, ghost pass: nat, now: int)
      requires Valid() && key in keys
      modifies this
      ensures Valid() && keys == old(keys)
      ensures var v := SendAndConfirm(deps, pass, now, old(states[key]), old(calls), old(log));
        states == old(states)[key := v.st] && calls == v.calls && log == v.events && !v.threw
    {
      var st := states[key];
      var sent := deps.sendSettle(calls, st.tuple.key);
      calls := calls + 1;
      if sent.Got? {
        var rec := deps.fetchRecord(calls, st.tuple.key);
        if rec.Got? && rec.value.Some? {
          states := states[key := st.(status := Done)];
          log := log + [Note(pass, now, st.tuple, calls, RecordPresent), Note(pass, now, st.tuple, calls, MarkedDone)];
          calls := calls + 1;
          return;
        }
        if rec.Got? {
          log := log + [Note(pass, now, st.tuple, calls, RecordAbsent)];
        }
        calls := calls + 1;
      }
      RecheckRecord(key, pass, now);
    }

    /** Send unless the last send was less than 5 s ago. */
    method SpacedSend(key: string, ghost pass: nat, now: int)
      requires Valid() && key in keys
      modifies this
      ensures Valid() && keys == old(keys)
      ensures var v := SendIfSpaced(deps, pass, now, old(states[key]), old(calls), old(log));
        states == old(states)[key := v.st] && calls == v.calls && log == v.events && !v.threw
    {
      hide SendAndConfirm;
      var st := states[key];
      if st.lastSendAtMs.Some? && deps.nowMs(calls) - st.lastSendAtMs.value < RETRY_MIN_MS {
        calls := calls + 1;
        SpacedThrows(deps, pass, now, st, calls - 1, log);
        return;
      }
      SpacedThrows(deps, pass, now, st, calls, log);
      st := st.(lastSendAtMs := Some(deps.nowMs(calls + 1)));
      states := states[key := st];
      calls := calls + 2;
      log := log + [Note(pass, now, st.tuple, calls, Sent(st.lastSendAtMs.value))];
      SendTuple(key, pass, now);
    }

    /** In the window and with no record: look at the feed, and send if the gate opens. */
    method PollFeed(key: string, ghost pass: nat, now: int) returns (threw: bool)
      requires Valid() && key in keys
      modifies this
      ensures Valid() && keys == old(keys)
      ensures var v := PollAndMaybeSend(deps, ctx.dryRun, pass, now, old(states[key]), old(calls), old(log));
        states == old(states)[key := v.st] && calls == v.calls && log == v.events && threw == v.threw
    {
      hide SendIfSpaced, PhaseOf, DecideSettleSend;
      var st := states[key];
      var t := st.tuple;
      var reply := deps.fetchFeed(calls, t.key);
      calls := calls + 1;
      if reply.Threw? {
        return true;
      }
      var feed := reply.value;
      log := log + [Note(pass, now, t, calls - 1, FeedSeen(feed))];
      if feed.Some? {
        if feed.value < t.expiry {
          st := st.(polledFromBeforePush := true);
        } else if st.firstPostExpiryPush.None? {
          st := st.(firstPostExpiryPush := Some(feed.value));
        }
      }
      states := states[key := st];
      if DecideSettleSend(feed, t.expiry, now).Hold? {
        return false;
      }
      if ctx.dryRun {
        states := states[key := st.(dryRunLogged := true)];
        return false;
      }
      SpacedSend(key, pass, now);
      return false;
    }

    /** One tuple of one pass: how long the loop may sleep for it, and whether a read threw. */
    method VisitTuple(key: string, ghost pass: nat, now: int) returns (cap: int, threw: bool)
      requires Valid() && key in keys
      modifies this
      ensures Valid() && keys == old(keys)
      ensures cap == Cap(old(states[key]), now)
      ensures var v := Visit(deps, ctx.dryRun, pass, now, old(states[key]), old(calls));
        states == old(states)[key := v.st] && calls == v.calls && log == old(log) + v.events && threw == v.threw
    {
      var st := states[key];
      var t := st.tuple;
      cap := IDLE_MAX_MS;
      if st.status != Active {
        return cap, false;
      }
      var phase := PhaseOf(t.expiry, now);
      if phase == Pending {
        return Max(LEAST_WAIT_MS, (t.expiry - now) * 1000), false;
      }
      if phase == InWindow {
        cap := FEED_POLL_MS;
      }
      var rec := deps.fetchRecord(calls, t.key);
      calls := calls + 1;
      if rec.Threw? {
        return cap, true;
      }
      if rec.value.Some? {
        states := states[key := st.(status := Done)];
        log := log + [Note(pass, now, t, calls - 1, RecordPresent), Note(pass, now, t, calls - 1, MarkedDone)];
        return cap, false;
      }
      if phase == PastWindow {
        states := states[key := st.(status := Dead)];
        log := log + [Note(pass, now, t, calls - 1, RecordAbsent), Note(pass, now, t, calls - 1, MarkedDead)];
        return cap, false;
      }
      ghost var events := [Note(pass, now, t, calls - 1, RecordAbsent)];
      LogPrefix(deps, ctx.dryRun, pass, now, st, calls, log, events);
      log := log + events;
      threw := PollFeed(key, pass, now);
    }

    method Step() returns (outcome: Outcome, wait: int)
      requires Valid()
      modifies this
      ensures Valid() && keys == old(keys)
      ensures Stepped(View(), outcome, wait) == StepFrom(deps, ctx.dryRun, old(View()))
    {
      hide Visit, Cap;
      ghost var pass := calls;
      var reply := deps.clusterNow(calls);
      calls := calls + 1;
      if reply.Threw? {
        return Failed, IDLE_MAX_MS;
      }
      var now := reply.value;
      ghost var start := Progress(View(), IDLE_MAX_MS);
      wait := IDLE_MAX_MS;
      for i := 0 to |keys|
        invariant Valid() && keys == old(keys)
        invariant PassFrom(deps, ctx.dryRun, pass, now, start, 0) ==
          PassFrom(deps, ctx.dryRun, pass, now, Progress(View(), wait), i)
      {
        var stop := deps.shutdown(calls);
        calls := calls + 1;
        if stop {
          return Interrupted, wait;
        }
        var cap, threw := VisitTuple(keys[i], pass, now);
        wait := Min(wait, cap);
        if threw {
          return Failed, wait;
        }
      }
      outcome := Completed;
    }

    /** Reconcile the states with a scan's tuples and forget the rest. */
    method Reconciliation(tuples: seq<Source2Tuple>, ghost call: nat, now: int)
      requires Valid()
      modifies this
      ensures Valid()
      ensures View() == DropUnseen(ReconcileAll(old(View()), tuples), set t | t in tuples :: t.key, call, now)
    {
      hide Reconcile, DropEvents;
      ghost var start := View();
      var seen: set<string> := {};
      for i := 0 to |tuples|
        invariant Valid() && View() == ReconcileAll(start, tuples[..i])
        invariant seen == set t | t in tuples[..i] :: t.key
      {
        assert tuples[..i + 1] == tuples[..i] + [tuples[i]];
        ReconcileTuple(tuples[i]);
        seen := seen + {tuples[i].key};
      }
      assert tuples[..|tuples|] == tuples;
      log := log + DropEvents(keys, seen, states, call, now);
      DeleteUnseen(seen);
    }

    /** Re-scan and reconcile; false when a read threw. */
    method Discover() returns (ok: bool)
      requires Valid()
      modifies this
      ensures Valid()
      ensures (View(), ok) == DiscoverFrom(deps, ctx, old(View()))
    {
      hide Source2Tuples, ReconcileAll, DropUnseen;
      var scan := deps.scan(calls);
      calls := calls + 1;
      if scan.Threw? {
        return false;
      }
      var tuples, source2Markets, refusedMarkets :=
        EnumerateSource2Tuples(scan.value.vaults, scan.value.markets, ctx.pda, ctx.assetLe);
      ghost var read := calls;
      var now := deps.clusterNow(calls);
      calls := calls + 1;
      if now.Threw? {
        return false;
      }
      Reconciliation(tuples, read, now.value);
      return true;
    }

    /** Discovery when it is due, and when the next one is. */
    method DiscoverIfDue(nextDiscoveryMs: int) returns (next: int)
      requires Valid()
      modifies this
      ensures Valid()
      ensures Loop(View(), next) == MaybeDiscover(deps, ctx, Loop(old(View()), nextDiscoveryMs))
    {
      hide DiscoverFrom;
      next := nextDiscoveryMs;
      var clock := deps.nowMs(calls);
      calls := calls + 1;
      if clock >= nextDiscoveryMs {
        var ok := Discover();
        next := deps.nowMs(calls) + (if ok then DISCOVERY_INTERVAL_SECS * 1000 else DISCOVERY_RETRY_MS);
        calls := calls + 1;
      }
    }

    /** Discover if due, step, and work out the sleep; the flag says whether shutdown was
        polled true before sleeping. */
    method RunTurn(nextDiscoveryMs: int) returns (next: int, slept: int, stop: bool, ghost turn: Turn)
      requires Valid()
      modifies this
      ensures Valid()
      ensures var l := MaybeDiscover(deps, ctx, Loop(old(View()), nextDiscoveryMs));
        Ready(l.s) && (Loop(View(), next), turn) == StepAndSleep(deps, ctx, l)
      ensures slept == turn.slept && stop == deps.shutdown(turn.step.s.calls)
    {
      hide StepFrom, MaybeDiscover;
      next := DiscoverIfDue(nextDiscoveryMs);
      ghost var before := View();
      var outcome, wait := Step();
      turn := Turn(before, Stepped(View(), outcome, wait),
                   SleepFor(if outcome == Failed then FEED_POLL_MS else wait, next - deps.nowMs(calls + 1)));
      if outcome == Failed {
        wait := FEED_POLL_MS;
      }
      stop := deps.shutdown(calls);
      slept := SleepFor(wait, next - deps.nowMs(calls + 1));
      calls := calls + 2;
    }

    method ReconcileTuple(t: Source2Tuple)
      requires Valid()
      modifies this
      ensures Valid() && View() == Reconcile(old(View()), t)
    {
      if t.key in states {
        states := states[t.key := states[t.key].(tuple := t)];
      } else {
        keys := keys + [t.key];
        states := states[t.key := Fresh(t)];
      }
    }

    /** Delete the entries of the keys the scan did not list. */
    method DeleteUnseen(seen: set<string>)
      requires Valid()
      modifies this`keys, this`states
      ensures Valid()
      ensures keys == KeepKeys(old(keys), seen)
      ensures states == map k | k in old(states) && k in seen :: old(states)[k]
    {
      var kept: seq<string> := [];
      for i := 0 to |keys|
        invariant kept == KeepKeys(keys[..i], seen)
      {
        assert keys[..i + 1][..i] == keys[..i];
        if keys[i] in seen {
          kept := kept + [keys[i]];
        }
      }
      assert keys[..|keys|] == keys;
      keys := kept;
      states := map k | k in states && k in seen :: states[k];
    }
  }

  /** A longer log before a visit is only a longer log after it. */
  lemma LogPrefix(d: Deps, dryRun: bool, pass: nat, now: int, st: TupleState, c: nat, log: seq<Event>,
                  events: seq<Event>)
    ensures var v := PollAndMaybeSend(d, dryRun, pass, now, st, c, events);
      var w := PollAndMaybeSend(d, dryRun, pass, now, st, c, log + events);
      w == v.(events := log + v.events)
  {
    match d.fetchFeed(c, st.tuple.key) {
      case Threw =>
      case Got(feed) =>
        var a := Note(pass, now, st.tuple, c, FeedSeen(feed));
        assert (log + events) + [a] == log + (events + [a]);
        hide SendIfSpaced;
        SpacedPrefix(d, pass, now, WithFeed(st, feed), c + 1, log, events + [a]);
    }
  }

  lemma SpacedPrefix(d: Deps, pass: nat, now: int, st: TupleState, c: nat, log: seq<Event>, events: seq<Event>)
    ensures var v, w := SendIfSpaced(d, pass, now, st, c, events), SendIfSpaced(d, pass, now, st, c, log + events);
      w == v.(events := log + v.events)
  {
    hide SendAndConfirm;
    var sent := Note(pass, now, st.tuple, c + 2, Sent(d.nowMs(c + 1)));
    assert (log + events) + [sent] == log + (events + [sent]);
    SendPrefix(d, pass, now, st.(lastSendAtMs := Some(d.nowMs(c + 1))), c + 2, log, events + [sent]);
  }

  lemma SpacedThrows(d: Deps, pass: nat, now: int, st: TupleState, c: nat, events: seq<Event>)
    ensures !SendIfSpaced(d, pass, now, st, c, events).threw
  {
  }

  lemma SendPrefix(d: Deps, pass: nat, now: int, st: TupleState, c: nat, log: seq<Event>, events: seq<Event>)
    ensures var v, w := SendAndConfirm(d, pass, now, st, c, events), SendAndConfirm(d, pass, now, st, c, log + events);
      w == v.(events := log + v.events)
  {
    var absent := Note(pass, now, st.tuple, c + 1, RecordAbsent);
    var done := [Note(pass, now, st.tuple, c + 1, RecordPresent), Note(pass, now, st.tuple, c + 1, MarkedDone)];
    assert (log + events) + [absent] == log + (events + [absent]);
    assert (log + events) + done == log + (events + done);
    FailurePrefix(d, pass, now, st, c + 1, log, events);
    FailurePrefix(d, pass, now, st, c + 2, log, events);
    FailurePrefix(d, pass, now, st, c + 2, log, events + [absent]);
  }

  lemma FailurePrefix(d: Deps, pass: nat, now: int, st: TupleState, c: nat, log: seq<Event>, events: seq<Event>)
    ensures var v, w := AfterFailure(d, pass, now, st, c, events), AfterFailure(d, pass, now, st, c, log + events);
      w == v.(events := log + v.events)
  {
    var absent := [Note(pass, now, st.tuple, c, RecordAbsent)];
    var done := [Note(pass, now, st.tuple, c, RecordPresent), Note(pass, now, st.tuple, c, MarkedDone)];
    assert (log + events) + absent == log + (events + absent);
    assert (log + events) + done == log + (events + done);
  }

  // ---- the loop ----

  /** The turns of the loop, at most `n` of them: shutdown is polled at the top of a turn and
      again before the sleep. */
  function LoopTurns(d: Deps, ctx: Ctx, l: Loop, n: nat): seq<Turn>
    decreases n
  {
    if n == 0 || d.shutdown(l.s.calls) || !Ready(MaybeDiscover(d, ctx, Polled(l)).s) then []
    else
      var (next, turn) := StepAndSleep(d, ctx, MaybeDiscover(d, ctx, Polled(l)));
      [turn] + (if d.shutdown(turn.step.s.calls) then [] else LoopTurns(d, ctx, next, n - 1))
  }

  function Polled(l: Loop): Loop { l.(s := l.s.(calls := l.s.calls + 1)) }

  function Sleeps(turns: seq<Turn>): (r: seq<int>)
    ensures |r| == |turns|
  {
    seq(|turns|, i requires 0 <= i < |turns| => turns[i].slept)
  }

  /** The loop, cut off after `limit` turns: how long it slept each time, turn by turn. Its
      last sleep is not reached when shutdown is polled before it. */
  method RunOptaSettleCrank(ctx: Ctx, deps: Deps, limit: nat) returns (sleeps: seq<int>, ghost turns: seq<Turn>)
    ensures turns == LoopTurns(deps, ctx, Loop(Sched([], map[], 1, []), deps.nowMs(0)), limit)
    ensures sleeps == Sleeps(LoopTurns(deps, ctx, Loop(Sched([], map[], 1, []), deps.nowMs(0)), limit))
  {
    hide LoopTurns, SoFar, Sleeps, StepAndSleep, MaybeDiscover;
    var s := new Scheduler(ctx, deps, 1);
    var nextDiscoveryMs := deps.nowMs(0);
    ghost var all := LoopTurns(deps, ctx, Loop(s.View(), nextDiscoveryMs), limit);
    sleeps, turns := [], [];
    NothingSoFar(all);
    var i := 0;
    while i < limit
      invariant 0 <= i <= limit
      invariant s.Valid() && s.ctx == ctx && s.deps == deps && fresh(s)
      invariant SoFar(turns, sleeps, LoopTurns(deps, ctx, Loop(s.View(), nextDiscoveryMs), limit - i), all)
    {
      ghost var top := Loop(s.View(), nextDiscoveryMs);
      var stop := deps.shutdown(s.calls);
      s.calls := s.calls + 1;
      if stop {
        NoTurn(deps, ctx, top, limit - i, turns, sleeps, all);
        return;
      }
      var slept: int;
      ghost var turn;
      nextDiscoveryMs, slept, stop, turn := s.RunTurn(nextDiscoveryMs);
      i := i + 1;
      OneTurn(deps, ctx, top, Loop(s.View(), nextDiscoveryMs), turn, limit - i, turns, sleeps, all);
      sleeps, turns := sleeps + [slept], turns + [turn];
      if stop {
        return;
      }
    }
    NoTurn(deps, ctx, Loop(s.View(), nextDiscoveryMs), 0, turns, sleeps, all);
  }

  /** What has been done of a run, with how long it slept, and what is left. */
  ghost predicate SoFar(turns: seq<Turn>, sleeps: seq<int>, left: seq<Turn>, all: seq<Turn>) {
    turns + left == all && sleeps == Sleeps(turns)
  }

  lemma NothingSoFar(all: seq<Turn>)
    ensures SoFar([], [], all, all)
  {
    assert [] + all == all;
  }

  lemma NoTurn(d: Deps, ctx: Ctx, l: Loop, left: nat, turns: seq<Turn>, sleeps: seq<int>, all: seq<Turn>)
    requires left == 0 || d.shutdown(l.s.calls)
    requires SoFar(turns, sleeps, LoopTurns(d, ctx, l, left), all)
    ensures turns == all && sleeps == Sleeps(turns)
  {
    hide Sleeps;
  }

  lemma OneTurn(d: Deps, ctx: Ctx, top: Loop, next: Loop, turn: Turn, left: nat, turns: seq<Turn>, sleeps: seq<int>,
                all: seq<Turn>)
    requires !d.shutdown(top.s.calls) && Ready(MaybeDiscover(d, ctx, Polled(top)).s)
    requires (next, turn) == StepAndSleep(d, ctx, MaybeDiscover(d, ctx, Polled(top)))
    requires SoFar(turns, sleeps, LoopTurns(d, ctx, top, left + 1), all)
    ensures !d.shutdown(turn.step.s.calls) ==>
      SoFar(turns + [turn], sleeps + [turn.slept], LoopTurns(d, ctx, next, left), all)
    ensures d.shutdown(turn.step.s.calls) ==> turns + [turn] == all && sleeps + [turn.slept] == Sleeps(all)
  {
    hide StepAndSleep, MaybeDiscover, Sleeps;
    SleepsSnoc(turns, turn);
    var rest := if d.shutdown(turn.step.s.calls) then [] else LoopTurns(d, ctx, next, left);
    assert (turns + [turn]) + rest == turns + ([turn] + rest);
  }

  lemma SleepsSnoc(turns: seq<Turn>, turn: Turn)
    ensures Sleeps(turns + [turn]) == Sleeps(turns) + [turn.slept]
  {
  }
}

/** No settlement window is slept through: over the turns of the loop, a tuple known before its
    expiry gets a pass inside its window, whatever else the lane is doing. */
module OptaSettleWindow {
  import opened Results
  import opened OptaSettle
  import opened OptaSettleSafety
  import opened OptaSettleReach
  import opened OptaSettleScheduler
  import opened OptaSettleStatus
  import opened OptaSettleTiming

  // ---- the turns of the loop ----

  ghost predicate LoopInv(d: Deps, dryRun: bool, s: Sched) {
    Inv(d, dryRun, s) && Ready(s) && VerdictInv(s)
  }

  /** A turn as the loop makes it. */
  ghost predicate TurnOk(d: Deps, dryRun: bool, t: Turn) {
    && LoopInv(d, dryRun, t.before)
    && t.step == StepFrom(d, dryRun, t.before)
    && t.slept <= Max(LEAST_WAIT_MS, if t.step.outcome == Failed then FEED_POLL_MS else t.step.wait)
  }

  lemma LoopInvCalls(d: Deps, dryRun: bool, s: Sched, calls: nat)
    requires LoopInv(d, dryRun, s) && s.calls <= calls
    ensures LoopInv(d, dryRun, s.(calls := calls))
  {
    InvMoreCalls(d, dryRun, s, calls);
  }

  lemma DiscoverTurn(d: Deps, ctx: Ctx, l: Loop)
    requires LoopInv(d, ctx.dryRun, l.s)
    ensures LoopInv(d, ctx.dryRun, MaybeDiscover(d, ctx, l).s)
  {
    hide DiscoverFrom, LoopInv;
    LoopInvCalls(d, ctx.dryRun, l.s, l.s.calls + 1);
    var s := l.s.(calls := l.s.calls + 1);
    assert LoopInv(d, ctx.dryRun, DiscoverFrom(d, ctx, s).0) by { DiscoverLoopInv(d, ctx, s); }
    LoopInvCalls(d, ctx.dryRun, DiscoverFrom(d, ctx, s).0, DiscoverFrom(d, ctx, s).0.calls + 1);
  }

  lemma DiscoverLoopInv(d: Deps, ctx: Ctx, s: Sched)
    requires LoopInv(d, ctx.dryRun, s)
    ensures LoopInv(d, ctx.dryRun, DiscoverFrom(d, ctx, s).0)
  {
    hide DiscoverFrom;
    DiscoverKeeps(d, ctx, s);
    DiscoverJudged(d, ctx, s);
    InvReady(d, ctx.dryRun, DiscoverFrom(d, ctx, s).0);
  }

  lemma StepLoopInv(d: Deps, dryRun: bool, s: Sched)
    requires LoopInv(d, dryRun, s)
    ensures Ready(s) && LoopInv(d, dryRun, StepFrom(d, dryRun, s).s)
  {
    hide StepFrom;
    StepKeeps(d, dryRun, s);
    StepJudged(d, dryRun, s);
    InvReady(d, dryRun, StepFrom(d, dryRun, s).s);
  }

  /** Every turn the loop makes is one of these. */
  lemma {:induction false} LoopTurnsOk(d: Deps, ctx: Ctx, l: Loop, n: nat, i: nat)
    requires LoopInv(d, ctx.dryRun, l.s)
    requires i < |LoopTurns(d, ctx, l, n)|
    ensures TurnOk(d, ctx.dryRun, LoopTurns(d, ctx, l, n)[i])
    decreases n
  {
    hide StepFrom, MaybeDiscover, LoopInv;
    LoopInvCalls(d, ctx.dryRun, l.s, l.s.calls + 1);
    DiscoverTurn(d, ctx, Polled(l));
    var m := MaybeDiscover(d, ctx, Polled(l));
    StepLoopInv(d, ctx.dryRun, m.s);
    if i > 0 {
      var step := StepFrom(d, ctx.dryRun, m.s);
      LoopInvCalls(d, ctx.dryRun, step.s, step.s.calls + 2);
      LoopTurnsOk(d, ctx, Loop(step.s.(calls := step.s.calls + 2), m.nextDiscoveryMs), n - 1, i - 1);
    }
  }

  lemma StartLoopInv(d: Deps, dryRun: bool, calls: nat)
    ensures LoopInv(d, dryRun, Start(calls))
  {
  }

  // ---- interruption ----

  /** Once asked to shut down, always asked to shut down. */
  ghost predicate ShutdownSticks(d: Deps) {
    forall i: nat, j: nat :: i <= j && d.shutdown(i) ==> d.shutdown(j)
  }

  lemma {:induction false} PassInterrupted(d: Deps, dryRun: bool, pass: nat, now: int, p: Progress, i: nat)
    requires Ready(p.s) && UnderWay(d, dryRun, pass, now, p) && ShutdownSticks(d)
    requires PassFrom(d, dryRun, pass, now, p, i).1 == Interrupted
    ensures d.shutdown(PassFrom(d, dryRun, pass, now, p, i).0.s.calls)
    decreases |p.s.keys| - i
  {
    hide UnderWay, Visit, KeyThrew;
    if d.shutdown(p.s.calls) {
      assert d.shutdown(p.s.calls + 1);
    } else {
      NextUnderWay(d, dryRun, pass, now, p, i);
      hide VisitKey, ShutdownSticks;
      PassInterrupted(d, dryRun, pass, now, VisitKey(d, dryRun, pass, now, p, p.s.keys[i]), i + 1);
    }
  }

  /** A pass cut short by shutdown is the loop's last. */
  lemma {:induction false} OnlyLastInterrupted(d: Deps, ctx: Ctx, l: Loop, n: nat, i: nat)
    requires LoopInv(d, ctx.dryRun, l.s) && ShutdownSticks(d)
    requires i + 1 < |LoopTurns(d, ctx, l, n)|
    ensures LoopTurns(d, ctx, l, n)[i].step.outcome != Interrupted
    decreases n
  {
    hide StepFrom, MaybeDiscover, LoopInv, ShutdownSticks;
    LoopInvCalls(d, ctx.dryRun, l.s, l.s.calls + 1);
    DiscoverTurn(d, ctx, Polled(l));
    var m := MaybeDiscover(d, ctx, Polled(l));
    StepLoopInv(d, ctx.dryRun, m.s);
    var step := StepFrom(d, ctx.dryRun, m.s);
    if i == 0 {
      if step.outcome == Interrupted {
        StepInterrupted(d, ctx.dryRun, m.s);
      }
    } else {
      LoopInvCalls(d, ctx.dryRun, step.s, step.s.calls + 2);
      OnlyLastInterrupted(d, ctx, Loop(step.s.(calls := step.s.calls + 2), m.nextDiscoveryMs), n - 1, i - 1);
    }
  }

  lemma StepInterrupted(d: Deps, dryRun: bool, s: Sched)
    requires Ready(s) && LoopInv(d, dryRun, s) && ShutdownSticks(d) && StepFrom(d, dryRun, s).outcome == Interrupted
    ensures d.shutdown(StepFrom(d, dryRun, s).s.calls)
  {
    hide PassFrom, UnderWay, Inv, VerdictInv, ShutdownSticks;
    StepUnderWay(d, dryRun, s);
    PassInterrupted(d, dryRun, s.calls, d.clusterNow(s.calls).value, Progress(s.(calls := s.calls + 1), IDLE_MAX_MS),
                    0);
  }

  // ---- the window theorem ----

  /** The cluster time a turn's pass worked with. */
  function Reading(d: Deps, t: Turn): Reply<int> { d.clusterNow(t.before.calls) }

  /** Turn j is the first after turn i whose cluster-time reading succeeds. */
  ghost predicate NextReading(d: Deps, turns: seq<Turn>, i: nat, j: nat) {
    && i < j < |turns| && Reading(d, turns[i]).Got? && Reading(d, turns[j]).Got?
    && forall k :: i < k < j ==> Reading(d, turns[k]).Threw?
  }

  /** Between turns a and b, from one successful cluster-time reading to the next, at most the sleep
      (rounded up to a second) and `slack` seconds go by: what the pass, a discovery, and any turns
      whose reading fails may take. */
  ghost predicate Paced(d: Deps, turns: seq<Turn>, a: nat, b: nat, slack: nat) {
    forall i: nat, j: nat :: a <= i && j <= b && NextReading(d, turns, i, j) ==>
      Reading(d, turns[j]).value <= Reading(d, turns[i]).value + (turns[i].slept + 999) / 1000 + slack
  }

  lemma NowGrows(d: Deps, i: nat, j: nat)
    requires ClusterClockMonotone(d) && i <= j && d.clusterNow(i).Got? && d.clusterNow(j).Got?
    ensures d.clusterNow(i).value <= d.clusterNow(j).value
  {
  }

  /** A tuple before its expiry is still active. */
  lemma PendingIsActive(d: Deps, dryRun: bool, s: Sched, key: string)
    requires LoopInv(d, dryRun, s) && ClusterClockMonotone(d) && key in s.states
    requires d.clusterNow(s.calls).Got? && d.clusterNow(s.calls).value < s.states[key].tuple.expiry
    ensures s.states[key].status == Active
  {
    if s.states[key].status != Active {
      var i := ClosedAt(d, dryRun, s, key);
      NowGrows(d, s.log[i].pass, s.calls);
    }
  }

  /** One turn before expiry cannot oversleep the window. */
  lemma SleepEndsInWindow(d: Deps, dryRun: bool, t: Turn, key: string, slack: nat, next: int)
    requires TurnOk(d, dryRun, t) && t.step.outcome != Interrupted && ClusterClockMonotone(d)
    requires key in t.before.states && Reading(d, t).Got? && Reading(d, t).value < t.before.states[key].tuple.expiry
    requires next <= Reading(d, t).value + (t.slept + 999) / 1000 + slack && slack < 300
    ensures next <= t.before.states[key].tuple.expiry + 300
  {
    PendingIsActive(d, dryRun, t.before, key);
    if t.step.outcome == Completed {
      hide StepFrom;
      StepWaits(d, dryRun, t.before, key);
    }
  }

  /** What a pass inside the window means for the tuple. If it is still active, its record is read
      exactly when the pass gets to it and the read answers; otherwise its record had been found
      before, at a time inside the window. */
  ghost predicate Attended(d: Deps, dryRun: bool, t: Turn, key: string) {
    && key in t.before.states && Ready(t.before) && Reading(d, t).Got?
    && var st := t.before.states[key];
    if st.status == Active then
      forall j :: 0 <= j < |t.before.keys| && t.before.keys[j] == key ==>
        (ReadIn(t.step.s.log, |t.before.log|, key, t.before.calls) <==> StepReads(d, dryRun, t.before, j))
    else
      exists i :: 0 <= i < |t.before.log| && t.before.log[i].key == key && t.before.log[i].what == RecordPresent &&
        st.tuple.expiry <= t.before.log[i].now <= st.tuple.expiry + 300
  }

  /** The turn's pass works with a time inside the window. */
  ghost predicate InItsWindow(d: Deps, t: Turn, expiry: int) {
    Reading(d, t).Got? && expiry <= Reading(d, t).value <= expiry + 300
  }

  lemma InWindowAttended(d: Deps, dryRun: bool, t: Turn, key: string)
    requires TurnOk(d, dryRun, t) && ClusterClockMonotone(d) && key in t.before.states
    requires InItsWindow(d, t, t.before.states[key].tuple.expiry)
    ensures Attended(d, dryRun, t, key)
  {
    hide StepFrom, StepReads, ReadIn;
    if t.before.states[key].status == Active {
      forall j | 0 <= j < |t.before.keys| && t.before.keys[j] == key
        ensures ReadIn(t.step.s.log, |t.before.log|, key, t.before.calls) <==> StepReads(d, dryRun, t.before, j)
      {
        StepReadsExactlyWhen(d, dryRun, t.before, j);
      }
    } else {
      var i := ClosedAt(d, dryRun, t.before, key);
      NowGrows(d, t.before.log[i].pass, t.before.calls);
    }
  }

  lemma {:induction false} PreviousReading(d: Deps, turns: seq<Turn>, i: nat, j: nat, from: nat) returns (k: nat)
    requires i <= from < j < |turns| && Reading(d, turns[i]).Got? && Reading(d, turns[j]).Got?
    requires forall k :: from < k < j ==> Reading(d, turns[k]).Threw?
    ensures i <= k < j && NextReading(d, turns, k, j)
  {
    if Reading(d, turns[from]).Got? {
      k := from;
    } else {
      k := PreviousReading(d, turns, i, j, from - 1);
    }
  }

  /** The tuple is known, with this expiry, at every turn from a to b. */
  ghost predicate KnownThroughout(turns: seq<Turn>, a: nat, b: nat, key: string, expiry: int) {
    forall j :: a <= j <= b && j < |turns| ==>
      key in turns[j].before.states && turns[j].before.states[key].tuple.expiry == expiry
  }

  /** The first turn that reads a time at or after the expiry still reads one inside the window. */
  lemma {:induction false} FirstTurnInWindow(d: Deps, dryRun: bool, turns: seq<Turn>, a: nat, b: nat, key: string,
                                             expiry: int, slack: nat)
    returns (i: nat)
    requires ClusterClockMonotone(d) && Paced(d, turns, a, b, slack) && slack < 300
    requires forall j :: 0 <= j < |turns| ==> TurnOk(d, dryRun, turns[j])
    requires forall j :: 0 <= j < |turns| - 1 ==> turns[j].step.outcome != Interrupted
    requires a < b < |turns| && KnownThroughout(turns, a, b, key, expiry)
    requires Reading(d, turns[a]).Got? && Reading(d, turns[b]).Got?
    requires Reading(d, turns[a]).value < expiry <= Reading(d, turns[b]).value
    ensures a < i <= b && InItsWindow(d, turns[i], expiry)
    decreases b
  {
    hide TurnOk, ClusterClockMonotone, Paced;
    var k := PreviousReading(d, turns, a, b, b - 1);
    if Reading(d, turns[k]).value >= expiry {
      PacedShorter(d, turns, a, b, k, slack);
      i := FirstTurnInWindow(d, dryRun, turns, a, k, key, expiry, slack);
    } else {
      i := b;
      PacedBy(d, turns, a, b, slack, k);
      SleepEndsInWindow(d, dryRun, turns[k], key, slack, Reading(d, turns[b]).value);
    }
  }

  lemma PacedBy(d: Deps, turns: seq<Turn>, a: nat, b: nat, slack: nat, i: nat)
    requires Paced(d, turns, a, b, slack) && a <= i && NextReading(d, turns, i, b)
    ensures Reading(d, turns[b]).value <= Reading(d, turns[i]).value + (turns[i].slept + 999) / 1000 + slack
  {
  }

  lemma PacedShorter(d: Deps, turns: seq<Turn>, a: nat, b: nat, k: nat, slack: nat)
    requires Paced(d, turns, a, b, slack) && k <= b
    ensures Paced(d, turns, a, k, slack)
  {
  }

  /** Every tuple known before its expiry gets a pass inside its window, if passes, discoveries and
      turns with a failed reading take under 300 s between two readings; and every pass inside the
      window attends to it as far as it gets. */
  lemma NoWindowSleptThrough(d: Deps, dryRun: bool, turns: seq<Turn>, a: nat, b: nat, key: string, expiry: int,
                             slack: nat) returns (i: nat)
    requires ClusterClockMonotone(d) && Paced(d, turns, a, b, slack) && slack < 300
    requires forall j :: 0 <= j < |turns| ==> TurnOk(d, dryRun, turns[j])
    requires forall j :: 0 <= j < |turns| - 1 ==> turns[j].step.outcome != Interrupted
    requires a < b < |turns| && KnownThroughout(turns, a, b, key, expiry)
    requires Reading(d, turns[a]).Got? && Reading(d, turns[b]).Got?
    requires Reading(d, turns[a]).value < expiry <= Reading(d, turns[b]).value
    ensures a < i <= b && InItsWindow(d, turns[i], expiry)
    ensures forall j :: a <= j <= b && InItsWindow(d, turns[j], expiry) ==> Attended(d, dryRun, turns[j], key)
  {
    hide TurnOk, Attended, ClusterClockMonotone, Paced, InItsWindow;
    i := FirstTurnInWindow(d, dryRun, turns, a, b, key, expiry, slack);
    forall j | a <= j <= b && InItsWindow(d, turns[j], expiry) ensures Attended(d, dryRun, turns[j], key) {
      InWindowAttended(d, dryRun, turns[j], key);
    }
  }

  /** The same for the loop itself, failed readings and failed passes included: over any stretch of
      its turns, from one that reads a time before the expiry to one that reads a time at or after
      it. */
  lemma LoopSleepsThroughNoWindow(d: Deps, ctx: Ctx, n: nat, a: nat, b: nat, key: string, expiry: int, slack: nat)
    returns (i: nat)
    requires ClusterClockMonotone(d) && ShutdownSticks(d) && slack < 300
    requires var turns := LoopTurns(d, ctx, Loop(Start(1), d.nowMs(0)), n);
      && a < b < |turns| && Reading(d, turns[a]).Got? && Reading(d, turns[b]).Got? && Paced(d, turns, a, b, slack)
      && KnownThroughout(turns, a, b, key, expiry)
      && Reading(d, turns[a]).value < expiry <= Reading(d, turns[b]).value
    ensures var turns := LoopTurns(d, ctx, Loop(Start(1), d.nowMs(0)), n);
      && a < i <= b && InItsWindow(d, turns[i], expiry)
      && (forall j :: a <= j <= b && InItsWindow(d, turns[j], expiry) ==> Attended(d, ctx.dryRun, turns[j], key))
  {
    hide LoopTurns, TurnOk, Attended, ClusterClockMonotone, ShutdownSticks, LoopInv, Paced, InItsWindow,
      KnownThroughout;
    var l := Loop(Start(1), d.nowMs(0));
    var turns := LoopTurns(d, ctx, l, n);
    StartLoopInv(d, ctx.dryRun, 1);
    forall j | 0 <= j < |turns| ensures TurnOk(d, ctx.dryRun, turns[j]) {
      LoopTurnsOk(d, ctx, l, n, j);
    }
    forall j | 0 <= j < |turns| - 1 ensures turns[j].step.outcome != Interrupted {
      OnlyLastInterrupted(d, ctx, l, n, j);
    }
    i := NoWindowSleptThrough(d, ctx.dryRun, turns, a, b, key, expiry, slack);
  }
}

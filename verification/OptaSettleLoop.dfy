/** The loop makes one of the runs: what holds of every run holds after each of its turns. */
module OptaSettleLoop {
  import opened OptaSettle
  import opened OptaSettleSafety
  import opened OptaSettleScheduler
  import opened OptaSettleStatus
  import opened OptaSettleTiming

  lemma OneMoreAction(d: Deps, ctx: Ctx, s: Sched, actions: seq<Action>, a: Action)
    ensures Run(d, ctx, s, actions + [a]) == Act(d, ctx, Run(d, ctx, s, actions), a)
  {
    assert (actions + [a])[..|actions|] == actions;
  }

  /** What the top of a turn does: poll for shutdown, read the clock, and discover if it is time. */
  lemma TopOfTurnIsARun(d: Deps, ctx: Ctx, s: Sched, done: seq<Action>, nextMs: int) returns (actions: seq<Action>)
    ensures MaybeDiscover(d, ctx, Polled(Loop(Run(d, ctx, s, done), nextMs))).s == Run(d, ctx, s, actions)
  {
    hide Run, DiscoverFrom;
    var l := Polled(Loop(Run(d, ctx, s, done), nextMs));
    OneMoreAction(d, ctx, s, done, DoPoll);
    actions := done + [DoPoll] + [DoPoll];
    OneMoreAction(d, ctx, s, done + [DoPoll], DoPoll);
    if d.nowMs(l.s.calls) >= l.nextDiscoveryMs {
      OneMoreAction(d, ctx, s, actions, DoDiscover);
      OneMoreAction(d, ctx, s, actions + [DoDiscover], DoPoll);
      actions := actions + [DoDiscover] + [DoPoll];
    }
  }

  /** Every turn starts from the state of some run, and its pass is that run's next step. */
  lemma {:induction false} TurnIsARun(d: Deps, ctx: Ctx, s: Sched, done: seq<Action>, nextMs: int, n: nat, i: nat)
    returns (actions: seq<Action>)
    requires i < |LoopTurns(d, ctx, Loop(Run(d, ctx, s, done), nextMs), n)|
    ensures var turn := LoopTurns(d, ctx, Loop(Run(d, ctx, s, done), nextMs), n)[i];
      turn.before == Run(d, ctx, s, actions) && turn.step.s == Run(d, ctx, s, actions + [DoStep])
    decreases n
  {
    hide Run, MaybeDiscover, StepFrom;
    actions := TopOfTurnIsARun(d, ctx, s, done, nextMs);
    OneMoreAction(d, ctx, s, actions, DoStep);
    if i > 0 {
      var m, stepped := MaybeDiscover(d, ctx, Polled(Loop(Run(d, ctx, s, done), nextMs))), actions + [DoStep];
      OneMoreAction(d, ctx, s, stepped, DoPoll);
      OneMoreAction(d, ctx, s, stepped + [DoPoll], DoPoll);
      actions := TurnIsARun(d, ctx, s, stepped + [DoPoll] + [DoPoll], m.nextDiscoveryMs, n - 1, i - 1);
    }
  }

  /** The loop as it is started. */
  function Turns(d: Deps, ctx: Ctx, n: nat): seq<Turn> {
    LoopTurns(d, ctx, Loop(Start(1), d.nowMs(0)), n)
  }

  lemma LoopIsARun(d: Deps, ctx: Ctx, n: nat, i: nat) returns (actions: seq<Action>)
    requires i < |Turns(d, ctx, n)|
    ensures Turns(d, ctx, n)[i].step.s == Run(d, ctx, Start(1), actions)
  {
    assert Run(d, ctx, Start(1), []) == Start(1);
    actions := TurnIsARun(d, ctx, Start(1), [], d.nowMs(0), n, i);
    actions := actions + [DoStep];
  }

  /** After every turn of the loop: each send made so far was justified, a done tuple had its record
      found, and a dead one had its window missed. */
  lemma LoopIsSafe(d: Deps, ctx: Ctx, n: nat, i: nat)
    requires i < |Turns(d, ctx, n)|
    ensures var s := Turns(d, ctx, n)[i].step.s;
      && (forall j :: 0 <= j < |s.log| && s.log[j].what.Sent? ==> Justified(d, ctx.dryRun, s.log, j))
      && (forall k :: k in s.states && s.states[k].status == Done ==> RecordWasFound(d, s, k))
      && (forall k :: k in s.states && s.states[k].status == Dead ==>
            WindowWasMissed(d, s, k, s.states[k].tuple.expiry))
  {
    hide Turns, Run, Justified, RecordWasFound, WindowWasMissed;
    var s := Turns(d, ctx, n)[i].step.s;
    var actions := LoopIsARun(d, ctx, n, i);
    forall j | 0 <= j < |s.log| && s.log[j].what.Sent? ensures Justified(d, ctx.dryRun, s.log, j) {
      EverySendIsJustified(d, ctx, 1, actions, j);
    }
    forall k | k in s.states
      ensures s.states[k].status == Done ==> RecordWasFound(d, s, k)
      ensures s.states[k].status == Dead ==> WindowWasMissed(d, s, k, s.states[k].tuple.expiry)
    {
      DoneOnlyAfterRecordRead(d, ctx, 1, actions, k);
    }
  }

  predicate Closing(e: Event) { e.what == RecordPresent || e.what == MarkedDead }

  /** And up to every turn, a tuple is not sent once its record was seen or it was marked dead, and
      k sends of it span at least (k - 1) * 5 s. */
  lemma LoopDoesNotRepeatItself(d: Deps, ctx: Ctx, n: nat, i: nat)
    requires ClusterClockMonotone(d) && RecordsPersist(d) && LocalClockMonotone(d) && i < |Turns(d, ctx, n)|
    ensures var log := Turns(d, ctx, n)[i].step.s.log;
      && (forall a, b :: 0 <= a < b < |log| && log[a].key == log[b].key && Closing(log[a]) ==> !log[b].what.Sent?)
      && (forall k :: var times := SendTimes(log, k);
            times != [] ==> times[|times| - 1] - times[0] >= (|times| - 1) * 5_000)
  {
    hide Turns, Run, ClusterClockMonotone, RecordsPersist, LocalClockMonotone, SendTimes;
    var log := Turns(d, ctx, n)[i].step.s.log;
    var actions := LoopIsARun(d, ctx, n, i);
    forall a, b | 0 <= a < b < |log| && log[a].key == log[b].key && Closing(log[a]) ensures !log[b].what.Sent? {
      NeverSentAgain(d, ctx, 1, actions, a, b);
    }
    forall k ensures var times := SendTimes(log, k);
      times != [] ==> times[|times| - 1] - times[0] >= (|times| - 1) * 5_000
    {
      SendsSpan(d, ctx, 1, actions, k);
    }
  }
}

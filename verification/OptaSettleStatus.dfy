/** What a tuple's status means in every reachable state: a tuple is done or dead only on the word
    of a read of its settlement record. */
module OptaSettleStatus {
  import opened Results
  import opened TupleKey
  import opened SettleRouting
  import opened OptaSettle
  import opened OptaSettleSafety
  import opened OptaSettleTiming
  import Grouping

  // ---- the status is the verdict of the reads ----

  predicate TooLate(e: Event) {
    e.what == RecordAbsent && e.now > e.expiry + SETTLE_WINDOW_SECS
  }

  /** What the reads of a key's record say since it entered the map: found, not found past the
      window, or neither yet. */
  function Verdict(log: seq<Event>, key: string): Status {
    if log == [] then Active
    else
      var e, before := log[|log| - 1], Verdict(log[..|log| - 1], key);
      if e.key != key then before
      else if e.what == RecordPresent then Done
      else if TooLate(e) then Dead
      else if e.what == Dropped then Active
      else before
  }

  ghost predicate VerdictInv(s: Sched) {
    && (forall k :: k in s.states ==> s.states[k].status == Verdict(s.log, k))
    && (forall k :: k !in s.states ==> Verdict(s.log, k) == Active)
  }

  lemma VerdictOneMore(log: seq<Event>, e: Event, key: string)
    ensures Verdict(log + [e], key) ==
      if e.key != key then Verdict(log, key)
      else if e.what == RecordPresent then Done
      else if TooLate(e) then Dead
      else if e.what == Dropped then Active
      else Verdict(log, key)
  {
    assert (log + [e])[..|log|] == log;
  }

  lemma VerdictTwoMore(log: seq<Event>, e: Event, f: Event, key: string)
    requires e.key == f.key && (f.what == MarkedDone || f.what == MarkedDead)
    ensures Verdict(log + [e, f], key) == Verdict(log + [e], key)
  {
    VerdictOneMore(log + [e], f, key);
    assert log + [e] + [f] == log + [e, f];
  }

  /** The verdict after a visit's events: the tuple's new status, and nothing new for other keys. */
  ghost predicate Judged(log: seq<Event>, before: seq<Event>, v: Visited, key: string) {
    Verdict(log + v.events, key) ==
    if key == v.st.tuple.key && v.st.status != Active then v.st.status else Verdict(log + before, key)
  }

  lemma ReadJudged(log: seq<Event>, events: seq<Event>, pass: nat, now: int, t: Source2Tuple, call: nat, key: string)
    ensures Verdict(log + (events + [Note(pass, now, t, call, RecordPresent), Note(pass, now, t, call, MarkedDone)]),
                    key) ==
      if key == t.key then Done else Verdict(log + events, key)
    ensures now <= t.expiry + SETTLE_WINDOW_SECS ==>
      Verdict(log + (events + [Note(pass, now, t, call, RecordAbsent)]), key) == Verdict(log + events, key)
  {
    var present, marked := Note(pass, now, t, call, RecordPresent), Note(pass, now, t, call, MarkedDone);
    var absent := Note(pass, now, t, call, RecordAbsent);
    hide Verdict;
    assert log + (events + [present, marked]) == (log + events) + [present, marked];
    assert log + (events + [absent]) == (log + events) + [absent];
    VerdictTwoMore(log + events, present, marked, key);
    VerdictOneMore(log + events, present, key);
    VerdictOneMore(log + events, absent, key);
  }

  lemma FailureJudged(d: Deps, pass: nat, now: int, st: TupleState, c: nat, events: seq<Event>, log: seq<Event>,
                      key: string)
    requires st.status == Active && now <= st.tuple.expiry + SETTLE_WINDOW_SECS
    ensures Judged(log, events, AfterFailure(d, pass, now, st, c, events), key)
    ensures AfterFailure(d, pass, now, st, c, events).st.tuple == st.tuple
  {
    hide Verdict;
    ReadJudged(log, events, pass, now, st.tuple, c, key);
  }

  lemma SendJudged(d: Deps, pass: nat, now: int, st: TupleState, c: nat, events: seq<Event>, log: seq<Event>,
                   key: string)
    requires st.status == Active && now <= st.tuple.expiry + SETTLE_WINDOW_SECS
    ensures Judged(log, events, SendAndConfirm(d, pass, now, st, c, events), key)
    ensures SendAndConfirm(d, pass, now, st, c, events).st.tuple == st.tuple
  {
    hide Verdict, AfterFailure;
    var absent := events + [Note(pass, now, st.tuple, c + 1, RecordAbsent)];
    ReadJudged(log, events, pass, now, st.tuple, c + 1, key);
    FailureJudged(d, pass, now, st, c + 1, events, log, key);
    FailureJudged(d, pass, now, st, c + 2, events, log, key);
    FailureJudged(d, pass, now, st, c + 2, absent, log, key);
  }

  lemma CalmJudged(log: seq<Event>, events: seq<Event>, e: Event, key: string)
    requires e.what.FeedSeen? || e.what.Sent?
    ensures Verdict(log + (events + [e]), key) == Verdict(log + events, key)
  {
    assert log + (events + [e]) == (log + events) + [e];
    VerdictOneMore(log + events, e, key);
  }

  lemma PollJudged(d: Deps, dryRun: bool, pass: nat, now: int, st: TupleState, c: nat, events: seq<Event>,
                   log: seq<Event>, key: string)
    requires st.status == Active && now <= st.tuple.expiry + SETTLE_WINDOW_SECS
    ensures Judged(log, events, PollAndMaybeSend(d, dryRun, pass, now, st, c, events), key)
    ensures PollAndMaybeSend(d, dryRun, pass, now, st, c, events).st.tuple == st.tuple
  {
    hide Verdict, SendAndConfirm, DecideSettleSend;
    if d.fetchFeed(c, st.tuple.key).Got? {
      var feed := d.fetchFeed(c, st.tuple.key).value;
      var seen, at := Note(pass, now, st.tuple, c, FeedSeen(feed)), d.nowMs(c + 2);
      var sent := Note(pass, now, st.tuple, c + 3, Sent(at));
      CalmJudged(log, events, seen, key);
      CalmJudged(log, events + [seen], sent, key);
      SendJudged(d, pass, now, WithFeed(st, feed).(lastSendAtMs := Some(at)), c + 3, events + [seen] + [sent], log,
                 key);
    }
  }

  lemma VisitJudged(d: Deps, dryRun: bool, pass: nat, now: int, st: TupleState, c: nat, log: seq<Event>, key: string)
    requires st.status == Verdict(log, st.tuple.key)
    ensures var v := Visit(d, dryRun, pass, now, st, c);
      Verdict(log + v.events, key) == if key == st.tuple.key then v.st.status else Verdict(log, key)
  {
    hide Verdict, PollAndMaybeSend;
    assert log + [] == log;
    var t := st.tuple;
    var absent := Note(pass, now, t, c, RecordAbsent);
    ReadJudged(log, [], pass, now, t, c, key);
    assert [] + [absent] == [absent];
    VerdictOneMore(log, absent, key);
    VerdictTwoMore(log, absent, Note(pass, now, t, c, MarkedDead), key);
    assert [] + [Note(pass, now, t, c, RecordPresent), Note(pass, now, t, c, MarkedDone)] ==
           [Note(pass, now, t, c, RecordPresent), Note(pass, now, t, c, MarkedDone)];
    if st.status == Active && PhaseOf(t.expiry, now) == InWindow {
      PollJudged(d, dryRun, pass, now, st, c + 1, [absent], log, key);
    }
  }

  lemma VisitKeyJudged(d: Deps, dryRun: bool, pass: nat, now: int, p: Progress, key: string)
    requires VerdictInv(p.s) && key in p.s.states && p.s.states[key].tuple.key == key
    ensures VerdictInv(VisitKey(d, dryRun, pass, now, p, key).s)
  {
    hide Visit, Verdict;
    var q := VisitKey(d, dryRun, pass, now, p, key).s;
    forall k ensures k in q.states ==> q.states[k].status == Verdict(q.log, k)
      ensures k !in q.states ==> Verdict(q.log, k) == Active
    {
      VisitJudged(d, dryRun, pass, now, p.s.states[key], p.s.calls + 1, p.s.log, k);
    }
  }

  lemma {:induction false} PassJudged(d: Deps, dryRun: bool, pass: nat, now: int, p: Progress, i: nat)
    requires Ready(p.s) && UnderWay(d, dryRun, pass, now, p) && VerdictInv(p.s)
    ensures VerdictInv(PassFrom(d, dryRun, pass, now, p, i).0.s)
    decreases |p.s.keys| - i
  {
    hide UnderWay, KeyThrew, Visit, Verdict;
    if i < |p.s.keys| && !d.shutdown(p.s.calls) {
      var key := p.s.keys[i];
      NextUnderWay(d, dryRun, pass, now, p, i);
      UnderWayFacts(d, dryRun, pass, now, p, key);
      VisitKeyJudged(d, dryRun, pass, now, p, key);
      hide VerdictInv;
      var next := VisitKey(d, dryRun, pass, now, p, key);
      if !KeyThrew(d, dryRun, pass, now, p, key) {
        PassJudged(d, dryRun, pass, now, next, i + 1);
      }
    }
  }

  lemma StepJudged(d: Deps, dryRun: bool, s: Sched)
    requires Inv(d, dryRun, s) && Ready(s) && VerdictInv(s)
    ensures VerdictInv(StepFrom(d, dryRun, s).s)
  {
    hide PassFrom, UnderWay, Inv, Verdict;
    if d.clusterNow(s.calls).Got? {
      StepUnderWay(d, dryRun, s);
      PassJudged(d, dryRun, s.calls, d.clusterNow(s.calls).value, Progress(s.(calls := s.calls + 1), IDLE_MAX_MS), 0);
    }
  }

  lemma {:induction false} DropsJudged(log: seq<Event>, drops: seq<Event>, key: string)
    requires forall i :: 0 <= i < |drops| ==> drops[i].what == Dropped
    ensures Verdict(log + drops, key) ==
      if exists i :: 0 <= i < |drops| && drops[i].key == key then Active else Verdict(log, key)
  {
    if drops == [] {
      assert log + drops == log;
    } else {
      var before, last := drops[..|drops| - 1], drops[|drops| - 1];
      assert forall i :: 0 <= i < |before| ==> before[i] == drops[i];
      DropsJudged(log, before, key);
      VerdictOneMore(log + before, last, key);
      assert log + before + [last] == log + drops;
      if exists i :: 0 <= i < |before| && before[i].key == key {
        var i :| 0 <= i < |before| && before[i].key == key;
        assert drops[i].key == key;
      }
    }
  }

  lemma DroppedVerdict(d: Deps, s: Sched, seen: set<string>, call: nat, now: int, key: string)
    requires Sound(s) && d.clusterNow(call) == Got(now)
    ensures Verdict(DropUnseen(s, seen, call, now).log, key) ==
      if key in s.states && key !in seen then Active else Verdict(s.log, key)
  {
    hide DropEvents, Verdict, Key;
    DropEventsOk(d, false, s.keys, seen, s.states, call, now);
    DropsJudged(s.log, DropEvents(s.keys, seen, s.states, call, now), key);
  }

  lemma DropJudged(d: Deps, s: Sched, seen: set<string>, call: nat, now: int)
    requires VerdictInv(s) && Sound(s) && d.clusterNow(call) == Got(now)
    ensures VerdictInv(DropUnseen(s, seen, call, now))
  {
    hide Sound, Verdict;
    forall k {
      DroppedVerdict(d, s, seen, call, now, k);
    }
    hide DropEvents;
  }

  lemma DiscoverJudged(d: Deps, ctx: Ctx, s: Sched)
    requires Inv(d, ctx.dryRun, s) && VerdictInv(s)
    ensures VerdictInv(DiscoverFrom(d, ctx, s).0)
  {
    hide Source2Tuples, DropUnseen, TuplesNamed, History, ReconcileAll, Key, Verdict;
    if d.scan(s.calls).Got? && d.clusterNow(s.calls + 1).Got? {
      var scan := d.scan(s.calls).value;
      SeenNamed(d, ctx, scan);
      var ts := Source2Tuples(scan.vaults, scan.markets, ctx.pda, ctx.assetLe);
      var known := s.(calls := s.calls + 2);
      ReconcileKeeps(known, ts);
      var seen := set t | t in ts :: t.key;
      var r := ReconcileAll(known, ts);
      assert VerdictInv(r) by {
        forall k | k in r.states ensures r.states[k].status == Verdict(r.log, k) {
          assert k in s.states ==> Carried(known.states[k], r.states[k]);
        }
      }
      DropJudged(d, r, seen, s.calls + 1, d.clusterNow(s.calls + 1).value);
    }
  }

  lemma PollsJudged(s: Sched, calls: nat)
    requires VerdictInv(s)
    ensures VerdictInv(s.(calls := calls))
  {
  }

  lemma {:induction false} RunJudged(d: Deps, ctx: Ctx, s: Sched, actions: seq<Action>)
    requires Inv(d, ctx.dryRun, s) && VerdictInv(s)
    ensures VerdictInv(Run(d, ctx, s, actions)) && Inv(d, ctx.dryRun, Run(d, ctx, s, actions))
  {
    hide Inv, VerdictInv, StepFrom, DiscoverFrom;
    RunKeeps(d, ctx, s, actions);
    if actions != [] {
      var before := Run(d, ctx, s, actions[..|actions| - 1]);
      RunJudged(d, ctx, s, actions[..|actions| - 1]);
      InvReady(d, ctx.dryRun, before);
      DiscoverJudged(d, ctx, before);
      StepJudged(d, ctx.dryRun, before);
      PollsJudged(before, before.calls + 1);
    }
  }

  /** In every reachable state a tuple's status is exactly what the reads of its
      record since it entered the map say. */
  lemma StatusIsTheVerdict(d: Deps, ctx: Ctx, calls: nat, actions: seq<Action>, key: string)
    requires key in Run(d, ctx, Start(calls), actions).states
    ensures var s := Run(d, ctx, Start(calls), actions); s.states[key].status == Verdict(s.log, key)
  {
    StartInv(d, ctx.dryRun, calls);
    RunJudged(d, ctx, Start(calls), actions);
  }

  // ---- what a status rests on ----

  /** The read that gives a tuple this status. */
  predicate Decides(e: Event, key: string, status: Status) {
    e.key == key && ((status == Done && e.what == RecordPresent) || (status == Dead && TooLate(e)))
  }

  lemma {:induction false} VerdictHasCause(log: seq<Event>, key: string) returns (i: nat)
    requires Verdict(log, key) != Active
    ensures i < |log| && Decides(log[i], key, Verdict(log, key))
  {
    var e := log[|log| - 1];
    if e.key == key && (e.what == RecordPresent || TooLate(e)) {
      i := |log| - 1;
    } else {
      i := VerdictHasCause(log[..|log| - 1], key);
    }
  }

  /** A closed tuple's deciding read: made at or after its expiry, in a pass that read that time. */
  lemma ClosedAt(d: Deps, dryRun: bool, s: Sched, key: string) returns (i: nat)
    requires Inv(d, dryRun, s) && VerdictInv(s) && key in s.states && s.states[key].status != Active
    ensures i < |s.log| && Decides(s.log[i], key, s.states[key].status) && EventOk(d, dryRun, s.log, i)
    ensures s.log[i].now >= s.states[key].tuple.expiry == s.log[i].expiry && s.log[i].call < s.calls
    ensures s.log[i].pass < s.calls && d.clusterNow(s.log[i].pass) == Got(s.log[i].now)
  {
    i := VerdictHasCause(s.log, key);
    hide Verdict, Key, Grouping.Distinct;
    assert EventOk(d, dryRun, s.log, i);
    assert NamedState(key, s.states[key]);
    assert KeyNames(key, s.log[i].expiry) && KeyNames(key, s.states[key].tuple.expiry);
    KeyNamesOne(key, s.log[i].expiry, s.states[key].tuple.expiry);
  }

  /** A read of this tuple's record, made before now, that found it. */
  ghost predicate RecordWasFound(d: Deps, s: Sched, key: string) {
    exists i :: 0 <= i < |s.log| && s.log[i].key == key && s.log[i].what == RecordPresent && s.log[i].call < s.calls &&
      d.fetchRecord(s.log[i].call, key).Got? && d.fetchRecord(s.log[i].call, key).value.Some?
  }

  /** A read of this tuple's record that did not find it, in a pass that read a cluster time past
      the tuple's window. */
  ghost predicate WindowWasMissed(d: Deps, s: Sched, key: string, expiry: int) {
    exists i :: 0 <= i < |s.log| && s.log[i].key == key && s.log[i].what == RecordAbsent && s.log[i].call < s.calls &&
      d.fetchRecord(s.log[i].call, key) == Got(None) &&
      d.clusterNow(s.log[i].pass) == Got(s.log[i].now) && s.log[i].now > expiry + 300
  }

  lemma ReadsSay(d: Deps, dryRun: bool, log: seq<Event>, i: nat)
    requires i < |log| && EventOk(d, dryRun, log, i)
    ensures var read := d.fetchRecord(log[i].call, log[i].key);
      && (log[i].what == RecordPresent ==> read.Got? && read.value.Some?)
      && (log[i].what == RecordAbsent ==> read == Got(None))
  {
  }

  /** In every reachable state, a tuple that is done had its record read and found, and one that is
      dead had it read and not found at a cluster time past its window. */
  lemma DoneOnlyAfterRecordRead(d: Deps, ctx: Ctx, calls: nat, actions: seq<Action>, key: string)
    requires key in Run(d, ctx, Start(calls), actions).states
    ensures var s := Run(d, ctx, Start(calls), actions); var st := s.states[key];
      && (st.status == Done ==> RecordWasFound(d, s, key))
      && (st.status == Dead ==> WindowWasMissed(d, s, key, st.tuple.expiry))
  {
    StartInv(d, ctx.dryRun, calls);
    RunJudged(d, ctx, Start(calls), actions);
    hide Run, Inv, VerdictInv, EventOk;
    var s := Run(d, ctx, Start(calls), actions);
    if s.states[key].status != Active {
      var i := ClosedAt(d, ctx.dryRun, s, key);
      ReadsSay(d, ctx.dryRun, s.log, i);
    }
  }
}

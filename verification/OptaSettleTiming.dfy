/** Timing of the first-party settle lane: when a visit sends, how far apart sends are, how
    long a pass lets the loop sleep, and that no settlement window is slept through. */
module OptaSettleTiming {
  import opened Results
  import opened TupleKey
  import opened SettleRouting
  import opened OptaSettle
  import opened OptaSettleSafety
  import Grouping

  // ---- when a visit sends ----

  /** Neither a send nor a drop. */
  ghost predicate Quiet(events: seq<Event>) {
    forall i :: 0 <= i < |events| ==> !events[i].what.Sent? && events[i].what != Dropped
  }

  lemma FailureTail(d: Deps, pass: nat, now: int, st: TupleState, c: nat, events: seq<Event>) returns (rest: seq<Event>)
    ensures var v := AfterFailure(d, pass, now, st, c, events);
      v.events == events + rest && Quiet(rest) && v.st.lastSendAtMs == st.lastSendAtMs && !v.threw
  {
    match d.fetchRecord(c, st.tuple.key) {
      case Threw => rest := [];
      case Got(None) => rest := [Note(pass, now, st.tuple, c, RecordAbsent)];
      case Got(Some(_)) => rest :=
        [Note(pass, now, st.tuple, c, RecordPresent), Note(pass, now, st.tuple, c, MarkedDone)];
    }
  }

  lemma SendTail(d: Deps, pass: nat, now: int, st: TupleState, c: nat, events: seq<Event>) returns (rest: seq<Event>)
    ensures var v := SendAndConfirm(d, pass, now, st, c, events);
      v.events == events + rest && Quiet(rest) && v.st.lastSendAtMs == st.lastSendAtMs && !v.threw
  {
    hide AfterFailure;
    match d.sendSettle(c, st.tuple.key) {
      case Threw => rest := FailureTail(d, pass, now, st, c + 1, events);
      case Got(_) =>
        match d.fetchRecord(c + 1, st.tuple.key) {
          case Got(Some(_)) => rest :=
            [Note(pass, now, st.tuple, c + 1, RecordPresent), Note(pass, now, st.tuple, c + 1, MarkedDone)];
          case Got(None) =>
            var absent := [Note(pass, now, st.tuple, c + 1, RecordAbsent)];
            var tail := FailureTail(d, pass, now, st, c + 2, events + absent);
            rest := absent + tail;
            assert (events + absent) + tail == events + rest;
          case Threw => rest := FailureTail(d, pass, now, st, c + 2, events);
        }
    }
  }

  /** The conditions under which a visit sends, all of them things a caller could look up. */
  ghost predicate SendsNow(d: Deps, dryRun: bool, now: int, st: TupleState, c: nat) {
    var t := st.tuple;
    && st.status == Active && t.expiry <= now <= t.expiry + 300 && !dryRun
    && d.fetchRecord(c, t.key) == Got(None)
    && d.fetchFeed(c + 1, t.key).Got? && d.fetchFeed(c + 1, t.key).value.Some? &&
      d.fetchFeed(c + 1, t.key).value.value >= t.expiry
    && (st.lastSendAtMs.Some? ==> d.nowMs(c + 2) - st.lastSendAtMs.value >= 5_000)
  }

  /** A visit sends exactly under those conditions, once, and remembers when. */
  lemma VisitSendsExactlyWhen(d: Deps, dryRun: bool, pass: nat, now: int, st: TupleState, c: nat)
    returns (before: seq<Event>, rest: seq<Event>)
    ensures var v := Visit(d, dryRun, pass, now, st, c);
      if SendsNow(d, dryRun, now, st, c) then
        && v.events == before + [Note(pass, now, st.tuple, c + 4, Sent(d.nowMs(c + 3)))] + rest
        && Quiet(before) && Quiet(rest) && v.st.lastSendAtMs == Some(d.nowMs(c + 3))
      else
        Quiet(v.events) && v.st.lastSendAtMs == st.lastSendAtMs
  {
    hide SendAndConfirm;
    var t := st.tuple;
    before, rest := [], [];
    if st.status == Active && PhaseOf(t.expiry, now) == InWindow && d.fetchRecord(c, t.key) == Got(None) &&
      d.fetchFeed(c + 1, t.key).Got? {
      var feed := d.fetchFeed(c + 1, t.key).value;
      before := [Note(pass, now, t, c, RecordAbsent)] + [Note(pass, now, t, c + 1, FeedSeen(feed))];
      var at := d.nowMs(c + 3);
      rest := SendTail(d, pass, now, WithFeed(st, feed).(lastSendAtMs := Some(at)), c + 4,
                       before + [Note(pass, now, t, c + 4, Sent(at))]);
      GateOpensExactlyWhen(feed, t.expiry, now);
    }
  }

  // ---- spacing of sends ----

  /** Send times of a key since it was last dropped. */
  function SendTimes(log: seq<Event>, key: string): seq<int> {
    if log == [] then []
    else
      var e, before := log[|log| - 1], SendTimes(log[..|log| - 1], key);
      if e.key != key then before
      else match e.what
        case Sent(at) => before + [at]
        case Dropped => []
        case _ => before
  }

  function LastTime(times: seq<int>): Option<int> {
    if times == [] then None else Some(times[|times| - 1])
  }

  ghost predicate Spaced(times: seq<int>) {
    forall i :: 0 <= i < |times| - 1 ==> times[i + 1] - times[i] >= RETRY_MIN_MS
  }

  lemma {:induction false} QuietTimes(log: seq<Event>, more: seq<Event>, key: string)
    requires Quiet(more)
    ensures SendTimes(log + more, key) == SendTimes(log, key)
  {
    if more == [] {
      assert log + more == log;
    } else {
      assert (log + more)[..|log + more| - 1] == log + more[..|more| - 1];
      QuietTimes(log, more[..|more| - 1], key);
    }
  }

  lemma SentTimes(log: seq<Event>, e: Event, key: string)
    requires e.what.Sent?
    ensures SendTimes(log + [e], key) == SendTimes(log, key) + (if e.key == key then [e.what.atMs] else [])
  {
    assert (log + [e])[..|log|] == log;
  }

  /** The state remembers the last send of every known tuple, and sends are spaced. */
  ghost predicate SpacingInv(s: Sched) {
    && (forall k :: k in s.states ==> s.states[k].lastSendAtMs == LastTime(SendTimes(s.log, k)))
    && (forall k :: k !in s.states ==> SendTimes(s.log, k) == [])
    && (forall k :: Spaced(SendTimes(s.log, k)))
  }

  lemma VisitSpaces(d: Deps, dryRun: bool, pass: nat, now: int, st: TupleState, c: nat, log: seq<Event>, key: string)
    requires LocalClockMonotone(d) && st.lastSendAtMs == LastTime(SendTimes(log, st.tuple.key)) &&
      Spaced(SendTimes(log, key))
    ensures var v := Visit(d, dryRun, pass, now, st, c);
      && Spaced(SendTimes(log + v.events, key))
      && (key == st.tuple.key ==> v.st.lastSendAtMs == LastTime(SendTimes(log + v.events, key)))
      && (key != st.tuple.key ==> SendTimes(log + v.events, key) == SendTimes(log, key))
  {
    var before, rest := VisitSendsExactlyWhen(d, dryRun, pass, now, st, c);
    var v := Visit(d, dryRun, pass, now, st, c);
    hide Visit, SendTimes;
    if SendsNow(d, dryRun, now, st, c) {
      var sent := Note(pass, now, st.tuple, c + 4, Sent(d.nowMs(c + 3)));
      assert log + v.events == log + before + [sent] + rest;
      QuietTimes(log, before, key);
      SentTimes(log + before, sent, key);
      QuietTimes(log + before + [sent], rest, key);
      assert d.nowMs(c + 2) <= d.nowMs(c + 3);
    } else {
      QuietTimes(log, v.events, key);
    }
  }

  lemma VisitKeySpaces(d: Deps, dryRun: bool, pass: nat, now: int, p: Progress, key: string)
    requires LocalClockMonotone(d) && SpacingInv(p.s) && Sound(p.s) && key in p.s.states
    ensures SpacingInv(VisitKey(d, dryRun, pass, now, p, key).s)
  {
    hide Visit, SendTimes, LocalClockMonotone, Spaced, Key, Grouping.Distinct;
    var st := p.s.states[key];
    assert NamedState(key, st);
    var q := VisitKey(d, dryRun, pass, now, p, key).s;
    forall k ensures Spaced(SendTimes(q.log, k))
      ensures k in q.states ==> q.states[k].lastSendAtMs == LastTime(SendTimes(q.log, k))
      ensures k !in q.states ==> SendTimes(q.log, k) == []
    {
      VisitSpaces(d, dryRun, pass, now, st, p.s.calls + 1, p.s.log, k);
    }
  }

  lemma {:induction false} PassSpaces(d: Deps, dryRun: bool, pass: nat, now: int, p: Progress, i: nat)
    requires Ready(p.s) && LocalClockMonotone(d) && SpacingInv(p.s)
    requires Inv(d, dryRun, p.s) && NoLaterPass(p.s.log, pass) && pass < p.s.calls && d.clusterNow(pass) == Got(now)
    ensures SpacingInv(PassFrom(d, dryRun, pass, now, p, i).0.s)
    decreases |p.s.keys| - i
  {
    hide VisitKey, History, NoLaterPass, KeyThrew, SendTimes, Spaced, LocalClockMonotone, Key;
    if i < |p.s.keys| && !d.shutdown(p.s.calls) {
      var key := p.s.keys[i];
      VisitKeyKeeps(d, dryRun, pass, now, p, key);
      VisitKeySpaces(d, dryRun, pass, now, p, key);
      hide SpacingInv, Inv;
      var next := VisitKey(d, dryRun, pass, now, p, key);
      InvReady(d, dryRun, next.s);
      if !KeyThrew(d, dryRun, pass, now, p, key) {
        PassSpaces(d, dryRun, pass, now, next, i + 1);
      }
    }
  }

  lemma StepSpaces(d: Deps, dryRun: bool, s: Sched)
    requires LocalClockMonotone(d) && SpacingInv(s) && Inv(d, dryRun, s)
    ensures Ready(s) && SpacingInv(StepFrom(d, dryRun, s).s)
  {
    hide PassFrom, SendTimes, Spaced, LocalClockMonotone;
    InvMoreCalls(d, dryRun, s, s.calls + 1);
    var read := s.(calls := s.calls + 1);
    if d.clusterNow(s.calls).Got? {
      assert NoLaterPass(s.log, s.calls);
      PassSpaces(d, dryRun, s.calls, d.clusterNow(s.calls).value, Progress(read, IDLE_MAX_MS), 0);
    }
  }

  lemma {:induction false} DropTimes(log: seq<Event>, more: seq<Event>, key: string)
    requires forall i :: 0 <= i < |more| ==> more[i].what == Dropped
    ensures SendTimes(log + more, key) ==
      if exists i :: 0 <= i < |more| && more[i].key == key then [] else SendTimes(log, key)
  {
    if more == [] {
      assert log + more == log;
    } else {
      var before, n := more[..|more| - 1], |more| - 1;
      assert (log + more)[..|log + more| - 1] == log + before;
      DropTimes(log, before, key);
      if exists i :: 0 <= i < |before| && before[i].key == key {
        var i :| 0 <= i < |before| && before[i].key == key;
        assert more[i].key == key;
      } else if more[n].key != key {
        assert forall i :: 0 <= i < n ==> before[i] == more[i];
      }
    }
  }

  lemma DropTimesOf(d: Deps, s: Sched, seen: set<string>, call: nat, now: int, key: string)
    requires Sound(s) && d.clusterNow(call) == Got(now)
    ensures SendTimes(DropUnseen(s, seen, call, now).log, key) ==
      if key in s.states && key !in seen then [] else SendTimes(s.log, key)
  {
    hide DropEvents, SendTimes, Key;
    DropEventsOk(d, false, s.keys, seen, s.states, call, now);
    DropTimes(s.log, DropEvents(s.keys, seen, s.states, call, now), key);
  }

  lemma DropSpaces(d: Deps, s: Sched, seen: set<string>, call: nat, now: int)
    requires SpacingInv(s) && Sound(s) && d.clusterNow(call) == Got(now)
    ensures SpacingInv(DropUnseen(s, seen, call, now))
  {
    hide Sound, SendTimes;
    forall k {
      DropTimesOf(d, s, seen, call, now, k);
    }
    hide DropEvents;
  }

  lemma DiscoverSpaces(d: Deps, ctx: Ctx, s: Sched)
    requires SpacingInv(s) && Inv(d, ctx.dryRun, s)
    ensures SpacingInv(DiscoverFrom(d, ctx, s).0)
  {
    hide Source2Tuples, DropUnseen, TuplesNamed, History, SendTimes, ReconcileAll, Key;
    if d.scan(s.calls).Got? && d.clusterNow(s.calls + 1).Got? {
      var scan := d.scan(s.calls).value;
      SeenNamed(d, ctx, scan);
      var ts := Source2Tuples(scan.vaults, scan.markets, ctx.pda, ctx.assetLe);
      var known := s.(calls := s.calls + 2);
      ReconcileKeeps(known, ts);
      var seen := set t | t in ts :: t.key;
      var r := ReconcileAll(known, ts);
      assert SpacingInv(r) by {
        forall k | k in r.states ensures r.states[k].lastSendAtMs == LastTime(SendTimes(r.log, k)) {
          assert k in s.states ==> Carried(known.states[k], r.states[k]);
        }
      }
      DropSpaces(d, r, seen, s.calls + 1, d.clusterNow(s.calls + 1).value);
    }
  }

  lemma PollsSpace(s: Sched, calls: nat)
    requires SpacingInv(s)
    ensures SpacingInv(s.(calls := calls))
  {
  }

  lemma {:induction false} RunSpaces(d: Deps, ctx: Ctx, s: Sched, actions: seq<Action>)
    requires LocalClockMonotone(d) && SpacingInv(s) && Inv(d, ctx.dryRun, s)
    ensures SpacingInv(Run(d, ctx, s, actions))
  {
    hide Inv, SpacingInv, LocalClockMonotone;
    if actions != [] {
      var prefix := actions[..|actions| - 1];
      RunSpaces(d, ctx, s, prefix);
      RunKeeps(d, ctx, s, prefix);
      var before := Run(d, ctx, s, prefix);
      DiscoverSpaces(d, ctx, before);
      StepSpaces(d, ctx.dryRun, before);
      PollsSpace(before, before.calls + 1);
    }
  }

  lemma {:induction false} SpacedSpan(times: seq<int>)
    requires Spaced(times) && times != []
    ensures times[|times| - 1] - times[0] >= (|times| - 1) * RETRY_MIN_MS
  {
    if |times| > 1 {
      SpacedSpan(times[..|times| - 1]);
      assert times[|times| - 2 + 1] - times[|times| - 2] >= RETRY_MIN_MS;
    }
  }

  /** k sends of a tuple since it entered the map span at least (k - 1) * 5 s, in every run. */
  lemma SendsSpan(d: Deps, ctx: Ctx, calls: nat, actions: seq<Action>, key: string)
    requires LocalClockMonotone(d)
    ensures var times := SendTimes(Run(d, ctx, Start(calls), actions).log, key);
      times != [] ==> times[|times| - 1] - times[0] >= (|times| - 1) * 5_000
  {
    StartInv(d, ctx.dryRun, calls);
    RunSpaces(d, ctx, Start(calls), actions);
    var times := SendTimes(Run(d, ctx, Start(calls), actions).log, key);
    hide Run;
    if times != [] {
      SpacedSpan(times);
    }
  }

  // ---- what a pass lets the loop sleep ----

  /** A read of the tuple's record in this pass. */
  ghost predicate ReadIn(log: seq<Event>, from: nat, key: string, pass: nat) {
    exists i :: from <= i < |log| && log[i].key == key && log[i].pass == pass &&
      (log[i].what == RecordAbsent || log[i].what == RecordPresent)
  }

  lemma VisitReads(d: Deps, dryRun: bool, pass: nat, now: int, st: TupleState, c: nat)
    requires st.status == Active && PhaseOf(st.tuple.expiry, now) != Pending
    ensures var v := Visit(d, dryRun, pass, now, st, c);
      v.threw || (v.events != [] && v.events[0].key == st.tuple.key && v.events[0].pass == pass &&
                  (v.events[0].what == RecordAbsent || v.events[0].what == RecordPresent))
  {
    var t := st.tuple;
    if d.fetchRecord(c, t.key) == Got(None) && PhaseOf(t.expiry, now) == InWindow && d.fetchFeed(c + 1, t.key).Got? {
      hide SendAndConfirm;
      var before, rest := VisitSendsExactlyWhen(d, dryRun, pass, now, st, c);
      var feed := d.fetchFeed(c + 1, t.key).value;
      var at := d.nowMs(c + 3);
      var tail := SendTail(d, pass, now, WithFeed(st, feed).(lastSendAtMs := Some(at)), c + 4,
        [Note(pass, now, t, c, RecordAbsent)] + [Note(pass, now, t, c + 1, FeedSeen(feed))] +
          [Note(pass, now, t, c + 4, Sent(at))]);
    }
  }

  ghost predicate Due(st: TupleState, now: int) {
    st.status == Active && PhaseOf(st.tuple.expiry, now) != Pending
  }

  lemma VisitKeyReads(d: Deps, dryRun: bool, pass: nat, now: int, p: Progress, key: string)
    requires key in p.s.states && Due(p.s.states[key], now) && NamedState(key, p.s.states[key])
    requires !KeyThrew(d, dryRun, pass, now, p, key)
    ensures ReadIn(VisitKey(d, dryRun, pass, now, p, key).s.log, |p.s.log|, key, pass)
  {
    var st := p.s.states[key];
    VisitReads(d, dryRun, pass, now, st, p.s.calls + 1);
    hide Visit;
    var v := Visit(d, dryRun, pass, now, st, p.s.calls + 1);
    assert (p.s.log + v.events)[|p.s.log|] == v.events[0];
  }

  lemma ReadStays(log: seq<Event>, more: seq<Event>, from: nat, from': nat, key: string, pass: nat)
    requires ReadIn(log, from, key, pass) && log <= more && from' <= from
    ensures ReadIn(more, from', key, pass)
  {
    var i :| from <= i < |log| && log[i].key == key && log[i].pass == pass &&
      (log[i].what == RecordAbsent || log[i].what == RecordPresent);
    assert more[i] == log[i];
  }

  /** A pass in progress: what the lemmas about it assume. */
  ghost predicate UnderWay(d: Deps, dryRun: bool, pass: nat, now: int, p: Progress) {
    Ready(p.s) && Inv(d, dryRun, p.s) && NoLaterPass(p.s.log, pass) && pass < p.s.calls &&
      d.clusterNow(pass) == Got(now)
  }

  lemma NextUnderWay(d: Deps, dryRun: bool, pass: nat, now: int, p: Progress, i: nat)
    requires UnderWay(d, dryRun, pass, now, p) && i < |p.s.keys|
    ensures p.s.keys[i] in p.s.states
    ensures var q := VisitKey(d, dryRun, pass, now, p, p.s.keys[i]);
      && UnderWay(d, dryRun, pass, now, q) && Ready(q.s) && q.s.keys == p.s.keys && p.s.log <= q.s.log
      && (forall j :: i < j < |p.s.keys| ==> q.s.states[p.s.keys[j]] == p.s.states[p.s.keys[j]])
  {
    hide VisitKey, History, NoLaterPass;
    VisitKeyKeeps(d, dryRun, pass, now, p, p.s.keys[i]);
    var q := VisitKey(d, dryRun, pass, now, p, p.s.keys[i]);
    InvReady(d, dryRun, q.s);
    forall j | i < j < |p.s.keys| ensures q.s.states[p.s.keys[j]] == p.s.states[p.s.keys[j]] {
      assert p.s.keys[i] != p.s.keys[j];
    }
  }

  /** The wait of a pass is at most the cap of every tuple it visits, of all when it completes. */
  lemma {:induction false} PassWithinCap(d: Deps, dryRun: bool, pass: nat, now: int, p: Progress, i: nat, j: nat)
    requires Ready(p.s) && UnderWay(d, dryRun, pass, now, p)
    ensures var (q, outcome) := PassFrom(d, dryRun, pass, now, p, i);
      q.wait <= p.wait && (outcome == Completed && i <= j < |p.s.keys| ==> q.wait <= Cap(p.s.states[p.s.keys[j]], now))
    decreases |p.s.keys| - i
  {
    hide UnderWay, KeyThrew, Cap, Visit;
    if i < |p.s.keys| && !d.shutdown(p.s.calls) {
      NextUnderWay(d, dryRun, pass, now, p, i);
      var next := VisitKey(d, dryRun, pass, now, p, p.s.keys[i]);
      if !KeyThrew(d, dryRun, pass, now, p, p.s.keys[i]) {
        PassWithinCap(d, dryRun, pass, now, next, i + 1, j);
      }
    }
  }

  /** And it is no shorter than needed: some tuple's cap, or the wait it began with. */
  lemma {:induction false} PassWaitAttained(d: Deps, dryRun: bool, pass: nat, now: int, p: Progress, i: nat)
    requires Ready(p.s) && UnderWay(d, dryRun, pass, now, p)
    ensures var q := PassFrom(d, dryRun, pass, now, p, i).0;
      q.wait == p.wait || exists j :: i <= j < |p.s.keys| && q.wait == Cap(p.s.states[p.s.keys[j]], now)
    decreases |p.s.keys| - i
  {
    hide UnderWay, KeyThrew, Cap, Visit;
    if i < |p.s.keys| && !d.shutdown(p.s.calls) {
      NextUnderWay(d, dryRun, pass, now, p, i);
      var next := VisitKey(d, dryRun, pass, now, p, p.s.keys[i]);
      if !KeyThrew(d, dryRun, pass, now, p, p.s.keys[i]) {
        PassWaitAttained(d, dryRun, pass, now, next, i + 1);
      }
    }
  }

  /** A completed pass reads the record of every active tuple that is due. */
  lemma {:induction false} PassReads(d: Deps, dryRun: bool, pass: nat, now: int, p: Progress, i: nat, j: nat)
    requires Ready(p.s) && UnderWay(d, dryRun, pass, now, p)
    requires i <= j < |p.s.keys| && Due(p.s.states[p.s.keys[j]], now)
    requires PassFrom(d, dryRun, pass, now, p, i).1 == Completed
    ensures ReadIn(PassFrom(d, dryRun, pass, now, p, i).0.s.log, |p.s.log|, p.s.keys[j], pass)
    decreases |p.s.keys| - i
  {
    hide UnderWay, Visit, ReadIn, Due, KeyThrew, NamedState;
    var key := p.s.keys[j];
    NextUnderWay(d, dryRun, pass, now, p, i);
    var next := VisitKey(d, dryRun, pass, now, p, p.s.keys[i]);
    UnderWayKeeps(d, dryRun, pass, now, next, i + 1);
    var q := PassFrom(d, dryRun, pass, now, next, i + 1).0;
    if j == i {
      UnderWayNamed(d, dryRun, pass, now, p, key);
      VisitKeyReads(d, dryRun, pass, now, p, key);
      ReadStays(next.s.log, q.s.log, |p.s.log|, |p.s.log|, key, pass);
    } else {
      PassReads(d, dryRun, pass, now, next, i + 1, j);
      ReadStays(q.s.log, q.s.log, |next.s.log|, |p.s.log|, key, pass);
    }
  }

  lemma UnderWayKeeps(d: Deps, dryRun: bool, pass: nat, now: int, p: Progress, i: nat)
    requires Ready(p.s) && UnderWay(d, dryRun, pass, now, p)
    ensures p.s.log <= PassFrom(d, dryRun, pass, now, p, i).0.s.log
  {
    PassKeeps(d, dryRun, pass, now, p, i);
  }

  lemma UnderWayNamed(d: Deps, dryRun: bool, pass: nat, now: int, p: Progress, key: string)
    requires UnderWay(d, dryRun, pass, now, p) && key in p.s.states
    ensures NamedState(key, p.s.states[key])
  {
  }

  lemma UnderWayFacts(d: Deps, dryRun: bool, pass: nat, now: int, p: Progress, key: string)
    requires UnderWay(d, dryRun, pass, now, p) && key in p.s.states
    ensures pass < p.s.calls && d.clusterNow(pass) == Got(now) && p.s.states[key].tuple.key == key
  {
    UnderWayNamed(d, dryRun, pass, now, p, key);
  }

  lemma StepUnderWay(d: Deps, dryRun: bool, s: Sched)
    requires Inv(d, dryRun, s) && d.clusterNow(s.calls).Got?
    ensures UnderWay(d, dryRun, s.calls, d.clusterNow(s.calls).value, Progress(s.(calls := s.calls + 1), IDLE_MAX_MS))
  {
    hide Key;
    InvMoreCalls(d, dryRun, s, s.calls + 1);
    InvReady(d, dryRun, s);
    assert NoLaterPass(s.log, s.calls);
  }

  /** What one tuple lets the loop sleep: 30 s if there is nothing left to do for it, 2 s inside its
      window, and until its expiry, but never under 250 ms, before. */
  lemma CapMeans(st: TupleState, now: int)
    ensures var cap, expiry := Cap(st, now), st.tuple.expiry;
      && (st.status != Active || now > expiry + 300 ==> cap == 30_000)
      && (st.status == Active && expiry <= now <= expiry + 300 ==> cap == 2_000)
      && (st.status == Active && now < expiry ==>
            cap >= 250 && (cap == 250 || cap == (expiry - now) * 1000) && (expiry - now >= 1 ==> cap >= 1000))
  {
  }

  lemma PlaceOf(d: Deps, dryRun: bool, s: Sched, key: string) returns (j: nat)
    requires Inv(d, dryRun, s) && key in s.states
    ensures j < |s.keys| && s.keys[j] == key
  {
    assert key in s.keys;
    j :| 0 <= j < |s.keys| && s.keys[j] == key;
  }

  /** A completed step: at most 30 s, at most the time to expiry of every pending tuple (but
      never under 250 ms), at most 2 s if an active tuple was in its window; and no less than
      the least of these. Every active tuple that is due has had its record read. */
  lemma StepWaits(d: Deps, dryRun: bool, s: Sched, key: string)
    requires Inv(d, dryRun, s) && Ready(s) && StepFrom(d, dryRun, s).outcome == Completed
    requires key in s.states
    ensures d.clusterNow(s.calls).Got?
    ensures var r, now, st := StepFrom(d, dryRun, s), d.clusterNow(s.calls).value, s.states[key];
      && r.wait <= 30_000
      && (st.status == Active && now < st.tuple.expiry ==> r.wait <= Max(250, (st.tuple.expiry - now) * 1000))
      && (st.status == Active && st.tuple.expiry <= now <= st.tuple.expiry + 300 ==>
          r.wait <= 2_000)
      && (st.status == Active && st.tuple.expiry <= now ==> ReadIn(r.s.log, |s.log|, key, s.calls))
      && (r.wait == 30_000 || exists k :: k in s.states && r.wait == Cap(s.states[k], now))
  {
    hide PassFrom, ReadIn, UnderWay, Inv;
    var now := d.clusterNow(s.calls).value;
    var p := Progress(s.(calls := s.calls + 1), IDLE_MAX_MS);
    StepUnderWay(d, dryRun, s);
    var j := PlaceOf(d, dryRun, s, key);
    CapMeans(s.states[key], now);
    hide Cap;
    PassWithinCap(d, dryRun, s.calls, now, p, 0, j);
    PassWaitAttained(d, dryRun, s.calls, now, p, 0);
    if s.states[key].status == Active && s.states[key].tuple.expiry <= now {
      PassReads(d, dryRun, s.calls, now, p, 0, j);
    }
  }

  /** What a visit remembers of the feed: the first push at or after the expiry, and that it had been
      polling before there was one. */
  lemma VisitRemembers(d: Deps, dryRun: bool, pass: nat, now: int, st: TupleState, c: nat)
    ensures var st' := Visit(d, dryRun, pass, now, st, c).st;
      var polled := st.status == Active && st.tuple.expiry <= now <= st.tuple.expiry + 300 &&
                    d.fetchRecord(c, st.tuple.key) == Got(None) && d.fetchFeed(c + 1, st.tuple.key).Got? &&
                    d.fetchFeed(c + 1, st.tuple.key).value.Some?;
      if !polled then
        st'.firstPostExpiryPush == st.firstPostExpiryPush && st'.polledFromBeforePush == st.polledFromBeforePush &&
        st'.dryRunLogged == st.dryRunLogged
      else
        var push := d.fetchFeed(c + 1, st.tuple.key).value.value;
        && (st'.firstPostExpiryPush ==
            if st.firstPostExpiryPush.None? && push >= st.tuple.expiry then Some(push) else st.firstPostExpiryPush)
        && (st'.polledFromBeforePush <==> st.polledFromBeforePush || push < st.tuple.expiry)
        && (st'.dryRunLogged <==> st.dryRunLogged || (dryRun && push >= st.tuple.expiry))
  {
    hide SendAndConfirm;
    if st.status == Active && PhaseOf(st.tuple.expiry, now) == InWindow &&
       d.fetchRecord(c, st.tuple.key) == Got(None) && d.fetchFeed(c + 1, st.tuple.key).Got? {
      var feed := d.fetchFeed(c + 1, st.tuple.key).value;
      var seen := WithFeed(st, feed);
      var absent := Note(pass, now, st.tuple, c, RecordAbsent);
      var polled := Note(pass, now, st.tuple, c + 1, FeedSeen(feed));
      var events := [absent, polled];
      assert [absent] + [polled] == events;
      SendRemembers(d, pass, now, seen.(lastSendAtMs := Some(d.nowMs(c + 3))), c + 4,
                    events + [Note(pass, now, st.tuple, c + 4, Sent(d.nowMs(c + 3)))]);
    }
  }

  lemma SendRemembers(d: Deps, pass: nat, now: int, st: TupleState, c: nat, events: seq<Event>)
    ensures var st' := SendAndConfirm(d, pass, now, st, c, events).st;
      && st'.firstPostExpiryPush == st.firstPostExpiryPush && st'.polledFromBeforePush == st.polledFromBeforePush
      && st'.dryRunLogged == st.dryRunLogged
  {
  }
}

/** What every run of the first-party settle lane keeps: the shape of its log, event by event,
    over any sequence of passes and discoveries against any environment. */
module OptaSettleSafety {
  import opened Results
  import opened TupleKey
  import opened SettleRouting
  import opened OptaSettle
  import Grouping

  // ---- assumptions about the environment ----

  /** Cluster time never goes back. */
  ghost predicate ClusterClockMonotone(d: Deps) {
    forall i: nat, j: nat :: i <= j && d.clusterNow(i).Got? && d.clusterNow(j).Got? ==>
      d.clusterNow(i).value <= d.clusterNow(j).value
  }

  /** A settlement record, once written, stays. */
  ghost predicate RecordsPersist(d: Deps) {
    forall i: nat, j: nat, k :: i <= j && d.fetchRecord(i, k).Got? && d.fetchRecord(i, k).value.Some? ==>
      d.fetchRecord(j, k) != Got(None)
  }

  ghost predicate LocalClockMonotone(d: Deps) {
    forall i: nat, j: nat :: i <= j ==> d.nowMs(i) <= d.nowMs(j)
  }

  // ---- the log, event by event ----

  /** The previous event of the same visit. */
  ghost predicate Follows(log: seq<Event>, i: nat, what: What)
    requires i < |log|
  {
    i >= 1 && log[i - 1].what == what && log[i - 1].key == log[i].key && log[i - 1].pass == log[i].pass
  }

  ghost predicate SendJustified(dryRun: bool, log: seq<Event>, i: nat)
    requires i < |log|
  {
    && !dryRun
    && log[i].expiry <= log[i].now <= log[i].expiry + SETTLE_WINDOW_SECS
    && i >= 2
    && log[i - 1].what.FeedSeen? && log[i - 1].what.publishTime.Some? &&
      log[i - 1].what.publishTime.value >= log[i].expiry
    && log[i - 1].key == log[i].key && log[i - 1].pass == log[i].pass
    && log[i - 2].what == RecordAbsent
    && log[i - 2].key == log[i].key && log[i - 2].pass == log[i].pass
  }

  /** Every event happened as it says, and is justified by the events just before it. */
  ghost predicate EventOk(d: Deps, dryRun: bool, log: seq<Event>, i: nat)
    requires i < |log|
  {
    var e := log[i];
    && d.clusterNow(e.pass) == Got(e.now)
    && match e.what
       case RecordAbsent => e.expiry <= e.now && d.fetchRecord(e.call, e.key) == Got(None)
       case RecordPresent =>
         e.expiry <= e.now && d.fetchRecord(e.call, e.key).Got? && d.fetchRecord(e.call, e.key).value.Some?
       case FeedSeen(p) => d.fetchFeed(e.call, e.key) == Got(p)
       case Sent(_) => SendJustified(dryRun, log, i)
       case MarkedDone => Follows(log, i, RecordPresent)
       case MarkedDead => Follows(log, i, RecordAbsent) && e.now > e.expiry + SETTLE_WINDOW_SECS
       case Dropped => true
  }

  ghost predicate LogOk(d: Deps, dryRun: bool, log: seq<Event>) {
    forall i :: 0 <= i < |log| ==> EventOk(d, dryRun, log, i)
  }

  /** Calls and passes are numbered in order, and a key stands for one expiry. */
  ghost predicate Ordered(log: seq<Event>, calls: nat) {
    && (forall i :: 0 <= i < |log| ==> log[i].pass <= log[i].call < calls)
    && (forall i, j :: 0 <= i < j < |log| ==> log[i].call <= log[j].call && log[i].pass <= log[j].pass)
  }

  ghost predicate KeyNames(key: string, expiry: int) {
    exists asset :: key == Key(asset, ':', expiry)
  }

  ghost predicate KeysNamed(log: seq<Event>) {
    forall i :: 0 <= i < |log| ==> KeyNames(log[i].key, log[i].expiry)
  }

  lemma KeyNamesOne(key: string, m: int, n: int)
    requires KeyNames(key, m) && KeyNames(key, n)
    ensures m == n
  {
    var a :| key == Key(a, ':', m);
    var b :| key == Key(b, ':', n);
    KeyInjective(a, m, b, n, ':');
  }

  // ---- events of one visit ----

  /** A visit's events so far: labelled with its pass and tuple, in call order, each justified. */
  ghost predicate VisitLog(d: Deps, dryRun: bool, pass: nat, now: int, t: Source2Tuple, from: nat, calls: nat,
                           events: seq<Event>) {
    && pass <= from <= calls
    && LogOk(d, dryRun, events)
    && (forall i :: 0 <= i < |events| ==>
          events[i].pass == pass && events[i].now == now && events[i].key == t.key && events[i].expiry == t.expiry)
    && (forall i :: 0 <= i < |events| ==> from <= events[i].call < calls)
    && (forall i, j :: 0 <= i < j < |events| ==> events[i].call <= events[j].call)
  }

  lemma Append(d: Deps, dryRun: bool, log: seq<Event>, more: seq<Event>)
    requires LogOk(d, dryRun, log) && LogOk(d, dryRun, more)
    ensures LogOk(d, dryRun, log + more)
  {
    var all := log + more;
    forall i | 0 <= i < |all| ensures EventOk(d, dryRun, all, i) {
      if i < |log| {
        assert EventOk(d, dryRun, log, i);
      } else {
        assert EventOk(d, dryRun, more, i - |log|);
      }
    }
  }

  lemma AddEvent(d: Deps, dryRun: bool, pass: nat, now: int, t: Source2Tuple, from: nat, calls: nat,
                 events: seq<Event>, call: nat, what: What, calls': nat)
    requires VisitLog(d, dryRun, pass, now, t, from, calls, events)
    requires calls <= calls' && from <= call < calls' && (events == [] || events[|events| - 1].call <= call)
    requires EventOk(d, dryRun, events + [Note(pass, now, t, call, what)], |events|)
    ensures VisitLog(d, dryRun, pass, now, t, from, calls', events + [Note(pass, now, t, call, what)])
  {
    var all := events + [Note(pass, now, t, call, what)];
    forall i | 0 <= i < |all| ensures EventOk(d, dryRun, all, i) {
      if i < |events| {
        assert EventOk(d, dryRun, events, i);
      }
    }
  }

  lemma MoreCalls(d: Deps, dryRun: bool, pass: nat, now: int, t: Source2Tuple, from: nat, calls: nat,
                  events: seq<Event>, calls': nat)
    requires VisitLog(d, dryRun, pass, now, t, from, calls, events) && calls <= calls'
    ensures VisitLog(d, dryRun, pass, now, t, from, calls', events)
  {
  }

  /** Reading a record and marking the tuple done, or reading its absence. */
  lemma AddRecord(d: Deps, dryRun: bool, pass: nat, now: int, t: Source2Tuple, from: nat, calls: nat,
                  events: seq<Event>)
    requires t.expiry <= now
    requires VisitLog(d, dryRun, pass, now, t, from, calls, events) && d.clusterNow(pass) == Got(now)
    ensures d.fetchRecord(calls, t.key) == Got(None) ==>
      VisitLog(d, dryRun, pass, now, t, from, calls + 1, events + [Note(pass, now, t, calls, RecordAbsent)])
    ensures d.fetchRecord(calls, t.key).Got? && d.fetchRecord(calls, t.key).value.Some? ==>
      VisitLog(d, dryRun, pass, now, t, from, calls + 1,
               events + [Note(pass, now, t, calls, RecordPresent), Note(pass, now, t, calls, MarkedDone)])
  {
    if d.fetchRecord(calls, t.key) == Got(None) {
      AddEvent(d, dryRun, pass, now, t, from, calls, events, calls, RecordAbsent, calls + 1);
    } else if d.fetchRecord(calls, t.key).Got? {
      AddEvent(d, dryRun, pass, now, t, from, calls, events, calls, RecordPresent, calls + 1);
      var present := events + [Note(pass, now, t, calls, RecordPresent)];
      AddEvent(d, dryRun, pass, now, t, from, calls + 1, present, calls, MarkedDone, calls + 1);
      assert present + [Note(pass, now, t, calls, MarkedDone)] ==
             events + [Note(pass, now, t, calls, RecordPresent), Note(pass, now, t, calls, MarkedDone)];
    }
  }

  lemma AfterFailureOk(d: Deps, dryRun: bool, pass: nat, now: int, st: TupleState, from: nat, c: nat,
                       events: seq<Event>)
    requires st.tuple.expiry <= now
    requires VisitLog(d, dryRun, pass, now, st.tuple, from, c, events) && d.clusterNow(pass) == Got(now)
    ensures var v := AfterFailure(d, pass, now, st, c, events);
      VisitLog(d, dryRun, pass, now, st.tuple, from, v.calls, v.events)
  {
    AddRecord(d, dryRun, pass, now, st.tuple, from, c, events);
    MoreCalls(d, dryRun, pass, now, st.tuple, from, c, events, c + 1);
  }

  lemma SendAndConfirmOk(d: Deps, dryRun: bool, pass: nat, now: int, st: TupleState, from: nat, c: nat,
                         events: seq<Event>)
    requires st.tuple.expiry <= now
    requires VisitLog(d, dryRun, pass, now, st.tuple, from, c + 1, events) && d.clusterNow(pass) == Got(now)
    ensures var v := SendAndConfirm(d, pass, now, st, c, events);
      VisitLog(d, dryRun, pass, now, st.tuple, from, v.calls, v.events)
  {
    hide AfterFailure, VisitLog;
    var t := st.tuple;
    match d.sendSettle(c, t.key) {
      case Threw => AfterFailureOk(d, dryRun, pass, now, st, from, c + 1, events);
      case Got(_) =>
        AddRecord(d, dryRun, pass, now, t, from, c + 1, events);
        match d.fetchRecord(c + 1, t.key) {
          case Got(Some(_)) =>
          case Got(None) => AfterFailureOk(d, dryRun, pass, now, st, from, c + 2,
                                           events + [Note(pass, now, t, c + 1, RecordAbsent)]);
          case Threw =>
            MoreCalls(d, dryRun, pass, now, t, from, c + 1, events, c + 2);
            AfterFailureOk(d, dryRun, pass, now, st, from, c + 2, events);
        }
    }
  }

  /** The gate lets a send through exactly inside the window, with a push at or after expiry. */
  lemma GateOpensExactlyWhen(feed: Option<int>, expiry: int, now: int)
    ensures DecideSettleSend(feed, expiry, now) == SendNow <==>
      expiry <= now <= expiry + 300 && feed.Some? && feed.value >= expiry
  {
  }

  lemma FirstAbsent(d: Deps, dryRun: bool, pass: nat, now: int, t: Source2Tuple, c: nat)
    requires t.expiry <= now
    requires pass <= c && d.clusterNow(pass) == Got(now) && d.fetchRecord(c, t.key) == Got(None)
    ensures VisitLog(d, dryRun, pass, now, t, c, c + 1, [Note(pass, now, t, c, RecordAbsent)])
  {
    var absent := [Note(pass, now, t, c, RecordAbsent)];
    assert EventOk(d, dryRun, absent, 0);
  }

  lemma FirstPresent(d: Deps, dryRun: bool, pass: nat, now: int, t: Source2Tuple, c: nat)
    requires t.expiry <= now
    requires pass <= c && d.clusterNow(pass) == Got(now)
    requires d.fetchRecord(c, t.key).Got? && d.fetchRecord(c, t.key).value.Some?
    ensures VisitLog(d, dryRun, pass, now, t, c, c + 1,
                     [Note(pass, now, t, c, RecordPresent), Note(pass, now, t, c, MarkedDone)])
  {
    var events := [Note(pass, now, t, c, RecordPresent), Note(pass, now, t, c, MarkedDone)];
    assert EventOk(d, dryRun, events, 0) && EventOk(d, dryRun, events, 1);
  }

  lemma FirstDead(d: Deps, dryRun: bool, pass: nat, now: int, t: Source2Tuple, c: nat)
    requires pass <= c && d.clusterNow(pass) == Got(now) && d.fetchRecord(c, t.key) == Got(None)
    requires PhaseOf(t.expiry, now) == PastWindow
    ensures VisitLog(d, dryRun, pass, now, t, c, c + 1,
                     [Note(pass, now, t, c, RecordAbsent), Note(pass, now, t, c, MarkedDead)])
  {
    var events := [Note(pass, now, t, c, RecordAbsent), Note(pass, now, t, c, MarkedDead)];
    assert EventOk(d, dryRun, events, 0) && EventOk(d, dryRun, events, 1);
  }

  lemma NoEvents(d: Deps, dryRun: bool, pass: nat, now: int, t: Source2Tuple, c: nat, calls: nat)
    requires pass <= c <= calls
    ensures VisitLog(d, dryRun, pass, now, t, c, calls, [])
  {
  }

  lemma AddFeed(d: Deps, dryRun: bool, pass: nat, now: int, t: Source2Tuple, from: nat, feed: Option<int>)
    requires d.clusterNow(pass) == Got(now) && d.fetchFeed(from + 1, t.key) == Got(feed)
    requires VisitLog(d, dryRun, pass, now, t, from, from + 1, [Note(pass, now, t, from, RecordAbsent)])
    ensures VisitLog(d, dryRun, pass, now, t, from, from + 2,
                     [Note(pass, now, t, from, RecordAbsent)] + [Note(pass, now, t, from + 1, FeedSeen(feed))])
  {
    AddEvent(d, dryRun, pass, now, t, from, from + 1, [Note(pass, now, t, from, RecordAbsent)], from + 1,
             FeedSeen(feed), from + 2);
  }

  lemma AddSent(d: Deps, pass: nat, now: int, t: Source2Tuple, from: nat, push: int, at: int)
    requires d.clusterNow(pass) == Got(now)
    requires t.expiry <= now <= t.expiry + SETTLE_WINDOW_SECS && push >= t.expiry
    requires VisitLog(d, false, pass, now, t, from, from + 2,
                      [Note(pass, now, t, from, RecordAbsent)] + [Note(pass, now, t, from + 1, FeedSeen(Some(push)))])
    ensures VisitLog(d, false, pass, now, t, from, from + 5,
      [Note(pass, now, t, from, RecordAbsent)] + [Note(pass, now, t, from + 1, FeedSeen(Some(push)))] +
        [Note(pass, now, t, from + 4, Sent(at))])
  {
    var noted := [Note(pass, now, t, from, RecordAbsent)] + [Note(pass, now, t, from + 1, FeedSeen(Some(push)))];
    var all := noted + [Note(pass, now, t, from + 4, Sent(at))];
    assert SendJustified(false, all, 2);
    AddEvent(d, false, pass, now, t, from, from + 2, noted, from + 4, Sent(at), from + 5);
  }

  lemma PollOk(d: Deps, dryRun: bool, pass: nat, now: int, st: TupleState, from: nat)
    requires st.tuple.expiry <= now
    requires pass <= from && d.clusterNow(pass) == Got(now) && d.fetchRecord(from, st.tuple.key) == Got(None)
    ensures var v :=
      PollAndMaybeSend(d, dryRun, pass, now, st, from + 1, [Note(pass, now, st.tuple, from, RecordAbsent)]);
      VisitLog(d, dryRun, pass, now, st.tuple, from, v.calls, v.events)
  {
    hide VisitLog, SendAndConfirm, DecideSettleSend, LogOk;
    var t := st.tuple;
    var absent := [Note(pass, now, t, from, RecordAbsent)];
    FirstAbsent(d, dryRun, pass, now, t, from);
    MoreCalls(d, dryRun, pass, now, t, from, from + 1, absent, from + 2);
    if d.fetchFeed(from + 1, t.key).Got? {
      var feed := d.fetchFeed(from + 1, t.key).value;
      AddFeed(d, dryRun, pass, now, t, from, feed);
      var noted := absent + [Note(pass, now, t, from + 1, FeedSeen(feed))];
      MoreCalls(d, dryRun, pass, now, t, from, from + 2, noted, from + 3);
      GateOpensExactlyWhen(feed, t.expiry, now);
      if DecideSettleSend(feed, t.expiry, now) == SendNow && !dryRun {
        var at := d.nowMs(from + 3);
        AddSent(d, pass, now, t, from, feed.value, at);
        SendAndConfirmOk(d, dryRun, pass, now, WithFeed(st, feed).(lastSendAtMs := Some(at)), from, from + 4,
                         noted + [Note(pass, now, t, from + 4, Sent(at))]);
      }
    }
  }

  lemma VisitOk(d: Deps, dryRun: bool, pass: nat, now: int, st: TupleState, c: nat)
    requires pass <= c && d.clusterNow(pass) == Got(now)
    ensures var v := Visit(d, dryRun, pass, now, st, c);
      VisitLog(d, dryRun, pass, now, st.tuple, c, v.calls, v.events)
  {
    var t := st.tuple;
    assert PhaseOf(t.expiry, now) != Pending ==> t.expiry <= now;
    hide VisitLog, PollAndMaybeSend, PhaseOf;
    NoEvents(d, dryRun, pass, now, t, c, c);
    NoEvents(d, dryRun, pass, now, t, c, c + 1);
    if st.status == Active && PhaseOf(t.expiry, now) != Pending && d.fetchRecord(c, t.key).Got? {
      if d.fetchRecord(c, t.key).value.Some? {
        FirstPresent(d, dryRun, pass, now, t, c);
      } else if PhaseOf(t.expiry, now) == PastWindow {
        FirstDead(d, dryRun, pass, now, t, c);
      } else {
        PollOk(d, dryRun, pass, now, st, c);
      }
    }
  }

  lemma VisitKeepsTuple(d: Deps, dryRun: bool, pass: nat, now: int, st: TupleState, c: nat)
    ensures Visit(d, dryRun, pass, now, st, c).st.tuple == st.tuple
  {
  }

  // ---- what passes and discoveries keep ----

  ghost predicate NamedState(key: string, st: TupleState) {
    st.tuple.key == key && key == Key(st.tuple.asset, ':', st.tuple.expiry)
  }

  /** The iteration order lists the known tuples once each, under their own names. */
  ghost predicate Sound(s: Sched) {
    && Grouping.Distinct(s.keys)
    && (forall k :: k in s.states <==> k in s.keys)
    && (forall k :: k in s.states ==> NamedState(k, s.states[k]))
  }

  ghost predicate History(d: Deps, dryRun: bool, log: seq<Event>, calls: nat) {
    LogOk(d, dryRun, log) && Ordered(log, calls) && KeysNamed(log)
  }

  ghost predicate Inv(d: Deps, dryRun: bool, s: Sched) {
    Sound(s) && History(d, dryRun, s.log, s.calls)
  }

  ghost predicate NoLaterPass(log: seq<Event>, pass: nat) {
    forall i :: 0 <= i < |log| ==> log[i].pass <= pass
  }

  lemma HistoryGrows(d: Deps, dryRun: bool, pass: nat, now: int, t: Source2Tuple, log: seq<Event>, calls: nat,
                     from: nat, calls': nat, events: seq<Event>)
    requires History(d, dryRun, log, calls) && NoLaterPass(log, pass) && calls <= from
    requires VisitLog(d, dryRun, pass, now, t, from, calls', events) && KeyNames(t.key, t.expiry)
    ensures History(d, dryRun, log + events, calls') && NoLaterPass(log + events, pass)
  {
    Append(d, dryRun, log, events);
  }

  lemma VisitKeyKeeps(d: Deps, dryRun: bool, pass: nat, now: int, p: Progress, key: string)
    requires Inv(d, dryRun, p.s) && NoLaterPass(p.s.log, pass) && pass < p.s.calls && d.clusterNow(pass) == Got(now)
    requires key in p.s.states
    ensures var q := VisitKey(d, dryRun, pass, now, p, key);
      && Inv(d, dryRun, q.s) && NoLaterPass(q.s.log, pass)
      && q.s.keys == p.s.keys && p.s.calls < q.s.calls && p.s.log <= q.s.log
      && (forall k :: k in p.s.states && k != key ==> q.s.states[k] == p.s.states[k])
      && q.s.states[key].tuple == p.s.states[key].tuple
  {
    hide Visit, VisitLog, Key, History;
    var st := p.s.states[key];
    VisitOk(d, dryRun, pass, now, st, p.s.calls + 1);
    VisitKeepsTuple(d, dryRun, pass, now, st, p.s.calls + 1);
    VisitCalls(d, dryRun, pass, now, st, p.s.calls + 1);
    assert KeyNames(st.tuple.key, st.tuple.expiry) by { assert NamedState(key, st); }
    var v := Visit(d, dryRun, pass, now, st, p.s.calls + 1);
    HistoryGrows(d, dryRun, pass, now, st.tuple, p.s.log, p.s.calls, p.s.calls + 1, v.calls, v.events);
  }

  lemma VisitCalls(d: Deps, dryRun: bool, pass: nat, now: int, st: TupleState, c: nat)
    ensures Visit(d, dryRun, pass, now, st, c).calls >= c
  {
  }

  lemma MoreHistory(d: Deps, dryRun: bool, log: seq<Event>, calls: nat, calls': nat)
    requires History(d, dryRun, log, calls) && calls <= calls'
    ensures History(d, dryRun, log, calls')
  {
  }

  lemma InvReady(d: Deps, dryRun: bool, s: Sched)
    requires Inv(d, dryRun, s)
    ensures Ready(s)
  {
  }

  lemma InvMoreCalls(d: Deps, dryRun: bool, s: Sched, calls: nat)
    requires Inv(d, dryRun, s) && s.calls <= calls
    ensures Inv(d, dryRun, s.(calls := calls))
  {
    MoreHistory(d, dryRun, s.log, s.calls, calls);
  }

  lemma {:induction false} PassKeeps(d: Deps, dryRun: bool, pass: nat, now: int, p: Progress, i: nat)
    requires Ready(p.s)
    requires Inv(d, dryRun, p.s) && NoLaterPass(p.s.log, pass) && pass < p.s.calls && d.clusterNow(pass) == Got(now)
    ensures var q := PassFrom(d, dryRun, pass, now, p, i).0;
      Inv(d, dryRun, q.s) && q.s.keys == p.s.keys && p.s.calls <= q.s.calls && p.s.log <= q.s.log
    decreases |p.s.keys| - i
  {
    hide VisitKey, Inv, NoLaterPass, KeyThrew;
    if i < |p.s.keys| {
      if d.shutdown(p.s.calls) {
        InvMoreCalls(d, dryRun, p.s, p.s.calls + 1);
      } else {
        var key := p.s.keys[i];
        VisitKeyKeeps(d, dryRun, pass, now, p, key);
        var next := VisitKey(d, dryRun, pass, now, p, key);
        InvReady(d, dryRun, next.s);
        if !KeyThrew(d, dryRun, pass, now, p, key) {
          PassKeeps(d, dryRun, pass, now, next, i + 1);
        }
      }
    }
  }

  lemma StepKeeps(d: Deps, dryRun: bool, s: Sched)
    requires Inv(d, dryRun, s)
    ensures var r := StepFrom(d, dryRun, s);
      Inv(d, dryRun, r.s) && r.s.keys == s.keys && s.calls < r.s.calls && s.log <= r.s.log
  {
    hide PassFrom;
    InvMoreCalls(d, dryRun, s, s.calls + 1);
    InvReady(d, dryRun, s);
    var read := s.(calls := s.calls + 1);
    if d.clusterNow(s.calls).Got? {
      assert NoLaterPass(s.log, s.calls);
      PassKeeps(d, dryRun, s.calls, d.clusterNow(s.calls).value, Progress(read, IDLE_MAX_MS), 0);
    }
  }

  // ---- discovery ----

  ghost predicate TuplesNamed(ts: seq<Source2Tuple>) {
    forall t :: t in ts ==> t.key == Key(t.asset, ':', t.expiry)
  }

  lemma ReconcileOne(s: Sched, t: Source2Tuple)
    requires Sound(s) && t.key == Key(t.asset, ':', t.expiry)
    ensures var r := Reconcile(s, t);
      && Sound(r) && r.calls == s.calls && r.log == s.log
      && t.key in r.states
      && (forall k :: k in s.states ==> k in r.states && Carried(s.states[k], r.states[k]))
      && (forall k :: k in r.states && k !in s.states ==> r.states[k] == Fresh(t))
  {
    hide Key;
  }

  lemma {:induction false} ReconcileKeeps(s: Sched, ts: seq<Source2Tuple>)
    requires Sound(s) && TuplesNamed(ts)
    ensures var r := ReconcileAll(s, ts);
      && Sound(r) && r.calls == s.calls && r.log == s.log
      && (forall t :: t in ts ==> t.key in r.states)
      && (forall k :: k in s.states ==> k in r.states && Carried(s.states[k], r.states[k]))
      && (forall k :: k in r.states && k !in s.states ==> NewState(r.states[k]))
  {
    hide Key, Sound, Reconcile;
    if ts != [] {
      var before, t := ts[..|ts| - 1], ts[|ts| - 1];
      assert ts == before + [t];
      ReconcileKeeps(s, before);
      ReconcileOne(ReconcileAll(s, before), t);
    }
  }

  /** A known tuple keeps everything but its account data. */
  ghost predicate Carried(a: TupleState, b: TupleState) {
    b == a.(tuple := b.tuple)
  }

  ghost predicate NewState(st: TupleState) {
    && st.status == Active && st.lastSendAtMs == None && st.firstPostExpiryPush == None
    && !st.polledFromBeforePush && !st.dryRunLogged
  }

  lemma {:induction false} DropEventsOk(d: Deps, dryRun: bool, keys: seq<string>, seen: set<string>,
                                        states: map<string, TupleState>, call: nat, now: int)
    requires d.clusterNow(call) == Got(now)
    requires forall k :: k in states ==> NamedState(k, states[k])
    ensures var events := DropEvents(keys, seen, states, call, now);
      && LogOk(d, dryRun, events) && KeysNamed(events)
      && (forall i :: 0 <= i < |events| ==>
          events[i].what == Dropped && events[i].call == call && events[i].pass == call)
      && (forall k :: (exists i :: 0 <= i < |events| && events[i].key == k) <==> k in keys && k !in seen && k in states)
  {
    hide Key;
    if keys != [] {
      DropEventsOk(d, dryRun, keys[..|keys| - 1], seen, states, call, now);
      var k, before := keys[|keys| - 1], DropEvents(keys[..|keys| - 1], seen, states, call, now);
      var events := DropEvents(keys, seen, states, call, now);
      assert keys == keys[..|keys| - 1] + [k];
      if k !in seen && k in states {
        assert NamedState(k, states[k]);
        DropKeyNamed(k, states[k]);
        assert events[|before|].key == k;
        Append(d, dryRun, before, [events[|before|]]);
        assert events == before + [events[|before|]];
        assert forall i :: 0 <= i < |before| ==> events[i] == before[i];
      }
    }
  }

  lemma DropKeyNamed(k: string, st: TupleState)
    requires NamedState(k, st)
    ensures KeyNames(k, st.tuple.expiry)
  {
  }

  lemma DropKeeps(d: Deps, dryRun: bool, s: Sched, seen: set<string>, call: nat, now: int)
    requires Inv(d, dryRun, s) && d.clusterNow(call) == Got(now) && call + 1 == s.calls && NoLaterPass(s.log, call)
    requires forall i :: 0 <= i < |s.log| ==> s.log[i].call <= call
    ensures Inv(d, dryRun, DropUnseen(s, seen, call, now))
  {
    hide Key, EventOk;
    var events := DropEvents(s.keys, seen, s.states, call, now);
    DropEventsOk(d, dryRun, s.keys, seen, s.states, call, now);
    Append(d, dryRun, s.log, events);
  }

  lemma SeenNamed(d: Deps, ctx: Ctx, scan: Scan)
    ensures TuplesNamed(Source2Tuples(scan.vaults, scan.markets, ctx.pda, ctx.assetLe))
  {
    hide Key;
    Source2EnumerationIsExact(scan.vaults, scan.markets, ctx.pda, ctx.assetLe);
    var ts := Source2Tuples(scan.vaults, scan.markets, ctx.pda, ctx.assetLe);
    forall t | t in ts ensures t.key == Key(t.asset, ':', t.expiry) {
      assert Source2Named(t, ctx.pda);
    }
  }

  lemma DiscoverKeeps(d: Deps, ctx: Ctx, s: Sched)
    requires Inv(d, ctx.dryRun, s)
    ensures Inv(d, ctx.dryRun, DiscoverFrom(d, ctx, s).0) && s.calls < DiscoverFrom(d, ctx, s).0.calls
    ensures s.log <= DiscoverFrom(d, ctx, s).0.log
  {
    hide Source2Tuples, DropUnseen, TuplesNamed, Sound, History;
    MoreHistory(d, ctx.dryRun, s.log, s.calls, s.calls + 1);
    MoreHistory(d, ctx.dryRun, s.log, s.calls, s.calls + 2);
    CallsUnsound(s, s.calls + 1);
    CallsUnsound(s, s.calls + 2);
    match d.scan(s.calls) {
      case Threw =>
      case Got(scan) =>
        match d.clusterNow(s.calls + 1) {
          case Threw =>
          case Got(now) =>
            SeenNamed(d, ctx, scan);
            var ts := Source2Tuples(scan.vaults, scan.markets, ctx.pda, ctx.assetLe);
            ReconcileKeeps(s.(calls := s.calls + 2), ts);
            var seen := set t | t in ts :: t.key;
            EarlierCalls(d, ctx.dryRun, s);
            DropKeeps(d, ctx.dryRun, ReconcileAll(s.(calls := s.calls + 2), ts), seen, s.calls + 1, now);
            DropExtends(ReconcileAll(s.(calls := s.calls + 2), ts), seen, s.calls + 1, now);
        }
    }
  }

  lemma CallsUnsound(s: Sched, calls: nat)
    requires Sound(s)
    ensures Sound(s.(calls := calls))
  {
  }

  lemma EarlierCalls(d: Deps, dryRun: bool, s: Sched)
    requires History(d, dryRun, s.log, s.calls)
    ensures forall i :: 0 <= i < |s.log| ==> s.log[i].call <= s.calls
    ensures NoLaterPass(s.log, s.calls + 1)
  {
  }

  lemma DropExtends(s: Sched, seen: set<string>, call: nat, now: int)
    ensures DropUnseen(s, seen, call, now).calls == s.calls && s.log <= DropUnseen(s, seen, call, now).log
  {
  }

  // ---- runs ----

  /** A poll reads the shutdown flag or a clock and changes nothing else. */
  datatype Action = DoDiscover | DoStep | DoPoll

  function Start(calls: nat): Sched { Sched([], map[], calls, []) }

  /** One action, in whatever order the caller chooses them. */
  function Act(d: Deps, ctx: Ctx, s: Sched, a: Action): Sched {
    match a
    case DoDiscover => DiscoverFrom(d, ctx, s).0
    case DoStep => if Ready(s) then StepFrom(d, ctx.dryRun, s).s else s
    case DoPoll => s.(calls := s.calls + 1)
  }

  function Run(d: Deps, ctx: Ctx, s: Sched, actions: seq<Action>): Sched {
    if actions == [] then s else Act(d, ctx, Run(d, ctx, s, actions[..|actions| - 1]), actions[|actions| - 1])
  }

  lemma {:induction false} RunKeeps(d: Deps, ctx: Ctx, s: Sched, actions: seq<Action>)
    requires Inv(d, ctx.dryRun, s)
    ensures Inv(d, ctx.dryRun, Run(d, ctx, s, actions)) && s.log <= Run(d, ctx, s, actions).log
  {
    hide Inv, StepFrom, DiscoverFrom;
    if actions != [] {
      var before := Run(d, ctx, s, actions[..|actions| - 1]);
      RunKeeps(d, ctx, s, actions[..|actions| - 1]);
      InvReady(d, ctx.dryRun, before);
      DiscoverKeeps(d, ctx, before);
      StepKeeps(d, ctx.dryRun, before);
      InvMoreCalls(d, ctx.dryRun, before, before.calls + 1);
    }
  }

  lemma StartInv(d: Deps, dryRun: bool, calls: nat)
    ensures Inv(d, dryRun, Start(calls))
  {
  }

  // ---- safety over runs ----

  /** A send that was called for: not a dry run, inside the window on cluster time, on a feed push
      at or after expiry, after reading earlier in the same pass that no record exists. */
  ghost predicate Justified(d: Deps, dryRun: bool, log: seq<Event>, i: nat)
    requires i < |log|
  {
    var e := log[i];
    && !dryRun
    && e.expiry <= e.now <= e.expiry + 300 && d.clusterNow(e.pass) == Got(e.now)
    && (exists j :: 0 <= j < i && log[j].key == e.key && log[j].pass == e.pass && log[j].what == RecordAbsent &&
          d.fetchRecord(log[j].call, e.key) == Got(None))
    && (exists j :: 0 <= j < i && log[j].key == e.key && log[j].pass == e.pass && log[j].what.FeedSeen? &&
          log[j].what.publishTime.Some? && log[j].what.publishTime.value >= e.expiry)
  }

  /** Every send of every run is justified. */
  lemma EverySendIsJustified(d: Deps, ctx: Ctx, calls: nat, actions: seq<Action>, i: nat)
    requires var log := Run(d, ctx, Start(calls), actions).log; i < |log| && log[i].what.Sent?
    ensures Justified(d, ctx.dryRun, Run(d, ctx, Start(calls), actions).log, i)
  {
    StartInv(d, ctx.dryRun, calls);
    RunKeeps(d, ctx, Start(calls), actions);
    var log := Run(d, ctx, Start(calls), actions).log;
    hide Run;
    assert EventOk(d, ctx.dryRun, log, i);
    assert EventOk(d, ctx.dryRun, log, i - 2);
    assert log[i - 2].key == log[i].key && log[i - 1].key == log[i].key;
  }

  lemma HistoryForbidsResend(d: Deps, dryRun: bool, log: seq<Event>, calls: nat, i: nat, j: nat)
    requires ClusterClockMonotone(d) && RecordsPersist(d)
    requires History(d, dryRun, log, calls)
    requires i < j < |log| && log[i].key == log[j].key && log[j].what.Sent?
    ensures log[i].what != RecordPresent && log[i].what != MarkedDead
  {
    hide KeyNames;
    assert EventOk(d, dryRun, log, i) && EventOk(d, dryRun, log, j) && EventOk(d, dryRun, log, j - 2);
    assert log[i].call <= log[j].call && log[i].pass <= log[j].pass;
    assert i < j - 2 ==> log[i].call <= log[j - 2].call;
    assert KeyNames(log[i].key, log[i].expiry) && KeyNames(log[j].key, log[j].expiry);
    KeyNamesOne(log[i].key, log[i].expiry, log[j].expiry);
  }

  /** Once a record was seen, or the tuple was marked dead, it is never sent again: not in that
      pass, not later, not after discovery drops it and finds it anew. */
  lemma NeverSentAgain(d: Deps, ctx: Ctx, calls: nat, actions: seq<Action>, i: nat, j: nat)
    requires ClusterClockMonotone(d) && RecordsPersist(d)
    requires var log := Run(d, ctx, Start(calls), actions).log;
      i < j < |log| && log[i].key == log[j].key && (log[i].what == RecordPresent || log[i].what == MarkedDead)
    ensures !Run(d, ctx, Start(calls), actions).log[j].what.Sent?
  {
    StartInv(d, ctx.dryRun, calls);
    RunKeeps(d, ctx, Start(calls), actions);
    hide Run, History, ClusterClockMonotone, RecordsPersist;
    var s := Run(d, ctx, Start(calls), actions);
    if s.log[j].what.Sent? {
      HistoryForbidsResend(d, ctx.dryRun, s.log, s.calls, i, j);
    }
  }
}

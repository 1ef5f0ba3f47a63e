/** How far a pass of the first-party settle lane gets. One throwing read aborts the pass for every
    tuple that comes later in the iteration order (crank/optaSettleCrank.ts:336-366). */
module OptaSettleReach {
  import opened Results
  import opened TupleKey
  import opened StableSort
  import opened SettleRouting
  import opened OptaSettle
  import opened OptaSettleSafety
  import opened OptaSettleTiming
  import Grouping

  // ---- which passes reach a tuple ----

  /** A visit of the tuple throws: it is due and its record cannot be read, or it is in its window
      without a record and its feed cannot. */
  ghost predicate ReadsThrow(d: Deps, now: int, st: TupleState, c: nat) {
    && Due(st, now)
    && (d.fetchRecord(c, st.tuple.key).Threw? ||
        (d.fetchRecord(c, st.tuple.key) == Got(None) && now <= st.tuple.expiry + SETTLE_WINDOW_SECS &&
         d.fetchFeed(c + 1, st.tuple.key).Threw?))
  }

  /** No failing send, and nothing else, aborts a pass. */
  lemma VisitThrowsExactlyWhen(d: Deps, dryRun: bool, pass: nat, now: int, st: TupleState, c: nat)
    ensures Visit(d, dryRun, pass, now, st, c).threw <==> ReadsThrow(d, now, st, c)
  {
    hide SendAndConfirm;
    var t := st.tuple;
    if d.fetchFeed(c + 1, t.key).Got? {
      var feed := d.fetchFeed(c + 1, t.key).value;
      var at := d.nowMs(c + 3);
      var rest := SendTail(d, pass, now, WithFeed(st, feed).(lastSendAtMs := Some(at)), c + 4,
        [Note(pass, now, t, c, RecordAbsent)] + [Note(pass, now, t, c + 1, FeedSeen(feed))] +
          [Note(pass, now, t, c + 4, Sent(at))]);
    }
  }

  /** The pass gets from its i-th key to its j-th: shutdown is not asked for on the way, and no
      tuple before the j-th throws. */
  ghost predicate Reaches(d: Deps, dryRun: bool, pass: nat, now: int, p: Progress, i: nat, j: nat)
    requires Ready(p.s) && i <= j < |p.s.keys|
    decreases j - i
  {
    && !d.shutdown(p.s.calls)
    && (i < j ==>
          && !ReadsThrow(d, now, p.s.states[p.s.keys[i]], p.s.calls + 1)
          && Reaches(d, dryRun, pass, now, VisitKey(d, dryRun, pass, now, p, p.s.keys[i]), i + 1, j))
  }

  /** The number of calls made when the pass gets there. */
  ghost function CallsAt(d: Deps, dryRun: bool, pass: nat, now: int, p: Progress, i: nat, j: nat): nat
    requires Ready(p.s) && i <= j < |p.s.keys|
    decreases j - i
  {
    if i == j then p.s.calls
    else CallsAt(d, dryRun, pass, now, VisitKey(d, dryRun, pass, now, p, p.s.keys[i]), i + 1, j)
  }

  /** The pass gets to the j-th tuple and its record answers. */
  ghost predicate ReadsAt(d: Deps, dryRun: bool, pass: nat, now: int, p: Progress, i: nat, j: nat)
    requires Ready(p.s) && i <= j < |p.s.keys|
  {
    Reaches(d, dryRun, pass, now, p, i, j) &&
      d.fetchRecord(CallsAt(d, dryRun, pass, now, p, i, j) + 1, p.s.keys[j]).Got?
  }

  lemma VisitEvents(d: Deps, dryRun: bool, pass: nat, now: int, st: TupleState, c: nat)
    requires pass <= c && d.clusterNow(pass) == Got(now)
    ensures forall e :: e in Visit(d, dryRun, pass, now, st, c).events ==> e.key == st.tuple.key
  {
    VisitOk(d, dryRun, pass, now, st, c);
    hide Visit, LogOk;
  }

  lemma MoreOfKey(log: seq<Event>, more: seq<Event>, key: string)
    requires forall e :: e in more ==> e.key == key
    ensures log <= log + more && forall i :: |log| <= i < |log + more| ==> (log + more)[i].key == key
  {
  }

  lemma VisitKeyEvents(d: Deps, dryRun: bool, pass: nat, now: int, p: Progress, key: string)
    requires UnderWay(d, dryRun, pass, now, p) && key in p.s.states
    ensures var q := VisitKey(d, dryRun, pass, now, p, key);
      p.s.log <= q.s.log && forall i :: |p.s.log| <= i < |q.s.log| ==> q.s.log[i].key == key
  {
    hide Visit, UnderWay, NamedState;
    UnderWayFacts(d, dryRun, pass, now, p, key);
    VisitEvents(d, dryRun, pass, now, p.s.states[key], p.s.calls + 1);
    MoreOfKey(p.s.log, Visit(d, dryRun, pass, now, p.s.states[key], p.s.calls + 1).events, key);
  }

  lemma VisitReadsExactlyWhen(d: Deps, dryRun: bool, pass: nat, now: int, p: Progress, key: string)
    requires UnderWay(d, dryRun, pass, now, p) && key in p.s.states && Due(p.s.states[key], now)
    ensures ReadIn(VisitKey(d, dryRun, pass, now, p, key).s.log, |p.s.log|, key, pass) <==>
      d.fetchRecord(p.s.calls + 1, key).Got?
  {
    UnderWayNamed(d, dryRun, pass, now, p, key);
    var st, c := p.s.states[key], p.s.calls + 1;
    if d.fetchRecord(c, key).Got? {
      FirstRead(d, dryRun, pass, now, st, c);
      hide Visit;
      var v := Visit(d, dryRun, pass, now, st, c);
      assert (p.s.log + v.events)[|p.s.log|] == v.events[0];
    } else {
      assert Visit(d, dryRun, pass, now, st, c).events == [];
    }
  }

  lemma FirstRead(d: Deps, dryRun: bool, pass: nat, now: int, st: TupleState, c: nat)
    requires Due(st, now) && d.fetchRecord(c, st.tuple.key).Got?
    ensures var events := Visit(d, dryRun, pass, now, st, c).events;
      && events != [] && events[0].key == st.tuple.key && events[0].pass == pass
      && (events[0].what == RecordAbsent || events[0].what == RecordPresent)
  {
    VisitReads(d, dryRun, pass, now, st, c);
  }

  lemma NothingRead(log: seq<Event>, more: seq<Event>, key: string, pass: nat)
    requires log <= more && forall i :: |log| <= i < |more| ==> more[i].key != key
    ensures !ReadIn(more, |log|, key, pass)
  {
  }

  lemma ReadLater(log: seq<Event>, mid: seq<Event>, more: seq<Event>, key: string, pass: nat)
    requires log <= mid <= more && forall i :: |log| <= i < |mid| ==> mid[i].key != key
    ensures ReadIn(more, |log|, key, pass) <==> ReadIn(more, |mid|, key, pass)
  {
    assert forall i :: 0 <= i < |mid| ==> more[i] == mid[i];
  }

  /** One step of the induction below: the visit of an earlier tuple leaves the question open. */
  lemma EarlierVisit(d: Deps, dryRun: bool, pass: nat, now: int, p: Progress, i: nat, j: nat)
    requires Ready(p.s) && UnderWay(d, dryRun, pass, now, p) && i < j < |p.s.keys| && !d.shutdown(p.s.calls)
    ensures p.s.keys[i] in p.s.states && Ready(VisitKey(d, dryRun, pass, now, p, p.s.keys[i]).s)
    ensures var next, q := VisitKey(d, dryRun, pass, now, p, p.s.keys[i]), PassFrom(d, dryRun, pass, now, p, i).0;
      if KeyThrew(d, dryRun, pass, now, p, p.s.keys[i]) then !ReadIn(q.s.log, |p.s.log|, p.s.keys[j], pass)
      else
        ReadIn(q.s.log, |p.s.log|, p.s.keys[j], pass) <==>
        ReadIn(PassFrom(d, dryRun, pass, now, next, i + 1).0.s.log, |next.s.log|, p.s.keys[j], pass)
  {
    hide UnderWay, Visit, ReadIn, KeyThrew, NamedState;
    var key := p.s.keys[j];
    KeysApart(d, dryRun, pass, now, p, i, j);
    NextUnderWay(d, dryRun, pass, now, p, i);
    VisitKeyEvents(d, dryRun, pass, now, p, p.s.keys[i]);
    var next := VisitKey(d, dryRun, pass, now, p, p.s.keys[i]);
    hide VisitKey;
    if KeyThrew(d, dryRun, pass, now, p, p.s.keys[i]) {
      NothingRead(p.s.log, next.s.log, key, pass);
    } else {
      UnderWayKeeps(d, dryRun, pass, now, next, i + 1);
      ReadLater(p.s.log, next.s.log, PassFrom(d, dryRun, pass, now, next, i + 1).0.s.log, key, pass);
    }
  }

  lemma StoppedReadsNothing(d: Deps, dryRun: bool, pass: nat, now: int, p: Progress, i: nat, key: string)
    requires Ready(p.s) && i < |p.s.keys| && d.shutdown(p.s.calls)
    ensures !ReadIn(PassFrom(d, dryRun, pass, now, p, i).0.s.log, |p.s.log|, key, pass)
  {
    NothingRead(p.s.log, p.s.log, key, pass);
  }

  /** A pass reads the record of a due tuple exactly when it gets to the tuple and the read
      answers, whatever becomes of the pass after that. */
  lemma {:induction false} PassReadsExactlyWhen(d: Deps, dryRun: bool, pass: nat, now: int, p: Progress, i: nat, j: nat)
    requires Ready(p.s) && UnderWay(d, dryRun, pass, now, p)
    requires i <= j < |p.s.keys| && Due(p.s.states[p.s.keys[j]], now)
    ensures ReadIn(PassFrom(d, dryRun, pass, now, p, i).0.s.log, |p.s.log|, p.s.keys[j], pass) <==>
      ReadsAt(d, dryRun, pass, now, p, i, j)
    decreases j - i
  {
    hide UnderWay, VisitKey, PassFrom, ReadIn, Due, KeyThrew, ReadsThrow;
    if d.shutdown(p.s.calls) {
      StoppedReadsNothing(d, dryRun, pass, now, p, i, p.s.keys[j]);
    } else {
      NextUnderWay(d, dryRun, pass, now, p, i);
      ThrowsAsRead(d, dryRun, pass, now, p, p.s.keys[i]);
      if i == j {
        VisitReadsExactlyWhen(d, dryRun, pass, now, p, p.s.keys[j]);
        OwnReadDecides(d, dryRun, pass, now, p, i);
      } else {
        EarlierVisit(d, dryRun, pass, now, p, i, j);
        if !KeyThrew(d, dryRun, pass, now, p, p.s.keys[i]) {
          PassReadsExactlyWhen(d, dryRun, pass, now, VisitKey(d, dryRun, pass, now, p, p.s.keys[i]), i + 1, j);
        }
      }
    }
  }

  lemma KeysApart(d: Deps, dryRun: bool, pass: nat, now: int, p: Progress, i: nat, j: nat)
    requires UnderWay(d, dryRun, pass, now, p) && i < j < |p.s.keys|
    ensures p.s.keys[i] != p.s.keys[j]
  {
  }

  lemma ThrowsAsRead(d: Deps, dryRun: bool, pass: nat, now: int, p: Progress, key: string)
    requires key in p.s.states
    ensures KeyThrew(d, dryRun, pass, now, p, key) <==> ReadsThrow(d, now, p.s.states[key], p.s.calls + 1)
  {
    hide Visit;
    VisitThrowsExactlyWhen(d, dryRun, pass, now, p.s.states[key], p.s.calls + 1);
  }

  /** What comes after a tuple's own visit adds no read of it. */
  lemma OwnReadDecides(d: Deps, dryRun: bool, pass: nat, now: int, p: Progress, i: nat)
    requires Ready(p.s) && UnderWay(d, dryRun, pass, now, p) && i < |p.s.keys| && !d.shutdown(p.s.calls)
    ensures var key := p.s.keys[i];
      ReadIn(PassFrom(d, dryRun, pass, now, p, i).0.s.log, |p.s.log|, key, pass) <==>
      ReadIn(VisitKey(d, dryRun, pass, now, p, key).s.log, |p.s.log|, key, pass)
  {
    hide UnderWay, Visit, KeyThrew, NamedState;
    var key := p.s.keys[i];
    NextUnderWay(d, dryRun, pass, now, p, i);
    var next := VisitKey(d, dryRun, pass, now, p, key);
    hide VisitKey;
    if !KeyThrew(d, dryRun, pass, now, p, key) {
      var rest := PassFrom(d, dryRun, pass, now, next, i + 1).0;
      PassTouchesRest(d, dryRun, pass, now, next, i + 1, i);
      assert forall k :: 0 <= k < |next.s.log| ==> rest.s.log[k] == next.s.log[k];
    }
  }

  /** The rest of a pass adds no event of an earlier tuple. */
  lemma {:induction false} PassTouchesRest(d: Deps, dryRun: bool, pass: nat, now: int, p: Progress, i: nat, j: nat)
    requires Ready(p.s) && UnderWay(d, dryRun, pass, now, p) && j < i && j < |p.s.keys|
    ensures var q := PassFrom(d, dryRun, pass, now, p, i).0;
      p.s.log <= q.s.log && forall k :: |p.s.log| <= k < |q.s.log| ==> q.s.log[k].key != p.s.keys[j]
    decreases |p.s.keys| - i
  {
    hide UnderWay, Visit, KeyThrew;
    if i < |p.s.keys| && !d.shutdown(p.s.calls) {
      NextUnderWay(d, dryRun, pass, now, p, i);
      VisitKeyEvents(d, dryRun, pass, now, p, p.s.keys[i]);
      KeysApart(d, dryRun, pass, now, p, j, i);
      var next := VisitKey(d, dryRun, pass, now, p, p.s.keys[i]);
      hide VisitKey;
      if !KeyThrew(d, dryRun, pass, now, p, p.s.keys[i]) {
        PassTouchesRest(d, dryRun, pass, now, next, i + 1, j);
        var q := PassFrom(d, dryRun, pass, now, next, i + 1).0;
        assert forall k :: 0 <= k < |next.s.log| ==> q.s.log[k] == next.s.log[k];
      }
    }
  }

  /** The step made from this state reads the record of its j-th tuple. */
  ghost predicate StepReads(d: Deps, dryRun: bool, s: Sched, j: nat)
    requires Ready(s) && j < |s.keys| && d.clusterNow(s.calls).Got?
  {
    ReadsAt(d, dryRun, s.calls, d.clusterNow(s.calls).value, Progress(s.(calls := s.calls + 1), IDLE_MAX_MS), 0, j)
  }

  lemma StepReadsExactlyWhen(d: Deps, dryRun: bool, s: Sched, j: nat)
    requires Inv(d, dryRun, s) && Ready(s) && j < |s.keys|
    requires d.clusterNow(s.calls).Got? && Due(s.states[s.keys[j]], d.clusterNow(s.calls).value)
    ensures ReadIn(StepFrom(d, dryRun, s).s.log, |s.log|, s.keys[j], s.calls) <==> StepReads(d, dryRun, s, j)
  {
    hide PassFrom, UnderWay, ReadIn, ReadsAt;
    StepUnderWay(d, dryRun, s);
    PassReadsExactlyWhen(d, dryRun, s.calls, d.clusterNow(s.calls).value,
                         Progress(s.(calls := s.calls + 1), IDLE_MAX_MS), 0, j);
  }

  // ---- starvation ----

  /** The record of this key never answers. */
  ghost predicate NeverAnswers(d: Deps, key: string) {
    forall n: nat :: d.fetchRecord(n, key).Threw?
  }

  /** The i-th tuple is due, and nothing has happened to the j-th. */
  ghost predicate Blocked(s: Sched, i: nat, j: nat, blocker: TupleState, starved: TupleState) {
    && i < j < |s.keys| && s.keys[i] in s.states && s.keys[j] in s.states
    && s.states[s.keys[i]] == blocker && s.states[s.keys[j]] == starved
  }

  lemma {:induction false} PassStarves(d: Deps, dryRun: bool, pass: nat, now: int, p: Progress, k: nat, i: nat, j: nat,
                                       blocker: TupleState, starved: TupleState)
    requires Ready(p.s) && UnderWay(d, dryRun, pass, now, p) && Blocked(p.s, i, j, blocker, starved)
    requires k <= i && Due(blocker, now) && NeverAnswers(d, p.s.keys[i])
    ensures var q := PassFrom(d, dryRun, pass, now, p, k).0;
      && q.s.keys == p.s.keys && Blocked(q.s, i, j, blocker, starved)
      && p.s.log <= q.s.log && forall n :: |p.s.log| <= n < |q.s.log| ==> q.s.log[n].key != p.s.keys[j]
    decreases i - k
  {
    hide UnderWay, Visit, NamedState;
    if !d.shutdown(p.s.calls) {
      NextUnderWay(d, dryRun, pass, now, p, k);
      VisitKeyEvents(d, dryRun, pass, now, p, p.s.keys[k]);
      KeysApart(d, dryRun, pass, now, p, k, j);
      var next := VisitKey(d, dryRun, pass, now, p, p.s.keys[k]);
      if k == i {
        UnderWayFacts(d, dryRun, pass, now, p, p.s.keys[i]);
        BlockerThrows(d, dryRun, pass, now, blocker, p.s.calls + 1);
      } else if !KeyThrew(d, dryRun, pass, now, p, p.s.keys[k]) {
        hide VisitKey, KeyThrew;
        PassStarves(d, dryRun, pass, now, next, k + 1, i, j, blocker, starved);
        var q := PassFrom(d, dryRun, pass, now, next, k + 1).0;
        assert forall n :: 0 <= n < |next.s.log| ==> q.s.log[n] == next.s.log[n];
      } else {
        KeysApart(d, dryRun, pass, now, p, k, i);
      }
    }
  }

  lemma BlockerThrows(d: Deps, dryRun: bool, pass: nat, now: int, st: TupleState, c: nat)
    requires Due(st, now) && NeverAnswers(d, st.tuple.key)
    ensures Visit(d, dryRun, pass, now, st, c) == Visited(st, c + 1, [], true)
  {
  }

  lemma StepStarves(d: Deps, dryRun: bool, s: Sched, i: nat, j: nat, blocker: TupleState, starved: TupleState)
    requires Inv(d, dryRun, s) && Ready(s) && Blocked(s, i, j, blocker, starved) && NeverAnswers(d, s.keys[i])
    requires d.clusterNow(s.calls).Got? ==> Due(blocker, d.clusterNow(s.calls).value)
    ensures var r := StepFrom(d, dryRun, s).s;
      && r.keys == s.keys && Blocked(r, i, j, blocker, starved)
      && s.log <= r.log && forall n :: |s.log| <= n < |r.log| ==> r.log[n].key != s.keys[j]
  {
    hide PassFrom, UnderWay, Inv, Due;
    if d.clusterNow(s.calls).Got? {
      StepUnderWay(d, dryRun, s);
      var p := Progress(s.(calls := s.calls + 1), IDLE_MAX_MS);
      PassStarves(d, dryRun, s.calls, d.clusterNow(s.calls).value, p, 0, i, j, blocker, starved);
    }
  }

  function Steps(n: nat): seq<Action> {
    if n == 0 then [] else Steps(n - 1) + [DoStep]
  }

  /** Since `s` nothing has happened to the j-th tuple, nor to the i-th that blocks it. */
  ghost predicate StillBlocked(s: Sched, r: Sched, i: nat, j: nat, blocker: TupleState, starved: TupleState) {
    && i < j < |s.keys| && r.keys == s.keys && Blocked(r, i, j, blocker, starved)
    && s.log <= r.log && forall k :: |s.log| <= k < |r.log| ==> r.log[k].key != s.keys[j]
  }

  /** The blocking tuple is active, its record never answers, and the clock is past its expiry. */
  ghost predicate Blocks(d: Deps, key: string, blocker: TupleState) {
    && blocker.status == Active && NeverAnswers(d, key)
    && forall c: nat :: d.clusterNow(c).Got? ==> blocker.tuple.expiry <= d.clusterNow(c).value
  }

  lemma StepStillBlocked(d: Deps, dryRun: bool, s: Sched, r: Sched, i: nat, j: nat, blocker: TupleState,
                         starved: TupleState)
    requires i < |s.keys| && StillBlocked(s, r, i, j, blocker, starved)
    requires Inv(d, dryRun, r) && Ready(r) && Blocks(d, s.keys[i], blocker)
    ensures StillBlocked(s, StepFrom(d, dryRun, r).s, i, j, blocker, starved)
  {
    hide Inv, StepFrom, NeverAnswers, Blocked;
    StepStarves(d, dryRun, r, i, j, blocker, starved);
    StillUntouched(s.log, r.log, StepFrom(d, dryRun, r).s.log, s.keys[j]);
  }

  /** One tuple whose record cannot be read, once due, keeps every later tuple of the map from being
      looked at, however many passes are made. */
  lemma {:induction false} BlockedForever(d: Deps, ctx: Ctx, s: Sched, n: nat, i: nat, j: nat, blocker: TupleState,
                                          starved: TupleState)
    requires i < |s.keys| && Inv(d, ctx.dryRun, s) && Blocks(d, s.keys[i], blocker)
    requires StillBlocked(s, s, i, j, blocker, starved)
    ensures StillBlocked(s, Run(d, ctx, s, Steps(n)), i, j, blocker, starved)
  {
    hide Inv, StepFrom, StillBlocked, Blocks, Run, Steps, Act, Ready;
    RunOfSteps(d, ctx, s, n);
    if n > 0 {
      BlockedForever(d, ctx, s, n - 1, i, j, blocker, starved);
      var r := Run(d, ctx, s, Steps(n - 1));
      RunKeeps(d, ctx, s, Steps(n - 1));
      InvReady(d, ctx.dryRun, r);
      StepStillBlocked(d, ctx.dryRun, s, r, i, j, blocker, starved);
    }
  }

  lemma RunOfSteps(d: Deps, ctx: Ctx, s: Sched, n: nat)
    ensures n == 0 ==> Run(d, ctx, s, Steps(n)) == s
    ensures n > 0 ==>
      var r := Run(d, ctx, s, Steps(n - 1));
      Ready(r) ==> Run(d, ctx, s, Steps(n)) == StepFrom(d, ctx.dryRun, r).s
  {
    hide StepFrom, DiscoverFrom;
    if n > 0 {
      StepsLength(n - 1);
      StepsLength(n);
      assert Steps(n)[..n - 1] == Steps(n - 1);
    }
  }

  lemma StillUntouched(a: seq<Event>, b: seq<Event>, c: seq<Event>, key: string)
    requires a <= b <= c
    requires forall k :: |a| <= k < |b| ==> b[k].key != key
    requires forall k :: |b| <= k < |c| ==> c[k].key != key
    ensures forall k :: |a| <= k < |c| ==> c[k].key != key
  {
    assert forall k :: 0 <= k < |b| ==> c[k] == b[k];
  }

  lemma {:induction false} StepsLength(n: nat)
    ensures |Steps(n)| == n && (n > 0 ==> Steps(n)[n - 1] == DoStep)
  {
    if n > 0 {
      StepsLength(n - 1);
    }
  }

  // ---- such a lane ----

  const GOOD := Market("B", Some("B"), Number(ORACLE_SOURCE_OPTA), [])
  const BAD := Market("A", Some("A"), Number(ORACLE_SOURCE_OPTA), [])
  const FIRST := Source2Tuple(Key("A", ':', 100), "A", 100, "A", [], 1)
  const SECOND := Source2Tuple(Key("B", ':', 200), "B", 200, "B", [], 1)

  /** Two vaults on two markets, a clock at 250 s, a push after both expiries; the record of the
      first tuple cannot be read, that of the second is absent. */
  function StuckDeps(): Deps {
    Deps(
      n => Got(Scan([Vault("v", "A", 100, false, false), Vault("w", "B", 200, false, false)], [BAD, GOOD])),
      n => Got(250),
      (n, key) => if key == FIRST.key then Threw else Got(None),
      (n, key) => Got(Some(250)),
      (n, key) => Got(()),
      n => 0,
      n => false)
  }

  function StuckCtx(): Ctx {
    Ctx(false, asset => asset, (a, b) => true)
  }

  lemma FirstIsNotSecond()
    ensures FIRST.key != SECOND.key
  {
    assert FIRST.key[0] == 'A' && SECOND.key[0] == 'B';
  }

  lemma StuckMarkets()
    ensures AcceptedOf([BAD, GOOD], StuckCtx().pda) == [BAD, GOOD]
  {
    var pda := StuckCtx().pda;
    assert Accepted(BAD, pda) && Accepted(GOOD, pda);
    assert [BAD, GOOD][..1] == [BAD] && [BAD][..0] == [];
    assert AcceptedOf([], pda) == [];
    assert AcceptedOf([BAD], pda) == [BAD];
  }

  lemma StuckItems(v: Vault, w: Vault)
    requires v.market == "A" && w.market == "B" && IsLiveVault(v) && IsLiveVault(w)
    ensures Source2Items([v, w], [BAD, GOOD]) == [TakenItem(v, BAD), TakenItem(w, GOOD)]
  {
    hide Key, WellKeyed;
    var markets := [BAD, GOOD];
    assert markets[..1] == [BAD] && BAD.key != GOOD.key;
    assert Lookup([BAD], "A") == Some(BAD);
    assert Lookup(markets, "B") == Some(GOOD) && Lookup(markets, "A") == Some(BAD);
    hide Lookup;
    assert [v, w][..1] == [v] && [v][..0] == [];
    assert Source2Items([], markets) == [];
    assert Source2Items([v], markets) == [TakenItem(v, BAD)];
  }

  lemma StuckTuples()
    ensures var scan := StuckDeps().scan(1).value;
      Source2Tuples(scan.vaults, scan.markets, StuckCtx().pda, StuckCtx().assetLe) == [FIRST, SECOND]
  {
    var v, w := Vault("v", "A", 100, false, false), Vault("w", "B", 200, false, false);
    StuckMarkets();
    StuckItems(v, w);
    FirstIsNotSecond();
    hide Key, AcceptedOf, Source2Items, Source2Groups, Sort;
    var a, b := TakenItem(v, BAD), TakenItem(w, GOOD);
    TwoGroups(a, b);
    TwoSorted();
  }

  lemma TwoKeys<V>(a: Grouping.Item<V>, b: Grouping.Item<V>)
    requires a.key != b.key
    ensures Grouping.Keys([a, b]) == [a.key, b.key]
  {
    assert [a, b][..1] == [a] && [a][..0] == [];
    assert Grouping.Keys([a]) == [a.key];
  }

  lemma TwoBuckets<V>(a: Grouping.Item<V>, b: Grouping.Item<V>)
    requires a.key != b.key
    ensures Grouping.Bucket([a, b], a.key) == [a.value] && Grouping.Bucket([a, b], b.key) == [b.value]
  {
    assert [a, b][..1] == [a] && [a][..0] == [];
    assert Grouping.Bucket([a], a.key) == [a.value];
    assert Grouping.Bucket([a], b.key) == [];
  }

  lemma TwoGroups(a: Grouping.Item<Taken>, b: Grouping.Item<Taken>)
    requires a == TakenItem(Vault("v", "A", 100, false, false), BAD) &&
      b == TakenItem(Vault("w", "B", 200, false, false), GOOD)
    ensures WellKeyed([a, b]) && Source2Groups([a, b]) == [FIRST, SECOND]
  {
    FirstIsNotSecond();
    hide Key, Grouping.Bucket, Grouping.Keys;
    assert a.key == FIRST.key && b.key == SECOND.key;
    TwoKeys(a, b);
    TwoBuckets(a, b);
    var groups := Source2Groups([a, b]);
    assert groups[0] == MakeSource2(a.key, [a.value]) && groups[1] == MakeSource2(b.key, [b.value]);
  }

  lemma TwoSorted()
    ensures Sort([FIRST, SECOND], Source2Order(StuckCtx().assetLe)) == [FIRST, SECOND]
  {
    hide Key;
    var le := Source2Order(StuckCtx().assetLe);
    assert [FIRST, SECOND][1..] == [SECOND] && [SECOND][1..] == [];
    assert Sort([SECOND], le) == [SECOND];
  }

  lemma StuckStates(s: Sched)
    requires s.keys == [] && s.states == map[] && s.log == []
    ensures var r := ReconcileAll(s, [FIRST, SECOND]);
      && r == s.(keys := [FIRST.key, SECOND.key], states := map[FIRST.key := Fresh(FIRST), SECOND.key := Fresh(SECOND)])
  {
    FirstIsNotSecond();
    hide Key;
    assert [FIRST, SECOND][..1] == [FIRST] && [FIRST][..0] == [];
    assert ReconcileAll(s, []) == s;
    assert ReconcileAll(s, [FIRST]) == s.(keys := [FIRST.key], states := map[FIRST.key := Fresh(FIRST)]);
  }

  lemma StuckStart()
    ensures var s := DiscoverFrom(StuckDeps(), StuckCtx(), Start(1)).0;
      && s.keys == [FIRST.key, SECOND.key] && s.log == []
      && Blocked(s, 0, 1, Fresh(FIRST), Fresh(SECOND))
  {
    StuckTuples();
    FirstIsNotSecond();
    hide Key, Source2Tuples, ReconcileAll, KeepKeys, DropEvents;
    var ts := [FIRST, SECOND];
    var s := Start(1).(calls := 3);
    StuckStates(s);
    var seen := set t | t in ts :: t.key;
    assert ts[0].key in seen && ts[1].key in seen;
    AllKept([FIRST.key, SECOND.key], seen, ReconcileAll(s, ts).states);
  }

  lemma AllKept(keys: seq<string>, seen: set<string>, states: map<string, TupleState>)
    requires |keys| == 2 && keys[0] in seen && keys[1] in seen
    ensures KeepKeys(keys, seen) == keys && DropEvents(keys, seen, states, 2, 250) == []
  {
    assert keys[..1][..0] == [] && keys == keys[..1] + [keys[1]] && keys[..1] == [keys[0]];
    assert KeepKeys(keys[..1], seen) == [keys[0]];
    assert DropEvents(keys[..1], seen, states, 2, 250) == [];
  }

  /** In this lane the second tuple is inside its window with everything a send needs, and no number
      of passes ever reads its record. */
  lemma OneBadRecordStarvesTheRest(n: nat)
    ensures var s := Run(StuckDeps(), StuckCtx(), Run(StuckDeps(), StuckCtx(), Start(1), [DoDiscover]), Steps(n));
      && SECOND.key in s.states && s.states[SECOND.key] == Fresh(SECOND)
      && SECOND.expiry <= 250 <= SECOND.expiry + SETTLE_WINDOW_SECS
      && DecideSettleSend(Some(250), SECOND.expiry, 250) == SendNow
      && forall k :: 0 <= k < |s.log| ==> s.log[k].key != SECOND.key
  {
    var d, ctx := StuckDeps(), StuckCtx();
    StuckStart();
    StartInv(d, false, 1);
    DiscoverKeeps(d, ctx, Start(1));
    hide Key, DiscoverFrom, Inv, Blocked, Run, StuckDeps;
    var s := Run(d, ctx, Start(1), [DoDiscover]);
    JustDiscovered(d, ctx);
    StuckAnswers();
    BlockedForever(d, ctx, s, n, 0, 1, Fresh(FIRST), Fresh(SECOND));
    StarvedState(s, Run(d, ctx, s, Steps(n)));
  }

  lemma JustDiscovered(d: Deps, ctx: Ctx)
    ensures Run(d, ctx, Start(1), [DoDiscover]) == DiscoverFrom(d, ctx, Start(1)).0
  {
    hide DiscoverFrom;
    assert [DoDiscover][..0] == [] && Run(d, ctx, Start(1), []) == Start(1);
  }

  lemma StuckAnswers()
    ensures NeverAnswers(StuckDeps(), FIRST.key) && forall n: nat :: StuckDeps().clusterNow(n) == Got(250)
  {
  }

  lemma StarvedState(s: Sched, r: Sched)
    requires s.keys == [FIRST.key, SECOND.key] && s.log == [] && StillBlocked(s, r, 0, 1, Fresh(FIRST), Fresh(SECOND))
    ensures SECOND.key in r.states && r.states[SECOND.key] == Fresh(SECOND)
    ensures forall k :: 0 <= k < |r.log| ==> r.log[k].key != SECOND.key
  {
  }
}

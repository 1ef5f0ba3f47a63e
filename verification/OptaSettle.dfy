/** crank/optaSettleCrank.ts: the first-party settle lane as values. The decisions, the
    environment it talks to, one visit of a tuple, one pass, one discovery, one turn of the
    loop. Every call to the environment takes the next number of one global call counter, so
    a run is determined by the answers and all answers are quantified over. */
module OptaSettle {
  import opened Results
  import opened SettleRouting
  import Grouping

  const SETTLE_WINDOW_SECS := 300
  const DISCOVERY_INTERVAL_SECS := 240
  const FEED_POLL_MS := 2_000
  const RETRY_MIN_MS := 5_000
  const IDLE_MAX_MS := 30_000
  const LEAST_WAIT_MS := 250
  const DISCOVERY_RETRY_MS := 30_000

  // ---- pure decisions ----

  datatype Phase = Pending | InWindow | PastWindow

  function PhaseOf(expiry: int, nowSecs: int): Phase {
    if nowSecs < expiry then Pending
    else if nowSecs - expiry <= SETTLE_WINDOW_SECS then InWindow
    else PastWindow
  }

  datatype HoldReason = PreExpiry | WindowElapsed | NoFeed | NoPostExpiryPush
  datatype SendDecision = SendNow | Hold(reason: HoldReason)

  /** The send gate, on the feed's publish time if it has an account. */
  function DecideSettleSend(feed: Option<int>, expiry: int, nowSecs: int): SendDecision {
    match PhaseOf(expiry, nowSecs)
    case Pending => Hold(PreExpiry)
    case PastWindow => Hold(WindowElapsed)
    case InWindow =>
      if feed.None? then Hold(NoFeed)
      else if feed.value < expiry then Hold(NoPostExpiryPush)
      else SendNow
  }

  // ---- the environment ----

  datatype Reply<+T> = Threw | Got(value: T)
  datatype Scan = Scan(vaults: seq<Vault>, markets: seq<Market>)

  /** Answer number n, by kind of call. Records and feeds answer with their publish time. */
  datatype Deps = Deps(
    scan: nat -> Reply<Scan>,
    clusterNow: nat -> Reply<int>,
    fetchRecord: (nat, string) -> Reply<Option<int>>,
    fetchFeed: (nat, string) -> Reply<Option<int>>,
    sendSettle: (nat, string) -> Reply<()>,
    nowMs: nat -> int,
    shutdown: nat -> bool)

  datatype Ctx = Ctx(dryRun: bool, pda: string -> string, assetLe: (string, string) -> bool)

  // ---- state and log ----

  datatype Status = Active | Done | Dead

  /** `lastSendAtMs` is None for minus infinity. */
  datatype TupleState = TupleState(
    tuple: Source2Tuple, status: Status,
    firstPostExpiryPush: Option<int>, polledFromBeforePush: bool,
    lastSendAtMs: Option<int>, dryRunLogged: bool)

  datatype What =
    | RecordAbsent | RecordPresent | FeedSeen(publishTime: Option<int>)
    | Sent(atMs: int) | MarkedDone | MarkedDead | Dropped

  /** `call` is the environment call the event belongs to, `pass` the call that read `now`. */
  datatype Event = Event(call: nat, pass: nat, now: int, key: string, expiry: int, what: What)

  datatype Sched = Sched(keys: seq<string>, states: map<string, TupleState>, calls: nat, log: seq<Event>)

  function Fresh(t: Source2Tuple): TupleState {
    TupleState(t, Active, None, false, None, false)
  }

  // ---- one visit ----

  /** What a visit leaves: the tuple's state, the calls made, the events, and whether it threw. */
  datatype Visited = Visited(st: TupleState, calls: nat, events: seq<Event>, threw: bool)

  function Note(pass: nat, now: int, t: Source2Tuple, call: nat, what: What): Event {
    Event(call, pass, now, t.key, t.expiry, what)
  }

  /** The catch block: the record may be there after all; a failing read counts as absent. */
  function AfterFailure(d: Deps, pass: nat, now: int, st: TupleState, c: nat, events: seq<Event>): Visited {
    var t := st.tuple;
    match d.fetchRecord(c, t.key)
    case Threw => Visited(st, c + 1, events, false)
    case Got(None) => Visited(st, c + 1, events + [Note(pass, now, t, c, RecordAbsent)], false)
    case Got(Some(_)) =>
      Visited(st.(status := Done), c + 1,
              events + [Note(pass, now, t, c, RecordPresent), Note(pass, now, t, c, MarkedDone)], false)
  }

  /** Send, then read the record back. */
  function SendAndConfirm(d: Deps, pass: nat, now: int, st: TupleState, c: nat, events: seq<Event>): Visited {
    var t := st.tuple;
    match d.sendSettle(c, t.key)
    case Threw => AfterFailure(d, pass, now, st, c + 1, events)
    case Got(_) =>
      match d.fetchRecord(c + 1, t.key)
      case Got(Some(_)) =>
        Visited(st.(status := Done), c + 2,
                events + [Note(pass, now, t, c + 1, RecordPresent), Note(pass, now, t, c + 1, MarkedDone)], false)
      case Got(None) => AfterFailure(d, pass, now, st, c + 2, events + [Note(pass, now, t, c + 1, RecordAbsent)])
      case Threw => AfterFailure(d, pass, now, st, c + 2, events)
  }

  /** Retries are spaced: nothing is sent within 5 s of the last send. */
  function SendIfSpaced(d: Deps, pass: nat, now: int, st: TupleState, c: nat, events: seq<Event>): Visited {
    if st.lastSendAtMs.Some? && d.nowMs(c) - st.lastSendAtMs.value < RETRY_MIN_MS then Visited(st, c + 1, events, false)
    else
      var at := d.nowMs(c + 1);
      SendAndConfirm(d, pass, now, st.(lastSendAtMs := Some(at)), c + 2,
                     events + [Note(pass, now, st.tuple, c + 2, Sent(at))])
  }

  function WithFeed(st: TupleState, feed: Option<int>): TupleState {
    match feed
    case None => st
    case Some(p) =>
      if p < st.tuple.expiry then st.(polledFromBeforePush := true)
      else if st.firstPostExpiryPush.None? then st.(firstPostExpiryPush := Some(p))
      else st
  }

  /** In the window, no record yet: look at the feed and decide. */
  function PollAndMaybeSend(d: Deps, dryRun: bool, pass: nat, now: int, st: TupleState, c: nat,
                            events: seq<Event>): Visited {
    var t := st.tuple;
    match d.fetchFeed(c, t.key)
    case Threw => Visited(st, c + 1, events, true)
    case Got(feed) =>
      var seen := WithFeed(st, feed);
      var noted := events + [Note(pass, now, t, c, FeedSeen(feed))];
      if DecideSettleSend(feed, t.expiry, now).Hold? then Visited(seen, c + 1, noted, false)
      else if dryRun then Visited(seen.(dryRunLogged := true), c + 1, noted, false)
      else SendIfSpaced(d, pass, now, seen, c + 1, noted)
  }

  function Visit(d: Deps, dryRun: bool, pass: nat, now: int, st: TupleState, c: nat): Visited {
    var t := st.tuple;
    if st.status != Active || PhaseOf(t.expiry, now) == Pending then Visited(st, c, [], false)
    else match d.fetchRecord(c, t.key)
      case Threw => Visited(st, c + 1, [], true)
      case Got(Some(_)) =>
        Visited(st.(status := Done), c + 1,
                [Note(pass, now, t, c, RecordPresent), Note(pass, now, t, c, MarkedDone)], false)
      case Got(None) =>
        var absent := Note(pass, now, t, c, RecordAbsent);
        if PhaseOf(t.expiry, now) == PastWindow then
          Visited(st.(status := Dead), c + 1, [absent, Note(pass, now, t, c, MarkedDead)], false)
        else
          PollAndMaybeSend(d, dryRun, pass, now, st, c + 1, [absent])
  }

  /** How long the loop may sleep as far as one tuple is concerned. */
  function Cap(st: TupleState, now: int): int {
    if st.status != Active then IDLE_MAX_MS
    else match PhaseOf(st.tuple.expiry, now)
      case Pending => Max(LEAST_WAIT_MS, (st.tuple.expiry - now) * 1000)
      case InWindow => FEED_POLL_MS
      case PastWindow => IDLE_MAX_MS
  }

  // ---- one pass ----

  datatype Outcome = Completed | Interrupted | Failed

  /** A pass under way: the wait so far is the least of the caps met. */
  datatype Progress = Progress(s: Sched, wait: int)

  function VisitKey(d: Deps, dryRun: bool, pass: nat, now: int, p: Progress, key: string): Progress
    requires key in p.s.states
  {
    var v := Visit(d, dryRun, pass, now, p.s.states[key], p.s.calls + 1);
    Progress(
      Sched(p.s.keys, p.s.states[key := v.st], v.calls, p.s.log + v.events),
      Min(p.wait, Cap(p.s.states[key], now)))
  }

  function KeyThrew(d: Deps, dryRun: bool, pass: nat, now: int, p: Progress, key: string): bool
    requires key in p.s.states
  {
    Visit(d, dryRun, pass, now, p.s.states[key], p.s.calls + 1).threw
  }

  /** The rest of a pass, from the i-th key of the iteration order. Each turn polls the
      shutdown flag first. */
  function PassFrom(d: Deps, dryRun: bool, pass: nat, now: int, p: Progress, i: nat): (Progress, Outcome)
    requires forall k :: k in p.s.keys ==> k in p.s.states
    decreases |p.s.keys| - i
  {
    if i >= |p.s.keys| then (p, Completed)
    else if d.shutdown(p.s.calls) then (p.(s := p.s.(calls := p.s.calls + 1)), Interrupted)
    else
      var key := p.s.keys[i];
      var next := VisitKey(d, dryRun, pass, now, p, key);
      if KeyThrew(d, dryRun, pass, now, p, key) then (next, Failed)
      else PassFrom(d, dryRun, pass, now, next, i + 1)
  }

  /** What `step` does: the new state, and how long the loop may sleep unless it threw. */
  datatype Stepped = Stepped(s: Sched, outcome: Outcome, wait: int)

  function StepFrom(d: Deps, dryRun: bool, s: Sched): Stepped
    requires forall k :: k in s.keys ==> k in s.states
  {
    var read := s.(calls := s.calls + 1);
    match d.clusterNow(s.calls)
    case Threw => Stepped(read, Failed, IDLE_MAX_MS)
    case Got(now) =>
      var (p, outcome) := PassFrom(d, dryRun, s.calls, now, Progress(read, IDLE_MAX_MS), 0);
      Stepped(p.s, outcome, p.wait)
  }

  // ---- discovery ----

  function KeepKeys(keys: seq<string>, seen: set<string>): (r: seq<string>)
    ensures forall k :: k in r <==> k in keys && k in seen
    ensures Grouping.Distinct(keys) ==> Grouping.Distinct(r)
  {
    if keys == [] then []
    else
      var k, before := keys[|keys| - 1], KeepKeys(keys[..|keys| - 1], seen);
      assert keys == keys[..|keys| - 1] + [k];
      if k in seen then before + [k] else before
  }

  /** Insert or refresh one discovered tuple: known tuples keep their state. */
  function Reconcile(s: Sched, t: Source2Tuple): Sched {
    if t.key in s.states then s.(states := s.states[t.key := s.states[t.key].(tuple := t)])
    else s.(keys := s.keys + [t.key], states := s.states[t.key := Fresh(t)])
  }

  function ReconcileAll(s: Sched, ts: seq<Source2Tuple>): Sched {
    if ts == [] then s else Reconcile(ReconcileAll(s, ts[..|ts| - 1]), ts[|ts| - 1])
  }

  function DropEvents(keys: seq<string>, seen: set<string>, states: map<string, TupleState>, call: nat,
                      now: int): seq<Event> {
    if keys == [] then []
    else
      var k, before := keys[|keys| - 1], DropEvents(keys[..|keys| - 1], seen, states, call, now);
      if k !in seen && k in states then before + [Event(call, call, now, k, states[k].tuple.expiry, Dropped)]
        else before
  }

  /** Forget every tuple the scan did not list. */
  function DropUnseen(s: Sched, seen: set<string>, call: nat, now: int): Sched {
    Sched(
      KeepKeys(s.keys, seen),
      map k | k in s.states && k in seen :: s.states[k],
      s.calls,
      s.log + DropEvents(s.keys, seen, s.states, call, now))
  }

  /** What `discover` does; None when a read threw, which changes nothing but the counter. */
  function DiscoverFrom(d: Deps, ctx: Ctx, s: Sched): (Sched, bool) {
    match d.scan(s.calls)
    case Threw => (s.(calls := s.calls + 1), false)
    case Got(scan) =>
      match d.clusterNow(s.calls + 1)
      case Threw => (s.(calls := s.calls + 2), false)
      case Got(now) =>
        var ts := Source2Tuples(scan.vaults, scan.markets, ctx.pda, ctx.assetLe);
        var seen := set t | t in ts :: t.key;
        (DropUnseen(ReconcileAll(s.(calls := s.calls + 2), ts), seen, s.calls + 1, now), true)
  }

  // ---- one turn of the loop ----

  /** A turn: the state the step started from, the step, and the sleep it led to. */
  datatype Turn = Turn(before: Sched, step: Stepped, slept: int)
  datatype Loop = Loop(s: Sched, nextDiscoveryMs: int)

  predicate Ready(s: Sched) {
    forall k :: k in s.keys ==> k in s.states
  }

  /** Discover if it is due; a failed discovery is retried after 30 s. */
  function MaybeDiscover(d: Deps, ctx: Ctx, l: Loop): Loop {
    var s := l.s.(calls := l.s.calls + 1);
    if d.nowMs(l.s.calls) < l.nextDiscoveryMs then l.(s := s)
    else
      var (found, ok) := DiscoverFrom(d, ctx, s);
      Loop(found.(calls := found.calls + 1),
           d.nowMs(found.calls) + (if ok then DISCOVERY_INTERVAL_SECS * 1000 else DISCOVERY_RETRY_MS))
  }

  function SleepFor(wait: int, untilDiscovery: int): int {
    Max(LEAST_WAIT_MS, Min(wait, untilDiscovery))
  }

  /** Step and work out the sleep: a step that threw is retried after the feed-poll interval. */
  function StepAndSleep(d: Deps, ctx: Ctx, l: Loop): (Loop, Turn)
    requires Ready(l.s)
  {
    var step := StepFrom(d, ctx.dryRun, l.s);
    var wait := if step.outcome == Failed then FEED_POLL_MS else step.wait;
    // one call polls the shutdown flag, one reads the clock
    var slept := SleepFor(wait, l.nextDiscoveryMs - d.nowMs(step.s.calls + 1));
    (Loop(step.s.(calls := step.s.calls + 2), l.nextDiscoveryMs), Turn(l.s, step, slept))
  }
}

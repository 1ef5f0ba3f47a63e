/** crank/sweepQuarantine.ts: a batch that has failed three times in a row is set aside, announced
    once, and retried once a day. */
module SweepQuarantine {
  import opened Results

  const QUARANTINE_AFTER_FAILURES: int := 3
  const QUARANTINE_RETRY_MS: int := 24 * 60 * 60 * 1000

  datatype Entry = Entry(failures: int, quarantinedAtMs: int, lastFailureMs: int)

  datatype Decision = Fresh | DailyRetry | Quarantined(retryAtMs: int)

  datatype FailureOutcome = FailureOutcome(quarantined: bool, transitioned: bool, failures: int)

  type Entries = map<string, Entry>

  function Lookup(entries: Entries, key: string): Option<Entry> {
    if key in entries then Some(entries[key]) else None
  }

  // ---- one key ----

  function Decide(e: Option<Entry>, nowMs: int): Decision {
    if e.None? || e.value.quarantinedAtMs == 0 then Fresh
    else if nowMs >= e.value.lastFailureMs + QUARANTINE_RETRY_MS then DailyRetry
    else Quarantined(e.value.lastFailureMs + QUARANTINE_RETRY_MS)
  }

  function Failed(e: Option<Entry>, nowMs: int): (Entry, FailureOutcome) {
    var was := if e.Some? then e.value else Entry(0, 0, 0);
    var crosses := was.quarantinedAtMs == 0 && was.failures + 1 >= QUARANTINE_AFTER_FAILURES;
    var next := Entry(was.failures + 1, if crosses then nowMs else was.quarantinedAtMs, nowMs);
    (next, FailureOutcome(next.quarantinedAtMs != 0, crosses, next.failures))
  }

  // ---- the JSON form ----

  /** An element of the array after Number(...): None where the field is not a finite number, or
      the key is not a string. None as a whole stands for a falsy element. */
  datatype RawEntry = RawEntry(key: Option<string>, failures: Option<int>, quarantinedAtMs: Option<int>,
                               lastFailureMs: Option<int>)
  type Raw = Option<RawEntry>

  function ToRaw(key: string, e: Entry): Raw {
    Some(RawEntry(Some(key), Some(e.failures), Some(e.quarantinedAtMs), Some(e.lastFailureMs)))
  }

  predicate Readable(r: Raw) {
    r.Some? && r.value.key.Some? && r.value.failures.Some? && r.value.quarantinedAtMs.Some? &&
      r.value.lastFailureMs.Some?
  }

  function Parsed(raws: seq<Raw>): Entries {
    if raws == [] then map[]
    else
      var before, r := Parsed(raws[..|raws| - 1]), raws[|raws| - 1];
      if Readable(r) then
        before[r.value.key.value :=
               Entry(r.value.failures.value, r.value.quarantinedAtMs.value, r.value.lastFailureMs.value)]
      else before
  }

  /** The array toJSON gives, in whatever order the map is walked. */
  ghost predicate Lists(raws: seq<Raw>, entries: Entries) {
    && (forall r :: r in raws ==>
        Readable(r) && r.value.key.value in entries && r == ToRaw(r.value.key.value, entries[r.value.key.value]))
    && (forall k :: k in entries ==> ToRaw(k, entries[k]) in raws)
  }

  lemma {:induction false} ParsedKeeps(raws: seq<Raw>, entries: Entries)
    requires forall r :: r in raws ==>
      Readable(r) && r.value.key.value in entries && r == ToRaw(r.value.key.value, entries[r.value.key.value])
    ensures forall k :: k in Parsed(raws) <==> k in entries && ToRaw(k, entries[k]) in raws
    ensures forall k :: k in Parsed(raws) ==> Parsed(raws)[k] == entries[k]
  {
    if raws != [] {
      var before, r := raws[..|raws| - 1], raws[|raws| - 1];
      assert raws == before + [r];
      ParsedKeeps(before, entries);
    }
  }

  /** A round trip through JSON restores the state, and with it every later decision. */
  lemma JsonRoundTrip(raws: seq<Raw>, entries: Entries)
    requires Lists(raws, entries)
    ensures Parsed(raws) == entries
    ensures forall k, now :: Decide(Lookup(Parsed(raws), k), now) == Decide(Lookup(entries, k), now)
  {
    ParsedKeeps(raws, entries);
    assert forall k :: k in Parsed(raws) <==> k in entries;
  }

  lemma {:induction false} ParsedSplits(xs: seq<Raw>, bad: Raw, ys: seq<Raw>)
    requires !Readable(bad)
    ensures Parsed(xs + [bad] + ys) == Parsed(xs + ys)
  {
    if ys == [] {
      assert (xs + [bad])[..|xs|] == xs;
      assert xs + [bad] + ys == xs + [bad] && xs + ys == xs;
    } else {
      var front, last := ys[..|ys| - 1], ys[|ys| - 1];
      ParsedSplits(xs, bad, front);
      var long, short := xs + [bad] + ys, xs + ys;
      assert long[..|long| - 1] == xs + [bad] + front && short[..|short| - 1] == xs + front;
    }
  }

  // ---- the class ----

  class Store {
    var entries: Entries

    constructor ()
      ensures entries == map[]
    {
      entries := map[];
    }

    /** `raws` is None when the parsed file has no entries array. */
    constructor FromJson(raws: Option<seq<Raw>>)
      ensures entries == if raws.Some? then Parsed(raws.value) else map[]
    {
      var all: Entries := map[];
      if raws.Some? {
        for i := 0 to |raws.value|
          invariant all == Parsed(raws.value[..i])
        {
          assert raws.value[..i + 1][..i] == raws.value[..i];
          var e := raws.value[i];
          if Readable(e) {
            all := all[e.value.key.value :=
                       Entry(e.value.failures.value, e.value.quarantinedAtMs.value, e.value.lastFailureMs.value)];
          }
        }
        assert raws.value[..|raws.value|] == raws.value;
      }
      entries := all;
    }

    method DecideNow(key: string, nowMs: int) returns (d: Decision)
      ensures d == Decide(Lookup(entries, key), nowMs)
    {
      if key !in entries || entries[key].quarantinedAtMs == 0 {
        return Fresh;
      }
      var retryAtMs := entries[key].lastFailureMs + QUARANTINE_RETRY_MS;
      if nowMs >= retryAtMs {
        return DailyRetry;
      }
      return Quarantined(retryAtMs);
    }

    method RecordFailure(key: string, nowMs: int) returns (r: FailureOutcome)
      modifies this
      ensures entries == old(entries)[key := Failed(Lookup(old(entries), key), nowMs).0]
      ensures r == Failed(Lookup(old(entries), key), nowMs).1
    {
      var e := if key in entries then entries[key] else Entry(0, 0, 0);
      e := e.(failures := e.failures + 1);
      e := e.(lastFailureMs := nowMs);
      var transitioned := false;
      if e.quarantinedAtMs == 0 && e.failures >= QUARANTINE_AFTER_FAILURES {
        e := e.(quarantinedAtMs := nowMs);
        transitioned := true;
      }
      entries := entries[key := e];
      return FailureOutcome(e.quarantinedAtMs != 0, transitioned, e.failures);
    }

    method RecordSuccess(key: string)
      modifies this
      ensures entries == old(entries) - {key}
    {
      entries := entries - {key};
    }

    /** The keys set aside, and those of them a decision now would let through. */
    method Summary(nowMs: int) returns (tracked: nat, quarantined: nat, dueForRetry: nat)
      ensures tracked == |entries|
      ensures quarantined == |set k | k in entries && !Decide(Lookup(entries, k), nowMs).Fresh?|
      ensures dueForRetry == |set k | k in entries && Decide(Lookup(entries, k), nowMs).DailyRetry?|
    {
      quarantined, dueForRetry := 0, 0;
      var todo := entries.Keys;
      while todo != {}
        invariant todo <= entries.Keys
        invariant quarantined == |SetAside(entries, todo, nowMs)|
        invariant dueForRetry == |Due(entries, todo, nowMs)|
        decreases todo
      {
        var k :| k in todo;
        OneKeyFewer(entries, todo, k, nowMs);
        var e := entries[k];
        if e.quarantinedAtMs != 0 {
          quarantined := quarantined + 1;
          if nowMs >= e.lastFailureMs + QUARANTINE_RETRY_MS {
            dueForRetry := dueForRetry + 1;
          }
        }
        todo := todo - {k};
      }
      tracked := |entries|;
      assert SetAside(entries, {}, nowMs) == set k | k in entries && !Decide(Lookup(entries, k), nowMs).Fresh?;
      assert Due(entries, {}, nowMs) == set k | k in entries && Decide(Lookup(entries, k), nowMs).DailyRetry?;
    }

    method ToJson() returns (raws: seq<Raw>)
      ensures Lists(raws, entries) && |raws| == |entries|
    {
      raws := [];
      var todo := entries.Keys;
      while todo != {}
        invariant todo <= entries.Keys && |raws| + |todo| == |entries|
        invariant forall r :: r in raws ==>
          Readable(r) && r.value.key.value in entries && r == ToRaw(r.value.key.value, entries[r.value.key.value])
        invariant forall k :: k in entries && k !in todo ==> ToRaw(k, entries[k]) in raws
        decreases todo
      {
        var k :| k in todo;
        raws := raws + [ToRaw(k, entries[k])];
        todo := todo - {k};
      }
    }
  }

  ghost function SetAside(entries: Entries, todo: set<string>, nowMs: int): set<string> {
    set k | k in entries && k !in todo && !Decide(Lookup(entries, k), nowMs).Fresh?
  }

  ghost function Due(entries: Entries, todo: set<string>, nowMs: int): set<string> {
    set k | k in entries && k !in todo && Decide(Lookup(entries, k), nowMs).DailyRetry?
  }

  lemma OneMoreMember(a: set<string>, b: set<string>, k: string, joins: bool)
    requires k !in a && b == if joins then a + {k} else a
    ensures |b| == |a| + if joins then 1 else 0
  {
  }

  lemma OneKeyFewer(entries: Entries, todo: set<string>, k: string, nowMs: int)
    requires k in todo && k in entries
    ensures |SetAside(entries, todo - {k}, nowMs)| ==
      |SetAside(entries, todo, nowMs)| + if Decide(Lookup(entries, k), nowMs).Fresh? then 0 else 1
    ensures |Due(entries, todo - {k}, nowMs)| ==
      |Due(entries, todo, nowMs)| + if Decide(Lookup(entries, k), nowMs).DailyRetry? then 1 else 0
  {
    hide Decide;
    var d := Decide(Lookup(entries, k), nowMs);
    OneMoreMember(SetAside(entries, todo, nowMs), SetAside(entries, todo - {k}, nowMs), k, !d.Fresh?);
    OneMoreMember(Due(entries, todo, nowMs), Due(entries, todo - {k}, nowMs), k, d.DailyRetry?);
  }

  // ---- runs ----

  /** A decision asked for a key; if it allows an attempt, the attempt ends at `endedMs`. */
  datatype Ask = Ask(key: string, askedMs: int, endedMs: int, ok: bool)

  function Next(e: Option<Entry>, a: Ask): Option<Entry> {
    if Decide(e, a.askedMs).Quarantined? then e
    else if a.ok then None
    else Some(Failed(e, a.endedMs).0)
  }

  function Put(entries: Entries, key: string, e: Option<Entry>): Entries {
    match e
    case None => entries - {key}
    case Some(v) => entries[key := v]
  }

  /** The whole store over a run of asks for any keys. */
  function Run(asks: seq<Ask>): Entries {
    if asks == [] then map[]
    else
      var before, a := Run(asks[..|asks| - 1]), asks[|asks| - 1];
      Put(before, a.key, Next(Lookup(before, a.key), a))
  }

  function AsksOf(asks: seq<Ask>, key: string): seq<Ask> {
    if asks == [] then []
    else
      var before, a := AsksOf(asks[..|asks| - 1], key), asks[|asks| - 1];
      if a.key == key then before + [a] else before
  }

  /** The entry of one key, from its own asks alone. */
  function KeyRun(asks: seq<Ask>): Option<Entry> {
    if asks == [] then None else Next(KeyRun(asks[..|asks| - 1]), asks[|asks| - 1])
  }

  /** One batch's failures never hold up another. */
  lemma {:induction false} KeysAreIndependent(asks: seq<Ask>, key: string)
    ensures Lookup(Run(asks), key) == KeyRun(AsksOf(asks, key))
  {
    if asks != [] {
      hide Next;
      var earlier, a := asks[..|asks| - 1], asks[|asks| - 1];
      KeysAreIndependent(earlier, key);
      var own := AsksOf(earlier, key);
      assert (own + [a])[..|own|] == own;
    }
  }

  /** The asks that were allowed, so were attempts. */
  function Tried(asks: seq<Ask>): seq<Ask> {
    if asks == [] then []
    else
      var earlier, a := asks[..|asks| - 1], asks[|asks| - 1];
      if Decide(KeyRun(earlier), a.askedMs).Quarantined? then Tried(earlier) else Tried(earlier) + [a]
  }

  /** Failures since the last success. */
  function FailuresInARow(tried: seq<Ask>): nat {
    if tried == [] || tried[|tried| - 1].ok then 0 else FailuresInARow(tried[..|tried| - 1]) + 1
  }

  /** The clock is positive and does not go back. */
  ghost predicate ClockRuns(asks: seq<Ask>) {
    && (forall i :: 0 <= i < |asks| ==> 0 < asks[i].askedMs <= asks[i].endedMs)
    && (forall i, j :: 0 <= i < j < |asks| ==> asks[i].endedMs <= asks[j].askedMs)
  }

  /** The entry kept for a key says what its attempts amount to. */
  ghost predicate Reflects(e: Option<Entry>, tried: seq<Ask>) {
    var n := FailuresInARow(tried);
    && (n == 0 <==> e.None?)
    && n <= |tried|
    && (n > 0 ==> e.value.failures == n && e.value.lastFailureMs == tried[|tried| - 1].endedMs)
    && (n > 0 ==> (e.value.quarantinedAtMs != 0 <==> n >= 3))
    && (n >= 3 ==> e.value.quarantinedAtMs == tried[|tried| - n + 2].endedMs)
  }

  lemma NextReflects(e: Option<Entry>, tried: seq<Ask>, a: Ask)
    requires Reflects(e, tried) && a.endedMs > 0 && !Decide(e, a.askedMs).Quarantined?
    ensures Reflects(Next(e, a), tried + [a])
    ensures FailuresInARow(tried + [a]) == if a.ok then 0 else FailuresInARow(tried) + 1
  {
    assert (tried + [a])[..|tried|] == tried;
  }

  lemma {:induction false} EntryReflectsAttempts(asks: seq<Ask>)
    requires ClockRuns(asks)
    ensures Reflects(KeyRun(asks), Tried(asks))
  {
    if asks != [] {
      hide Reflects;
      var earlier, a := asks[..|asks| - 1], asks[|asks| - 1];
      EntryReflectsAttempts(earlier);
      if !Decide(KeyRun(earlier), a.askedMs).Quarantined? {
        NextReflects(KeyRun(earlier), Tried(earlier), a);
      }
    } else {
      NothingReflected();
    }
  }

  lemma NothingReflected()
    ensures Reflects(None, [])
  {
  }

  /** A key is quarantined exactly when it has failed at least three times since its last success,
      and is let through exactly when it is not, or a day has passed since its last failure. */
  lemma QuarantinedExactlyWhen(asks: seq<Ask>, key: string, now: int)
    requires ClockRuns(AsksOf(asks, key))
    ensures var e, tried := Lookup(Run(asks), key), Tried(AsksOf(asks, key));
      && ((e.Some? && e.value.quarantinedAtMs != 0) <==> FailuresInARow(tried) >= 3)
      && (Decide(e, now).Quarantined? <==>
            FailuresInARow(tried) >= 3 && now < tried[|tried| - 1].endedMs + 86_400_000)
  {
    KeysAreIndependent(asks, key);
    EntryReflectsAttempts(AsksOf(asks, key));
  }

  /** A failure reports the transition exactly when it is the third in a row: once per quarantine,
      and never for a failed daily retry. */
  lemma {:induction false} TransitionReportedOnce(asks: seq<Ask>, a: Ask)
    requires ClockRuns(asks) && a.endedMs > 0
    requires !Decide(KeyRun(asks), a.askedMs).Quarantined?
    ensures var n := FailuresInARow(Tried(asks)) + 1;
      Failed(KeyRun(asks), a.endedMs).1 == FailureOutcome(n >= 3, n == 3, n)
  {
    EntryReflectsAttempts(asks);
  }

  /** Attempts made while quarantined come at least a day after the failure before them. */
  lemma {:induction false} RetriesAreADayApart(asks: seq<Ask>, i: nat)
    requires ClockRuns(asks) && 0 < i < |Tried(asks)| && FailuresInARow(Tried(asks)[..i]) >= 3
    ensures Tried(asks)[i].askedMs >= Tried(asks)[i - 1].endedMs + 86_400_000
  {
    var earlier, a := asks[..|asks| - 1], asks[|asks| - 1];
    var before := Tried(earlier);
    EntryReflectsAttempts(earlier);
    if i < |before| {
      assert Tried(asks)[..i] == before[..i];
      RetriesAreADayApart(earlier, i);
    } else {
      assert Tried(asks) == before + [a] && Tried(asks)[..i] == before;
    }
  }

  /** What the entry says, whatever the clock does. */
  ghost predicate Counts(e: Option<Entry>, tried: seq<Ask>) {
    var n := FailuresInARow(tried);
    && n <= |tried|
    && (n == 0 <==> e.None?)
    && (n > 0 ==> e.value.failures == n && (e.value.quarantinedAtMs != 0 <==> NoticedFailure(tried)))
  }

  /** One of the failures in a row, from the third on, came at a time other than 0. */
  ghost predicate NoticedFailure(tried: seq<Ask>) {
    exists i :: |tried| - FailuresInARow(tried) + 2 <= i < |tried| && 0 <= i && tried[i].endedMs != 0
  }

  lemma NextCounts(e: Option<Entry>, tried: seq<Ask>, a: Ask)
    requires Counts(e, tried) && !Decide(e, a.askedMs).Quarantined?
    ensures Counts(Next(e, a), tried + [a])
  {
    var more, n := tried + [a], FailuresInARow(tried);
    assert more[..|tried|] == tried;
    if !a.ok {
      assert NoticedFailure(more) <==> NoticedFailure(tried) || (n >= 2 && a.endedMs != 0) by {
        if NoticedFailure(tried) {
          var i :| |tried| - n + 2 <= i < |tried| && 0 <= i && tried[i].endedMs != 0;
          assert more[i].endedMs != 0;
        }
        if n >= 2 && a.endedMs != 0 {
          assert more[|tried|].endedMs != 0;
        }
      }
    }
  }

  lemma {:induction false} EntryCounts(asks: seq<Ask>)
    ensures Counts(KeyRun(asks), Tried(asks))
  {
    if asks != [] {
      hide Counts, Decide;
      var earlier, a := asks[..|asks| - 1], asks[|asks| - 1];
      EntryCounts(earlier);
      if !Decide(KeyRun(earlier), a.askedMs).Quarantined? {
        NextCounts(KeyRun(earlier), Tried(earlier), a);
      } else {
        assert Next(KeyRun(earlier), a) == KeyRun(earlier);
      }
    }
  }

  /** With any clock, a key is quarantined exactly when one of its failures since the last success,
      from the third on, came at a time other than 0: a quarantine made at time 0 reads as none. */
  lemma QuarantineNoticedExactlyWhen(asks: seq<Ask>, key: string)
    ensures var e, tried := Lookup(Run(asks), key), Tried(AsksOf(asks, key));
      (e.Some? && e.value.quarantinedAtMs != 0) <==> NoticedFailure(tried)
  {
    KeysAreIndependent(asks, key);
    EntryCounts(AsksOf(asks, key));
  }

  /** The clock must not read zero: a third failure at time 0 goes unnoticed. */
  lemma TimeZeroIsMistakenForFree()
    ensures Failed(Some(Entry(2, 0, -5)), 0) == (Entry(3, 0, 0), FailureOutcome(false, true, 3))
    ensures Decide(Some(Entry(3, 0, 0)), 1) == Fresh
    ensures Failed(Some(Entry(3, 0, 0)), 1).1.transitioned
  {
  }

  // ---- the key ----

  function QuarantineKey(vault: string, mint: string): string {
    vault + ":" + mint
  }

  lemma NoEarlierColon(vault: string, mint: string, i: nat)
    requires ':' !in vault
    ensures i < |vault| ==> QuarantineKey(vault, mint)[i] != ':'
    ensures QuarantineKey(vault, mint)[|vault|] == ':'
  {
    if i < |vault| {
      assert QuarantineKey(vault, mint)[i] == vault[i];
    }
  }

  /** Addresses hold no colon, so two batches never share a key. */
  lemma QuarantineKeyIsInjective(v: string, m: string, w: string, n: string)
    requires ':' !in v && ':' !in w && QuarantineKey(v, m) == QuarantineKey(w, n)
    ensures v == w && m == n
  {
    NoEarlierColon(v, m, |w|);
    NoEarlierColon(w, n, |v|);
    var key := QuarantineKey(v, m);
    assert v == key[..|v|] && w == key[..|w|];
    assert m == key[|v| + 1..] && n == key[|w| + 1..];
  }
}

/** crank/bot.ts:809-1006: one finalize sweep over the vaults, and what it writes to the
    finalize cache. */
module FinalizeSweep {
  import opened Results
  import opened FinalizeCache

  const FLUSH_EVERY: nat := 200

  datatype Vault = Vault(key: string, gate: GateState)

  /** What a pass reports: transactions sent, token accounts created ahead, and what its scan
      still found. None when the pass threw. */
  type Pass = Option<Report>
  datatype Report = Report(txSent: nat, atasPreCreated: nat, found: int)

  /** The four passes over one vault, and whether a shutdown was requested when each of the
      three checks was made. */
  datatype Scan = Scan(listings: Pass, sweep: Pass, holders: Pass, writers: Pass,
                       stopBefore: bool, stopAfterSweep: bool, stopAfterHolders: bool)

  predicate Idle(p: Pass, countAtas: bool) {
    p.Some? && p.value.found == 0 && p.value.txSent == 0 && (countAtas ==> p.value.atasPreCreated == 0)
  }

  /** All four passes ran, found nothing and did nothing. */
  predicate LooksFinished(s: Scan) {
    && Idle(s.listings, false) && Idle(s.sweep, false) && Idle(s.holders, true) && Idle(s.writers, true)
  }

  /** An empty scan, field by field: nothing found and nothing sent by any of the four passes, and no
      token accounts created ahead by the last two. */
  lemma EmptyScanMeans(s: Scan)
    ensures LooksFinished(s) <==>
      && s.listings.Some? && s.sweep.Some? && s.holders.Some? && s.writers.Some?
      && s.listings.value.found == s.sweep.value.found == s.holders.value.found == s.writers.value.found == 0
      && s.listings.value.txSent + s.sweep.value.txSent + s.holders.value.txSent + s.writers.value.txSent == 0
      && s.holders.value.atasPreCreated + s.writers.value.atasPreCreated == 0
  {
  }

  /** A shutdown was seen while this vault was handled. A pass that throws moves on to the next
      vault before the checks that follow it. */
  predicate StoppedInside(s: Scan) {
    s.stopAfterSweep || (s.holders.Some? && s.stopAfterHolders)
  }

  datatype Tick = Tick(vaults: seq<Vault>, scans: seq<Scan>, now: int, dryRun: bool)

  ghost predicate WellFormed(t: Tick) {
    |t.scans| == |t.vaults|
  }

  /** The vault is skipped on the word of the cache. */
  predicate Skips(t: Tick, marks: Marks, maxAge: int, i: nat)
    requires i < |t.vaults|
  {
    var v := t.vaults[i];
    v.gate.isSettled && MaySuppress(marks, v.key, v.gate, t.now, maxAge)
  }

  /** The vault is settled, not skipped, and its scan ran to the end and found nothing to do. */
  predicate Earns(t: Tick, marks: Marks, maxAge: int, i: nat)
    requires i < |t.vaults| && i < |t.scans|
  {
    var v, s := t.vaults[i], t.scans[i];
    v.gate.isSettled && !MaySuppress(marks, v.key, v.gate, t.now, maxAge) && !t.dryRun && !StoppedInside(s) &&
      LooksFinished(s)
  }

  /** The keys, in order, of the Adds among some events. */
  function Added(events: seq<Event>): seq<string> {
    if events == [] then []
    else
      var before, e := Added(events[..|events| - 1]), events[|events| - 1];
      if e.Add? then before + [e.key] else before
  }

  /** The Adds since the last flush was tried. */
  function Unflushed(events: seq<Event>): nat {
    if events == [] then 0
    else
      match events[|events| - 1]
      case Add(_, _) => Unflushed(events[..|events| - 1]) + 1
      case Flush(_) => 0
      case _ => Unflushed(events[..|events| - 1])
  }

  function Settled(vaults: seq<Vault>): nat {
    if vaults == [] then 0
    else Settled(vaults[..|vaults| - 1]) + if vaults[|vaults| - 1].gate.isSettled then 1 else 0
  }

  function Earners(t: Tick, marks: Marks, maxAge: int, n: nat): seq<string>
    requires n <= |t.vaults| && n <= |t.scans|
  {
    if n == 0 then []
    else
      var before := Earners(t, marks, maxAge, n - 1);
      if Earns(t, marks, maxAge, n - 1) then before + [t.vaults[n - 1].key] else before
  }

  function Skipped(t: Tick, marks: Marks, maxAge: int, n: nat): nat
    requires n <= |t.vaults|
  {
    if n == 0 then 0 else Skipped(t, marks, maxAge, n - 1) + if Skips(t, marks, maxAge, n - 1) then 1 else 0
  }

  /** Events of one sweep: Adds and Flushes, every Add at the sweep's own time. */
  ghost predicate AtTime(events: seq<Event>, now: int) {
    forall e :: e in events ==> (e.Add? && e.now == now) || e.Flush?
  }

  /** The sweep did not touch the entries of keys it has not reached. */
  ghost predicate Untouched(marks: Marks, was: Marks, t: Tick, from: nat)
    requires from <= |t.vaults|
  {
    forall i :: from <= i < |t.vaults| ==>
      var k := t.vaults[i].key;
      (k in marks <==> k in was) && (k in was ==> marks[k] == was[k])
  }

  lemma UntouchedAnswersAlike(marks: Marks, was: Marks, t: Tick, i: nat, maxAge: int)
    requires i < |t.vaults| && Untouched(marks, was, t, i)
    ensures var v := t.vaults[i];
      MaySuppress(marks, v.key, v.gate, t.now, maxAge) == MaySuppress(was, v.key, v.gate, t.now, maxAge)
  {
  }

  lemma AddLeavesOthers(s: State, was: Marks, t: Tick, i: nat, maxAge: int)
    requires i < |t.vaults| && Untouched(s.marks, was, t, i)
    requires DistinctKeys(t.vaults)
    ensures Untouched(Apply(s, Add(t.vaults[i].key, t.now), maxAge, MAX_ENTRIES).marks, was, t, i + 1)
  {
  }

  /** Every prefix of the events leaves at most 200 Adds not yet offered to the file. */
  ghost predicate FlushesOften(events: seq<Event>) {
    forall n :: 0 <= n <= |events| ==> Unflushed(events[..n]) <= 200
  }

  lemma StillFlushesOften(events: seq<Event>, e: Event)
    requires FlushesOften(events) && Unflushed(events + [e]) <= FLUSH_EVERY
    ensures FlushesOften(events + [e])
  {
    forall n | 0 <= n <= |events| + 1 ensures Unflushed((events + [e])[..n]) <= FLUSH_EVERY {
      if n <= |events| {
        assert (events + [e])[..n] == events[..n];
      } else {
        assert (events + [e])[..n] == events + [e];
      }
    }
  }

  datatype Handling = NotSettled | Cached | Stopped | Left | Marked

  /** One vault: what the loop body does with it, and with the cache. */
  method HandleVault(cache: PersistentFinalizeCache, v: Vault, s: Scan, now: int, dryRun: bool) returns (r: Handling)
    requires cache.Valid()
    modifies cache`entries, cache`dirty
    ensures cache.Valid()
    ensures var may := MaySuppress(old(cache.entries), v.key, v.gate, now, cache.maxAgeSec);
      && (r.NotSettled? <==> !v.gate.isSettled)
      && (r.Cached? <==> v.gate.isSettled && may)
      && (r.Stopped? <==> v.gate.isSettled && !may && StoppedInside(s))
      && (r.Marked? <==> v.gate.isSettled && !may && !dryRun && !StoppedInside(s) && LooksFinished(s))
    ensures cache.View() == if r.Marked? then Apply(old(cache.View()), Add(v.key, now), cache.maxAgeSec, MAX_ENTRIES)
      else old(cache.View())
  {
    if !v.gate.isSettled {
      return NotSettled;
    }
    var may := cache.MaySuppressNow(v.key, v.gate, now);
    if may {
      return Cached;
    }
    var listingsProgressed, listingsEmptyScan, sweepProgressed, sweepEmptyScan := false, false, false, false;
    var holderProgressed, holderEmptyScan, writerProgressed, writerEmptyScan := false, false, false, false;
    if s.listings.Some? {
      listingsProgressed := s.listings.value.txSent > 0;
      listingsEmptyScan := s.listings.value.found == 0;
    }
    if s.sweep.Some? {
      sweepProgressed := s.sweep.value.txSent > 0;
      sweepEmptyScan := s.sweep.value.found == 0;
    }
    if s.stopAfterSweep {
      return Stopped;
    }
    if s.holders.None? {
      return Left;
    }
    holderProgressed := s.holders.value.txSent > 0 || s.holders.value.atasPreCreated > 0;
    holderEmptyScan := s.holders.value.found == 0;
    if s.stopAfterHolders {
      return Stopped;
    }
    if s.writers.None? {
      return Left;
    }
    writerProgressed := s.writers.value.txSent > 0 || s.writers.value.atasPreCreated > 0;
    writerEmptyScan := s.writers.value.found == 0;
    if !dryRun && listingsEmptyScan && sweepEmptyScan && holderEmptyScan && writerEmptyScan
      && !listingsProgressed && !sweepProgressed && !holderProgressed && !writerProgressed
    {
      cache.AddMark(v.key, now);
      return Marked;
    }
    return Left;
  }

  /** One sweep. `reached` is how many vaults the loop dealt with in full; the events are what it
      did to the cache. A vault is recorded exactly when it earned it, a skip is one the cache's
      marks at the start of the sweep allow, and every settled vault reached is either skipped or
      considered. `flushOk` says of each flush whether the file could be written. */
  method Sweep(cache: PersistentFinalizeCache, t: Tick, flushOk: nat -> bool)
    returns (cachedDone: nat, considered: nat, reached: nat, ghost events: seq<Event>)
    requires cache.Valid() && WellFormed(t)
    requires DistinctKeys(t.vaults)
    modifies cache
    ensures cache.Valid()
    ensures cache.View() == Run(old(cache.View()), events, cache.maxAgeSec, MAX_ENTRIES)
    ensures FlushesOften(events) && SweepMakes(t, old(cache.entries), cache.maxAgeSec, reached, events)
    ensures cachedDone == Skipped(t, old(cache.entries), cache.maxAgeSec, reached)
    ensures reached == |t.vaults| ==> cachedDone + considered == Settled(t.vaults)
    ensures reached < |t.vaults| ==>
      && (t.scans[reached].stopBefore || StoppedInside(t.scans[reached]))
      && Settled(t.vaults[..reached]) <= cachedDone + considered <= Settled(t.vaults[..reached]) + 1
  {
    hide MaySuppress, Apply, Run, Earners, Skipped, Settled, Added, Unflushed, FlushesOften, Loaded, StoppedInside,
      LooksFinished;
    cachedDone, considered, reached, events := 0, 0, 0, [];
    var flushes, marksSinceFlush := 0, 0;
    ghost var was, start := cache.entries, cache.View();
    StartOfSweep(start, was, t, cache.maxAgeSec);
    while reached < |t.vaults|
      invariant cache.Valid() && 0 <= reached <= |t.vaults| && 0 <= marksSinceFlush < FLUSH_EVERY
      invariant cache.View() == Run(start, events, cache.maxAgeSec, MAX_ENTRIES)
      invariant Untouched(cache.entries, was, t, reached)
      invariant AtTime(events, t.now) && FlushesOften(events) && Unflushed(events) == marksSinceFlush
      invariant Added(events) == Earners(t, was, cache.maxAgeSec, reached)
      invariant cachedDone == Skipped(t, was, cache.maxAgeSec, reached)
      invariant cachedDone + considered == Settled(t.vaults[..reached])
      decreases |t.vaults| - reached
    {
      var v, s := t.vaults[reached], t.scans[reached];
      if s.stopBefore {
        break;
      }
      UntouchedAnswersAlike(cache.entries, was, t, reached, cache.maxAgeSec);
      OneVaultFurther(t, was, cache.maxAgeSec, reached);
      ghost var before := cache.View();
      var r := HandleVault(cache, v, s, t.now, t.dryRun);
      if r.Cached? {
        cachedDone := cachedDone + 1;
      } else if !r.NotSettled? {
        considered := considered + 1;
      }
      if r.Stopped? {
        break;
      }
      if r.Marked? {
        AddLeavesOthers(before, was, t, reached, cache.maxAgeSec);
        events := OneMoreEvent(start, events, Add(v.key, t.now), cache.maxAgeSec);
        marksSinceFlush := marksSinceFlush + 1;
        if marksSinceFlush >= FLUSH_EVERY {
          ghost var marked := cache.View();
          cache.FlushFile(flushOk(flushes));
          FlushKeepsMarks(marked, flushOk(flushes), cache.maxAgeSec);
          events := OneMoreEvent(start, events, Flush(flushOk(flushes)), cache.maxAgeSec);
          flushes := flushes + 1;
          marksSinceFlush := 0;
        }
      }
      reached := reached + 1;
    }
    assert t.vaults[..|t.vaults|] == t.vaults;
    ghost var swept := events;
    var removed := cache.PruneOld(t.now);
    events := OneMoreEvent(start, events, Prune(t.now), cache.maxAgeSec);
    cache.FlushFile(flushOk(flushes));
    events := OneMoreEvent(start, events, Flush(flushOk(flushes)), cache.maxAgeSec);
    assert events[..|events| - 2] == swept;
  }

  /** The events of one whole sweep that started from these marks: the Adds its scans earned among the
      first `reached` vaults, with flushes in between, then a prune and a flush. */
  ghost predicate SweepMakes(t: Tick, marks: Marks, maxAge: int, reached: nat, events: seq<Event>) {
    && WellFormed(t) && DistinctKeys(t.vaults) && reached <= |t.vaults|
    && |events| >= 2 && AtTime(events[..|events| - 2], t.now)
    && events[|events| - 2] == Prune(t.now) && events[|events| - 1].Flush?
    && Added(events) == Earners(t, marks, maxAge, reached)
  }

  ghost predicate DistinctKeys(vaults: seq<Vault>) {
    forall i, j :: 0 <= i < j < |vaults| ==> vaults[i].key != vaults[j].key
  }

  lemma StartOfSweep(start: State, was: Marks, t: Tick, maxAge: int)
    requires WellFormed(t)
    ensures Run(start, [], maxAge, MAX_ENTRIES) == start
    ensures Added([]) == Earners(t, was, maxAge, 0) && Skipped(t, was, maxAge, 0) == 0
    ensures FlushesOften([]) && Unflushed([]) == 0 && Settled(t.vaults[..0]) == 0
  {
  }

  lemma OneVaultFurther(t: Tick, was: Marks, maxAge: int, n: nat)
    requires WellFormed(t) && n < |t.vaults|
    ensures Earners(t, was, maxAge, n + 1) ==
      Earners(t, was, maxAge, n) + if Earns(t, was, maxAge, n) then [t.vaults[n].key] else []
    ensures Skipped(t, was, maxAge, n + 1) == Skipped(t, was, maxAge, n) + if Skips(t, was, maxAge, n) then 1 else 0
    ensures Settled(t.vaults[..n + 1]) == Settled(t.vaults[..n]) + if t.vaults[n].gate.isSettled then 1 else 0
  {
    assert t.vaults[..n + 1][..n] == t.vaults[..n];
  }

  lemma FlushKeepsMarks(s: State, ok: bool, maxAge: int)
    ensures Apply(s, Flush(ok), maxAge, MAX_ENTRIES).marks == s.marks
  {
  }

  lemma OneMoreEvent(start: State, events: seq<Event>, e: Event, maxAge: int) returns (more: seq<Event>)
    requires FlushesOften(events) && (e.Add? ==> Unflushed(events) < FLUSH_EVERY)
    ensures more == events + [e]
    ensures Run(start, more, maxAge, MAX_ENTRIES) ==
      Apply(Run(start, events, maxAge, MAX_ENTRIES), e, maxAge, MAX_ENTRIES)
    ensures Added(more) == if e.Add? then Added(events) + [e.key] else Added(events)
    ensures Unflushed(more) == if e.Add? then Unflushed(events) + 1 else if e.Flush? then 0 else Unflushed(events)
    ensures FlushesOften(more)
  {
    more := events + [e];
    assert more[..|events|] == events;
    assert events[..|events|] == events;
    StillFlushesOften(events, e);
  }

  // ---- many sweeps ----

  /** Some sweep at time `now` scanned this settled vault to the end and found nothing to do. */
  ghost predicate ScannedEmpty(ticks: seq<Tick>, key: string, now: int) {
    exists n, i :: 0 <= n < |ticks| && 0 <= i < |ticks[n].vaults| && i < |ticks[n].scans| &&
      ticks[n].now == now && ticks[n].vaults[i].key == key && ticks[n].vaults[i].gate.isSettled &&
      !ticks[n].dryRun && LooksFinished(ticks[n].scans[i])
  }

  /** Every Add of a run records such a scan. */
  ghost predicate AddsAreEarned(events: seq<Event>, ticks: seq<Tick>) {
    forall e :: e in events && e.Add? ==> ScannedEmpty(ticks, e.key, e.now)
  }

  /** The mark of the first file, or the time of an empty scan. */
  ghost predicate Vouched(key: string, mark: int, saved: Marks, ticks: seq<Tick>) {
    (key in saved && saved[key] == mark) || ScannedEmpty(ticks, key, mark)
  }

  lemma {:induction false} AddedHolds(events: seq<Event>, e: Event)
    requires e in events && e.Add?
    ensures e.key in Added(events)
  {
    var before, last := events[..|events| - 1], events[|events| - 1];
    assert events == before + [last];
    if e in before {
      AddedHolds(before, e);
    }
  }

  lemma {:induction false} EarnerEarned(t: Tick, marks: Marks, maxAge: int, n: nat, key: string) returns (i: nat)
    requires n <= |t.vaults| && n <= |t.scans| && key in Earners(t, marks, maxAge, n)
    ensures i < n && t.vaults[i].key == key && Earns(t, marks, maxAge, i)
  {
    if Earns(t, marks, maxAge, n - 1) && t.vaults[n - 1].key == key {
      i := n - 1;
    } else {
      i := EarnerEarned(t, marks, maxAge, n - 1, key);
    }
  }

  /** Every Add a sweep has made, however far it got, records an empty scan. */
  lemma SweepAddsAreEarned(t: Tick, marks: Marks, maxAge: int, reached: nat, events: seq<Event>, cut: nat,
                           ticks: seq<Tick>)
    requires SweepMakes(t, marks, maxAge, reached, events) && t in ticks && cut <= |events|
    ensures AddsAreEarned(events[..cut], ticks)
  {
    forall e | e in events[..cut] && e.Add? ensures ScannedEmpty(ticks, e.key, e.now) {
      assert events == events[..|events| - 2] + [events[|events| - 2], events[|events| - 1]];
      AddedHolds(events, e);
      var i := EarnerEarned(t, marks, maxAge, reached, e.key);
      var n :| 0 <= n < |ticks| && ticks[n] == t;
      assert ticks[n].vaults[i].key == e.key;
    }
  }

  /** A sweep of a longer run: the events it would make if left alone, how many of them it made, and
      whether the process then died, to start again from the file. */
  datatype Leg = Leg(t: Tick, reached: nat, events: seq<Event>, cut: nat, crashed: bool)

  function Made(leg: Leg): seq<Event>
    requires leg.cut <= |leg.events|
  {
    leg.events[..leg.cut] + if leg.crashed then [Restart] else []
  }

  ghost predicate CutsFit(legs: seq<Leg>) {
    forall i :: 0 <= i < |legs| ==> legs[i].cut <= |legs[i].events|
  }

  /** All events of a run, in order. */
  function Played(legs: seq<Leg>): seq<Event>
    requires CutsFit(legs)
  {
    if legs == [] then [] else Played(legs[..|legs| - 1]) + Made(legs[|legs| - 1])
  }

  function Ticks(legs: seq<Leg>): seq<Tick> {
    seq(|legs|, i requires 0 <= i < |legs| => legs[i].t)
  }

  /** A run that starts from the marks of a file: each leg's events are those of a sweep from the marks
      it met, and only a crash, or the present moment, cuts a sweep short. */
  ghost predicate Lived(saved: Marks, legs: seq<Leg>, maxAge: int) {
    && CutsFit(legs)
    && forall i :: 0 <= i < |legs| ==>
         && SweepMakes(legs[i].t, MarksMet(saved, legs, i, maxAge), maxAge, legs[i].reached, legs[i].events)
         && (legs[i].cut == |legs[i].events| || legs[i].crashed || i == |legs| - 1)
  }

  ghost function MarksMet(saved: Marks, legs: seq<Leg>, i: nat, maxAge: int): Marks
    requires CutsFit(legs) && i <= |legs|
  {
    Run(Fresh(saved), Played(legs[..i]), maxAge, MAX_ENTRIES).marks
  }

  /** Every Add of every run is an earned one. */
  lemma {:induction false} RunAddsAreEarned(saved: Marks, legs: seq<Leg>, n: nat, maxAge: int)
    requires Lived(saved, legs, maxAge) && n <= |legs|
    ensures AddsAreEarned(Played(legs[..n]), Ticks(legs))
  {
    hide SweepMakes, MarksMet, AddsAreEarned, Made;
    if n == 0 {
      assert AddsAreEarned([], Ticks(legs)) by { NoAddsAreEarned(Ticks(legs)); }
    } else {
      var leg, ticks := legs[n - 1], Ticks(legs);
      RunAddsAreEarned(saved, legs, n - 1, maxAge);
      assert legs[..n][..n - 1] == legs[..n - 1];
      assert ticks[n - 1] == leg.t;
      SweepAddsAreEarned(leg.t, MarksMet(saved, legs, n - 1, maxAge), maxAge, leg.reached, leg.events, leg.cut, ticks);
      JoinEarned(Played(legs[..n - 1]), leg, ticks);
    }
  }

  lemma NoAddsAreEarned(ticks: seq<Tick>)
    ensures AddsAreEarned([], ticks)
  {
  }

  lemma JoinEarned(before: seq<Event>, leg: Leg, ticks: seq<Tick>)
    requires leg.cut <= |leg.events| && AddsAreEarned(before, ticks) && AddsAreEarned(leg.events[..leg.cut], ticks)
    ensures AddsAreEarned(before + Made(leg), ticks)
  {
    hide ScannedEmpty;
    assert forall e :: e in Made(leg) && e.Add? ==> e in leg.events[..leg.cut];
  }

  /** Over any run of sweeps, failed flushes, crashes in mid-sweep and reloads, a vault is skipped only
      if it is settled and empty now, and either some sweep of the run at most `maxAge` before scanned
      it and found nothing left to do, or the file the run started from said so at such a time. */
  lemma SkipsAreEarned(saved: Marks, legs: seq<Leg>, key: string, gate: GateState, now: int, maxAge: int)
    requires Lived(saved, legs, maxAge)
    requires MaySuppress(Run(Fresh(saved), Played(legs), maxAge, MAX_ENTRIES).marks, key, gate, now, maxAge)
    ensures gate.isSettled && gate.collateralRemaining <= 0
    ensures exists mark :: 0 < mark <= now <= mark + maxAge && Vouched(key, mark, saved, Ticks(legs))
  {
    assert legs[..|legs|] == legs;
    RunAddsAreEarned(saved, legs, |legs|, maxAge);
    SuppressionIsBacked(saved, Played(legs), key, gate, now, maxAge, MAX_ENTRIES);
    var mark :| 0 < mark <= now <= mark + maxAge && Traced(key, mark, saved, Played(legs));
    assert Vouched(key, mark, saved, Ticks(legs));
  }
}

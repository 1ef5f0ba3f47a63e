/** crank/finalizeCache.ts: the file-backed cache of vaults that looked finished. Membership alone
    never lets a scan be skipped; the live account and the age of the mark are asked as well. */
module FinalizeCache {
  import opened Results

  const MAX_ENTRIES: nat := 100_000

  // ---- the kernel ----

  /** The live facts that can veto a suppression. */
  datatype GateState = GateState(isSettled: bool, collateralRemaining: int)

  /** `mark` is None for a missing entry, or one whose mark is not a finite number. */
  predicate EntryMaySuppressScan(mark: Option<int>, gate: GateState, now: int, maxAge: int) {
    if mark.None? then false
    else if !gate.isSettled then false
    else if gate.collateralRemaining > 0 then false
    else if mark.value <= 0 then false
    else if mark.value > now then false
    else if now - mark.value > maxAge then false
    else true
  }

  type Marks = map<string, int>

  predicate MaySuppress(marks: Marks, key: string, gate: GateState, now: int, maxAge: int) {
    EntryMaySuppressScan(if key in marks then Some(marks[key]) else None, gate, now, maxAge)
  }

  // ---- the file ----

  /** A saved entry's mark is None when it is not a finite number. */
  datatype File = Missing | Unreadable | Unrecognised | Saved(entries: seq<(string, Option<int>)>)

  /** Entries are read in file order until `cap` of them have been accepted. */
  function Read(entries: seq<(string, Option<int>)>, cap: nat): (Marks, nat) {
    if entries == [] then (map[], 0)
    else
      var (marks, loaded) := Read(entries[..|entries| - 1], cap);
      var e := entries[|entries| - 1];
      if loaded < cap && e.1.Some? then (marks[e.0 := e.1.value], loaded + 1) else (marks, loaded)
  }

  function Loaded(file: File, cap: nat): Marks {
    if file.Saved? then Read(file.entries, cap).0 else map[]
  }

  lemma {:induction false} ReadIsBounded(entries: seq<(string, Option<int>)>, cap: nat)
    ensures |Read(entries, cap).0| <= Read(entries, cap).1 <= cap
  {
    if entries != [] {
      ReadIsBounded(entries[..|entries| - 1], cap);
    }
  }

  ghost predicate Distinct(entries: seq<(string, Option<int>)>) {
    forall i, j :: 0 <= i < j < |entries| ==> entries[i].0 != entries[j].0
  }

  /** A list of the marks, each once, in any order: what a flush writes. */
  ghost predicate Lists(entries: seq<(string, Option<int>)>, marks: Marks) {
    && Distinct(entries)
    && |entries| == |marks|
    && (forall k :: k in marks ==> (k, Some(marks[k])) in entries)
    && (forall e :: e in entries ==> e.0 in marks && e.1 == Some(marks[e.0]))
  }

  lemma {:induction false} ReadAll(entries: seq<(string, Option<int>)>, cap: nat)
    requires Distinct(entries) && |entries| <= cap && forall e :: e in entries ==> e.1.Some?
    ensures Read(entries, cap).1 == |entries|
    ensures forall k :: k in Read(entries, cap).0 ==> (k, Some(Read(entries, cap).0[k])) in entries
    ensures forall e :: e in entries ==> e.0 in Read(entries, cap).0 && Some(Read(entries, cap).0[e.0]) == e.1
  {
    if entries != [] {
      var before, e := entries[..|entries| - 1], entries[|entries| - 1];
      assert entries == before + [e];
      ReadAll(before, cap);
    }
  }

  /** Reading back a written file gives exactly the marks that were written, in whatever order
      they come: the limit on entries costs nothing. */
  lemma LoadReadsBack(entries: seq<(string, Option<int>)>, marks: Marks, cap: nat)
    requires Lists(entries, marks) && |marks| <= cap
    ensures Loaded(Saved(entries), cap) == marks
  {
    ReadAll(entries, cap);
    var read := Read(entries, cap).0;
    forall k ensures k in read <==> k in marks {
    }
  }

  // ---- the cache ----

  /** The marks in memory, whether they may differ from the file, and the marks in the file. */
  datatype State = State(marks: Marks, dirty: bool, saved: Marks)

  datatype Event = Add(key: string, now: int) | Prune(now: int) | Flush(ok: bool) | Restart

  function Pruned(marks: Marks, now: int, maxAge: int): Marks {
    map k | k in marks && now - marks[k] <= maxAge :: marks[k]
  }

  function Apply(s: State, e: Event, maxAge: int, cap: nat): State {
    match e
    case Add(key, now) =>
      if |s.marks| >= cap && key !in s.marks then s else s.(marks := s.marks[key := now], dirty := true)
    case Prune(now) =>
      var kept := Pruned(s.marks, now, maxAge);
      s.(marks := kept, dirty := s.dirty || kept != s.marks)
    case Flush(ok) =>
      if s.dirty && ok then s.(dirty := false, saved := s.marks) else s
    case Restart =>
      Fresh(s.saved)
  }

  /** The state on start, from what the file holds. */
  function Fresh(saved: Marks): State {
    State(saved, false, saved)
  }

  /** What each event does to the marks: an Add is refused exactly when the cache is full and the key is
      new; a Prune drops exactly the marks past the age; a Flush that succeeds leaves the file equal to
      the marks and the cache clean; a Restart starts clean from the file. */
  lemma EventMeans(s: State, maxAge: int, cap: nat, key: string, now: int, k: string)
    ensures var r := Apply(s, Add(key, now), maxAge, cap);
      && (|s.marks| < cap || key in s.marks ==> r.dirty && key in r.marks && r.marks[key] == now)
      && (|s.marks| >= cap && key !in s.marks ==> r == s)
      && (k != key ==> (k in r.marks <==> k in s.marks) && (k in r.marks ==> r.marks[k] == s.marks[k]))
    ensures var r := Apply(s, Prune(now), maxAge, cap);
      && (k in r.marks <==> k in s.marks && now <= s.marks[k] + maxAge)
      && (k in r.marks ==> r.marks[k] == s.marks[k])
      && (k in s.marks && k !in r.marks ==> r.dirty)
    ensures var r := Apply(s, Flush(true), maxAge, cap);
      !r.dirty && r.marks == s.marks && (s.dirty ==> r.saved == s.marks)
    ensures Apply(s, Flush(false), maxAge, cap) == s
    ensures var r := Apply(s, Restart, maxAge, cap); r.marks == s.saved == r.saved && !r.dirty
  {
  }

  class PersistentFinalizeCache {
    var entries: Marks
    var dirty: bool
    var file: File
    const maxAgeSec: int

    ghost predicate Valid()
      reads this
    {
      |entries| <= MAX_ENTRIES
    }

    ghost function View(): State
      reads this
    {
      State(entries, dirty, Loaded(file, MAX_ENTRIES))
    }

    constructor Load(file: File, maxAgeSec: int)
      ensures Valid() && this.file == file && this.maxAgeSec == maxAgeSec
      ensures View() == Fresh(Loaded(file, 100_000))
    {
      this.file, this.maxAgeSec, dirty := file, maxAgeSec, false;
      var marks: Marks := map[];
      if file.Saved? {
        var loaded, i := 0, 0;
        ReadIsBounded(file.entries, MAX_ENTRIES);
        while i < |file.entries|
          invariant 0 <= i <= |file.entries| && loaded <= MAX_ENTRIES
          invariant (marks, loaded) == Read(file.entries[..i], MAX_ENTRIES)
        {
          if loaded >= MAX_ENTRIES {
            FullStaysFull(file.entries, i, MAX_ENTRIES);
            break;
          }
          assert file.entries[..i + 1][..i] == file.entries[..i];
          var e := file.entries[i];
          if e.1.Some? {
            marks := marks[e.0 := e.1.value];
            loaded := loaded + 1;
          }
          i := i + 1;
        }
        assert file.entries[..|file.entries|] == file.entries;
      }
      entries := marks;
    }

    /** True exactly for a vault that is settled, holds no collateral, and was marked at a positive
        time that is neither in the future nor more than the trust window ago. */
    method MaySuppressNow(key: string, gate: GateState, now: int) returns (skip: bool)
      ensures skip <==>
        && gate.isSettled && gate.collateralRemaining <= 0
        && key in entries && 0 < entries[key] <= now <= entries[key] + maxAgeSec
      ensures skip == MaySuppress(entries, key, gate, now, maxAgeSec)
    {
      skip := EntryMaySuppressScan(if key in entries then Some(entries[key]) else None, gate, now, maxAgeSec);
    }

    method AddMark(key: string, now: int)
      requires Valid()
      modifies `entries, `dirty
      ensures Valid() && View() == Apply(old(View()), Add(key, now), maxAgeSec, MAX_ENTRIES)
    {
      if |entries| >= MAX_ENTRIES && key !in entries {
        return;
      }
      SizeOfUpdate(entries, key, now);
      entries := entries[key := now];
      dirty := true;
    }

    method PruneOld(now: int) returns (removed: nat)
      requires Valid()
      modifies `entries, `dirty
      ensures Valid() && View() == Apply(old(View()), Prune(now), maxAgeSec, MAX_ENTRIES)
      ensures removed == |old(entries)| - |entries|
    {
      hide Loaded, Pruned;
      removed := 0;
      ghost var was := entries;
      var left := entries.Keys;
      while left != {}
        invariant left <= entries.Keys && dirty == old(dirty)
        invariant removed == |was| - |entries|
        invariant PrunedSoFar(entries, was, left, now, maxAgeSec)
        decreases left
      {
        var k :| k in left;
        if now - entries[k] > maxAgeSec {
          SizeOfRemoval(entries, k);
          entries := entries - {k};
          removed := removed + 1;
        }
        left := left - {k};
      }
      PrunedAll(entries, was, now, maxAgeSec);
      if removed > 0 {
        dirty := true;
      }
    }

    /** `ok` says whether the temporary file could be written and renamed over the old one. */
    method FlushFile(ok: bool)
      requires Valid()
      modifies `dirty, `file
      ensures Valid() && View() == Apply(old(View()), Flush(ok), maxAgeSec, MAX_ENTRIES)
    {
      if !dirty {
        return;
      }
      var payload := ListEntries();
      if ok {
        file := Saved(payload);
        LoadReadsBack(payload, entries, MAX_ENTRIES);
        dirty := false;
      }
    }

    method ListEntries() returns (payload: seq<(string, Option<int>)>)
      ensures Lists(payload, entries)
    {
      payload := [];
      var todo := entries;
      while todo != map[]
        invariant Distinct(payload) && |payload| + |todo| == |entries|
        invariant forall k :: k in todo ==> k in entries && todo[k] == entries[k]
        invariant forall e :: e in payload ==> e.0 in entries && e.0 !in todo && e.1 == Some(entries[e.0])
        invariant forall k :: k in entries && k !in todo ==> (k, Some(entries[k])) in payload
        decreases |todo|
      {
        var k :| k in todo;
        SizeOfRemoval(todo, k);
        payload := payload + [(k, Some(todo[k]))];
        todo := todo - {k};
      }
    }
  }

  /** All expired marks but those in `left` are gone, and nothing else is. */
  ghost predicate PrunedSoFar(m: Marks, was: Marks, left: set<string>, now: int, maxAge: int) {
    && (forall k :: k in m ==> k in was && m[k] == was[k])
    && (forall k :: k in was && k !in left ==> (k in m <==> now - was[k] <= maxAge))
    && (forall k :: k in was && k in left ==> k in m)
  }

  lemma PrunedAll(m: Marks, was: Marks, now: int, maxAge: int)
    requires PrunedSoFar(m, was, {}, now, maxAge)
    ensures m == Pruned(was, now, maxAge) && |m| <= |was|
    ensures |m| == |was| ==> m == was
  {
    SmallerDomain(m, was);
  }

  lemma FullStaysFull(entries: seq<(string, Option<int>)>, i: nat, cap: nat)
    requires i <= |entries| && Read(entries[..i], cap).1 >= cap
    ensures Read(entries, cap) == Read(entries[..i], cap)
    decreases |entries| - i
  {
    if i == |entries| {
      assert entries[..i] == entries;
    } else {
      assert entries[..i + 1][..i] == entries[..i];
      FullStaysFull(entries, i + 1, cap);
    }
  }

  lemma SizeOfUpdate(m: Marks, key: string, v: int)
    ensures |m[key := v]| == if key in m then |m| else |m| + 1
  {
    assert m[key := v].Keys == m.Keys + {key};
  }

  lemma SizeOfRemoval(m: Marks, key: string)
    requires key in m
    ensures |m - {key}| == |m| - 1
  {
    assert (m - {key}).Keys == m.Keys - {key};
  }

  // ---- runs ----

  function Run(s: State, events: seq<Event>, maxAge: int, cap: nat): State {
    if events == [] then s
    else Apply(Run(s, events[..|events| - 1], maxAge, cap), events[|events| - 1], maxAge, cap)
  }

  /** The clock reading of an event; a flush and a restart read no clock. */
  function TimeOf(e: Event, earlier: int): int {
    match e
    case Add(_, now) => now
    case Prune(now) => now
    case _ => earlier
  }

  /** The last clock reading of a run that started at `t0`. */
  function Clock(events: seq<Event>, t0: int): int {
    if events == [] then t0 else TimeOf(events[|events| - 1], Clock(events[..|events| - 1], t0))
  }

  ghost predicate ClockRuns(events: seq<Event>, t0: int) {
    events == [] || (ClockRuns(events[..|events| - 1], t0) && Clock(events[..|events| - 1], t0) <= Clock(events, t0))
  }

  /** A mark comes from the file the run started with, or from an Add at that time. */
  ghost predicate Traced(key: string, mark: int, saved: Marks, events: seq<Event>) {
    (key in saved && saved[key] == mark) || Add(key, mark) in events
  }

  /** Each mark after an event was there before it, in memory or on file, or is what it adds. */
  lemma ApplyTraces(s: State, e: Event, key: string, maxAge: int, cap: nat)
    ensures var next := Apply(s, e, maxAge, cap);
      && (key in next.marks ==>
            || (key in s.marks && s.marks[key] == next.marks[key])
            || (key in s.saved && s.saved[key] == next.marks[key])
            || e == Add(key, next.marks[key]))
      && (key in next.saved ==>
            || (key in s.marks && s.marks[key] == next.saved[key])
            || (key in s.saved && s.saved[key] == next.saved[key]))
  {
  }

  lemma {:induction false} MarksAreTraced(saved: Marks, events: seq<Event>, key: string, maxAge: int, cap: nat)
    ensures var s := Run(Fresh(saved), events, maxAge, cap);
      && (key in s.marks ==> Traced(key, s.marks[key], saved, events))
      && (key in s.saved ==> Traced(key, s.saved[key], saved, events))
  {
    if events != [] {
      hide Apply;
      var before, e := events[..|events| - 1], events[|events| - 1];
      MarksAreTraced(saved, before, key, maxAge, cap);
      ApplyTraces(Run(Fresh(saved), before, maxAge, cap), e, key, maxAge, cap);
      assert events == before + [e];
    }
  }

  /** Whatever was added, pruned, flushed, lost or reloaded, a scan is skipped only for a vault
      that is settled and holds no collateral now, on the word of one observation at most
      `maxAge` old: an Add of this run, or a mark of the file it started from. */
  lemma SuppressionIsBacked(saved: Marks, events: seq<Event>, key: string, gate: GateState, now: int, maxAge: int,
                            cap: nat)
    requires MaySuppress(Run(Fresh(saved), events, maxAge, cap).marks, key, gate, now, maxAge)
    ensures gate.isSettled && gate.collateralRemaining <= 0
    ensures exists mark :: 0 < mark <= now <= mark + maxAge && Traced(key, mark, saved, events)
  {
    MarksAreTraced(saved, events, key, maxAge, cap);
  }

  /** Memory differs from the file only while the cache is dirty, and neither ever outgrows the
      limit. So a crash straight after a flush that succeeded loses nothing. */
  lemma {:induction false} CleanMeansSaved(saved: Marks, events: seq<Event>, maxAge: int, cap: nat)
    requires |saved| <= cap
    ensures var s := Run(Fresh(saved), events, maxAge, cap);
      && (!s.dirty ==> s.marks == s.saved)
      && |s.marks| <= cap && |s.saved| <= cap
      && Apply(Apply(s, Flush(true), maxAge, cap), Restart, maxAge, cap) == Fresh(s.marks)
  {
    if events != [] {
      var before, e := events[..|events| - 1], events[|events| - 1];
      CleanMeansSaved(saved, before, maxAge, cap);
      var s := Run(Fresh(saved), before, maxAge, cap);
      match e {
        case Add(key, now) => SizeOfUpdate(s.marks, key, now);
        case Prune(now) => PrunedIsSmaller(s.marks, now, maxAge);
        case Flush(_) =>
        case Restart =>
      }
    }
  }

  lemma PrunedIsSmaller(m: Marks, now: int, maxAge: int)
    ensures |Pruned(m, now, maxAge)| <= |m|
  {
    SmallerDomain(Pruned(m, now, maxAge), m);
  }

  lemma SmallerDomain(a: Marks, b: Marks)
    requires a.Keys <= b.Keys
    ensures |a| <= |b|
    ensures (exists k :: k in b && k !in a) ==> |a| < |b|
  {
    assert |b.Keys - a.Keys| == |b.Keys| - |a.Keys| by {
      assert a.Keys + (b.Keys - a.Keys) == b.Keys;
    }
    if k :| k in b && k !in a {
      assert k in b.Keys - a.Keys;
    }
  }

  /** Memory and file both hold a mark of the key that is `t` or later, and not in the future. */
  ghost predicate Honours(s: State, key: string, t: int, now: int) {
    && key in s.marks && t <= s.marks[key] <= now
    && key in s.saved && t <= s.saved[key] <= now
  }

  lemma StepHonours(s: State, e: Event, key: string, t: int, was: int, now: int, maxAge: int, cap: nat)
    requires Honours(s, key, t, was) && t <= was <= now == TimeOf(e, was) && now - t <= maxAge
    ensures Honours(Apply(s, e, maxAge, cap), key, t, now)
  {
  }

  lemma {:induction false} RunHonours(s: State, events: seq<Event>, key: string, t: int, maxAge: int, cap: nat)
    requires Honours(s, key, t, t) && ClockRuns(events, t) && Clock(events, t) - t <= maxAge
    ensures Honours(Run(s, events, maxAge, cap), key, t, Clock(events, t)) && t <= Clock(events, t)
  {
    if events != [] {
      hide Apply, Honours;
      var before, e := events[..|events| - 1], events[|events| - 1];
      RunHonours(s, before, key, t, maxAge, cap);
      StepHonours(Run(s, before, maxAge, cap), e, key, t, Clock(before, t), Clock(events, t), maxAge, cap);
    }
  }

  /** And the cache does its job: a mark that was accepted and flushed saves every scan of a settled,
      empty vault for the next `maxAge`, whatever is added, pruned, flushed or reloaded after it. */
  lemma FlushedMarkIsHonoured(s: State, key: string, t: int, after: seq<Event>, gate: GateState, now: int,
                              maxAge: int, cap: nat)
    requires t > 0 && (key in s.marks || |s.marks| < cap)
    requires ClockRuns(after, t) && Clock(after, t) <= now <= t + maxAge
    requires gate.isSettled && gate.collateralRemaining <= 0
    ensures var flushed := Apply(Apply(s, Add(key, t), maxAge, cap), Flush(true), maxAge, cap);
      MaySuppress(Run(flushed, after, maxAge, cap).marks, key, gate, now, maxAge)
  {
    RunHonours(Apply(Apply(s, Add(key, t), maxAge, cap), Flush(true), maxAge, cap), after, key, t, maxAge, cap);
  }

  // ---- pruning ----

  /** The same run without its prunes. */
  function Unpruned(events: seq<Event>): seq<Event> {
    if events == [] then []
    else
      var before, e := Unpruned(events[..|events| - 1]), events[|events| - 1];
      if e.Prune? then before else before + [e]
  }

  /** `p` is `u` less some entries that had expired by `now`. */
  ghost predicate Trimmed(p: Marks, u: Marks, now: int, maxAge: int) {
    && (forall k :: k in p ==> k in u && u[k] == p[k])
    && (forall k :: k in u && k !in p ==> now - u[k] > maxAge)
  }

  /** The one way pruning can matter: an Add that the unpruned cache refuses for being full of
      entries, some of which a prune has dropped. */
  ghost predicate Crowded(saved: Marks, events: seq<Event>, n: nat, maxAge: int, cap: nat)
    requires n < |events|
  {
    var p := Run(Fresh(saved), events[..n], maxAge, cap);
    var u := Run(Fresh(saved), Unpruned(events[..n]), maxAge, cap);
    events[n].Add? && |u.marks| >= cap && events[n].key !in u.marks && |p.marks| < cap
  }

  /** At every point of a run, every question asked from then on gets the same answer with and
      without the prunes so far. */
  ghost predicate PruningInvisible(saved: Marks, events: seq<Event>, t0: int, maxAge: int, cap: nat) {
    forall n: nat, key, gate, now :: n <= |events| && Clock(events[..n], t0) <= now ==>
      MaySuppress(Run(Fresh(saved), events[..n], maxAge, cap).marks, key, gate, now, maxAge) ==
      MaySuppress(Run(Fresh(saved), Unpruned(events[..n]), maxAge, cap).marks, key, gate, now, maxAge)
  }

  ghost predicate Corresponds(p: State, u: State, now: int, maxAge: int, cap: nat) {
    && Trimmed(p.marks, u.marks, now, maxAge) && Trimmed(p.saved, u.saved, now, maxAge)
    && (!p.dirty ==> p.marks == p.saved) && (!u.dirty ==> u.marks == u.saved)
    && |u.marks| <= cap
  }

  lemma TrimmedAdd(p: Marks, u: Marks, key: string, was: int, now: int, maxAge: int, cap: nat)
    requires Trimmed(p, u, was, maxAge) && was <= now && |u| <= cap
    requires |u| >= cap && key !in u ==> |p| >= cap
    ensures (|p| >= cap && key !in p) <==> (|u| >= cap && key !in u)
    ensures Trimmed(p[key := now], u[key := now], now, maxAge)
  {
    SmallerDomain(p, u);
  }

  lemma TrimmedPrune(p: Marks, u: Marks, was: int, now: int, maxAge: int)
    requires Trimmed(p, u, was, maxAge) && was <= now
    ensures Trimmed(Pruned(p, now, maxAge), u, now, maxAge) && Trimmed(p, u, now, maxAge)
  {
  }

  lemma StepCorresponds(p: State, u: State, e: Event, was: int, now: int, maxAge: int, cap: nat)
    requires Corresponds(p, u, was, maxAge, cap) && was <= now && now == TimeOf(e, was)
    requires e.Add? && |u.marks| >= cap && e.key !in u.marks ==> |p.marks| >= cap
    requires |u.saved| <= cap
    ensures Corresponds(Apply(p, e, maxAge, cap), if e.Prune? then u else Apply(u, e, maxAge, cap), now, maxAge, cap)
  {
    hide Trimmed, Pruned;
    TrimmedPrune(p.marks, u.marks, was, now, maxAge);
    TrimmedPrune(p.saved, u.saved, was, now, maxAge);
    if e.Add? {
      TrimmedAdd(p.marks, u.marks, e.key, was, now, maxAge, cap);
      SizeOfUpdate(u.marks, e.key, now);
    }
  }

  lemma {:induction false} RunCorresponds(saved: Marks, events: seq<Event>, t0: int, maxAge: int, cap: nat)
    requires |saved| <= cap && ClockRuns(events, t0)
    requires forall n :: 0 <= n < |events| ==> !Crowded(saved, events, n, maxAge, cap)
    ensures Corresponds(Run(Fresh(saved), events, maxAge, cap), Run(Fresh(saved), Unpruned(events), maxAge, cap),
                        Clock(events, t0), maxAge, cap)
  {
    if events != [] {
      var before, e := events[..|events| - 1], events[|events| - 1];
      forall n | 0 <= n < |before| ensures !Crowded(saved, before, n, maxAge, cap) {
        assert events[..n] == before[..n] && !Crowded(saved, events, n, maxAge, cap);
      }
      RunCorresponds(saved, before, t0, maxAge, cap);
      var p, u := Run(Fresh(saved), before, maxAge, cap), Run(Fresh(saved), Unpruned(before), maxAge, cap);
      assert !Crowded(saved, events, |before|, maxAge, cap);
      CleanMeansSaved(saved, Unpruned(before), maxAge, cap);
      hide Apply, Corresponds, Fresh;
      StepCorresponds(p, u, e, Clock(before, t0), Clock(events, t0), maxAge, cap);
      var all := Unpruned(before) + [e];
      assert all[..|all| - 1] == Unpruned(before);
    }
  }

  lemma TrimmedAnswersAlike(p: Marks, u: Marks, was: int, key: string, gate: GateState, now: int, maxAge: int)
    requires Trimmed(p, u, was, maxAge) && was <= now
    ensures MaySuppress(p, key, gate, now, maxAge) == MaySuppress(u, key, gate, now, maxAge)
  {
  }

  lemma {:induction false} PrefixRuns(events: seq<Event>, n: nat, t0: int)
    requires ClockRuns(events, t0) && n <= |events|
    ensures ClockRuns(events[..n], t0)
  {
    if n < |events| {
      PrefixRuns(events[..|events| - 1], n, t0);
      assert events[..|events| - 1][..n] == events[..n];
    } else {
      assert events[..n] == events;
    }
  }

  /** A crowded Add is accepted by the pruned cache only, which will then skip the vault that
      the unpruned one scans. */
  lemma CrowdingShows(saved: Marks, events: seq<Event>, n: nat, maxAge: int, cap: nat)
    requires n < |events| && Crowded(saved, events, n, maxAge, cap) && maxAge >= 0 && events[n].now > 0
    ensures var key, now := events[n].key, events[n].now;
      && MaySuppress(Run(Fresh(saved), events[..n + 1], maxAge, cap).marks, key, GateState(true, 0), now, maxAge)
      && !MaySuppress(Run(Fresh(saved), Unpruned(events[..n + 1]), maxAge, cap).marks, key, GateState(true, 0), now,
                      maxAge)
  {
    var before := events[..n];
    assert events[..n + 1][..n] == before;
    var all := Unpruned(before) + [events[n]];
    assert all[..|all| - 1] == Unpruned(before);
  }

  /** Pruning never changes a later answer exactly when no Add is crowded. */
  lemma PruningInvisibleExactlyWhen(saved: Marks, events: seq<Event>, t0: int, maxAge: int, cap: nat)
    requires |saved| <= cap && ClockRuns(events, t0) && t0 > 0 && maxAge >= 0
    ensures PruningInvisible(saved, events, t0, maxAge, cap) <==>
      forall n :: 0 <= n < |events| ==> !Crowded(saved, events, n, maxAge, cap)
  {
    hide Crowded, Unpruned, Apply;
    if forall n :: 0 <= n < |events| ==> !Crowded(saved, events, n, maxAge, cap) {
      forall n: nat, key, gate, now | n <= |events| && Clock(events[..n], t0) <= now
        ensures MaySuppress(Run(Fresh(saved), events[..n], maxAge, cap).marks, key, gate, now, maxAge) ==
          MaySuppress(Run(Fresh(saved), Unpruned(events[..n]), maxAge, cap).marks, key, gate, now, maxAge)
      {
        UncrowdedAnswersAlike(saved, events, n, t0, key, gate, now, maxAge, cap);
      }
    } else {
      var n :| 0 <= n < |events| && Crowded(saved, events, n, maxAge, cap);
      assert events[n].Add? by {
        CrowdedIsAdd(saved, events, n, maxAge, cap);
      }
      PrefixRuns(events, n + 1, t0);
      var upTo := events[..n + 1];
      ClockIsPositive(upTo, t0);
      CrowdingShows(saved, events, n, maxAge, cap);
      assert Clock(upTo, t0) == events[n].now;
      assert !PruningInvisible(saved, events, t0, maxAge, cap);
    }
  }

  lemma CrowdedIsAdd(saved: Marks, events: seq<Event>, n: nat, maxAge: int, cap: nat)
    requires n < |events| && Crowded(saved, events, n, maxAge, cap)
    ensures events[n].Add?
  {
  }

  lemma {:induction false} ClockIsPositive(events: seq<Event>, t0: int)
    requires ClockRuns(events, t0) && t0 > 0
    ensures Clock(events, t0) > 0
  {
    if events != [] {
      ClockIsPositive(events[..|events| - 1], t0);
    }
  }

  lemma UncrowdedAnswersAlike(saved: Marks, events: seq<Event>, n: nat, t0: int, key: string, gate: GateState,
                              now: int, maxAge: int, cap: nat)
    requires |saved| <= cap && ClockRuns(events, t0) && n <= |events| && Clock(events[..n], t0) <= now
    requires forall i :: 0 <= i < |events| ==> !Crowded(saved, events, i, maxAge, cap)
    ensures MaySuppress(Run(Fresh(saved), events[..n], maxAge, cap).marks, key, gate, now, maxAge) ==
      MaySuppress(Run(Fresh(saved), Unpruned(events[..n]), maxAge, cap).marks, key, gate, now, maxAge)
  {
    PrefixRuns(events, n, t0);
    forall i | 0 <= i < n ensures !Crowded(saved, events[..n], i, maxAge, cap) {
      assert events[..n][..i] == events[..i] && !Crowded(saved, events, i, maxAge, cap);
    }
    RunCorresponds(saved, events[..n], t0, maxAge, cap);
    TrimmedAnswersAlike(Run(Fresh(saved), events[..n], maxAge, cap).marks,
                        Run(Fresh(saved), Unpruned(events[..n]), maxAge, cap).marks,
                        Clock(events[..n], t0), key, gate, now, maxAge);
  }

  /** A file of `n` entries, all marked at second 1. */
  function FullFile(n: nat): Marks {
    if n == 0 then map[] else FullFile(n - 1)[Name(n - 1) := 1]
  }

  function Name(n: nat): string {
    seq(n, _ => 'v')
  }

  lemma {:induction false} FullFileIsFull(n: nat)
    ensures |FullFile(n)| == n
    ensures forall k :: k in FullFile(n) ==> |k| < n && FullFile(n)[k] == 1
  {
    if n > 0 {
      FullFileIsFull(n - 1);
      SizeOfUpdate(FullFile(n - 1), Name(n - 1), 1);
    }
  }

  /** It does happen: with a full file of expired marks, a prune makes room for a mark that
      would have been refused. */
  lemma PruningCanShow()
    ensures var events := [Prune(100), Add(Name(MAX_ENTRIES), 100)];
      && ClockRuns(events, 50)
      && !PruningInvisible(FullFile(MAX_ENTRIES), events, 50, 10, MAX_ENTRIES)
  {
    var saved, events := FullFile(MAX_ENTRIES), [Prune(100), Add(Name(MAX_ENTRIES), 100)];
    FullFileIsFull(MAX_ENTRIES);
    ClockRunsTwice(events);
    FirstRunIsEmptied(saved, events);
    PruningInvisibleExactlyWhen(saved, events, 50, 10, MAX_ENTRIES);
  }

  lemma ClockRunsTwice(events: seq<Event>)
    requires |events| == 2 && events[0] == Prune(100) && events[1].Add? && events[1].now == 100
    ensures ClockRuns(events, 50)
  {
    assert events[..1][..0] == [] && events[..1][0] == Prune(100);
    assert Clock(events[..1], 50) == 100 && ClockRuns(events[..1], 50);
  }

  lemma FirstRunIsEmptied(saved: Marks, events: seq<Event>)
    requires |events| == 2 && events[0] == Prune(100) && events[1].Add? && events[1].key !in saved
    requires |saved| == MAX_ENTRIES && forall k :: k in saved ==> saved[k] == 1
    ensures Crowded(saved, events, 1, 10, MAX_ENTRIES)
  {
    var one := events[..1];
    assert one[..0] == [] && one[0] == Prune(100);
    assert Run(Fresh(saved), one[..0], 10, MAX_ENTRIES) == Fresh(saved);
    assert Run(Fresh(saved), one, 10, MAX_ENTRIES).marks == Pruned(saved, 100, 10) == map[];
    assert Unpruned(one) == [];
  }

  // ---- reloading ----

  /** Starting over from the file can only turn a skip into a scan. */
  ghost predicate ReloadIsSafe(s: State, from: int, maxAge: int) {
    forall key, gate, now :: from <= now && MaySuppress(s.saved, key, gate, now, maxAge) ==>
      MaySuppress(s.marks, key, gate, now, maxAge)
  }

  ghost predicate EveryReloadSafe(saved: Marks, t0: int, maxAge: int, cap: nat) {
    forall events :: ClockRuns(events, t0) ==>
      ReloadIsSafe(Run(Fresh(saved), events, maxAge, cap), Clock(events, t0), maxAge)
  }

  /** Every usable saved mark is outlasted by the mark in memory, or is past trusting. */
  ghost predicate Outlasted(s: State, now: int, maxAge: int) {
    forall k :: k in s.saved && s.saved[k] > 0 ==>
      || now - s.saved[k] > maxAge
      || (k in s.marks && s.saved[k] <= s.marks[k] <= now)
  }

  ghost predicate NoneLater(marks: Marks, now: int) {
    forall k :: k in marks ==> marks[k] <= Max(0, now)
  }

  lemma StepOutlasts(s: State, e: Event, was: int, now: int, maxAge: int, cap: nat)
    requires Outlasted(s, was, maxAge) && NoneLater(s.marks, was) && NoneLater(s.saved, was)
    requires was <= now == TimeOf(e, was)
    ensures var next := Apply(s, e, maxAge, cap);
      Outlasted(next, now, maxAge) && NoneLater(next.marks, now) && NoneLater(next.saved, now)
  {
  }

  lemma {:induction false} RunOutlasts(saved: Marks, events: seq<Event>, t0: int, maxAge: int, cap: nat)
    requires NoneLater(saved, t0) && ClockRuns(events, t0)
    ensures var s, now := Run(Fresh(saved), events, maxAge, cap), Clock(events, t0);
      Outlasted(s, now, maxAge) && NoneLater(s.marks, now) && NoneLater(s.saved, now)
  {
    if events != [] {
      hide Apply, Outlasted, NoneLater;
      var before, e := events[..|events| - 1], events[|events| - 1];
      RunOutlasts(saved, before, t0, maxAge, cap);
      StepOutlasts(Run(Fresh(saved), before, maxAge, cap), e, Clock(before, t0), Clock(events, t0), maxAge, cap);
    }
  }

  lemma OutlastedIsSafe(s: State, now: int, maxAge: int)
    requires Outlasted(s, now, maxAge)
    ensures ReloadIsSafe(s, now, maxAge)
  {
  }

  /** A mark later than the clock can outlive the honest mark that replaces it in memory: if the
      process then dies unflushed, the reload suppresses scans that memory had come to allow. */
  lemma FutureMarkIsUnsafe(saved: Marks, key: string, t0: int, maxAge: int, cap: nat)
    requires key in saved && saved[key] > Max(0, t0) && maxAge >= 0
    ensures var events := [Add(key, t0)];
      ClockRuns(events, t0) && !ReloadIsSafe(Run(Fresh(saved), events, maxAge, cap), Clock(events, t0), maxAge)
  {
    var events := [Add(key, t0)];
    assert events[..|events| - 1] == [];
    var s := Run(Fresh(saved), events, maxAge, cap);
    assert Run(Fresh(saved), events[..|events| - 1], maxAge, cap) == Fresh(saved);
    assert s == Apply(Fresh(saved), events[0], maxAge, cap);
    var now := saved[key] + maxAge;
    assert MaySuppress(s.saved, key, GateState(true, 0), now, maxAge);
    assert !MaySuppress(s.marks, key, GateState(true, 0), now, maxAge);
    assert ClockRuns(events[..|events| - 1], t0) && Clock(events, t0) == t0;
  }

  /** Over all runs from a file, at every point of each, reloading what was last flushed never
      turns a scan into a skip, exactly when no mark in the file is later than the clock. */
  lemma ReloadSafeExactlyWhen(saved: Marks, t0: int, maxAge: int, cap: nat)
    requires maxAge >= 0
    ensures EveryReloadSafe(saved, t0, maxAge, cap) <==> NoneLater(saved, t0)
  {
    hide Run, ReloadIsSafe, ClockRuns;
    if NoneLater(saved, t0) {
      forall events | ClockRuns(events, t0)
        ensures ReloadIsSafe(Run(Fresh(saved), events, maxAge, cap), Clock(events, t0), maxAge)
      {
        RunOutlasts(saved, events, t0, maxAge, cap);
        OutlastedIsSafe(Run(Fresh(saved), events, maxAge, cap), Clock(events, t0), maxAge);
      }
    } else {
      var key :| key in saved && saved[key] > Max(0, t0);
      FutureMarkIsUnsafe(saved, key, t0, maxAge, cap);
    }
  }
}

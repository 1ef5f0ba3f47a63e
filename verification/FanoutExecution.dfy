/** crank/settleVaultFanout.ts:189-410: executing a plan. Transactions are atomic and a
    settle_vault of a settled vault reverts; other parties may settle any vault between any
    two of our transactions. */
module FanoutExecution {
  import opened Results
  import opened SettleVaultFanout
  import opened StableSort
  import opened Grouping

  const VAULT_ALREADY_SETTLED_CODE := 6019

  /** What the three expressions of the error matcher extract from an error's text. */
  datatype SendError = SendError(namesVariant: bool, hexCode: Option<int>, decimalCode: Option<int>)

  predicate IsAlreadySettled(e: SendError) {
    e.namesVariant || e.hexCode == Some(VAULT_ALREADY_SETTLED_CODE) || e.decimalCode == Some(VAULT_ALREADY_SETTLED_CODE)
  }

  // ---- the chain and the other parties ----

  /** How the network treats a transaction: delivers it and the confirmation, drops it, or
      lands it and loses the confirmation. */
  datatype Fate = Delivered | Dropped | ConfirmationLost

  /** How a client words the program's refusal of a settled vault: by the error's name, by its code in
      the log of the program, or by the number an SDK has decoded. */
  datatype Wording = ByName | ByHexCode | ByNumber

  /** Everything outside the fan-out. `race(n)` are the vaults other parties have settled
      since the previous send when our n-th one executes, `wording(n)` how its refusal would read;
      `stop(n)` answers the n-th poll. */
  datatype Env = Env(
    race: nat -> set<string>,
    fate: nat -> Fate,
    wording: nat -> Wording,
    stop: nat -> bool,
    builds: string -> bool)

  /** `ours` lists the vaults our transactions settled, in order, `tried` the transactions we sent;
      `confirmed` counts those whose confirmation reached us. */
  datatype World = World(settled: set<string>, ours: seq<string>, tried: seq<seq<string>>, sends: nat, confirmed: nat,
                         polls: nat)

  /** The refusal of a vault that is settled: error 6019, 0x1783. */
  function Refusal(wording: Wording): SendError {
    match wording
    case ByName => SendError(true, None, None)
    case ByHexCode => SendError(false, Some(0x1783), None)
    case ByNumber => SendError(false, None, Some(6019))
  }

  const NETWORK := SendError(false, None, None)

  function ToSet(keys: seq<string>): set<string> { set k | k in keys }

  function Raced(env: Env, w: World): World { w.(settled := w.settled + env.race(w.sends)) }

  /** A batch executes only if it settles no vault that is settled, or twice. */
  predicate Executes(w: World, batch: seq<string>) {
    Distinct(batch) && forall k :: k in batch ==> k !in w.settled
  }

  /** One transaction: the new world and what the caller sees. */
  function Send(env: Env, w: World, batch: seq<string>): (World, Result<(), SendError>) {
    var now := Raced(env, w).(sends := w.sends + 1, tried := w.tried + [batch]);
    if env.fate(w.sends) == Dropped then (now, Err(NETWORK))
    else if !Executes(now, batch) then (now, Err(Refusal(env.wording(w.sends))))
    else
      var landed := now.(settled := now.settled + ToSet(batch), ours := now.ours + batch);
      if env.fate(w.sends) == Delivered then (landed.(confirmed := landed.confirmed + 1), Ok(()))
        else (landed, Err(NETWORK))
  }

  // ---- the report and the per-vault log ----

  datatype Report = Report(attempted: nat, settled: nat, skippedAlreadySettled: nat, failed: nat, txsSent: nat,
                           remaining: nat)

  datatype What = Settled | Skipped | SendFailed | BuildFailed | NoAsset | NotTried
  datatype Entry = Entry(vault: string, what: What)

  function Count(log: seq<Entry>, what: What): nat {
    if log == [] then 0 else Count(log[..|log| - 1], what) + (if log[|log| - 1].what == what then 1 else 0)
  }

  function Vaults(log: seq<Entry>): (r: seq<string>)
    ensures |r| == |log|
  {
    seq(|log|, i requires 0 <= i < |log| => log[i].vault)
  }

  function KeysOf(vs: seq<Vault>): (r: seq<string>)
    ensures |r| == |vs|
  {
    seq(|vs|, i requires 0 <= i < |vs| => vs[i].key)
  }

  lemma {:induction false} CountSplit(a: seq<Entry>, b: seq<Entry>, what: What)
    ensures Count(a + b, what) == Count(a, what) + Count(b, what)
  {
    if b == [] {
      assert a + b == a;
    } else {
      assert (a + b)[..|a + b| - 1] == a + b[..|b| - 1];
      CountSplit(a, b[..|b| - 1], what);
    }
  }

  lemma CountOne(log: seq<Entry>, e: Entry)
    ensures forall what :: Count(log + [e], what) == Count(log, what) + (if e.what == what then 1 else 0)
  {
    assert (log + [e])[..|log|] == log;
  }

  lemma {:induction false} CountsCover(log: seq<Entry>)
    ensures Count(log, Settled) + Count(log, Skipped) + Count(log, SendFailed) + Count(log, BuildFailed) +
            Count(log, NoAsset) + Count(log, NotTried) == |log|
  {
    if log != [] {
      var what := log[|log| - 1].what;
      assert what.Settled? || what.Skipped? || what.SendFailed? || what.BuildFailed? || what.NoAsset? || what.NotTried?;
      CountsCover(log[..|log| - 1]);
    }
  }

  lemma {:induction false} CountZero(log: seq<Entry>, what: What)
    requires forall e :: e in log ==> e.what != what
    ensures Count(log, what) == 0
  {
    if log != [] {
      assert log[|log| - 1] in log;
      CountZero(log[..|log| - 1], what);
    }
  }

  // ---- what always holds while a plan runs ----

  /** The counters say what the log says. */
  ghost predicate CountersMatch(rep: Report, log: seq<Entry>) {
    && rep.settled == Count(log, Settled)
    && rep.skippedAlreadySettled == Count(log, Skipped)
    && rep.failed == Count(log, SendFailed) + Count(log, BuildFailed)
    && rep.attempted == Count(log, Settled) + Count(log, Skipped) + Count(log, SendFailed) + Count(log, NotTried)
  }

  /** A vault counted as settled was settled by us, one counted as skipped is settled. */
  ghost predicate EntryHonest(e: Entry, w: World) {
    && (e.what == Settled ==> e.vault in w.ours)
    && (e.what == Skipped ==> e.vault in w.settled)
  }

  ghost predicate Honest(log: seq<Entry>, w: World) {
    forall e :: e in log ==> EntryHonest(e, w)
  }

  /** The vaults other parties settled between two points of the run. */
  function RacedIn(env: Env, from: nat, to: nat): set<string>
    requires from <= to
  {
    if from == to then {} else RacedIn(env, from, to - 1) + env.race(to - 1)
  }

  /** `after` adds to `before` what the log entries call for; attempts are counted apart. */
  ghost predicate Counted(before: Report, after: Report, log: seq<Entry>) {
    && after.settled == before.settled + Count(log, Settled)
    && after.skippedAlreadySettled == before.skippedAlreadySettled + Count(log, Skipped)
    && after.failed == before.failed + Count(log, SendFailed) + Count(log, BuildFailed)
    && after.attempted == before.attempted
  }

  lemma CountersExtend(rep: Report, log: seq<Entry>, rep': Report, more: seq<Entry>)
    requires CountersMatch(rep, log) && Counted(rep, rep'.(attempted := rep.attempted), more)
    requires rep'.attempted == rep.attempted + |more| - Count(more, BuildFailed) - Count(more, NoAsset)
    ensures CountersMatch(rep', log + more)
  {
    CountsCover(more);
    forall what ensures Count(log + more, what) == Count(log, what) + Count(more, what) {
      CountSplit(log, more, what);
    }
  }

  /** From `w0` to `w` vaults were settled by the others or by us, each by us at most once and
      only while it was unsettled. */
  ghost predicate Reached(env: Env, w0: World, w: World) {
    && w0.sends <= w.sends
    && w0.ours <= w.ours
    && Distinct(w.ours[|w0.ours|..])
    && (forall k :: k in w.ours[|w0.ours|..] ==> k !in w0.settled)
    && w.settled == w0.settled + RacedIn(env, w0.sends, w.sends) + ToSet(w.ours[|w0.ours|..])
  }

  lemma DistinctConcat(a: seq<string>, b: seq<string>)
    requires Distinct(a) && Distinct(b) && forall k :: k in a ==> k !in b
    ensures Distinct(a + b)
  {
    forall i, j | 0 <= i < j < |a + b| ensures (a + b)[i] != (a + b)[j] {
      assert i < |a| <= j ==> a[i] in a && b[j - |a|] in b;
    }
  }

  lemma SendReaches(env: Env, w0: World, w: World, batch: seq<string>)
    requires Reached(env, w0, w)
    ensures Reached(env, w0, Send(env, w, batch).0)
    ensures w.ours <= Send(env, w, batch).0.ours && w.settled <= Send(env, w, batch).0.settled
    ensures Send(env, w, batch).0.confirmed == w.confirmed + (if Send(env, w, batch).1.Ok? then 1 else 0)
    ensures Send(env, w, batch).1.Ok? ==> forall k :: k in batch ==> k in Send(env, w, batch).0.ours
  {
    var now := Raced(env, w).(sends := w.sends + 1, tried := w.tried + [batch]);
    RaceReaches(env, w0, w, now.tried);
    if env.fate(w.sends) != Dropped && Executes(now, batch) {
      LandReaches(env, w0, now, batch);
    }
  }

  lemma RaceReaches(env: Env, w0: World, w: World, tried: seq<seq<string>>)
    requires Reached(env, w0, w)
    ensures Reached(env, w0, Raced(env, w).(sends := w.sends + 1, tried := tried))
  {
    assert RacedIn(env, w0.sends, w.sends + 1) == RacedIn(env, w0.sends, w.sends) + env.race(w.sends);
  }

  lemma LandReaches(env: Env, w0: World, w: World, batch: seq<string>)
    requires Reached(env, w0, w) && Executes(w, batch)
    ensures Reached(env, w0, w.(settled := w.settled + ToSet(batch), ours := w.ours + batch))
  {
    var before, after := w.ours[|w0.ours|..], (w.ours + batch)[|w0.ours|..];
    assert after == before + batch;
    assert ToSet(after) == ToSet(before) + ToSet(batch);
    forall k | k in before ensures k !in batch {
      assert k in ToSet(before);
    }
    DistinctConcat(before, batch);
  }

  lemma HonestLater(log: seq<Entry>, w: World, w': World)
    requires Honest(log, w) && w.ours <= w'.ours && w.settled <= w'.settled
    ensures Honest(log, w')
  {
    forall e | e in log ensures EntryHonest(e, w') {
      assert EntryHonest(e, w);
    }
  }

  /** No interruption, no build failure, and every vault on a market with a known asset. */
  ghost predicate Undisturbed(env: Env, targets: seq<Vault>, assetByMarket: map<string, string>) {
    && (forall n :: !env.stop(n))
    && (forall v :: v in targets ==> env.builds(v.key))
    && (forall v :: v in targets ==> HasAsset(v, assetByMarket))
  }

  ghost predicate NothingDropped(env: Env) { forall n :: env.fate(n) != Dropped }
  ghost predicate AllDelivered(env: Env) { forall n :: env.fate(n) == Delivered }

  /** Given an undisturbed run, every entry is of a vault we tried to settle; on a network that drops
      nothing it is settled, and one that failed was settled by us in a transaction whose
      confirmation was lost; when confirmations arrive too, nothing fails at all. */
  ghost predicate EntryDone(env: Env, e: Entry, w: World) {
    && e.what in {Settled, Skipped, SendFailed}
    && (NothingDropped(env) ==> e.vault in w.settled)
    && (AllDelivered(env) ==> e.what in {Settled, Skipped})
  }

  ghost predicate Done(env: Env, log: seq<Entry>, w: World) {
    forall e :: e in log ==> EntryDone(env, e, w)
  }

  lemma DoneLater(env: Env, log: seq<Entry>, w: World, w': World)
    requires Done(env, log, w) && w.settled <= w'.settled
    ensures Done(env, log, w')
  {
    forall e | e in log ensures EntryDone(env, e, w') {
      assert EntryDone(env, e, w);
    }
  }

  // ---- which targets are built ----

  /** The name the builder gets for a vault's market is known and not empty. */
  predicate HasAsset(v: Vault, assetByMarket: map<string, string>) {
    v.market in assetByMarket && assetByMarket[v.market] != ""
  }

  /** Why no instruction is built for a vault, or None when one is. */
  function Obstacle(v: Vault, assetByMarket: map<string, string>, env: Env): Option<What> {
    if !HasAsset(v, assetByMarket) then Some(NoAsset) else if !env.builds(v.key) then Some(BuildFailed) else None
  }

  /** The keys of the vaults an instruction is built for, in order. */
  function Buildable(vs: seq<Vault>, assetByMarket: map<string, string>, env: Env): seq<string> {
    if vs == [] then []
    else
      var v, before := vs[|vs| - 1], Buildable(vs[..|vs| - 1], assetByMarket, env);
      if Obstacle(v, assetByMarket, env).None? then before + [v.key] else before
  }

  /** The entries of the others, in order, each with its reason. */
  function Unbuildable(vs: seq<Vault>, assetByMarket: map<string, string>, env: Env): seq<Entry> {
    if vs == [] then []
    else
      var v, before := vs[|vs| - 1], Unbuildable(vs[..|vs| - 1], assetByMarket, env);
      match Obstacle(v, assetByMarket, env)
      case None => before
      case Some(what) => before + [Entry(v.key, what)]
  }

  /** How many vaults meet an obstacle. */
  function Obstructed(vs: seq<Vault>, what: What, assetByMarket: map<string, string>, env: Env): nat {
    if vs == [] then 0
    else
      Obstructed(vs[..|vs| - 1], what, assetByMarket, env) +
      if Obstacle(vs[|vs| - 1], assetByMarket, env) == Some(what) then 1 else 0
  }

  lemma OneMoreObstacle(vs: seq<Vault>, what: What, assetByMarket: map<string, string>, env: Env)
    requires vs != []
    ensures var o, front := Obstacle(vs[|vs| - 1], assetByMarket, env), vs[..|vs| - 1];
      && Obstructed(vs, what, assetByMarket, env) ==
        Obstructed(front, what, assetByMarket, env) + (if o == Some(what) then 1 else 0)
      && Count(Unbuildable(vs, assetByMarket, env), what) ==
         Count(Unbuildable(front, assetByMarket, env), what) + (if o == Some(what) then 1 else 0)
  {
    hide Count, Obstacle;
    var o, before := Obstacle(vs[|vs| - 1], assetByMarket, env), Unbuildable(vs[..|vs| - 1], assetByMarket, env);
    if o.Some? {
      CountOne(before, Entry(vs[|vs| - 1].key, o.value));
      assert Unbuildable(vs, assetByMarket, env) == before + [Entry(vs[|vs| - 1].key, o.value)];
    }
  }

  lemma {:induction false} UnbuildableCounts(vs: seq<Vault>, what: What, assetByMarket: map<string, string>, env: Env)
    ensures Count(Unbuildable(vs, assetByMarket, env), what) == Obstructed(vs, what, assetByMarket, env)
  {
    if vs == [] {
      assert Unbuildable(vs, assetByMarket, env) == [];
    } else {
      hide Count, Obstacle, Unbuildable, Obstructed;
      OneMoreObstacle(vs, what, assetByMarket, env);
      UnbuildableCounts(vs[..|vs| - 1], what, assetByMarket, env);
    }
  }

  lemma {:induction false} ObstructedSplit(a: seq<Vault>, b: seq<Vault>, what: What,
                                           assetByMarket: map<string, string>, env: Env)
    ensures Obstructed(a + b, what, assetByMarket, env) ==
      Obstructed(a, what, assetByMarket, env) + Obstructed(b, what, assetByMarket, env)
  {
    if b == [] {
      assert a + b == a;
    } else {
      assert (a + b)[..|a + b| - 1] == a + b[..|b| - 1];
      ObstructedSplit(a, b[..|b| - 1], what, assetByMarket, env);
    }
  }

  lemma {:induction false} NoneObstructed(vs: seq<Vault>, what: What, assetByMarket: map<string, string>, env: Env)
    ensures Obstructed(vs, what, assetByMarket, env) == 0 <==>
      forall v :: v in vs ==> Obstacle(v, assetByMarket, env) != Some(what)
  {
    if vs != [] {
      NoneObstructed(vs[..|vs| - 1], what, assetByMarket, env);
      assert vs == vs[..|vs| - 1] + [vs[|vs| - 1]];
    }
  }

  // ---- execution ----

  /** The report after building: one failure for each vault that could not be built. */
  function Prepared(rep: Report, batch: seq<Vault>, assetByMarket: map<string, string>, env: Env): Report {
    rep.(failed := rep.failed + Obstructed(batch, BuildFailed, assetByMarket, env))
  }

  /** Build the instructions of one batch: the vaults without an obstacle, in order. A vault without
      an asset name is passed over in silence, one that cannot be built is counted as failed. */
  method BuildBatch(batch: seq<Vault>, assetByMarket: map<string, string>, env: Env, rep0: Report)
    returns (built: seq<string>, rep: Report, ghost log: seq<Entry>)
    ensures built == Buildable(batch, assetByMarket, env)
    ensures log == Unbuildable(batch, assetByMarket, env)
    ensures multiset(Vaults(log)) + multiset(built) == multiset(KeysOf(batch))
    ensures forall e :: e in log ==> e.what == NoAsset || e.what == BuildFailed
    ensures Counted(rep0, rep, log) && rep == Prepared(rep0, batch, assetByMarket, env)
    ensures Undisturbed(env, batch, assetByMarket) ==> log == []
  {
    hide Buildable, Unbuildable, Obstructed;
    built, rep, log := [], rep0, [];
    NothingPrepared(batch, assetByMarket, env);
    for i := 0 to |batch|
      invariant built == Buildable(batch[..i], assetByMarket, env)
      invariant log == Unbuildable(batch[..i], assetByMarket, env)
      invariant rep == rep0.(failed := rep0.failed + Obstructed(batch[..i], BuildFailed, assetByMarket, env))
    {
      var v := batch[i];
      OneMorePrepared(batch, i, assetByMarket, env);
      if v.market !in assetByMarket || assetByMarket[v.market] == "" {
        log := log + [Entry(v.key, NoAsset)];
        continue;
      }
      if env.builds(v.key) {
        built := built + [v.key];
      } else {
        rep := rep.(failed := rep.failed + 1);
        log := log + [Entry(v.key, BuildFailed)];
      }
    }
    assert batch[..|batch|] == batch;
    PreparedCovers(batch, assetByMarket, env);
    PreparedCounts(batch, assetByMarket, env);
    PreparedUndisturbed(batch, assetByMarket, env);
  }

  lemma NothingPrepared(batch: seq<Vault>, assetByMarket: map<string, string>, env: Env)
    ensures Buildable(batch[..0], assetByMarket, env) == [] && Unbuildable(batch[..0], assetByMarket, env) == []
    ensures Obstructed(batch[..0], BuildFailed, assetByMarket, env) == 0
  {
  }

  lemma OneMorePrepared(batch: seq<Vault>, i: nat, assetByMarket: map<string, string>, env: Env)
    requires i < |batch|
    ensures var v, o, before := batch[i], Obstacle(batch[i], assetByMarket, env), batch[..i];
      && Buildable(batch[..i + 1], assetByMarket, env) ==
         Buildable(before, assetByMarket, env) + (if o.None? then [v.key] else [])
      && Unbuildable(batch[..i + 1], assetByMarket, env) ==
         Unbuildable(before, assetByMarket, env) + (if o.Some? then [Entry(v.key, o.value)] else [])
      && Obstructed(batch[..i + 1], BuildFailed, assetByMarket, env) ==
         Obstructed(before, BuildFailed, assetByMarket, env) + (if o == Some(BuildFailed) then 1 else 0)
  {
    hide Obstacle;
    assert batch[..i + 1][..i] == batch[..i];
  }

  lemma {:induction false} PreparedCovers(vs: seq<Vault>, assetByMarket: map<string, string>, env: Env)
    ensures multiset(Vaults(Unbuildable(vs, assetByMarket, env))) + multiset(Buildable(vs, assetByMarket, env)) ==
      multiset(KeysOf(vs))
    ensures forall e :: e in Unbuildable(vs, assetByMarket, env) ==> e.what == NoAsset || e.what == BuildFailed
  {
    hide Vaults, KeysOf, Obstacle, Buildable, Unbuildable, Obstructed;
    if vs != [] {
      var v, n := vs[|vs| - 1], |vs| - 1;
      PreparedCovers(vs[..n], assetByMarket, env);
      OneMorePrepared(vs, n, assetByMarket, env);
      OneMoreKey(vs, n);
      assert vs[..n + 1] == vs;
      ObstacleKinds(v, assetByMarket, env);
      var o := Obstacle(v, assetByMarket, env);
      if o.Some? {
        OneMoreVault(Unbuildable(vs[..n], assetByMarket, env), Entry(v.key, o.value));
      } else {
        assert Unbuildable(vs[..n], assetByMarket, env) + [] == Unbuildable(vs[..n], assetByMarket, env);
      }
    } else {
      NoKeys();
      NothingPrepared(vs, assetByMarket, env);
      assert vs[..0] == vs;
    }
  }

  lemma ObstacleKinds(v: Vault, assetByMarket: map<string, string>, env: Env)
    ensures Obstacle(v, assetByMarket, env) in {None, Some(NoAsset), Some(BuildFailed)}
  {
  }

  lemma {:induction false} PreparedCounts(vs: seq<Vault>, assetByMarket: map<string, string>, env: Env)
    ensures var log := Unbuildable(vs, assetByMarket, env);
      && Count(log, BuildFailed) == Obstructed(vs, BuildFailed, assetByMarket, env)
      && Count(log, Settled) == Count(log, Skipped) == Count(log, SendFailed) == 0
  {
    hide Count, Unbuildable, Obstructed;
    UnbuildableCounts(vs, BuildFailed, assetByMarket, env);
    PreparedCovers(vs, assetByMarket, env);
    var log := Unbuildable(vs, assetByMarket, env);
    CountZero(log, Settled);
    CountZero(log, Skipped);
    CountZero(log, SendFailed);
  }

  lemma {:induction false} PreparedUndisturbed(vs: seq<Vault>, assetByMarket: map<string, string>, env: Env)
    ensures Undisturbed(env, vs, assetByMarket) ==> Unbuildable(vs, assetByMarket, env) == []
  {
    if vs != [] && Undisturbed(env, vs, assetByMarket) {
      var front := vs[..|vs| - 1];
      assert vs == front + [vs[|vs| - 1]];
      BuildsUndisturbed(env, vs, assetByMarket, |vs| - 1);
      PreparedUndisturbed(front, assetByMarket, env);
    }
  }

  lemma NoKeys()
    ensures KeysOf([]) == [] && Vaults([]) == []
  {
  }

  lemma OneMoreKey(vs: seq<Vault>, i: nat)
    requires i < |vs|
    ensures KeysOf(vs[..i + 1]) == KeysOf(vs[..i]) + [vs[i].key]
  {
  }

  lemma OneMoreVault(log: seq<Entry>, e: Entry)
    ensures Vaults(log + [e]) == Vaults(log) + [e.vault]
  {
  }

  lemma BuildsUndisturbed(env: Env, batch: seq<Vault>, assetByMarket: map<string, string>, i: nat)
    requires i < |batch|
    ensures Undisturbed(env, batch, assetByMarket) ==>
      env.builds(batch[i].key) && HasAsset(batch[i], assetByMarket)
  {
    assert batch[i] in batch;
  }

  lemma CountEmpty()
    ensures forall what :: Count([], what) == 0
  {
  }

  // ---- what is sent, and when ----

  /** A transaction sent now lands, and we hear of it: it is delivered, it names no vault twice, and
      nobody has settled one of them. */
  ghost predicate LandsAtOnce(env: Env, w: World, batch: seq<string>) {
    && env.fate(w.sends) == Delivered
    && (forall i, j :: 0 <= i < j < |batch| ==> batch[i] != batch[j])
    && (forall k :: k in batch ==> k !in w.settled && k !in env.race(w.sends))
  }

  /** What sending one transaction changes: it has been sent; if it lands at once, its vaults are
      settled, by us; the shutdown flag is not polled. */
  lemma SendOnce(env: Env, w: World, batch: seq<string>)
    ensures var (w', sent) := Send(env, w, batch);
      && w'.sends == w.sends + 1 && w'.tried == w.tried + [batch] && w'.polls == w.polls
      && (sent.Ok? <==> LandsAtOnce(env, w, batch))
      && (sent.Ok? ==> w'.ours == w.ours + batch && w'.settled == w.settled + env.race(w.sends) + ToSet(batch))
  {
  }

  /** The first n vaults, each in a transaction of its own. */
  function Singles(built: seq<string>, n: nat): (r: seq<seq<string>>)
    requires n <= |built|
    ensures |r| == n && forall i :: 0 <= i < n ==> r[i] == [built[i]]
  {
    if n == 0 then [] else Singles(built, n - 1) + [[built[n - 1]]]
  }

  /** Of `built`, the first ones sent one by one since `start`: all of them, or up to the first poll of
      the shutdown flag that said stop. There is a poll before each. */
  ghost predicate OneByOne(env: Env, built: seq<string>, start: World, end: World, log: seq<Entry>) {
    var n := end.sends - start.sends;
    && 0 <= n <= |built| == |log|
    && end.tried == start.tried + Singles(built, n)
    && (forall p :: start.polls <= p < start.polls + n ==> !env.stop(p))
    && (n < |built| ==> env.stop(start.polls + n))
    && end.polls == start.polls + n + (if n < |built| then 1 else 0)
    && (forall i :: 0 <= i < |built| ==> (log[i].what == NotTried <==> n <= i))
  }

  /** A batch goes out first, in one transaction and without a poll. If it lands, that is all; if not,
      its vaults follow one by one. */
  ghost predicate BatchFirst(env: Env, built: seq<string>, start: World, end: World, before: Report, after: Report,
                             log: seq<Entry>) {
    if LandsAtOnce(env, start, built) then
      && end.sends == start.sends + 1 && end.tried == start.tried + [built] && end.polls == start.polls
      && end.ours == start.ours + built && end.settled == start.settled + env.race(start.sends) + ToSet(built)
      && after == before.(txsSent := before.txsSent + 1, settled := before.settled + |built|)
    else
      exists failed: World ::
        && failed.sends == start.sends + 1 && failed.tried == start.tried + [built] && failed.polls == start.polls
        && OneByOne(env, built, failed, end, log)
  }

  lemma OneAlone(env: Env, vault: string, w0: World, w: World)
    requires Reached(env, w0, w)
    ensures var (w', sent) := Send(env, w, [vault]);
      var what := if sent.Ok? then Settled else if IsAlreadySettled(sent.error) then Skipped else SendFailed;
      && Reached(env, w0, w') && w.ours <= w'.ours && w.settled <= w'.settled && w'.polls == w.polls
      && w'.confirmed == w.confirmed + (if sent.Ok? then 1 else 0)
      && EntryHonest(Entry(vault, what), w') && EntryDone(env, Entry(vault, what), w')
  {
    SendReaches(env, w0, w, [vault]);
    assert vault in [vault] && ToSet([vault]) == {vault};
  }

  /** After a failed batch: one vault per transaction, until told to stop. */
  method Isolate(env: Env, built: seq<string>, ghost w0: World, w: World, rep0: Report)
    returns (w': World, rep: Report, ghost log: seq<Entry>)
    requires Reached(env, w0, w)
    ensures Reached(env, w0, w') && w.ours <= w'.ours && w.settled <= w'.settled
    ensures rep.txsSent - rep0.txsSent == w'.confirmed - w.confirmed
    ensures Vaults(log) == built && Counted(rep0, rep, log)
    ensures forall e :: e in log ==> e.what in {Settled, Skipped, SendFailed, NotTried}
    ensures Honest(log, w')
    ensures (forall n :: !env.stop(n)) ==> Done(env, log, w')
    ensures OneByOne(env, built, w, w', log)
  {
    hide Count, Send, Reached, EntryHonest, EntryDone, LandsAtOnce, OneByOne;
    w', rep, log := w, rep0, [];
    ghost var start := w;
    NothingYet(env, built, w);
    CountEmpty();
    for i := 0 to |built|
      invariant Reached(env, w0, w') && w.ours <= w'.ours && w.settled <= w'.settled
      invariant rep.txsSent - rep0.txsSent == w'.confirmed - w.confirmed
      invariant Vaults(log) == built[..i] && Counted(rep0, rep, log)
      invariant forall e :: e in log ==> e.what in {Settled, Skipped, SendFailed}
      invariant Honest(log, w') && Done(env, log, w')
      invariant OneByOneSoFar(env, built, start, w', i)
    {
      var stopped := env.stop(w'.polls);
      PollHarmless(env, w0, w', log);
      ghost var polled := w';
      w' := w'.(polls := w'.polls + 1);
      if stopped {
        log := StopHere(built, i, rep0, rep, log, w');
        StoppedAt(env, built, start, polled, i, log);
        return;
      }
      OneAlone(env, built[i], w0, w');
      var (next, sent) := Send(env, w', [built[i]]);
      HonestLater(log, w', next);
      DoneLater(env, log, w', next);
      SendOnce(env, w', [built[i]]);
      OneMoreSent(env, built, start, polled, next, i);
      w' := next;
      ghost var what;
      match sent {
        case Ok(_) =>
          rep := rep.(txsSent := rep.txsSent + 1, settled := rep.settled + 1);
          what := Settled;
        case Err(e) =>
          if IsAlreadySettled(e) {
            rep := rep.(skippedAlreadySettled := rep.skippedAlreadySettled + 1);
            what := Skipped;
          } else {
            rep := rep.(failed := rep.failed + 1);
            what := SendFailed;
          }
      }
      CountOne(log, Entry(built[i], what));
      log := log + [Entry(built[i], what)];
    }
    AllSent(env, built, start, w', log);
  }

  ghost predicate OneByOneSoFar(env: Env, built: seq<string>, start: World, w: World, n: nat) {
    && n <= |built| && w.sends == start.sends + n && w.polls == start.polls + n
    && w.tried == start.tried + Singles(built, n)
    && (forall p :: start.polls <= p < start.polls + n ==> !env.stop(p))
  }

  lemma NothingYet(env: Env, built: seq<string>, w: World)
    ensures OneByOneSoFar(env, built, w, w, 0)
  {
  }

  lemma OneMoreSent(env: Env, built: seq<string>, start: World, w: World, next: World, n: nat)
    requires OneByOneSoFar(env, built, start, w, n) && n < |built| && !env.stop(w.polls)
    requires next.sends == w.sends + 1 && next.polls == w.polls + 1 && next.tried == w.tried + [[built[n]]]
    ensures OneByOneSoFar(env, built, start, next, n + 1)
  {
  }

  lemma StoppedAt(env: Env, built: seq<string>, start: World, w: World, n: nat, log: seq<Entry>)
    requires OneByOneSoFar(env, built, start, w, n) && n < |built| == |log| && env.stop(w.polls)
    requires forall i :: 0 <= i < |built| ==> (log[i].what == NotTried <==> n <= i)
    ensures OneByOne(env, built, start, w.(polls := w.polls + 1), log)
  {
  }

  lemma AllSent(env: Env, built: seq<string>, start: World, w: World, log: seq<Entry>)
    requires OneByOneSoFar(env, built, start, w, |built|) && |log| == |built|
    requires forall e :: e in log ==> e.what != NotTried
    ensures OneByOne(env, built, start, w, log)
  {
  }

  /** Polling the shutdown flag changes nothing else. */
  lemma PollHarmless(env: Env, w0: World, w: World, log: seq<Entry>)
    requires Reached(env, w0, w) && Honest(log, w)
    ensures Reached(env, w0, w.(polls := w.polls + 1)) && Honest(log, w.(polls := w.polls + 1))
    ensures Done(env, log, w) ==> Done(env, log, w.(polls := w.polls + 1))
  {
    HonestLater(log, w, w.(polls := w.polls + 1));
    if Done(env, log, w) {
      DoneLater(env, log, w, w.(polls := w.polls + 1));
    }
  }

  ghost method StopHere(built: seq<string>, i: nat, rep0: Report, rep: Report, log: seq<Entry>, w: World)
    returns (log': seq<Entry>)
    requires i < |built| && Vaults(log) == built[..i] && Counted(rep0, rep, log) && Honest(log, w)
    requires forall e :: e in log ==> e.what in {Settled, Skipped, SendFailed}
    ensures Vaults(log') == built && Counted(rep0, rep, log') && Honest(log', w)
    ensures forall e :: e in log' ==> e.what in {Settled, Skipped, SendFailed, NotTried}
    ensures |log'| == |built| && forall j :: 0 <= j < |built| ==> (log'[j].what == NotTried <==> i <= j)
  {
    var rest := seq(|built| - i, j requires 0 <= j < |built| - i => Entry(built[i + j], NotTried));
    assert forall e :: e in rest ==> e.what == NotTried;
    CountZero(rest, Settled);
    CountZero(rest, Skipped);
    CountZero(rest, SendFailed);
    CountZero(rest, BuildFailed);
    log' := log + rest;
    forall what ensures Count(log', what) == Count(log, what) + Count(rest, what) {
      CountSplit(log, rest, what);
    }
    JoinVaults(log, rest);
    assert Vaults(rest) == built[i..];
  }

  lemma BatchLands(env: Env, built: seq<string>, w0: World, w: World) returns (log: seq<Entry>)
    requires Reached(env, w0, w) && Send(env, w, built).1.Ok?
    ensures var w' := Send(env, w, built).0;
      && Vaults(log) == built && Honest(log, w') && Done(env, log, w')
      && (forall e :: e in log ==> e.what == Settled)
      && Count(log, Settled) == |built| && Count(log, Skipped) == Count(log, SendFailed) == Count(log, BuildFailed) == 0
  {
    SendReaches(env, w0, w, built);
    var w' := Send(env, w, built).0;
    log := seq(|built|, i requires 0 <= i < |built| => Entry(built[i], Settled));
    forall e | e in log ensures EntryHonest(e, w') && EntryDone(env, e, w') {
      assert e.vault in built && e.vault in ToSet(built);
    }
    CountZero(log, Skipped);
    CountZero(log, SendFailed);
    CountZero(log, BuildFailed);
    CountZero(log, NoAsset);
    CountZero(log, NotTried);
    CountsCover(log);
  }

  /** One transaction-sized batch, then isolation if it fails. */
  method SendBatchThenIsolate(env: Env, built: seq<string>, ghost w0: World, w: World, rep0: Report)
    returns (w': World, rep: Report, ghost log: seq<Entry>)
    requires Reached(env, w0, w)
    ensures Reached(env, w0, w') && w.ours <= w'.ours && w.settled <= w'.settled
    ensures rep.txsSent - rep0.txsSent == w'.confirmed - w.confirmed
    ensures Vaults(log) == built && Counted(rep0, rep, log)
    ensures forall e :: e in log ==> e.what in {Settled, Skipped, SendFailed, NotTried}
    ensures Honest(log, w')
    ensures (forall n :: !env.stop(n)) ==> Done(env, log, w')
    ensures BatchFirst(env, built, w, w', rep0, rep, log)
  {
    hide Send, Reached, Count, Honest, Done, LandsAtOnce, OneByOne;
    SendReaches(env, w0, w, built);
    SendOnce(env, w, built);
    var (next, sent) := Send(env, w, built);
    if sent.Ok? {
      log := BatchLands(env, built, w0, w);
      w' := next;
      rep := rep0.(txsSent := rep0.txsSent + 1, settled := rep0.settled + |built|);
    } else {
      w', rep, log := Isolate(env, built, w0, next, rep0);
    }
  }

  lemma ConcatStep(batches: seq<seq<Vault>>, b: nat)
    requires b < |batches|
    ensures Concat(batches[..b + 1]) == Concat(batches[..b]) + batches[b]
    ensures Concat(batches[..b + 1]) <= Concat(batches)
  {
    assert batches[..b + 1][..b] == batches[..b];
    ConcatPrefix(batches, b + 1);
  }

  lemma BatchOf(batches: seq<seq<Vault>>, b: nat, targets: seq<Vault>)
    requires b < |batches| && Concat(batches) == targets
    ensures forall v :: v in batches[b] ==> v in targets
    ensures KeysOf(Concat(batches[..b + 1])) == KeysOf(Concat(batches[..b])) + KeysOf(batches[b])
    ensures multiset(KeysOf(Concat(batches[..b + 1]))) <= multiset(KeysOf(targets))
  {
    hide KeysOf, Concat;
    ConcatStep(batches, b);
    var before, batch := Concat(batches[..b]), batches[b];
    var rest := targets[|before + batch|..];
    assert (before + batch) + rest == targets;
    InMiddle(before, batch, rest);
    JoinKeys(before, batch);
    JoinKeys(before + batch, rest);
  }

  lemma InMiddle<T>(a: seq<T>, b: seq<T>, c: seq<T>)
    ensures forall x :: x in b ==> x in a + b + c
  {
  }

  lemma JoinKeys(a: seq<Vault>, b: seq<Vault>)
    ensures KeysOf(a + b) == KeysOf(a) + KeysOf(b)
  {
  }

  lemma {:induction false} ConcatPrefix<T>(chunks: seq<seq<T>>, b: nat)
    requires b <= |chunks|
    ensures Concat(chunks[..b]) <= Concat(chunks)
  {
    if b == |chunks| {
      assert chunks[..b] == chunks;
    } else {
      ConcatPrefix(chunks[..|chunks| - 1], b);
      assert chunks[..|chunks| - 1][..b] == chunks[..b];
    }
  }

  /** One batch of a plan: what can be built goes out as one transaction first; a batch of which nothing
      can be built sends nothing and polls nothing. */
  ghost predicate BatchRan(env: Env, batch: seq<Vault>, assetByMarket: map<string, string>, start: World, end: World,
                           before: Report, after: Report, log: seq<Entry>) {
    var built, prepared := Buildable(batch, assetByMarket, env), Prepared(before, batch, assetByMarket, env);
    if built == [] then end == start && after == prepared && log == []
    else BatchFirst(env, built, start, end, prepared.(attempted := prepared.attempted + |built|), after, log)
  }

  /** What one batch adds to an honest log and to counters that match it. */
  ghost predicate BatchResult(env: Env, w0: World, w: World, w': World, rep0: Report, rep: Report, log0: seq<Entry>,
                              log: seq<Entry>, batch: seq<Vault>, assetByMarket: map<string, string>) {
    && Reached(env, w0, w') && Honest(log, w') && CountersMatch(rep, log)
    && rep.txsSent - rep0.txsSent == w'.confirmed - w.confirmed
    && multiset(Vaults(log)) == multiset(Vaults(log0)) + multiset(KeysOf(batch))
    && Count(log, NoAsset) == Count(log0, NoAsset) + Obstructed(batch, NoAsset, assetByMarket, env)
    && Count(log, BuildFailed) == Count(log0, BuildFailed) + Obstructed(batch, BuildFailed, assetByMarket, env)
    && ((forall n :: !env.stop(n)) ==> Count(log, NotTried) == Count(log0, NotTried))
    && (Undisturbed(env, batch, assetByMarket) && Done(env, log0, w) ==> Done(env, log, w'))
    && BatchLogged(env, batch, assetByMarket, w, w', rep0, rep, log0, log)
  }

  /** The log goes on with the vaults that could not be built, then with those that were sent. */
  ghost predicate BatchLogged(env: Env, batch: seq<Vault>, assetByMarket: map<string, string>, start: World, end: World,
                              before: Report, after: Report, log0: seq<Entry>, log: seq<Entry>) {
    exists sent :: log == log0 + Unbuildable(batch, assetByMarket, env) + sent &&
      BatchRan(env, batch, assetByMarket, start, end, before, after, sent)
  }

  lemma BatchIsLogged(env: Env, batch: seq<Vault>, assetByMarket: map<string, string>, start: World, end: World,
                      before: Report, after: Report, log0: seq<Entry>, sent: seq<Entry>)
    requires BatchRan(env, batch, assetByMarket, start, end, before, after, sent)
    ensures var log := log0 + Unbuildable(batch, assetByMarket, env) + sent;
      BatchLogged(env, batch, assetByMarket, start, end, before, after, log0, log)
  {
  }

  method RunBatch(batch: seq<Vault>, assetByMarket: map<string, string>, env: Env, ghost w0: World, w: World,
                  rep0: Report, ghost log0: seq<Entry>)
    returns (w': World, rep: Report, ghost log: seq<Entry>)
    requires Reached(env, w0, w) && Honest(log0, w) && CountersMatch(rep0, log0)
    ensures BatchResult(env, w0, w, w', rep0, rep, log0, log, batch, assetByMarket)
  {
    hide BatchFirst, BatchLogged, BatchRan;
    hide Reached, Count, CountersMatch, Counted, KeysOf, Vaults, Honest, Done, Undisturbed, Buildable, Unbuildable,
      Obstructed;
    var built;
    ghost var unbuilt;
    built, rep, unbuilt := BuildBatch(batch, assetByMarket, env, rep0);
    Unattempted(rep0, log0, rep, unbuilt, w);
    log := log0 + unbuilt;
    JoinVaults(log0, unbuilt);
    UnbuiltCounts(log0, batch, assetByMarket, env);
    w' := w;
    assert unbuilt == [] ==> log == log0;
    if |built| == 0 {
      assert multiset(built) == multiset{};
      NothingSent(env, batch, assetByMarket, w, rep0);
      BatchIsLogged(env, batch, assetByMarket, w, w, rep0, rep, log0, []);
      assert log + [] == log;
      return;
    }
    ghost var sentLog;
    ghost var before := rep;
    rep := rep.(attempted := rep.attempted + |built|);
    w', rep, sentLog := SendBatchThenIsolate(env, built, w0, w, rep);
    Attempted(before, log, rep, sentLog, |built|);
    HonestLater(log, w, w');
    if Undisturbed(env, batch, assetByMarket) && Done(env, log0, w) {
      UndisturbedNeverStops(env, batch, assetByMarket);
      assert log == log0;
      DoneLater(env, log, w, w');
    }
    HonestJoin(env, log, sentLog, w');
    JoinVaults(log, sentLog);
    SentCounts(env, log, sentLog, w');
    BatchSent(env, batch, assetByMarket, w, w', rep0, rep, sentLog);
    BatchIsLogged(env, batch, assetByMarket, w, w', rep0, rep, log0, sentLog);
    log := log + sentLog;
  }

  lemma NothingSent(env: Env, batch: seq<Vault>, assetByMarket: map<string, string>, w: World, rep0: Report)
    requires Buildable(batch, assetByMarket, env) == []
    ensures BatchRan(env, batch, assetByMarket, w, w, rep0, Prepared(rep0, batch, assetByMarket, env), [])
  {
  }

  lemma BatchSent(env: Env, batch: seq<Vault>, assetByMarket: map<string, string>, w: World, w': World, rep0: Report,
                  rep: Report, log: seq<Entry>)
    requires Buildable(batch, assetByMarket, env) != []
    requires var built, prepared := Buildable(batch, assetByMarket, env), Prepared(rep0, batch, assetByMarket, env);
      BatchFirst(env, built, w, w', prepared.(attempted := prepared.attempted + |built|), rep, log)
    ensures BatchRan(env, batch, assetByMarket, w, w', rep0, rep, log)
  {
  }

  lemma UnbuiltCounts(log: seq<Entry>, batch: seq<Vault>, assetByMarket: map<string, string>, env: Env)
    ensures var all := log + Unbuildable(batch, assetByMarket, env);
      && (forall what :: Count(all, what) == Count(log, what) + Obstructed(batch, what, assetByMarket, env))
      && Count(all, NotTried) == Count(log, NotTried)
  {
    var more := Unbuildable(batch, assetByMarket, env);
    forall what ensures Count(log + more, what) == Count(log, what) + Obstructed(batch, what, assetByMarket, env) {
      CountSplit(log, more, what);
      UnbuildableCounts(batch, what, assetByMarket, env);
    }
    NoneObstructed(batch, NotTried, assetByMarket, env);
  }

  lemma SentCounts(env: Env, log: seq<Entry>, more: seq<Entry>, w: World)
    requires forall e :: e in more ==> e.what in {Settled, Skipped, SendFailed, NotTried}
    ensures Count(log + more, NoAsset) == Count(log, NoAsset) &&
      Count(log + more, BuildFailed) == Count(log, BuildFailed)
    ensures Done(env, more, w) ==> Count(log + more, NotTried) == Count(log, NotTried)
  {
    CountSplit(log, more, NoAsset);
    CountSplit(log, more, BuildFailed);
    CountSplit(log, more, NotTried);
    CountZero(more, NoAsset);
    CountZero(more, BuildFailed);
    if Done(env, more, w) {
      forall e | e in more ensures e.what != NotTried {
        assert EntryDone(env, e, w);
      }
      CountZero(more, NotTried);
    }
  }

  lemma JoinVaults(a: seq<Entry>, b: seq<Entry>)
    ensures Vaults(a + b) == Vaults(a) + Vaults(b)
  {
  }

  lemma HonestJoin(env: Env, a: seq<Entry>, b: seq<Entry>, w: World)
    requires Honest(a, w) && Honest(b, w)
    ensures Honest(a + b, w)
    ensures Done(env, a, w) && Done(env, b, w) ==> Done(env, a + b, w)
  {
  }

  lemma UndisturbedNeverStops(env: Env, targets: seq<Vault>, assetByMarket: map<string, string>)
    requires Undisturbed(env, targets, assetByMarket)
    ensures forall n :: !env.stop(n)
  {
  }

  lemma Unattempted(rep: Report, log: seq<Entry>, rep': Report, more: seq<Entry>, w: World)
    requires CountersMatch(rep, log) && Counted(rep, rep', more) && Honest(log, w)
    requires forall e :: e in more ==> e.what == NoAsset || e.what == BuildFailed
    ensures CountersMatch(rep', log + more) && Honest(log + more, w)
  {
    CountZero(more, Settled);
    CountZero(more, Skipped);
    CountZero(more, SendFailed);
    CountZero(more, NotTried);
    CountsCover(more);
    CountersExtend(rep, log, rep', more);
  }

  lemma Attempted(rep: Report, log: seq<Entry>, rep': Report, more: seq<Entry>, n: nat)
    requires CountersMatch(rep, log) && Counted(rep.(attempted := rep.attempted + n), rep', more) && n == |more|
    requires forall e :: e in more ==> e.what in {Settled, Skipped, SendFailed, NotTried}
    ensures CountersMatch(rep', log + more)
  {
    CountZero(more, BuildFailed);
    CountZero(more, NoAsset);
    CountersExtend(rep, log, rep', more);
  }

  // ---- a run that nothing but a shutdown disturbs ----

  /** All targets are distinct, unsettled and can be built, the network delivers, and nobody else
      settles anything. The shutdown flag may say what it likes. */
  ghost predicate Calm(env: Env, w0: World, targets: seq<Vault>, assetByMarket: map<string, string>) {
    && (forall n :: env.fate(n) == Delivered && env.race(n) == {})
    && (forall i, j :: 0 <= i < j < |targets| ==> targets[i].key != targets[j].key)
    && (forall v :: v in targets ==> v.key !in w0.settled && env.builds(v.key) && HasAsset(v, assetByMarket))
  }

  /** The first b stretches of four keys; the last of them all may be shorter. */
  function Fours(keys: seq<string>, b: nat): (r: seq<seq<string>>)
    requires 4 * b < |keys| + 4
    ensures |r| == b && forall i :: 0 <= i < b ==> r[i] == keys[4 * i..Min(4 * i + 4, |keys|)]
  {
    seq(b, i requires 0 <= i < b => keys[4 * i..Min(4 * i + 4, |keys|)])
  }

  lemma OneMoreFour(keys: seq<string>, b: nat)
    requires 4 * b < |keys|
    ensures Fours(keys, b + 1) == Fours(keys, b) + [keys[4 * b..Min(4 * b + 4, |keys|)]]
    ensures keys[..Min(4 * (b + 1), |keys|)] == keys[..4 * b] + keys[4 * b..Min(4 * b + 4, |keys|)]
    ensures ToSet(keys[..Min(4 * (b + 1), |keys|)]) == ToSet(keys[..4 * b]) + ToSet(keys[4 * b..Min(4 * b + 4, |keys|)])
  {
  }

  /** After b batches of four: one poll and one transaction for each, and their vaults settled. */
  ghost predicate Batched(env: Env, w0: World, w: World, rep: Report, keys: seq<string>, b: nat) {
    var done := keys[..Min(4 * b, |keys|)];
    && 4 * b < |keys| + 4
    && (forall p :: w0.polls <= p < w0.polls + b ==> !env.stop(p))
    && w.polls == w0.polls + b && w.sends == w0.sends + b
    && w.tried == w0.tried + Fours(keys, b)
    && w.ours == w0.ours + done && w.settled == w0.settled + ToSet(done)
    && rep.txsSent == b && rep.settled == |done| == rep.attempted && rep.failed == 0 == rep.skippedAlreadySettled
  }

  /** So it goes for all batches of four, or for those before the first poll that says stop. */
  ghost predicate CalmRun(env: Env, w0: World, w: World, rep: Report, keys: seq<string>) {
    var b := rep.txsSent;
    if 4 * b < |keys| then
      env.stop(w0.polls + b) && w.polls > 0 && Batched(env, w0, w.(polls := w.polls - 1), rep, keys, b)
    else Batched(env, w0, w, rep, keys, b)
  }

  lemma {:induction false} ChunkAt(chunks: seq<seq<Vault>>, targets: seq<Vault>, b: nat)
    requires Concat(chunks) == targets && b <= |chunks|
    requires forall c :: 0 <= c < |chunks| ==> 1 <= |chunks[c]| <= 4
    requires forall c :: 0 <= c < |chunks| - 1 ==> |chunks[c]| == 4
    ensures Concat(chunks[..b]) == targets[..Min(4 * b, |targets|)]
    ensures b < |chunks| ==> 4 * b < |targets| && chunks[b] == targets[4 * b..Min(4 * b + 4, |targets|)]
    ensures b == |chunks| ==> 4 * b >= |targets|
  {
    hide Concat;
    ChunksLength(chunks, b);
    ConcatPrefix(chunks, b);
    if b < |chunks| {
      ChunksLength(chunks, b + 1);
      ConcatStep(chunks, b);
      assert |chunks[b]| == 4 || b + 1 == |chunks|;
      if b + 1 == |chunks| {
        assert chunks[..b + 1] == chunks;
      }
    } else {
      assert chunks[..b] == chunks;
    }
  }

  lemma {:induction false} ChunksLength(chunks: seq<seq<Vault>>, b: nat)
    requires b <= |chunks|
    requires forall c :: 0 <= c < |chunks| ==> 1 <= |chunks[c]| <= 4
    requires forall c :: 0 <= c < |chunks| - 1 ==> |chunks[c]| == 4
    ensures b < |chunks| ==> |Concat(chunks[..b])| == 4 * b
    ensures |Concat(chunks[..b])| <= 4 * b
    ensures b > 0 ==> |Concat(chunks[..b])| > 4 * b - 4
  {
    if b > 0 {
      ChunksLength(chunks, b - 1);
      assert chunks[..b][..b - 1] == chunks[..b - 1];
    }
  }

  lemma {:induction false} AllBuilt(vs: seq<Vault>, assetByMarket: map<string, string>, env: Env)
    requires forall v :: v in vs ==> env.builds(v.key) && HasAsset(v, assetByMarket)
    ensures Buildable(vs, assetByMarket, env) == KeysOf(vs) && Obstructed(vs, BuildFailed, assetByMarket, env) == 0
  {
    hide HasAsset;
    if vs != [] {
      assert vs == vs[..|vs| - 1] + [vs[|vs| - 1]];
      AllBuilt(vs[..|vs| - 1], assetByMarket, env);
    }
  }

  lemma CalmLands(env: Env, w0: World, w: World, rep: Report, targets: seq<Vault>, assetByMarket: map<string, string>,
                  b: nat)
    requires Calm(env, w0, targets, assetByMarket) && Batched(env, w0, w, rep, KeysOf(targets), b)
    requires 4 * b < |targets|
    ensures LandsAtOnce(env, w, KeysOf(targets)[4 * b..Min(4 * b + 4, |targets|)])
  {
    hide ToSet, Fours;
    var keys := KeysOf(targets);
    var batch := keys[4 * b..Min(4 * b + 4, |targets|)];
    forall i | 0 <= i < |batch| ensures batch[i] !in w.settled {
      assert batch[i] == keys[4 * b + i] && targets[4 * b + i] in targets;
      NotBefore(targets, 4 * b, 4 * b + i);
    }
    forall i, j | 0 <= i < j < |batch| ensures batch[i] != batch[j] {
      assert batch[i] == targets[4 * b + i].key && batch[j] == targets[4 * b + j].key;
    }
    assert forall k :: k in batch ==> k !in w.settled;
  }

  lemma NotBefore(targets: seq<Vault>, n: nat, i: nat)
    requires n <= i < |targets| && forall i, j :: 0 <= i < j < |targets| ==> targets[i].key != targets[j].key
    ensures KeysOf(targets)[i] !in ToSet(KeysOf(targets)[..n])
  {
  }

  lemma OneMoreBatched(env: Env, w0: World, w: World, w': World, rep: Report, rep': Report, keys: seq<string>, b: nat)
    requires Batched(env, w0, w, rep, keys, b) && 4 * b < |keys| && !env.stop(w.polls) && env.race(w.sends) == {}
    requires var batch := keys[4 * b..Min(4 * b + 4, |keys|)];
      && w'.sends == w.sends + 1 && w'.tried == w.tried + [batch] && w'.polls == w.polls + 1
      && w'.ours == w.ours + batch && w'.settled == w.settled + ToSet(batch)
      && rep' == rep.(attempted := rep.attempted + |batch|, txsSent := rep.txsSent + 1,
                      settled := rep.settled + |batch|)
    ensures Batched(env, w0, w', rep', keys, b + 1)
  {
    hide ToSet, Fours;
    OneMoreFour(keys, b);
    assert Min(4 * b, |keys|) == 4 * b;
  }

  /** The next batch of a calm run. */
  lemma CalmStep(env: Env, w0: World, w: World, w': World, rep: Report, rep': Report, targets: seq<Vault>,
                 batch: seq<Vault>, assetByMarket: map<string, string>, b: nat, log: seq<Entry>)
    requires Calm(env, w0, targets, assetByMarket) && Batched(env, w0, w, rep, KeysOf(targets), b)
    requires 4 * b < |targets| && batch == targets[4 * b..Min(4 * b + 4, |targets|)] && !env.stop(w.polls)
    requires BatchRan(env, batch, assetByMarket, w.(polls := w.polls + 1), w', rep, rep', log)
    ensures Batched(env, w0, w', rep', KeysOf(targets), b + 1)
  {
    hide Calm, Batched, LandsAtOnce, KeysOf, Buildable, Obstructed;
    CalmLands(env, w0, w, rep, targets, assetByMarket, b);
    CalmBuilt(env, w0, targets, batch, assetByMarket, b);
    CalmRace(env, w0, targets, assetByMarket, w.sends);
    assert LandsAtOnce(env, w.(polls := w.polls + 1), KeysOf(batch)) by { PollsDoNotMatter(env, w, KeysOf(batch)); }
    OneMoreBatched(env, w0, w, w', rep, rep', KeysOf(targets), b);
  }

  lemma CalmBuilt(env: Env, w0: World, targets: seq<Vault>, batch: seq<Vault>, assetByMarket: map<string, string>,
                  b: nat)
    requires Calm(env, w0, targets, assetByMarket)
    requires 4 * b < |targets| && batch == targets[4 * b..Min(4 * b + 4, |targets|)]
    ensures KeysOf(batch) == KeysOf(targets)[4 * b..Min(4 * b + 4, |targets|)] && batch != []
    ensures Buildable(batch, assetByMarket, env) == KeysOf(batch)
    ensures Obstructed(batch, BuildFailed, assetByMarket, env) == 0
  {
    assert forall v :: v in batch ==> v in targets;
    AllBuilt(batch, assetByMarket, env);
  }

  lemma PollsDoNotMatter(env: Env, w: World, batch: seq<string>)
    requires LandsAtOnce(env, w, batch)
    ensures LandsAtOnce(env, w.(polls := w.polls + 1), batch)
  {
  }

  /** The same, whether or not the run is calm. */
  lemma IfCalmStep(env: Env, w0: World, w: World, w': World, rep: Report, rep': Report, targets: seq<Vault>,
                   batch: seq<Vault>, assetByMarket: map<string, string>, b: nat, log: seq<Entry>)
    requires Calm(env, w0, targets, assetByMarket) ==> Batched(env, w0, w, rep, KeysOf(targets), b)
    requires 4 * b < |targets| && batch == targets[4 * b..Min(4 * b + 4, |targets|)] && !env.stop(w.polls)
    requires BatchRan(env, batch, assetByMarket, w.(polls := w.polls + 1), w', rep, rep', log)
    ensures Calm(env, w0, targets, assetByMarket) ==> Batched(env, w0, w', rep', KeysOf(targets), b + 1)
  {
    hide Calm, Batched, BatchRan;
    if Calm(env, w0, targets, assetByMarket) {
      CalmStep(env, w0, w, w', rep, rep', targets, batch, assetByMarket, b, log);
    }
  }

  lemma CalmRace(env: Env, w0: World, targets: seq<Vault>, assetByMarket: map<string, string>, n: nat)
    requires Calm(env, w0, targets, assetByMarket)
    ensures env.race(n) == {}
  {
  }

  lemma NothingBatched(env: Env, w0: World, keys: seq<string>, remaining: nat)
    ensures Batched(env, w0, w0, Report(0, 0, 0, 0, 0, remaining), keys, 0)
  {
    assert keys[..0] == [];
  }

  /** What a calm run amounts to, with the remaining depth worked out. */
  ghost predicate CalmResult(env: Env, w0: World, w: World, rep: Report, plan: Plan,
                             assetByMarket: map<string, string>) {
    Calm(env, w0, plan.targets, assetByMarket) ==>
      && CalmRun(env, w0, w, rep, KeysOf(plan.targets))
      && ((forall n :: !env.stop(n)) ==> rep.txsSent == (|plan.targets| + 3) / 4 && rep.settled == |plan.targets|)
  }

  lemma IfCalmEnd(env: Env, w0: World, w: World, rep: Report, plan: Plan, assetByMarket: map<string, string>, b: nat)
    requires Calm(env, w0, plan.targets, assetByMarket) ==> Batched(env, w0, w, rep, KeysOf(plan.targets), b)
    requires 4 * b >= |plan.targets|
    ensures forall n: nat :: CalmResult(env, w0, w, rep.(remaining := n), plan, assetByMarket)
  {
    hide Calm;
  }

  lemma IfCalmStop(env: Env, w0: World, w: World, rep: Report, plan: Plan, assetByMarket: map<string, string>, b: nat)
    requires Calm(env, w0, plan.targets, assetByMarket) ==> Batched(env, w0, w, rep, KeysOf(plan.targets), b)
    requires 4 * b < |plan.targets| && env.stop(w.polls)
    ensures forall n: nat ::
      CalmResult(env, w0, w.(polls := w.polls + 1), rep.(remaining := n), plan, assetByMarket)
  {
    hide Calm;
  }

  // ---- a whole run ----

  /** What holds after b batches, whatever the network, the other parties and the flag do. */
  ghost predicate BatchesDone(env: Env, w0: World, w: World, rep: Report, log: seq<Entry>, targets: seq<Vault>,
                              assetByMarket: map<string, string>, batches: seq<seq<Vault>>, b: nat)
    requires b <= |batches|
  {
    && CountersMatch(rep, log)
    && multiset(Vaults(log)) == multiset(KeysOf(Concat(batches[..b])))
    && Honest(log, w) && Reached(env, w0, w)
    && rep.txsSent == w.confirmed - w0.confirmed
    && (Undisturbed(env, targets, assetByMarket) ==> Done(env, log, w))
    && ObstaclesCounted(env, log, Concat(batches[..b]), assetByMarket)
    && (Calm(env, w0, targets, assetByMarket) ==> Batched(env, w0, w, rep, KeysOf(targets), b))
  }

  /** What a run guarantees. The counters are the counts of the log; the log names each target at most
      once and is honest, and no vault is settled twice. Undisturbed, every target is in the log; if
      nothing is dropped either, every one ends settled. Without a stop the log names all targets, and
      each obstacle once. */
  ghost predicate FanoutResult(env: Env, w0: World, w: World, rep: Report, log: seq<Entry>, plan: Plan,
                               assetByMarket: map<string, string>) {
    && CountersMatch(rep, log)
    && multiset(Vaults(log)) <= multiset(KeysOf(plan.targets))
    && Honest(log, w) && Reached(env, w0, w)
    && rep.txsSent == w.confirmed - w0.confirmed
    && (Undisturbed(env, plan.targets, assetByMarket) ==>
          multiset(Vaults(log)) == multiset(KeysOf(plan.targets)) && Done(env, log, w))
    && (Undisturbed(env, plan.targets, assetByMarket) && AllDelivered(env) ==>
          && (forall t :: t in plan.targets ==> t.key in w.settled)
          && rep.settled + rep.skippedAlreadySettled == |plan.targets|
          && rep.failed == 0)
    && ((forall n :: !env.stop(n)) ==>
          && multiset(Vaults(log)) == multiset(KeysOf(plan.targets)) && Count(log, NotTried) == 0
          && Count(log, NoAsset) == Obstructed(plan.targets, NoAsset, assetByMarket, env)
          && Count(log, BuildFailed) == Obstructed(plan.targets, BuildFailed, assetByMarket, env))
    && CalmResult(env, w0, w, rep, plan, assetByMarket)
  }

  lemma NoBatchDone(env: Env, w0: World, plan: Plan, assetByMarket: map<string, string>, batches: seq<seq<Vault>>)
    ensures BatchesDone(env, w0, w0, Report(0, 0, 0, 0, 0, plan.eligibleTotal), [], plan.targets, assetByMarket,
                        batches, 0)
  {
    hide Calm, Batched, Undisturbed, Honest, Done, CountersMatch, KeysOf, ObstaclesCounted, Vaults, Reached;
    StartOfRun(env, w0, plan);
    NoObstaclesYet(env, assetByMarket);
    NothingBatched(env, w0, KeysOf(plan.targets), plan.eligibleTotal);
    assert Concat(batches[..0]) == [];
  }

  lemma PolledBefore(env: Env, w0: World, w: World, rep: Report, log: seq<Entry>, targets: seq<Vault>,
                     assetByMarket: map<string, string>, batches: seq<seq<Vault>>, b: nat)
    requires b <= |batches| && BatchesDone(env, w0, w, rep, log, targets, assetByMarket, batches, b)
    ensures var polled := w.(polls := w.polls + 1);
      && Reached(env, w0, polled) && Honest(log, polled) && CountersMatch(rep, log)
      && (Done(env, log, w) ==> Done(env, log, polled))
  {
    hide Calm, Batched, Undisturbed, CountersMatch, KeysOf, ObstaclesCounted, Vaults, Concat;
    PollHarmless(env, w0, w, log);
  }

  lemma OneMoreDone(env: Env, w0: World, w: World, w': World, rep: Report, rep': Report, log: seq<Entry>,
                    log': seq<Entry>, targets: seq<Vault>, assetByMarket: map<string, string>,
                    batches: seq<seq<Vault>>, b: nat)
    requires b < |batches| && Concat(batches) == targets && !env.stop(w.polls)
    requires forall c :: 0 <= c < |batches| ==> 1 <= |batches[c]| <= 4
    requires forall c :: 0 <= c < |batches| - 1 ==> |batches[c]| == 4
    requires BatchesDone(env, w0, w, rep, log, targets, assetByMarket, batches, b)
    requires BatchResult(env, w0, w.(polls := w.polls + 1), w', rep, rep', log, log', batches[b], assetByMarket)
    ensures BatchesDone(env, w0, w', rep', log', targets, assetByMarket, batches, b + 1)
  {
    hide Calm, Batched, Undisturbed, Honest, Done, CountersMatch, KeysOf, ObstaclesCounted, Vaults, Reached, Obstructed,
      Count, BatchRan, Buildable, Unbuildable, Concat;
    PolledBefore(env, w0, w, rep, log, targets, assetByMarket, batches, b);
    BatchOf(batches, b, targets);
    ChunkAt(batches, targets, b);
    BatchUndisturbed(env, batches[b], targets, assetByMarket);
    OneMoreBatch(env, log, log', batches, b, assetByMarket);
    var sent :| log' == log + Unbuildable(batches[b], assetByMarket, env) + sent &&
      BatchRan(env, batches[b], assetByMarket, w.(polls := w.polls + 1), w', rep, rep', sent);
    IfCalmStep(env, w0, w, w', rep, rep', targets, batches[b], assetByMarket, b, sent);
  }

  lemma RunEnds(env: Env, w0: World, w: World, rep: Report, log: seq<Entry>, plan: Plan,
                assetByMarket: map<string, string>, batches: seq<seq<Vault>>, b: nat)
    requires b <= |batches| && Concat(batches) == plan.targets
    requires forall c :: 0 <= c < |batches| ==> 1 <= |batches[c]| <= 4
    requires forall c :: 0 <= c < |batches| - 1 ==> |batches[c]| == 4
    requires BatchesDone(env, w0, w, rep, log, plan.targets, assetByMarket, batches, b)
    requires b < |batches| ==> env.stop(w.polls)
    ensures var end := if b < |batches| then w.(polls := w.polls + 1) else w;
      forall n: nat :: FanoutResult(env, w0, end, rep.(remaining := n), log, plan, assetByMarket)
  {
    hide Calm, Batched, Undisturbed, Honest, Done, CountersMatch, KeysOf, ObstaclesCounted, Vaults, Reached, Obstructed,
      Count, CalmResult;
    PolledBefore(env, w0, w, rep, log, plan.targets, assetByMarket, batches, b);
    var end := if b < |batches| then w.(polls := w.polls + 1) else w;
    ChunkAt(batches, plan.targets, b);
    if b < |batches| {
      BatchOf(batches, b, plan.targets);
      Interrupted(env, plan.targets, assetByMarket, w.polls);
      IfCalmStop(env, w0, w, rep, plan, assetByMarket, b);
      PrefixKeys(batches, b, plan.targets);
    } else {
      assert batches[..b] == batches;
      AllObstaclesCounted(env, log, plan.targets, assetByMarket);
      IfCalmEnd(env, w0, w, rep, plan, assetByMarket, b);
      if Undisturbed(env, plan.targets, assetByMarket) {
        DeliveredMeansSettled(plan, env, w, rep, log);
      }
    }
    hide Concat;
    forall n: nat ensures FanoutResult(env, w0, end, rep.(remaining := n), log, plan, assetByMarket) {
      RemainingUncounted(rep, log, n);
    }
  }

  lemma PrefixKeys(batches: seq<seq<Vault>>, b: nat, targets: seq<Vault>)
    requires b <= |batches| && Concat(batches) == targets
    ensures multiset(KeysOf(Concat(batches[..b]))) <= multiset(KeysOf(targets))
  {
    ConcatPrefix(batches, b);
    var front := Concat(batches[..b]);
    assert targets == front + targets[|front|..];
    JoinKeys(front, targets[|front|..]);
  }

  /** The whole fan-out, whatever the network, the other parties and the shutdown flag do. */
  method RunSettleFanout(plan: Plan, assetByMarket: map<string, string>, env: Env, w0: World)
    returns (rep: Report, w: World, ghost log: seq<Entry>)
    ensures FanoutResult(env, w0, w, rep, log, plan, assetByMarket)
    ensures rep.remaining == if plan.targets == [] then plan.eligibleTotal
                             else Max(0, plan.eligibleTotal - rep.settled - rep.skippedAlreadySettled)
    ensures Undisturbed(env, plan.targets, assetByMarket) && AllDelivered(env) ==>
      |plan.targets| <= plan.eligibleTotal ==> rep.remaining == plan.eligibleTotal - |plan.targets|
  {
    hide FanoutResult, BatchesDone, BatchResult, Concat;
    rep := Report(0, 0, 0, 0, 0, plan.eligibleTotal);
    w, log := w0, [];
    NoBatchDone(env, w0, plan, assetByMarket, []);
    if |plan.targets| == 0 {
      NoTargets(env, w0, plan, assetByMarket);
      return;
    }
    var chunked := ChunkTargets(plan.targets, FANOUT_CHUNK_SIZE);
    var batches := chunked.value;
    NoBatchDone(env, w0, plan, assetByMarket, batches);
    var b := 0;
    ghost var end := w;
    while b < |batches|
      invariant 0 <= b <= |batches| && end == w
      invariant BatchesDone(env, w0, w, rep, log, plan.targets, assetByMarket, batches, b)
    {
      var stopped := env.stop(w.polls);
      PolledBefore(env, w0, w, rep, log, plan.targets, assetByMarket, batches, b);
      w := w.(polls := w.polls + 1);
      if stopped {
        break;
      }
      ghost var log0, rep0 := log, rep;
      w, rep, log := RunBatch(batches[b], assetByMarket, env, w0, w, rep, log);
      OneMoreDone(env, w0, end, w, rep0, rep, log0, log, plan.targets, assetByMarket, batches, b);
      b := b + 1;
      end := w;
    }
    RunEnds(env, w0, end, rep, log, plan, assetByMarket, batches, b);
    rep := rep.(remaining := Max(0, plan.eligibleTotal - rep.settled - rep.skippedAlreadySettled));
    RemainingDepth(env, w0, w, rep, log, plan, assetByMarket);
  }

  lemma NoTargets(env: Env, w0: World, plan: Plan, assetByMarket: map<string, string>)
    requires plan.targets == []
    ensures FanoutResult(env, w0, w0, Report(0, 0, 0, 0, 0, plan.eligibleTotal), [], plan, assetByMarket)
  {
    hide FanoutResult;
    var rep := Report(0, 0, 0, 0, 0, plan.eligibleTotal);
    NoBatchDone(env, w0, plan, assetByMarket, []);
    RunEnds(env, w0, w0, rep, [], plan, assetByMarket, [], 0);
    assert rep.(remaining := plan.eligibleTotal) == rep;
  }

  lemma RemainingDepth(env: Env, w0: World, w: World, rep: Report, log: seq<Entry>, plan: Plan,
                       assetByMarket: map<string, string>)
    requires FanoutResult(env, w0, w, rep, log, plan, assetByMarket)
    ensures Undisturbed(env, plan.targets, assetByMarket) && AllDelivered(env) ==>
      rep.settled + rep.skippedAlreadySettled == |plan.targets|
  {
    hide Undisturbed, AllDelivered;
  }

  /** The obstacles in the log are those of the targets dealt with so far. */
  ghost predicate ObstaclesCounted(env: Env, log: seq<Entry>, done: seq<Vault>, assetByMarket: map<string, string>) {
    && Count(log, NoAsset) == Obstructed(done, NoAsset, assetByMarket, env)
    && Count(log, BuildFailed) == Obstructed(done, BuildFailed, assetByMarket, env)
    && ((forall n :: !env.stop(n)) ==> Count(log, NotTried) == 0)
  }

  lemma NoObstaclesYet(env: Env, assetByMarket: map<string, string>)
    ensures ObstaclesCounted(env, [], [], assetByMarket)
  {
  }

  lemma AllObstaclesCounted(env: Env, log: seq<Entry>, targets: seq<Vault>, assetByMarket: map<string, string>)
    requires ObstaclesCounted(env, log, targets, assetByMarket)
    ensures Count(log, NoAsset) == Obstructed(targets, NoAsset, assetByMarket, env)
    ensures Count(log, BuildFailed) == Obstructed(targets, BuildFailed, assetByMarket, env)
    ensures (forall n :: !env.stop(n)) ==> Count(log, NotTried) == 0
  {
  }

  lemma OneMoreBatch(env: Env, log: seq<Entry>, log': seq<Entry>, batches: seq<seq<Vault>>, b: nat,
                     assetByMarket: map<string, string>)
    requires b < |batches| && ObstaclesCounted(env, log, Concat(batches[..b]), assetByMarket)
    requires Count(log', NoAsset) == Count(log, NoAsset) + Obstructed(batches[b], NoAsset, assetByMarket, env)
    requires Count(log', BuildFailed) ==
      Count(log, BuildFailed) + Obstructed(batches[b], BuildFailed, assetByMarket, env)
    requires (forall n :: !env.stop(n)) ==> Count(log', NotTried) == Count(log, NotTried)
    ensures ObstaclesCounted(env, log', Concat(batches[..b + 1]), assetByMarket)
  {
    ConcatStep(batches, b);
    ObstructedSplit(Concat(batches[..b]), batches[b], NoAsset, assetByMarket, env);
    ObstructedSplit(Concat(batches[..b]), batches[b], BuildFailed, assetByMarket, env);
  }

  lemma StartOfRun(env: Env, w0: World, plan: Plan)
    ensures Reached(env, w0, w0) && Honest([], w0) && Done(env, [], w0)
    ensures CountersMatch(Report(0, 0, 0, 0, 0, plan.eligibleTotal), [])
    ensures Vaults([]) == [] && KeysOf([]) == []
    ensures multiset(Vaults([])) <= multiset(KeysOf(plan.targets))
  {
    assert w0.ours[|w0.ours|..] == [];
  }

  lemma Interrupted(env: Env, targets: seq<Vault>, assetByMarket: map<string, string>, n: nat)
    requires env.stop(n)
    ensures !Undisturbed(env, targets, assetByMarket)
  {
  }

  lemma BatchUndisturbed(env: Env, batch: seq<Vault>, targets: seq<Vault>, assetByMarket: map<string, string>)
    requires forall v :: v in batch ==> v in targets
    ensures Undisturbed(env, targets, assetByMarket) ==> Undisturbed(env, batch, assetByMarket)
  {
  }

  lemma RemainingUncounted(rep: Report, log: seq<Entry>, remaining: nat)
    requires CountersMatch(rep, log)
    ensures CountersMatch(rep.(remaining := remaining), log)
  {
  }

  // ---- the results ----

  /** When nothing interrupts the run and every instruction can be built, every target is attempted
      exactly when every target's market has an asset name; the others are not even counted. */
  lemma EveryTargetAttemptedExactlyWhen(plan: Plan, assetByMarket: map<string, string>, env: Env, rep: Report,
                                        log: seq<Entry>)
    requires CountersMatch(rep, log) && multiset(Vaults(log)) == multiset(KeysOf(plan.targets))
    requires Count(log, NoAsset) == Obstructed(plan.targets, NoAsset, assetByMarket, env)
    requires Count(log, BuildFailed) == Obstructed(plan.targets, BuildFailed, assetByMarket, env)
    requires forall v :: v in plan.targets ==> env.builds(v.key)
    ensures rep.attempted == |plan.targets| <==> forall v :: v in plan.targets ==> HasAsset(v, assetByMarket)
    ensures rep.attempted + Obstructed(plan.targets, NoAsset, assetByMarket, env) == |plan.targets|
  {
    SameVaults(log, plan.targets);
    CountsCover(log);
    NoneObstructed(plan.targets, NoAsset, assetByMarket, env);
    NoneObstructed(plan.targets, BuildFailed, assetByMarket, env);
  }

  /** Such a target: a vault on a market whose name is all padding, with a record under that name, is
      planned, and the map the caller builds gives its market no name. */
  lemma NamelessTargetIsPlanned(marketLe: (string, string) -> bool)
    ensures var v := Vault("vault", "market", 100, false, false);
      var markets, records := [Market("market", "\0")], [Record("\0", 100)];
      && SliceTo(Sort(Eligible([v], markets, records, 200), ByAge(marketLe)), FANOUT_MAX_PER_TICK) == [v]
      && AssetOf(markets, "market") == Some("")
      && !HasAsset(v, map["market" := ""])
  {
    var v := Vault("vault", "market", 100, false, false);
    var markets, records := [Market("market", "\0")], [Record("\0", 100)];
    assert ""[..0] == "" && "\0"[..0] == "";
    assert StripTrailing("\0", IsNul) == "" && CleanAssetName("\0") == "";
    assert markets[..0] == [] && AssetOf(markets, "market") == Some("");
    assert Record("\0", 100) in records;
    EligibleMeansRecorded(v, markets, records, 200);
    assert [v][..0] == [] && Eligible([v], markets, records, 200) == [v];
    assert [v][1..] == [] && Sort([v], ByAge(marketLe)) == [v];
    assert [v][..1] == [v];
  }

  lemma SameVaults(log: seq<Entry>, targets: seq<Vault>)
    requires multiset(Vaults(log)) == multiset(KeysOf(targets))
    ensures |log| == |targets|
    ensures forall t :: t in targets ==> exists e :: e in log && e.vault == t.key
  {
    assert |log| == |multiset(Vaults(log))| && |targets| == |multiset(KeysOf(targets))|;
    forall t | t in targets ensures exists e :: e in log && e.vault == t.key {
      var i :| 0 <= i < |targets| && targets[i] == t;
      assert KeysOf(targets)[i] in multiset(Vaults(log));
      var j :| 0 <= j < |log| && Vaults(log)[j] == t.key;
      assert log[j] in log;
    }
  }

  /** An undisturbed run on a network that drops nothing, though it may lose confirmations:
      every target ends settled, and the counters still add up to the number of targets. */
  lemma EveryTargetSettled(plan: Plan, env: Env, w: World, rep: Report, log: seq<Entry>)
    requires CountersMatch(rep, log) && Done(env, log, w)
    requires multiset(Vaults(log)) == multiset(KeysOf(plan.targets))
    requires NothingDropped(env)
    ensures forall t :: t in plan.targets ==> t.key in w.settled
    ensures rep.settled + rep.skippedAlreadySettled + rep.failed == |plan.targets| == rep.attempted
    ensures AllDelivered(env) ==> rep.failed == 0
  {
    SameVaults(log, plan.targets);
    forall t | t in plan.targets ensures t.key in w.settled {
      var e :| e in log && e.vault == t.key;
      assert EntryDone(env, e, w);
    }
    forall e | e in log
      ensures e.what in {Settled, Skipped, SendFailed} && (AllDelivered(env) ==> e.what != SendFailed) {
      assert EntryDone(env, e, w);
    }
    CountZero(log, BuildFailed);
    CountZero(log, NoAsset);
    CountZero(log, NotTried);
    CountsCover(log);
    if AllDelivered(env) {
      CountZero(log, SendFailed);
    }
  }

  lemma DeliveredMeansSettled(plan: Plan, env: Env, w: World, rep: Report, log: seq<Entry>)
    requires CountersMatch(rep, log) && Done(env, log, w)
    requires multiset(Vaults(log)) == multiset(KeysOf(plan.targets))
    ensures AllDelivered(env) ==>
      && (forall t :: t in plan.targets ==> t.key in w.settled)
      && rep.settled + rep.skippedAlreadySettled == |plan.targets|
      && rep.failed == 0
  {
    if AllDelivered(env) {
      assert NothingDropped(env);
      EveryTargetSettled(plan, env, w, rep, log);
    }
  }

  /** One vault is counted once: with distinct targets no vault has two log entries. */
  lemma EachTargetLoggedOnce(log: seq<Entry>, targets: seq<Vault>, i: nat, j: nat)
    requires multiset(Vaults(log)) <= multiset(KeysOf(targets)) && Distinct(KeysOf(targets))
    requires i < j < |log|
    ensures log[i].vault != log[j].vault
  {
    var keys, vs := KeysOf(targets), Vaults(log);
    DistinctCount(keys, vs[i]);
    if vs[i] == vs[j] {
      RepeatCount(vs, i, j);
    }
  }

  lemma RepeatCount(keys: seq<string>, i: nat, j: nat)
    requires i < j < |keys| && keys[i] == keys[j]
    ensures multiset(keys)[keys[i]] >= 2
  {
    assert keys == keys[..i] + [keys[i]] + keys[i + 1..j] + [keys[i]] + keys[j + 1..];
  }

  lemma DistinctCount(keys: seq<string>, k: string)
    requires Distinct(keys)
    ensures multiset(keys)[k] <= 1
  {
    if k in keys {
      var p :| 0 <= p < |keys| && keys[p] == k;
      var before, after := keys[..p], keys[p + 1..];
      assert k !in before && k !in after;
      hide Distinct;
      assert keys == before + [k] + after;
      AbsentCount(before, k);
      AbsentCount(after, k);
    }
  }

  lemma AbsentCount(keys: seq<string>, k: string)
    requires k !in keys
    ensures multiset(keys)[k] == 0
  {
  }
}

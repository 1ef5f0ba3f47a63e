/** crank/settleRouting.ts and the first-party enumeration of crank/optaSettleCrank.ts:136-179:
    which lane may settle a vault, and the (asset, expiry) tuples each lane works on. */
module SettleRouting {
  import opened Results
  import opened StableSort
  import opened TupleKey
  import opened Grouping

  /** The oracle_source field as decoded: absent, a whole number, or anything else. */
  datatype RawSource = Absent | Number(n: int) | NotANumber
  datatype Route = Pyth | Switchboard | Opta | Refuse

  const ORACLE_SOURCE_PYTH := 0
  const ORACLE_SOURCE_SWITCHBOARD := 1
  const ORACLE_SOURCE_OPTA := 2

  function RouteForSource(raw: RawSource): Route {
    match raw
    case Absent => Pyth
    case NotANumber => Refuse
    case Number(n) =>
      if n == ORACLE_SOURCE_PYTH then Pyth
      else if n == ORACLE_SOURCE_SWITCHBOARD then Switchboard
      else if n == ORACLE_SOURCE_OPTA then Opta
      else Refuse
  }

  datatype Vault = Vault(key: string, market: string, expiry: int, isSettled: bool, voided: bool)
  datatype Market = Market(key: string, asset: Option<string>, source: RawSource, feedId: seq<int>)

  predicate IsLiveVault(v: Vault) { !v.isSettled && !v.voided }

  predicate Named(m: Market) { m.asset.Some? && m.asset.value != "" }

  /** A lookup in a map built from the list: the last entry for an address wins. */
  function Lookup(markets: seq<Market>, key: string): (m: Option<Market>)
    ensures m.Some? ==> m.value in markets && m.value.key == key
  {
    if markets == [] then None
    else
      var last := markets[|markets| - 1];
      if last.key == key then Some(last) else Lookup(markets[..|markets| - 1], key)
  }

  /** A vault a lane has taken, with the market it found for it. */
  datatype Taken = Taken(vault: Vault, market: Market)

  function TakenItem(v: Vault, m: Market): Item<Taken>
    requires m.asset.Some?
  {
    Item(Key(m.asset.value, ':', v.expiry), Taken(v, m))
  }

  ghost predicate WellKeyed(items: seq<Item<Taken>>) {
    forall it :: it in items ==> it.value.market.asset.Some? && it == TakenItem(it.value.vault, it.value.market)
  }

  /** A group holds one tuple only: all its vaults share the asset and the expiry of the first. */
  lemma BucketIsOneTuple(items: seq<Item<Taken>>, key: string, a: Taken, b: Taken)
    requires WellKeyed(items) && a in Bucket(items, key) && b in Bucket(items, key)
    ensures a.market.asset.Some? && a.market.asset == b.market.asset && a.vault.expiry == b.vault.expiry
    ensures key == Key(a.market.asset.value, ':', a.vault.expiry)
  {
    BucketMembers(items, key);
    assert Item(key, a) in items && Item(key, b) in items;
    KeyInjective(a.market.asset.value, a.vault.expiry, b.market.asset.value, b.vault.expiry, ':');
  }

  // ---- the Pyth lane ----

  datatype PythVerdict = Ignore | SkipVoided | SkipSwitchboard | SkipOpta | SkipRefused | Take(market: Market)

  function PythDecides(v: Vault, markets: seq<Market>, nowSecs: int): (d: PythVerdict)
    ensures d.Take? ==> d.market.asset.Some?
  {
    if v.expiry >= nowSecs then Ignore
    else if v.isSettled then Ignore
    else if v.voided then SkipVoided
    else match Lookup(markets, v.market)
      case None => Ignore
      case Some(m) => match RouteForSource(m.source)
        case Switchboard => SkipSwitchboard
        case Opta => SkipOpta
        case Refuse => SkipRefused
        case Pyth => if Named(m) then Take(m) else Ignore
  }

  function PythItems(vs: seq<Vault>, markets: seq<Market>, nowSecs: int): (r: seq<Item<Taken>>)
    ensures WellKeyed(r)
  {
    if vs == [] then []
    else
      var v, before := vs[|vs| - 1], PythItems(vs[..|vs| - 1], markets, nowSecs);
      var d := PythDecides(v, markets, nowSecs);
      if d.Take? then before + [TakenItem(v, d.market)] else before
  }

  function CountPyth(vs: seq<Vault>, d: PythVerdict, markets: seq<Market>, nowSecs: int): nat {
    if vs == [] then 0
    else
      CountPyth(vs[..|vs| - 1], d, markets, nowSecs) +
      (if PythDecides(vs[|vs| - 1], markets, nowSecs) == d then 1 else 0)
  }

  datatype ExpiryTuple = ExpiryTuple(key: string, asset: string, expiry: int, feedId: seq<int>,
                                     oracleSource: RawSource, vaultPdas: seq<string>)
  datatype PythSkips = PythSkips(switchboard: nat, opta: nat, refused: nat, voided: nat)
  datatype PythEnumeration = PythEnumeration(tuples: seq<ExpiryTuple>, skipped: PythSkips)

  function VaultKey(t: Taken): string { t.vault.key }

  /** The tuple of a non-empty group: the first vault fixes the asset, expiry and feed. */
  function PythTuple(key: string, group: seq<Taken>): ExpiryTuple
    requires group != [] && group[0].market.asset.Some?
  {
    var first := group[0];
    ExpiryTuple(key, first.market.asset.value, first.vault.expiry, first.market.feedId, Number(ORACLE_SOURCE_PYTH),
                Labels(group, VaultKey))
  }

  lemma GroupsReady(items: seq<Item<Taken>>)
    requires WellKeyed(items)
    ensures forall k :: k in Keys(items) ==> Bucket(items, k) != [] && Bucket(items, k)[0].market.asset.Some?
  {
    KeysDistinct(items);
    forall k | k in Keys(items) ensures Bucket(items, k)[0].market.asset.Some? {
      BucketMembers(items, k);
      assert Bucket(items, k)[0] in Bucket(items, k);
    }
  }

  function PythGroups(items: seq<Item<Taken>>): (r: seq<ExpiryTuple>)
    requires WellKeyed(items)
    ensures |r| == |Keys(items)|
  {
    GroupsReady(items);
    var keys := Keys(items);
    seq(|keys|, i requires 0 <= i < |keys| => PythTuple(keys[i], Bucket(items, keys[i])))
  }

  predicate ByExpiry(a: ExpiryTuple, b: ExpiryTuple) { a.expiry <= b.expiry }

  function PythTuples(vs: seq<Vault>, markets: seq<Market>, nowSecs: int): seq<ExpiryTuple> {
    Sort(PythGroups(PythItems(vs, markets, nowSecs)), ByExpiry)
  }

  ghost predicate GroupAt(grouped: map<string, ExpiryTuple>, items: seq<Item<Taken>>, k: string) {
    var group := Bucket(items, k);
    && k in grouped
    && group != [] && group[0].market.asset.Some?
    && grouped[k] == PythTuple(k, group)
  }

  /** The in-progress map of groups and its insertion order. */
  ghost predicate GroupsSoFar(grouped: map<string, ExpiryTuple>, order: seq<string>, items: seq<Item<Taken>>) {
    && order == Keys(items)
    && (forall k :: k in grouped ==> k in order)
    && (forall k :: k in order ==> GroupAt(grouped, items, k))
  }

  /** The tuple of a group after one more vault. */
  function Joined(grouped: map<string, ExpiryTuple>, v: Vault, m: Market): map<string, ExpiryTuple>
    requires m.asset.Some?
  {
    var k := TakenItem(v, m).key;
    if k in grouped then grouped[k := grouped[k].(vaultPdas := grouped[k].vaultPdas + [v.key])]
    else grouped[k := PythTuple(k, [Taken(v, m)])]
  }

  lemma GroupAfter(grouped: map<string, ExpiryTuple>, order: seq<string>, items: seq<Item<Taken>>, v: Vault,
                   m: Market, j: string)
    requires GroupsSoFar(grouped, order, items) && m.asset.Some? && (j in order || j == TakenItem(v, m).key)
    ensures GroupAt(Joined(grouped, v, m), items + [TakenItem(v, m)], j)
  {
    hide Key, WellKeyed, Bucket;
    var it := TakenItem(v, m);
    var k := it.key;
    BucketGrows(items, it, j);
    KeysDistinct(items);
    if j == k && k in grouped {
      assert GroupAt(grouped, items, k);
      LabelsSnoc(Bucket(items, k), it.value, VaultKey);
    } else if j == k {
      assert k !in order && Bucket(items, k) == [];
    } else {
      assert GroupAt(grouped, items, j);
    }
  }

  lemma OneMoreTaken(grouped: map<string, ExpiryTuple>, order: seq<string>, items: seq<Item<Taken>>, v: Vault,
                     m: Market)
    requires GroupsSoFar(grouped, order, items) && m.asset.Some?
    ensures var k := TakenItem(v, m).key;
      GroupsSoFar(Joined(grouped, v, m), if k in grouped then order else order + [k], items + [TakenItem(v, m)])
  {
    var it := TakenItem(v, m);
    var k, more := it.key, items + [it];
    assert k in grouped <==> k in order by {
      assert k in order ==> GroupAt(grouped, items, k);
    }
    hide Key, WellKeyed, GroupAt, Bucket;
    assert more[..|more| - 1] == items;
    forall j | j in order || j == k ensures GroupAt(Joined(grouped, v, m), more, j) {
      GroupAfter(grouped, order, items, v, m, j);
    }
  }

  method MarketsByPda(markets: seq<Market>) returns (byPda: map<string, Market>)
    ensures forall k :: k in byPda <==> Lookup(markets, k).Some?
    ensures forall k :: k in byPda ==> Lookup(markets, k) == Some(byPda[k])
  {
    byPda := map[];
    for i := 0 to |markets|
      invariant forall k :: k in byPda <==> Lookup(markets[..i], k).Some?
      invariant forall k :: k in byPda ==> Lookup(markets[..i], k) == Some(byPda[k])
    {
      assert markets[..i + 1][..i] == markets[..i];
      byPda := byPda[markets[i].key := markets[i]];
    }
    assert markets[..|markets|] == markets;
  }

  method ComputePythExpiredTuples(vaults: seq<Vault>, markets: seq<Market>, nowSecs: int) returns (r: PythEnumeration)
    ensures r.tuples == PythTuples(vaults, markets, nowSecs)
    ensures r.skipped == PythSkips(
      CountPyth(vaults, SkipSwitchboard, markets, nowSecs), CountPyth(vaults, SkipOpta, markets, nowSecs),
      CountPyth(vaults, SkipRefused, markets, nowSecs), CountPyth(vaults, SkipVoided, markets, nowSecs))
  {
    var marketByPda := MarketsByPda(markets);
    hide Key, Bucket, Keys, GroupsSoFar, PythTuple;
    var skipped := PythSkips(0, 0, 0, 0);
    var grouped: map<string, ExpiryTuple>, order: seq<string> := map[], [];
    NoGroups();
    for i := 0 to |vaults|
      invariant GroupsSoFar(grouped, order, PythItems(vaults[..i], markets, nowSecs))
      invariant skipped.switchboard == CountPyth(vaults[..i], SkipSwitchboard, markets, nowSecs)
      invariant skipped.opta == CountPyth(vaults[..i], SkipOpta, markets, nowSecs)
      invariant skipped.refused == CountPyth(vaults[..i], SkipRefused, markets, nowSecs)
      invariant skipped.voided == CountPyth(vaults[..i], SkipVoided, markets, nowSecs)
    {
      var v := vaults[i];
      assert vaults[..i + 1][..i] == vaults[..i];
      if v.expiry >= nowSecs || v.isSettled {
        continue;
      }
      if v.voided {
        skipped := skipped.(voided := skipped.voided + 1);
        continue;
      }
      if v.market !in marketByPda {
        continue;
      }
      var market := marketByPda[v.market];
      match RouteForSource(market.source) {
        case Switchboard => skipped := skipped.(switchboard := skipped.switchboard + 1);
        case Opta => skipped := skipped.(opta := skipped.opta + 1);
        case Refuse => skipped := skipped.(refused := skipped.refused + 1);
        case Pyth =>
          if Named(market) {
            var key := Key(market.asset.value, ':', v.expiry);
            OneMoreTaken(grouped, order, PythItems(vaults[..i], markets, nowSecs), v, market);
            if key in grouped {
              var existing := grouped[key];
              grouped := grouped[key := existing.(vaultPdas := existing.vaultPdas + [v.key])];
            } else {
              grouped := grouped[key := PythTuple(key, [Taken(v, market)])];
              order := order + [key];
            }
          }
      }
    }
    assert vaults[..|vaults|] == vaults;
    GroupsListed(grouped, order, PythItems(vaults, markets, nowSecs));
    r := PythEnumeration(Sort(seq(|order|, i requires 0 <= i < |order| => grouped[order[i]]), ByExpiry), skipped);
  }

  lemma NoGroups()
    ensures GroupsSoFar(map[], [], [])
  {
  }

  lemma GroupsListed(grouped: map<string, ExpiryTuple>, order: seq<string>, items: seq<Item<Taken>>)
    requires GroupsSoFar(grouped, order, items) && WellKeyed(items)
    ensures forall k :: k in order ==> k in grouped
    ensures seq(|order|, i requires 0 <= i < |order| => grouped[order[i]]) == PythGroups(items)
  {
    forall k | k in order ensures GroupAt(grouped, items, k) {
    }
    forall i | 0 <= i < |order| ensures order[i] in grouped && grouped[order[i]] == PythGroups(items)[i] {
      hide PythTuple, Bucket;
      assert order[i] in order && GroupAt(grouped, items, order[i]);
    }
  }

  // ---- what the Pyth enumeration guarantees ----

  /** The vaults that belong to the Pyth lane now: expired, live, on a named Pyth market. */
  predicate PythVault(v: Vault, markets: seq<Market>, nowSecs: int) {
    var m := Lookup(markets, v.market);
    v.expiry < nowSecs && IsLiveVault(v) && m.Some? && RouteForSource(m.value.source) == Pyth && Named(m.value)
  }

  function PythVaultKeys(vs: seq<Vault>, markets: seq<Market>, nowSecs: int): seq<string> {
    if vs == [] then []
    else
      var v, before := vs[|vs| - 1], PythVaultKeys(vs[..|vs| - 1], markets, nowSecs);
      if PythVault(v, markets, nowSecs) then before + [v.key] else before
  }

  lemma {:induction false} PythItemsAre(vs: seq<Vault>, markets: seq<Market>, nowSecs: int)
    ensures Values(Relabel(PythItems(vs, markets, nowSecs), VaultKey)) == PythVaultKeys(vs, markets, nowSecs)
  {
    if vs != [] {
      var v, before := vs[|vs| - 1], PythItems(vs[..|vs| - 1], markets, nowSecs);
      PythItemsAre(vs[..|vs| - 1], markets, nowSecs);
      PythTakes(v, markets, nowSecs);
      hide PythDecides, PythVault;
      var d := PythDecides(v, markets, nowSecs);
      if d.Take? {
        RelabelSnoc(before, TakenItem(v, d.market), VaultKey);
        ValuesSnoc(Relabel(before, VaultKey), Item(TakenItem(v, d.market).key, v.key));
      }
    }
  }

  lemma PythTakes(v: Vault, markets: seq<Market>, nowSecs: int)
    ensures PythDecides(v, markets, nowSecs).Take? <==> PythVault(v, markets, nowSecs)
  {
  }

  function VaultsOf(t: ExpiryTuple): multiset<string> { multiset(t.vaultPdas) }

  lemma {:induction false} GroupsUnion(groups: seq<ExpiryTuple>, items: seq<Item<string>>, keys: seq<string>)
    requires |groups| == |keys|
    requires forall i :: 0 <= i < |keys| ==> groups[i].vaultPdas == Bucket(items, keys[i])
    ensures Union(groups, VaultsOf) == BucketUnion(items, keys)
  {
    if keys != [] {
      GroupsUnion(groups[1..], items, keys[1..]);
    }
  }

  function TupleKeyOf(t: ExpiryTuple): string { t.key }

  predicate InTuple(v: Vault, markets: seq<Market>, nowSecs: int, asset: string, expiry: int) {
    PythVault(v, markets, nowSecs) && Lookup(markets, v.market).value.asset.value == asset && v.expiry == expiry
  }

  /** The lane's vaults of one asset and expiry, in the order of the scan. */
  function TupleVaults(vs: seq<Vault>, markets: seq<Market>, nowSecs: int, asset: string, expiry: int): seq<string> {
    if vs == [] then []
    else
      var v, before := vs[|vs| - 1], TupleVaults(vs[..|vs| - 1], markets, nowSecs, asset, expiry);
      if InTuple(v, markets, nowSecs, asset, expiry) then before + [v.key]
      else before
  }

  /** What the builder is handed: a key that names the tuple, a source its guard lets through, exactly
      the lane's vaults of that asset and expiry, and the feed of the first one's market. */
  ghost predicate TupleExact(t: ExpiryTuple, vs: seq<Vault>, markets: seq<Market>, nowSecs: int) {
    && t.key == Key(t.asset, ':', t.expiry)
    && RouteForSource(t.oracleSource) == Pyth
    && t.vaultPdas != []
    && t.vaultPdas == TupleVaults(vs, markets, nowSecs, t.asset, t.expiry)
    && exists v :: v in vs && PythVault(v, markets, nowSecs) && v.key == t.vaultPdas[0] &&
                   t.feedId == Lookup(markets, v.market).value.feedId
  }

  lemma {:induction false} PythItemsFrom(vs: seq<Vault>, markets: seq<Market>, nowSecs: int)
    ensures forall it :: it in PythItems(vs, markets, nowSecs) ==>
      var v := it.value.vault;
      v in vs && PythVault(v, markets, nowSecs) && Lookup(markets, v.market) == Some(it.value.market)
  {
    if vs != [] {
      hide Key, PythDecides, PythVault, Lookup;
      var v, front := vs[|vs| - 1], vs[..|vs| - 1];
      PythItemsFrom(front, markets, nowSecs);
      PythTakes(v, markets, nowSecs);
      assert vs == front + [v];
      if PythDecides(v, markets, nowSecs).Take? {
        PythTakesMarket(v, markets, nowSecs);
      }
    }
  }

  lemma PythTakesMarket(v: Vault, markets: seq<Market>, nowSecs: int)
    requires PythDecides(v, markets, nowSecs).Take?
    ensures Lookup(markets, v.market) == Some(PythDecides(v, markets, nowSecs).market)
  {
  }

  /** One more vault in the group of a key, or in the tuple it names: under the same condition. */
  lemma OneMoreInTuple(items: seq<Item<Taken>>, v: Vault, m: Market, asset: string, expiry: int)
    requires m.asset.Some?
    ensures var k, more := Key(asset, ':', expiry), items + [TakenItem(v, m)];
      Labels(Bucket(more, k), VaultKey) ==
      Labels(Bucket(items, k), VaultKey) + (if m.asset.value == asset && v.expiry == expiry then [v.key] else [])
  {
    hide Key, Bucket;
    var k := Key(asset, ':', expiry);
    BucketGrows(items, TakenItem(v, m), k);
    if TakenItem(v, m).key == k {
      KeyInjective(m.asset.value, v.expiry, asset, expiry, ':');
      LabelsSnoc(Bucket(items, k), Taken(v, m), VaultKey);
    } else {
      assert Bucket(items, k) + [] == Bucket(items, k);
    }
  }

  lemma {:induction false} BucketIsTupleVaults(vs: seq<Vault>, markets: seq<Market>, nowSecs: int, asset: string,
                                               expiry: int)
    ensures Labels(Bucket(PythItems(vs, markets, nowSecs), Key(asset, ':', expiry)), VaultKey) ==
      TupleVaults(vs, markets, nowSecs, asset, expiry)
  {
    hide Key, PythDecides, PythVault, Lookup, WellKeyed;
    if vs != [] {
      hide Bucket, Labels;
      var v, before := vs[|vs| - 1], PythItems(vs[..|vs| - 1], markets, nowSecs);
      var d := PythDecides(v, markets, nowSecs);
      BucketIsTupleVaults(vs[..|vs| - 1], markets, nowSecs, asset, expiry);
      PythTakes(v, markets, nowSecs);
      if d.Take? {
        PythTakesMarket(v, markets, nowSecs);
        OneMoreInTuple(before, v, d.market, asset, expiry);
      }
    }
  }

  lemma PythGroupsAre(items: seq<Item<Taken>>)
    requires WellKeyed(items)
    ensures KeyedApart(PythGroups(items), TupleKeyOf)
    ensures Union(PythGroups(items), VaultsOf) == multiset(Values(Relabel(items, VaultKey)))
  {
    var groups, keys, labelled := PythGroups(items), Keys(items), Relabel(items, VaultKey);
    KeysDistinct(items);
    RelabelGroups(items, VaultKey);
    forall i | 0 <= i < |keys| ensures groups[i].vaultPdas == Bucket(labelled, keys[i]) {
      var group := Bucket(items, keys[i]);
      assert group[0] in group;
    }
    GroupsUnion(groups, labelled, keys);
    GroupsPartition(labelled);
  }

  lemma PythGroupIsExact(vs: seq<Vault>, markets: seq<Market>, nowSecs: int, t: ExpiryTuple)
    requires t in PythGroups(PythItems(vs, markets, nowSecs))
    ensures TupleExact(t, vs, markets, nowSecs)
  {
    hide Key, Bucket, PythItems, TupleVaults, PythVault, Lookup;
    var items := PythItems(vs, markets, nowSecs);
    KeysDistinct(items);
    PythItemsFrom(vs, markets, nowSecs);
    var i :| 0 <= i < |Keys(items)| && PythGroups(items)[i] == t;
    var group := Bucket(items, Keys(items)[i]);
    assert group[0] in group;
    BucketIsOneTuple(items, Keys(items)[i], group[0], group[0]);
    BucketMembers(items, Keys(items)[i]);
    assert Item(Keys(items)[i], group[0]) in items;
    assert t.vaultPdas == Labels(group, VaultKey) && VaultKey(group[0]) == t.vaultPdas[0];
    BucketIsTupleVaults(vs, markets, nowSecs, t.asset, t.expiry);
  }

  /** The Pyth tuples: distinct (asset, expiry) keys, oldest first, each naming its own tuple, passing
      the builder's guard and holding exactly the lane's vaults of its asset and expiry; together
      they hold every vault of the lane exactly once. */
  lemma PythEnumerationIsExact(vs: seq<Vault>, markets: seq<Market>, nowSecs: int)
    ensures var tuples := PythTuples(vs, markets, nowSecs);
      && KeyedApart(tuples, TupleKeyOf)
      && Sorted(tuples, ByExpiry)
      && (forall t :: t in tuples ==> TupleExact(t, vs, markets, nowSecs))
      && Union(tuples, VaultsOf) == multiset(PythVaultKeys(vs, markets, nowSecs))
  {
    var items := PythItems(vs, markets, nowSecs);
    var groups := PythGroups(items);
    PythGroupsAre(items);
    PythItemsAre(vs, markets, nowSecs);
    SortSorts(groups, ByExpiry);
    SortKeyedApart(groups, ByExpiry, TupleKeyOf);
    UnionSort(groups, ByExpiry, VaultsOf);
    hide TupleExact, Sort;
    forall t | t in Sort(groups, ByExpiry) ensures TupleExact(t, vs, markets, nowSecs) {
      assert t in multiset(groups);
      PythGroupIsExact(vs, markets, nowSecs, t);
    }
  }

  datatype GuardError = WrongLane

  /** The guard at the Pyth builder's call site. It lets a source through exactly when the lane itself
      would take a live, expired vault of a named market with that source, and so never stops a
      tuple that the lane has enumerated. */
  method AssertPythTuple(t: ExpiryTuple) returns (r: Result<(), GuardError>)
    ensures forall m: Market, v: Vault, nowSecs :: m.source == t.oracleSource && WouldBeDue(v, m, nowSecs) ==>
      (r.Ok? <==> PythVault(v, [m], nowSecs))
    ensures r.Ok? <==> t.oracleSource == Absent || t.oracleSource == Number(0)
    ensures forall vs, markets, nowSecs :: t in PythTuples(vs, markets, nowSecs) ==> r.Ok?
  {
    if RouteForSource(t.oracleSource) != Pyth {
      r := Err(WrongLane);
    } else {
      r := Ok(());
    }
    forall vs, markets, nowSecs | t in PythTuples(vs, markets, nowSecs) ensures r.Ok? {
      PythEnumerationIsExact(vs, markets, nowSecs);
      assert TupleExact(t, vs, markets, nowSecs);
    }
    forall m: Market, v: Vault, nowSecs | m.source == t.oracleSource && WouldBeDue(v, m, nowSecs)
      ensures r.Ok? <==> PythVault(v, [m], nowSecs)
    {
      assert Lookup([m], v.market) == Some(m);
    }
  }

  /** A vault of this market that needs a price, whoever provides it. */
  predicate WouldBeDue(v: Vault, m: Market, nowSecs: int) {
    v.market == m.key && v.expiry < nowSecs && IsLiveVault(v) && Named(m)
  }

  // ---- the first-party lane ----

  datatype Source2Tuple = Source2Tuple(key: string, asset: string, expiry: int, market: string, feedBytes: seq<int>,
                                       liveVaults: nat)

  /** A first-party market is taken only if its address is the one derived from its own name. */
  predicate Accepted(m: Market, pda: string -> string) {
    RouteForSource(m.source) == Opta && Named(m) && pda(m.asset.value) == m.key
  }

  predicate Refused(m: Market, pda: string -> string) {
    RouteForSource(m.source) == Opta && !Accepted(m, pda)
  }

  function AcceptedOf(ms: seq<Market>, pda: string -> string): (r: seq<Market>)
    ensures forall m :: m in r ==> m in ms && Accepted(m, pda)
  {
    if ms == [] then []
    else
      var m, before := ms[|ms| - 1], AcceptedOf(ms[..|ms| - 1], pda);
      if Accepted(m, pda) then before + [m] else before
  }

  function CountRefused(ms: seq<Market>, pda: string -> string): nat {
    if ms == [] then 0
    else CountRefused(ms[..|ms| - 1], pda) + (if Refused(ms[|ms| - 1], pda) then 1 else 0)
  }

  predicate Source2Vault(v: Vault, accepted: seq<Market>) {
    IsLiveVault(v) && Lookup(accepted, v.market).Some?
  }

  ghost predicate AllNamed(ms: seq<Market>) { forall m :: m in ms ==> Named(m) }

  function Source2Items(vs: seq<Vault>, accepted: seq<Market>): (r: seq<Item<Taken>>)
    requires AllNamed(accepted)
    ensures WellKeyed(r)
  {
    if vs == [] then []
    else
      var v, before := vs[|vs| - 1], Source2Items(vs[..|vs| - 1], accepted);
      if Source2Vault(v, accepted) then before + [TakenItem(v, Lookup(accepted, v.market).value)] else before
  }

  function CountSource2(vs: seq<Vault>, accepted: seq<Market>): nat {
    if vs == [] then 0
    else CountSource2(vs[..|vs| - 1], accepted) + (if Source2Vault(vs[|vs| - 1], accepted) then 1 else 0)
  }

  function MakeSource2(key: string, group: seq<Taken>): Source2Tuple
    requires group != [] && group[0].market.asset.Some?
  {
    var first := group[0];
    Source2Tuple(key, first.market.asset.value, first.vault.expiry, first.market.key, first.market.feedId, |group|)
  }

  function Source2Groups(items: seq<Item<Taken>>): (r: seq<Source2Tuple>)
    requires WellKeyed(items)
    ensures |r| == |Keys(items)|
  {
    GroupsReady(items);
    var keys := Keys(items);
    seq(|keys|, i requires 0 <= i < |keys| => MakeSource2(keys[i], Bucket(items, keys[i])))
  }

  /** By expiry, then by asset name; `assetLe(a, b)` stands for `a.localeCompare(b) <= 0`. */
  predicate Source2Before(assetLe: (string, string) -> bool, a: Source2Tuple, b: Source2Tuple) {
    a.expiry < b.expiry || (a.expiry == b.expiry && assetLe(a.asset, b.asset))
  }

  function Source2Order(assetLe: (string, string) -> bool): (Source2Tuple, Source2Tuple) -> bool {
    (a, b) => Source2Before(assetLe, a, b)
  }

  function Source2Tuples(vs: seq<Vault>, markets: seq<Market>, pda: string -> string,
                         assetLe: (string, string) -> bool): seq<Source2Tuple> {
    Sort(Source2Groups(Source2Items(vs, AcceptedOf(markets, pda))), Source2Order(assetLe))
  }

  ghost predicate Source2At(grouped: map<string, Source2Tuple>, items: seq<Item<Taken>>, k: string) {
    var group := Bucket(items, k);
    && k in grouped
    && group != [] && group[0].market.asset.Some?
    && grouped[k] == MakeSource2(k, group)
  }

  ghost predicate Source2SoFar(grouped: map<string, Source2Tuple>, order: seq<string>, items: seq<Item<Taken>>) {
    && order == Keys(items)
    && (forall k :: k in grouped ==> k in order)
    && (forall k :: k in order ==> Source2At(grouped, items, k))
  }

  function Source2Joined(grouped: map<string, Source2Tuple>, v: Vault, m: Market): map<string, Source2Tuple>
    requires m.asset.Some?
  {
    var k := TakenItem(v, m).key;
    if k in grouped then grouped[k := grouped[k].(liveVaults := grouped[k].liveVaults + 1)]
    else grouped[k := MakeSource2(k, [Taken(v, m)])]
  }

  lemma Source2After(grouped: map<string, Source2Tuple>, order: seq<string>, items: seq<Item<Taken>>, v: Vault,
                     m: Market, j: string)
    requires Source2SoFar(grouped, order, items) && m.asset.Some? && (j in order || j == TakenItem(v, m).key)
    ensures Source2At(Source2Joined(grouped, v, m), items + [TakenItem(v, m)], j)
  {
    hide Key, WellKeyed, Bucket;
    var it := TakenItem(v, m);
    BucketGrows(items, it, j);
    KeysDistinct(items);
    if j == it.key && it.key !in grouped {
      assert j !in order && Bucket(items, j) == [];
    } else {
      assert Source2At(grouped, items, j);
    }
  }

  lemma OneMoreSource2(grouped: map<string, Source2Tuple>, order: seq<string>, items: seq<Item<Taken>>, v: Vault,
                       m: Market)
    requires Source2SoFar(grouped, order, items) && m.asset.Some?
    ensures var k := TakenItem(v, m).key;
      Source2SoFar(Source2Joined(grouped, v, m), if k in grouped then order else order + [k], items + [TakenItem(v, m)])
  {
    var it := TakenItem(v, m);
    var k, more := it.key, items + [it];
    assert k in grouped <==> k in order by {
      assert k in order ==> Source2At(grouped, items, k);
    }
    hide Key, WellKeyed, Source2At, Bucket;
    assert more[..|more| - 1] == items;
    forall j | j in order || j == k ensures Source2At(Source2Joined(grouped, v, m), more, j) {
      Source2After(grouped, order, items, v, m, j);
    }
  }

  lemma VisitSource2(grouped: map<string, Source2Tuple>, order: seq<string>, vaults: seq<Vault>, i: nat,
                     accepted: seq<Market>)
    requires i < |vaults| && AllNamed(accepted)
    requires Source2SoFar(grouped, order, Source2Items(vaults[..i], accepted))
    ensures var v, items := vaults[i], Source2Items(vaults[..i + 1], accepted);
      if !Source2Vault(v, accepted) then Source2SoFar(grouped, order, items)
      else
        var m := Lookup(accepted, v.market).value; var k := TakenItem(v, m).key;
        Source2SoFar(Source2Joined(grouped, v, m), if k in grouped then order else order + [k], items)
  {
    var v := vaults[i];
    assert vaults[..i + 1][..i] == vaults[..i];
    if Source2Vault(v, accepted) {
      OneMoreSource2(grouped, order, Source2Items(vaults[..i], accepted), v, Lookup(accepted, v.market).value);
    }
  }

  lemma Source2Listed(grouped: map<string, Source2Tuple>, order: seq<string>, items: seq<Item<Taken>>)
    requires Source2SoFar(grouped, order, items) && WellKeyed(items)
    ensures forall k :: k in order ==> k in grouped
    ensures seq(|order|, i requires 0 <= i < |order| => grouped[order[i]]) == Source2Groups(items)
  {
    forall k | k in order ensures Source2At(grouped, items, k) {
    }
    forall i | 0 <= i < |order| ensures order[i] in grouped && grouped[order[i]] == Source2Groups(items)[i] {
      hide MakeSource2, Bucket;
      assert order[i] in order && Source2At(grouped, items, order[i]);
    }
  }

  /** The markets half of the enumeration: accepted ones by address, refused ones counted. */
  method AcceptMarkets(markets: seq<Market>, pda: string -> string) returns (byPda: map<string, Market>, refused: nat)
    ensures forall k :: k in byPda <==> Lookup(AcceptedOf(markets, pda), k).Some?
    ensures forall k :: k in byPda ==> Lookup(AcceptedOf(markets, pda), k) == Some(byPda[k])
    ensures forall k :: k in byPda ==> Named(byPda[k])
    ensures |byPda| == |set m | m in AcceptedOf(markets, pda) :: m.key|
    ensures refused == CountRefused(markets, pda)
  {
    byPda, refused := map[], 0;
    for i := 0 to |markets|
      invariant forall k :: k in byPda <==> Lookup(AcceptedOf(markets[..i], pda), k).Some?
      invariant forall k :: k in byPda ==> Lookup(AcceptedOf(markets[..i], pda), k) == Some(byPda[k])
      invariant refused == CountRefused(markets[..i], pda)
    {
      var m := markets[i];
      assert markets[..i + 1][..i] == markets[..i];
      if RouteForSource(m.source) != Opta {
        continue;
      }
      if !Named(m) || pda(m.asset.value) != m.key {
        refused := refused + 1;
        continue;
      }
      ghost var accepted := AcceptedOf(markets[..i], pda) + [m];
      assert accepted[..|accepted| - 1] == AcceptedOf(markets[..i], pda);
      byPda := byPda[m.key := m];
    }
    assert markets[..|markets|] == markets;
    LookupKeys(AcceptedOf(markets, pda));
    assert byPda.Keys == set m | m in AcceptedOf(markets, pda) :: m.key;
  }

  method GroupSource2(vaults: seq<Vault>, byPda: map<string, Market>, ghost accepted: seq<Market>)
    returns (grouped: map<string, Source2Tuple>, order: seq<string>)
    requires AllNamed(accepted)
    requires forall k :: k in byPda <==> Lookup(accepted, k).Some?
    requires forall k :: k in byPda ==> Lookup(accepted, k) == Some(byPda[k]) && Named(byPda[k])
    ensures Source2SoFar(grouped, order, Source2Items(vaults, accepted))
  {
    hide Key, Bucket, Keys, Source2SoFar, MakeSource2, Lookup, Source2Items, AllNamed;
    grouped, order := map[], [];
    NoSource2(accepted);
    for i := 0 to |vaults|
      invariant Source2SoFar(grouped, order, Source2Items(vaults[..i], accepted))
    {
      var v := vaults[i];
      VisitSource2(grouped, order, vaults, i, accepted);
      if !IsLiveVault(v) || v.market !in byPda {
        continue;
      }
      var mk := byPda[v.market];
      var key := Key(mk.asset.value, ':', v.expiry);
      if key in grouped {
        grouped := grouped[key := grouped[key].(liveVaults := grouped[key].liveVaults + 1)];
      } else {
        grouped := grouped[key := MakeSource2(key, [Taken(v, mk)])];
        order := order + [key];
      }
    }
    assert vaults[..|vaults|] == vaults;
  }

  method EnumerateSource2Tuples(vaults: seq<Vault>, markets: seq<Market>, pda: string -> string,
                                assetLe: (string, string) -> bool)
    returns (tuples: seq<Source2Tuple>, source2Markets: nat, refusedMarkets: nat)
    ensures tuples == Source2Tuples(vaults, markets, pda, assetLe)
    ensures refusedMarkets == CountRefused(markets, pda)
    ensures source2Markets == |set m | m in AcceptedOf(markets, pda) :: m.key|
  {
    var byPda: map<string, Market>;
    byPda, refusedMarkets := AcceptMarkets(markets, pda);
    ghost var accepted := AcceptedOf(markets, pda);
    assert AllNamed(accepted);
    hide AcceptedOf, Lookup, Source2Items, Source2SoFar;
    source2Markets := |byPda|;
    var grouped, order := GroupSource2(vaults, byPda, accepted);
    Source2Listed(grouped, order, Source2Items(vaults, accepted));
    tuples := Sort(seq(|order|, i requires 0 <= i < |order| => grouped[order[i]]), Source2Order(assetLe));
  }

  lemma NoSource2(accepted: seq<Market>)
    requires AllNamed(accepted)
    ensures Source2SoFar(map[], [], Source2Items([], accepted))
  {
  }

  lemma {:induction false} LookupKeys(ms: seq<Market>)
    ensures forall k :: Lookup(ms, k).Some? <==> k in set m | m in ms :: m.key
  {
    if ms != [] {
      LookupKeys(ms[..|ms| - 1]);
      assert ms == ms[..|ms| - 1] + [ms[|ms| - 1]];
    }
  }

  // ---- what the first-party enumeration guarantees ----

  function SumLive(ts: seq<Source2Tuple>): nat {
    if ts == [] then 0 else ts[0].liveVaults + SumLive(ts[1..])
  }

  lemma {:induction false} SumLiveInsert(x: Source2Tuple, s: seq<Source2Tuple>,
                                         le: (Source2Tuple, Source2Tuple) -> bool)
    ensures SumLive(Insert(x, s, le)) == x.liveVaults + SumLive(s)
  {
    if s == [] || le(x, s[0]) {
      assert ([x] + s)[1..] == s;
    } else {
      SumLiveInsert(x, s[1..], le);
      assert ([s[0]] + Insert(x, s[1..], le))[1..] == Insert(x, s[1..], le);
    }
  }

  lemma {:induction false} SumLiveSort(s: seq<Source2Tuple>, le: (Source2Tuple, Source2Tuple) -> bool)
    ensures SumLive(Sort(s, le)) == SumLive(s)
  {
    if s != [] {
      SumLiveSort(s[1..], le);
      SumLiveInsert(s[0], Sort(s[1..], le), le);
    }
  }

  lemma {:induction false} SumLiveGroups(groups: seq<Source2Tuple>, items: seq<Item<Taken>>, keys: seq<string>)
    requires |groups| == |keys|
    requires forall i :: 0 <= i < |keys| ==> groups[i].liveVaults == |Bucket(items, keys[i])|
    ensures SumLive(groups) == |BucketUnion(items, keys)|
  {
    if keys != [] {
      SumLiveGroups(groups[1..], items, keys[1..]);
      assert |multiset(Bucket(items, keys[0]))| == |Bucket(items, keys[0])|;
    }
  }

  lemma {:induction false} Source2ItemsCount(vs: seq<Vault>, accepted: seq<Market>)
    requires AllNamed(accepted)
    ensures |Source2Items(vs, accepted)| == CountSource2(vs, accepted)
  {
    if vs != [] {
      Source2ItemsCount(vs[..|vs| - 1], accepted);
    }
  }

  function Source2KeyOf(t: Source2Tuple): string { t.key }

  /** A first-party tuple names its own tuple, and its market is the one derived from its asset. */
  ghost predicate Source2Named(t: Source2Tuple, pda: string -> string) {
    t.key == Key(t.asset, ':', t.expiry) && t.market == pda(t.asset) && t.liveVaults > 0
  }

  lemma {:induction false} Source2ItemsAccepted(vs: seq<Vault>, markets: seq<Market>, pda: string -> string)
    ensures forall it :: it in Source2Items(vs, AcceptedOf(markets, pda)) ==> Accepted(it.value.market, pda)
  {
    if vs != [] {
      Source2ItemsAccepted(vs[..|vs| - 1], markets, pda);
    }
  }

  lemma Source2GroupsAre(vs: seq<Vault>, markets: seq<Market>, pda: string -> string)
    ensures var items := Source2Items(vs, AcceptedOf(markets, pda)); var groups := Source2Groups(items);
      && KeyedApart(groups, Source2KeyOf)
      && (forall t :: t in groups ==> Source2Named(t, pda))
      && SumLive(groups) == CountSource2(vs, AcceptedOf(markets, pda))
  {
    var items := Source2Items(vs, AcceptedOf(markets, pda));
    var groups, keys := Source2Groups(items), Keys(items);
    KeysDistinct(items);
    Source2ItemsAccepted(vs, markets, pda);
    forall i | 0 <= i < |keys|
      ensures groups[i].liveVaults == |Bucket(items, keys[i])| && Source2Named(groups[i], pda) {
      var group := Bucket(items, keys[i]);
      assert group[0] in group;
      BucketIsOneTuple(items, keys[i], group[0], group[0]);
      BucketMembers(items, keys[i]);
      assert Item(keys[i], group[0]) in items;
    }
    SumLiveGroups(groups, items, keys);
    GroupsPartition(items);
    assert |multiset(Values(items))| == |items|;
    Source2ItemsCount(vs, AcceptedOf(markets, pda));
  }

  /** The first-party tuples: distinct keys, each on the market of its own name, and live-vault
      counts that add up to the live vaults on accepted markets. */
  lemma Source2EnumerationIsExact(vs: seq<Vault>, markets: seq<Market>, pda: string -> string,
                                  assetLe: (string, string) -> bool)
    ensures var tuples := Source2Tuples(vs, markets, pda, assetLe);
      && KeyedApart(tuples, Source2KeyOf)
      && (forall t :: t in tuples ==> Source2Named(t, pda))
      && SumLive(tuples) == CountSource2(vs, AcceptedOf(markets, pda))
  {
    var groups := Source2Groups(Source2Items(vs, AcceptedOf(markets, pda)));
    Source2GroupsAre(vs, markets, pda);
    SortKeyedApart(groups, Source2Order(assetLe), Source2KeyOf);
    SumLiveSort(groups, Source2Order(assetLe));
    forall t | t in Sort(groups, Source2Order(assetLe)) ensures Source2Named(t, pda) {
      assert t in multiset(groups);
    }
  }

  // ---- the lanes against each other ----

  // The lanes scan the chain separately, and a market's oracle_source byte may be flipped between
  // the two scans, or the market closed and created anew at its address with another byte.

  /** The market that the Pyth lane finds at its address, and takes vaults of. */
  predicate PythMarket(scan: seq<Market>, m: Market) {
    Lookup(scan, m.key) == Some(m) && Named(m) && RouteForSource(m.source) == Pyth
  }

  /** The market that the first-party lane finds at its address, and takes vaults of. */
  predicate OptaMarket(scan: seq<Market>, pda: string -> string, m: Market) {
    Lookup(AcceptedOf(scan, pda), m.key) == Some(m)
  }

  /** No address holds a Pyth market in one scan and a first-party market in the other. */
  ghost predicate AddressesApart(pythScan: seq<Market>, optaScan: seq<Market>, pda: string -> string) {
    forall m, n :: PythMarket(pythScan, m) && OptaMarket(optaScan, pda, n) ==> m.key != n.key
  }

  /** No name belongs to a Pyth market in one scan and to a first-party market in the other. */
  ghost predicate NamesApart(pythScan: seq<Market>, optaScan: seq<Market>, pda: string -> string) {
    forall m, n :: PythMarket(pythScan, m) && OptaMarket(optaScan, pda, n) ==> m.asset != n.asset
  }

  function LiveVaultOf(m: Market, expiry: int): Vault { Vault("", m.key, expiry, false, false) }

  /** No vault is worked on by both lanes exactly when no address is in both. */
  lemma LanesShareNoVault(pythScan: seq<Market>, optaScan: seq<Market>, nowSecs: int, pda: string -> string)
    ensures (forall v :: !(PythVault(v, pythScan, nowSecs) && Source2Vault(v, AcceptedOf(optaScan, pda)))) <==>
      AddressesApart(pythScan, optaScan, pda)
  {
    hide Lookup, AcceptedOf;
    forall v | PythVault(v, pythScan, nowSecs) && Source2Vault(v, AcceptedOf(optaScan, pda))
      ensures !AddressesApart(pythScan, optaScan, pda)
    {
      var m, n := Lookup(pythScan, v.market).value, Lookup(AcceptedOf(optaScan, pda), v.market).value;
      assert PythMarket(pythScan, m) && OptaMarket(optaScan, pda, n);
    }
    forall m, n | PythMarket(pythScan, m) && OptaMarket(optaScan, pda, n) && m.key == n.key
      ensures exists v :: PythVault(v, pythScan, nowSecs) && Source2Vault(v, AcceptedOf(optaScan, pda))
    {
      assert PythVault(LiveVaultOf(m, nowSecs - 1), pythScan, nowSecs);
    }
  }

  lemma {:induction false} PythItemOf(vs: seq<Vault>, markets: seq<Market>, nowSecs: int, v: Vault)
    requires v in vs && PythVault(v, markets, nowSecs)
    ensures TakenItem(v, Lookup(markets, v.market).value) in PythItems(vs, markets, nowSecs)
  {
    hide Key, Lookup, PythVault;
    var front, last := vs[..|vs| - 1], vs[|vs| - 1];
    assert vs == front + [last];
    PythTakes(v, markets, nowSecs);
    PythTakesMarket(v, markets, nowSecs);
    if v in front {
      PythItemOf(front, markets, nowSecs, v);
    }
  }

  /** Every vault of the Pyth lane is in some tuple of it. */
  lemma PythTupleOf(vs: seq<Vault>, markets: seq<Market>, nowSecs: int, v: Vault) returns (t: ExpiryTuple)
    requires v in vs && PythVault(v, markets, nowSecs)
    ensures t in PythTuples(vs, markets, nowSecs)
    ensures t.key == Key(Lookup(markets, v.market).value.asset.value, ':', v.expiry)
  {
    var items, m := PythItems(vs, markets, nowSecs), Lookup(markets, v.market).value;
    var key := TakenItem(v, m).key;
    PythItemOf(vs, markets, nowSecs, v);
    hide Key, Lookup, PythItems, Bucket, Sort;
    BucketMembers(items, key);
    KeysDistinct(items);
    var i :| 0 <= i < |Keys(items)| && Keys(items)[i] == key;
    t := PythGroups(items)[i];
    assert t in multiset(PythGroups(items));
  }

  lemma {:induction false} Source2ItemOf(vs: seq<Vault>, accepted: seq<Market>, v: Vault)
    requires AllNamed(accepted) && v in vs && Source2Vault(v, accepted)
    ensures TakenItem(v, Lookup(accepted, v.market).value) in Source2Items(vs, accepted)
  {
    hide Key, Lookup;
    var front, last := vs[..|vs| - 1], vs[|vs| - 1];
    assert vs == front + [last];
    if v in front {
      Source2ItemOf(front, accepted, v);
    }
  }

  /** Every vault of the first-party lane is in some tuple of it. */
  lemma Source2TupleOf(vs: seq<Vault>, markets: seq<Market>, pda: string -> string,
                       assetLe: (string, string) -> bool, v: Vault) returns (t: Source2Tuple)
    requires v in vs && Source2Vault(v, AcceptedOf(markets, pda))
    ensures t in Source2Tuples(vs, markets, pda, assetLe)
    ensures var m := Lookup(AcceptedOf(markets, pda), v.market).value;
      Named(m) && t.key == Key(m.asset.value, ':', v.expiry)
  {
    var accepted := AcceptedOf(markets, pda);
    var items, m := Source2Items(vs, accepted), Lookup(accepted, v.market).value;
    var key := TakenItem(v, m).key;
    Source2ItemOf(vs, accepted, v);
    hide Key, Lookup, Source2Items, AcceptedOf, Bucket, Sort;
    BucketMembers(items, key);
    KeysDistinct(items);
    var i :| 0 <= i < |Keys(items)| && Keys(items)[i] == key;
    t := Source2Groups(items)[i];
    assert t in multiset(Source2Groups(items));
  }

  /** Both lanes have a tuple, hence a settlement record, in common. */
  ghost predicate ShareATuple(vs: seq<Vault>, us: seq<Vault>, pythScan: seq<Market>, optaScan: seq<Market>,
                              nowSecs: int, pda: string -> string, assetLe: (string, string) -> bool) {
    exists t, u :: t in PythTuples(vs, pythScan, nowSecs) && u in Source2Tuples(us, optaScan, pda, assetLe) &&
      t.key == u.key
  }

  /** No settlement record is worked on by both lanes exactly when no name is in both. */
  lemma LanesShareNoTuple(pythScan: seq<Market>, optaScan: seq<Market>, nowSecs: int, pda: string -> string,
                          assetLe: (string, string) -> bool)
    ensures (forall vs, us :: !ShareATuple(vs, us, pythScan, optaScan, nowSecs, pda, assetLe)) <==>
      NamesApart(pythScan, optaScan, pda)
  {
    hide ShareATuple, PythMarket, OptaMarket;
    forall vs, us | ShareATuple(vs, us, pythScan, optaScan, nowSecs, pda, assetLe)
      ensures !NamesApart(pythScan, optaScan, pda)
    {
      var m, n := SharedName(vs, us, pythScan, optaScan, nowSecs, pda, assetLe);
    }
    forall m, n | PythMarket(pythScan, m) && OptaMarket(optaScan, pda, n) && m.asset == n.asset
      ensures exists vs, us :: ShareATuple(vs, us, pythScan, optaScan, nowSecs, pda, assetLe)
    {
      SharedTuple(m, n, pythScan, optaScan, nowSecs, pda, assetLe);
    }
  }

  lemma PythTupleMarket(vs: seq<Vault>, markets: seq<Market>, nowSecs: int, t: ExpiryTuple) returns (m: Market)
    requires t in PythTuples(vs, markets, nowSecs)
    ensures PythMarket(markets, m) && m.asset == Some(t.asset) && t.key == Key(t.asset, ':', t.expiry)
  {
    hide Key;
    var items := PythItems(vs, markets, nowSecs);
    assert t in multiset(PythGroups(items));
    var i :| 0 <= i < |Keys(items)| && PythGroups(items)[i] == t;
    var group := Bucket(items, Keys(items)[i]);
    BucketMembers(items, Keys(items)[i]);
    KeysDistinct(items);
    assert group[0] in group;
    PythItemsFrom(vs, markets, nowSecs);
    BucketIsOneTuple(items, Keys(items)[i], group[0], group[0]);
    m := group[0].market;
    assert Item(Keys(items)[i], group[0]) in items;
  }

  lemma {:induction false} Source2ItemsMarkets(vs: seq<Vault>, accepted: seq<Market>)
    requires AllNamed(accepted)
    ensures forall it :: it in Source2Items(vs, accepted) ==>
      Lookup(accepted, it.value.market.key) == Some(it.value.market)
  {
    if vs != [] {
      Source2ItemsMarkets(vs[..|vs| - 1], accepted);
    }
  }

  lemma Source2TupleMarket(vs: seq<Vault>, markets: seq<Market>, pda: string -> string,
                           assetLe: (string, string) -> bool, t: Source2Tuple)
    returns (m: Market)
    requires t in Source2Tuples(vs, markets, pda, assetLe)
    ensures OptaMarket(markets, pda, m) && m.asset == Some(t.asset) && t.key == Key(t.asset, ':', t.expiry)
  {
    hide Key, Sort, AcceptedOf, Source2Items, Bucket;
    var items := Source2Items(vs, AcceptedOf(markets, pda));
    assert t in multiset(Source2Groups(items));
    var i :| 0 <= i < |Keys(items)| && Source2Groups(items)[i] == t;
    var group := Bucket(items, Keys(items)[i]);
    BucketMembers(items, Keys(items)[i]);
    KeysDistinct(items);
    assert group[0] in group;
    Source2ItemsMarkets(vs, AcceptedOf(markets, pda));
    BucketIsOneTuple(items, Keys(items)[i], group[0], group[0]);
    m := group[0].market;
    assert Item(Keys(items)[i], group[0]) in items;
  }

  lemma SharedName(vs: seq<Vault>, us: seq<Vault>, pythScan: seq<Market>, optaScan: seq<Market>, nowSecs: int,
                   pda: string -> string, assetLe: (string, string) -> bool) returns (m: Market, n: Market)
    requires ShareATuple(vs, us, pythScan, optaScan, nowSecs, pda, assetLe)
    ensures PythMarket(pythScan, m) && OptaMarket(optaScan, pda, n) && m.asset == n.asset
  {
    hide Key, PythTuples, Source2Tuples, PythMarket, OptaMarket, TupleExact, KeyedApart;
    var t, u :| t in PythTuples(vs, pythScan, nowSecs) && u in Source2Tuples(us, optaScan, pda, assetLe) &&
      t.key == u.key;
    m := PythTupleMarket(vs, pythScan, nowSecs, t);
    n := Source2TupleMarket(us, optaScan, pda, assetLe, u);
    KeyInjective(t.asset, t.expiry, u.asset, u.expiry, ':');
  }

  lemma SharedTuple(m: Market, n: Market, pythScan: seq<Market>, optaScan: seq<Market>, nowSecs: int,
                    pda: string -> string, assetLe: (string, string) -> bool)
    requires PythMarket(pythScan, m) && OptaMarket(optaScan, pda, n) && m.asset == n.asset
    ensures var v, w := LiveVaultOf(m, nowSecs - 1), LiveVaultOf(n, nowSecs - 1);
      ShareATuple([v], [w], pythScan, optaScan, nowSecs, pda, assetLe)
  {
    hide Key, PythTuples, Source2Tuples, Lookup, AcceptedOf;
    var v, w := LiveVaultOf(m, nowSecs - 1), LiveVaultOf(n, nowSecs - 1);
    var t := PythTupleOf([v], pythScan, nowSecs, v);
    var u := Source2TupleOf([w], optaScan, pda, assetLe, w);
  }

  /** Within one scan, whose addresses are distinct, the lanes never meet at a vault. */
  lemma OneScanSharesNoVault(scan: seq<Market>, nowSecs: int, pda: string -> string, v: Vault)
    requires forall i, j :: 0 <= i < j < |scan| ==> scan[i].key != scan[j].key
    ensures !(PythVault(v, scan, nowSecs) && Source2Vault(v, AcceptedOf(scan, pda)))
  {
    hide AcceptedOf;
    LanesShareNoVault(scan, scan, nowSecs, pda);
    assert AddressesApart(scan, scan, pda);
  }

  /** Nor at a settlement record, as a market's address is derived from its name. */
  lemma OneScanSharesNoTuple(vs: seq<Vault>, us: seq<Vault>, scan: seq<Market>, nowSecs: int, pda: string -> string,
                             assetLe: (string, string) -> bool)
    requires forall i, j :: 0 <= i < j < |scan| ==> scan[i].key != scan[j].key
    requires forall m :: m in scan && Named(m) ==> m.key == pda(m.asset.value)
    ensures !ShareATuple(vs, us, scan, scan, nowSecs, pda, assetLe)
  {
    hide AcceptedOf, ShareATuple;
    LanesShareNoTuple(scan, scan, nowSecs, pda, assetLe);
    assert NamesApart(scan, scan, pda);
  }

  /** A market flipped from the Pyth to the first-party source between the two scans: both lanes work
      on its vault, and on its settlement record. */
  lemma FlippedMarketIsInBothLanes(assetLe: (string, string) -> bool)
    ensures var before, after := Market("M", Some("SOL"), Number(0), []), Market("M", Some("SOL"), Number(2), []);
      var v, pda := Vault("V", "M", 100, false, false), (_: string) => "M";
      && PythVault(v, [before], 150) && Source2Vault(v, AcceptedOf([after], pda))
      && ShareATuple([v], [v], [before], [after], 150, pda, assetLe)
  {
    var before, after := Market("M", Some("SOL"), Number(0), []), Market("M", Some("SOL"), Number(2), []);
    var v, pda := Vault("V", "M", 100, false, false), (_: string) => "M";
    assert AcceptedOf([after], pda) == [after];
    assert Lookup([before], "M") == Some(before) && Lookup([after], "M") == Some(after);
    hide AcceptedOf, Lookup, PythTuples, Source2Tuples, Key;
    var t := PythTupleOf([v], [before], 150, v);
    var u := Source2TupleOf([v], [after], pda, assetLe, v);
  }
}

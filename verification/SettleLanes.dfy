/** crank/settleRouting.ts:37-129 and crank/optaSettleCrank.ts:136-179, from the raw accounts: which
    vaults either enumeration takes, skips and counts, by the source byte of their market. */
module SettleLanes {
  import opened Counting
  import opened Results
  import opened StableSort
  import opened TupleKey
  import opened Grouping
  import opened SettleRouting

  // ---- the Pyth lane ----

  /** A vault to be settled now, on a market the scan knows. */
  predicate Due(v: Vault, markets: seq<Market>, nowSecs: int) {
    v.expiry < nowSecs && !v.isSettled && !v.voided && Lookup(markets, v.market).Some?
  }

  function SourceOf(v: Vault, markets: seq<Market>): RawSource
    requires Lookup(markets, v.market).Some?
  {
    Lookup(markets, v.market).value.source
  }

  function DecidedAs(vs: seq<Vault>, d: PythVerdict, markets: seq<Market>, nowSecs: int): set<int> {
    set i | 0 <= i < |vs| && PythDecides(vs[i], markets, nowSecs) == d
  }

  lemma {:induction false} CountPythIs(vs: seq<Vault>, d: PythVerdict, markets: seq<Market>, nowSecs: int)
    ensures CountPyth(vs, d, markets, nowSecs) == |DecidedAs(vs, d, markets, nowSecs)|
  {
    hide PythDecides;
    if vs == [] {
      assert DecidedAs(vs, d, markets, nowSecs) == {};
    } else {
      var front := vs[..|vs| - 1];
      CountPythIs(front, d, markets, nowSecs);
      OneMoreIndex(DecidedAs(front, d, markets, nowSecs), DecidedAs(vs, d, markets, nowSecs), |front|,
                   PythDecides(vs[|vs| - 1], markets, nowSecs) == d);
    }
  }

  lemma PythDecidesByByte(v: Vault, markets: seq<Market>, nowSecs: int)
    ensures var d, due := PythDecides(v, markets, nowSecs), Due(v, markets, nowSecs);
      && (d == SkipSwitchboard <==> due && SourceOf(v, markets) == Number(1))
      && (d == SkipOpta <==> due && SourceOf(v, markets) == Number(2))
      && (d == SkipRefused <==> due && SourceOf(v, markets) !in {Absent, Number(0), Number(1), Number(2)})
      && (d == SkipVoided <==> v.expiry < nowSecs && !v.isSettled && v.voided)
      && (d.Take? <==> due && SourceOf(v, markets) in {Absent, Number(0)} && Named(Lookup(markets, v.market).value))
  {
  }

  /** Each counter is the number of due vaults with its byte: 1, 2, and anything but 0, 1, 2 or none;
      and of expired voided ones. */
  lemma SkipsByByte(vs: seq<Vault>, markets: seq<Market>, nowSecs: int)
    ensures CountPyth(vs, SkipSwitchboard, markets, nowSecs) ==
      |set i | 0 <= i < |vs| && Due(vs[i], markets, nowSecs) && SourceOf(vs[i], markets) == Number(1)|
    ensures CountPyth(vs, SkipOpta, markets, nowSecs) ==
      |set i | 0 <= i < |vs| && Due(vs[i], markets, nowSecs) && SourceOf(vs[i], markets) == Number(2)|
    ensures CountPyth(vs, SkipRefused, markets, nowSecs) ==
      |set i | 0 <= i < |vs| && Due(vs[i], markets, nowSecs) &&
               SourceOf(vs[i], markets) !in {Absent, Number(0), Number(1), Number(2)}|
    ensures CountPyth(vs, SkipVoided, markets, nowSecs) ==
      |set i | 0 <= i < |vs| && vs[i].expiry < nowSecs && !vs[i].isSettled && vs[i].voided|
  {
    forall v ensures var d, due := PythDecides(v, markets, nowSecs), Due(v, markets, nowSecs);
      && (d == SkipSwitchboard <==> due && SourceOf(v, markets) == Number(1))
      && (d == SkipOpta <==> due && SourceOf(v, markets) == Number(2))
      && (d == SkipRefused <==> due && SourceOf(v, markets) !in {Absent, Number(0), Number(1), Number(2)})
      && (d == SkipVoided <==> v.expiry < nowSecs && !v.isSettled && v.voided)
    {
      PythDecidesByByte(v, markets, nowSecs);
    }
    CountPythIs(vs, SkipSwitchboard, markets, nowSecs);
    CountPythIs(vs, SkipOpta, markets, nowSecs);
    CountPythIs(vs, SkipRefused, markets, nowSecs);
    CountPythIs(vs, SkipVoided, markets, nowSecs);
    hide PythDecides, CountPyth;
    assert DecidedAs(vs, SkipSwitchboard, markets, nowSecs) ==
           (set i | 0 <= i < |vs| && Due(vs[i], markets, nowSecs) && SourceOf(vs[i], markets) == Number(1));
    assert DecidedAs(vs, SkipOpta, markets, nowSecs) ==
           (set i | 0 <= i < |vs| && Due(vs[i], markets, nowSecs) && SourceOf(vs[i], markets) == Number(2));
    assert DecidedAs(vs, SkipRefused, markets, nowSecs) ==
           (set i | 0 <= i < |vs| && Due(vs[i], markets, nowSecs) &&
                    SourceOf(vs[i], markets) !in {Absent, Number(0), Number(1), Number(2)});
    assert DecidedAs(vs, SkipVoided, markets, nowSecs) ==
           (set i | 0 <= i < |vs| && vs[i].expiry < nowSecs && !vs[i].isSettled && vs[i].voided);
  }

  lemma {:induction false} PythVaultKeysHold(vs: seq<Vault>, markets: seq<Market>, nowSecs: int, key: string)
    ensures key in PythVaultKeys(vs, markets, nowSecs) <==>
      exists v :: v in vs && PythVault(v, markets, nowSecs) && v.key == key
  {
    hide PythVault;
    if vs != [] {
      PythVaultKeysHold(vs[..|vs| - 1], markets, nowSecs, key);
      assert vs == vs[..|vs| - 1] + [vs[|vs| - 1]];
    }
  }

  lemma {:induction false} UnionHolds<T(!new), E>(s: seq<T>, parts: T -> multiset<E>, e: E)
    ensures e in Union(s, parts) <==> exists t :: t in s && e in parts(t)
  {
    if s != [] {
      UnionHolds(s[1..], parts, e);
      assert s == [s[0]] + s[1..];
    }
  }

  /** A vault of the scan is in one of the Pyth tuples exactly when it is due, its market has a name,
      and the market's source byte is 0 or absent. */
  lemma EnumeratedExactlyWhen(vs: seq<Vault>, markets: seq<Market>, nowSecs: int, v: Vault)
    requires v in vs && forall w :: w in vs && w.key == v.key ==> w == v
    ensures (exists t :: t in PythTuples(vs, markets, nowSecs) && v.key in t.vaultPdas) <==>
      && Due(v, markets, nowSecs) && Named(Lookup(markets, v.market).value)
      && SourceOf(v, markets) in {Absent, Number(0)}
  {
    var tuples := PythTuples(vs, markets, nowSecs);
    PythEnumerationIsExact(vs, markets, nowSecs);
    UnionHolds(tuples, VaultsOf, v.key);
    PythVaultKeysHold(vs, markets, nowSecs, v.key);
    PythTakes(v, markets, nowSecs);
    PythDecidesByByte(v, markets, nowSecs);
    hide PythTuples, PythDecides, Union, PythVaultKeys, PythVault, Due, TupleExact, KeyedApart, Sorted;
    forall t | t in tuples ensures v.key in t.vaultPdas <==> v.key in VaultsOf(t) {
    }
    assert v.key in PythVaultKeys(vs, markets, nowSecs) <==> v.key in Union(tuples, VaultsOf);
  }

  // ---- the first-party lane ----

  /** A first-party market is taken only at byte 2, by name, at the address of its name. */
  lemma AcceptedByByte(m: Market, pda: string -> string)
    ensures Accepted(m, pda) <==>
      m.source == Number(2) && m.asset.Some? && m.asset.value != "" && pda(m.asset.value) == m.key
    ensures Refused(m, pda) <==>
      m.source == Number(2) && (m.asset.None? || m.asset.value == "" || pda(m.asset.value) != m.key)
  {
  }

  function RefusedAt(ms: seq<Market>, pda: string -> string): set<int> {
    set i | 0 <= i < |ms| && Refused(ms[i], pda)
  }

  lemma {:induction false} CountRefusedIs(ms: seq<Market>, pda: string -> string)
    ensures CountRefused(ms, pda) == |RefusedAt(ms, pda)|
  {
    hide Refused;
    if ms == [] {
      assert RefusedAt(ms, pda) == {};
    } else {
      var front := ms[..|ms| - 1];
      CountRefusedIs(front, pda);
      OneMoreIndex(RefusedAt(front, pda), RefusedAt(ms, pda), |front|, Refused(ms[|ms| - 1], pda));
    }
  }

  /** Refused are the other markets of byte 2, and nothing else. */
  lemma RefusedByByte(ms: seq<Market>, pda: string -> string)
    ensures CountRefused(ms, pda) == |set i | 0 <= i < |ms| && ms[i].source == Number(2) &&
      (ms[i].asset.None? || ms[i].asset.value == "" || pda(ms[i].asset.value) != ms[i].key)|
  {
    CountRefusedIs(ms, pda);
    assert RefusedAt(ms, pda) == set i | 0 <= i < |ms| && ms[i].source == Number(2) &&
      (ms[i].asset.None? || ms[i].asset.value == "" || pda(ms[i].asset.value) != ms[i].key);
  }

  lemma {:induction false} AcceptedHolds(ms: seq<Market>, pda: string -> string, m: Market)
    ensures m in AcceptedOf(ms, pda) <==> m in ms && Accepted(m, pda)
  {
    hide Accepted;
    if ms != [] {
      AcceptedHolds(ms[..|ms| - 1], pda, m);
      assert ms == ms[..|ms| - 1] + [ms[|ms| - 1]];
    }
  }

  /** A live vault whose market the lane has taken, of this asset and expiry. */
  predicate InSource2Tuple(v: Vault, accepted: seq<Market>, asset: string, expiry: int) {
    && !v.isSettled && !v.voided && v.expiry == expiry
    && Lookup(accepted, v.market).Some? && Lookup(accepted, v.market).value.asset == Some(asset)
  }

  function LiveAt(vs: seq<Vault>, accepted: seq<Market>, asset: string, expiry: int): set<int> {
    set i | 0 <= i < |vs| && InSource2Tuple(vs[i], accepted, asset, expiry)
  }

  lemma {:induction false} Source2BucketCounts(vs: seq<Vault>, accepted: seq<Market>, asset: string, expiry: int)
    requires AllNamed(accepted)
    ensures |Bucket(Source2Items(vs, accepted), Key(asset, ':', expiry))| == |LiveAt(vs, accepted, asset, expiry)|
  {
    hide Key, Bucket, Lookup, WellKeyed, AllNamed;
    if vs == [] {
      assert LiveAt(vs, accepted, asset, expiry) == {};
      NothingInBucket(accepted, Key(asset, ':', expiry));
    } else {
      var front, v := vs[..|vs| - 1], vs[|vs| - 1];
      Source2BucketCounts(front, accepted, asset, expiry);
      Source2Snoc(vs, accepted, asset, expiry);
      OneMoreIndex(LiveAt(front, accepted, asset, expiry), LiveAt(vs, accepted, asset, expiry), |front|,
                   InSource2Tuple(v, accepted, asset, expiry));
    }
  }

  lemma NothingInBucket(accepted: seq<Market>, key: string)
    requires AllNamed(accepted)
    ensures Bucket(Source2Items([], accepted), key) == []
  {
  }

  lemma Source2Snoc(vs: seq<Vault>, accepted: seq<Market>, asset: string, expiry: int)
    requires AllNamed(accepted) && vs != []
    ensures var k, v := Key(asset, ':', expiry), vs[|vs| - 1];
      |Bucket(Source2Items(vs, accepted), k)| ==
      |Bucket(Source2Items(vs[..|vs| - 1], accepted), k)| + if InSource2Tuple(v, accepted, asset, expiry) then 1 else 0
  {
    hide Bucket, Key, Lookup;
    var k, v := Key(asset, ':', expiry), vs[|vs| - 1];
    var before := Source2Items(vs[..|vs| - 1], accepted);
    if Source2Vault(v, accepted) {
      var m := Lookup(accepted, v.market).value;
      assert Named(m) by { assert m in accepted; }
      assert Source2Items(vs, accepted) == before + [TakenItem(v, m)];
      hide Source2Items, WellKeyed, AllNamed;
      BucketGrows(before, TakenItem(v, m), k);
      if Key(m.asset.value, ':', v.expiry) == k {
        KeyInjective(m.asset.value, v.expiry, asset, expiry, ':');
      }
    }
  }

  /** What a first-party tuple hands on: the market at the address of its name, with the feed that the
      scan last gave for it, and as many live vaults as the scan shows for its asset and expiry. */
  ghost predicate Source2Exact(t: Source2Tuple, vs: seq<Vault>, markets: seq<Market>, pda: string -> string) {
    var accepted := AcceptedOf(markets, pda);
    && t.key == Key(t.asset, ':', t.expiry) && t.market == pda(t.asset)
    && (exists m :: m in markets && m.source == Number(2) && m.asset == Some(t.asset) && m.key == t.market &&
                    m.feedId == t.feedBytes && Lookup(accepted, t.market) == Some(m))
    && t.liveVaults == |set i | 0 <= i < |vs| && InSource2Tuple(vs[i], accepted, t.asset, t.expiry)|
  }

  lemma Source2TupleIsExact(vs: seq<Vault>, markets: seq<Market>, pda: string -> string,
                            assetLe: (string, string) -> bool, t: Source2Tuple)
    requires t in Source2Tuples(vs, markets, pda, assetLe)
    ensures Source2Exact(t, vs, markets, pda)
  {
    hide Key, Sort, AcceptedOf, Source2Items, Bucket, Lookup;
    var accepted := AcceptedOf(markets, pda);
    var items := Source2Items(vs, accepted);
    assert t in multiset(Source2Groups(items));
    var i :| 0 <= i < |Keys(items)| && Source2Groups(items)[i] == t;
    var group := Bucket(items, Keys(items)[i]);
    BucketMembers(items, Keys(items)[i]);
    KeysDistinct(items);
    assert group[0] in group;
    Source2ItemsMarkets(vs, accepted);
    BucketIsOneTuple(items, Keys(items)[i], group[0], group[0]);
    var m := group[0].market;
    assert Item(Keys(items)[i], group[0]) in items;
    assert m in accepted;
    AcceptedByByte(m, pda);
    Source2BucketCounts(vs, accepted, t.asset, t.expiry);
  }

  /** The first-party tuples, oldest first and by name within an expiry: each is exact, no two are of
      one key, and every live vault of a taken market is in one. */
  lemma Source2ByByte(vs: seq<Vault>, markets: seq<Market>, pda: string -> string, assetLe: (string, string) -> bool)
    requires TotalPreorder(assetLe)
    ensures var tuples := Source2Tuples(vs, markets, pda, assetLe);
      && (forall t :: t in tuples ==> Source2Exact(t, vs, markets, pda))
      && (forall i, j :: 0 <= i < j < |tuples| ==> tuples[i].key != tuples[j].key)
      && (forall i, j :: 0 <= i < j < |tuples| ==>
            (tuples[i].expiry < tuples[j].expiry
             || (tuples[i].expiry == tuples[j].expiry && assetLe(tuples[i].asset, tuples[j].asset))))
      && (forall v :: v in vs && !v.isSettled && !v.voided && Lookup(AcceptedOf(markets, pda), v.market).Some? ==>
            exists t :: t in tuples && t.market == v.market && t.expiry == v.expiry)
  {
    hide Source2Exact, Source2Tuples, AcceptedOf, TotalPreorder, Lookup, KeyedApart;
    var tuples := Source2Tuples(vs, markets, pda, assetLe);
    forall t | t in tuples ensures Source2Exact(t, vs, markets, pda) {
      Source2TupleIsExact(vs, markets, pda, assetLe, t);
    }
    Source2InOrder(vs, markets, pda, assetLe);
    forall v | v in vs && !v.isSettled && !v.voided && Lookup(AcceptedOf(markets, pda), v.market).Some?
      ensures exists t :: t in tuples && t.market == v.market && t.expiry == v.expiry
    {
      var t := Source2TupleFor(vs, markets, pda, assetLe, v);
    }
  }

  lemma Source2TupleFor(vs: seq<Vault>, markets: seq<Market>, pda: string -> string,
                        assetLe: (string, string) -> bool, v: Vault) returns (t: Source2Tuple)
    requires v in vs && Source2Vault(v, AcceptedOf(markets, pda))
    ensures t in Source2Tuples(vs, markets, pda, assetLe) && t.market == v.market && t.expiry == v.expiry
  {
    t := Source2TupleOf(vs, markets, pda, assetLe, v);
    Source2TupleIsExact(vs, markets, pda, assetLe, t);
    hide Key, Source2Tuples;
    var m := Lookup(AcceptedOf(markets, pda), v.market).value;
    AcceptedByByte(m, pda);
    KeyInjective(t.asset, t.expiry, m.asset.value, v.expiry, ':');
  }

  lemma Source2InOrder(vs: seq<Vault>, markets: seq<Market>, pda: string -> string, assetLe: (string, string) -> bool)
    requires TotalPreorder(assetLe)
    ensures var tuples := Source2Tuples(vs, markets, pda, assetLe);
      && (forall i, j :: 0 <= i < j < |tuples| ==> tuples[i].key != tuples[j].key)
      && (forall i, j :: 0 <= i < j < |tuples| ==>
            (tuples[i].expiry < tuples[j].expiry
             || (tuples[i].expiry == tuples[j].expiry && assetLe(tuples[i].asset, tuples[j].asset))))
  {
    var tuples, le := Source2Tuples(vs, markets, pda, assetLe), Source2Order(assetLe);
    Source2EnumerationIsExact(vs, markets, pda, assetLe);
    Source2OrderIsPreorder(assetLe);
    hide TotalPreorder, Sort;
    SortSorts(Source2Groups(Source2Items(vs, AcceptedOf(markets, pda))), le);
    hide Source2Tuples;
    forall i, j | 0 <= i < j < |tuples|
      ensures tuples[i].key != tuples[j].key
      ensures tuples[i].expiry < tuples[j].expiry
              || (tuples[i].expiry == tuples[j].expiry && assetLe(tuples[i].asset, tuples[j].asset))
    {
      assert Source2KeyOf(tuples[i]) != Source2KeyOf(tuples[j]) && le(tuples[i], tuples[j]);
    }
  }

  lemma Source2OrderIsPreorder(assetLe: (string, string) -> bool)
    requires TotalPreorder(assetLe)
    ensures TotalPreorder(Source2Order(assetLe))
  {
    var le := Source2Order(assetLe);
    forall a, b, c | le(a, b) && le(b, c) ensures le(a, c) {
      assert assetLe(a.asset, b.asset) && assetLe(b.asset, c.asset) ==> assetLe(a.asset, c.asset);
    }
  }
}

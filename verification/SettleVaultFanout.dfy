/** crank/settleVaultFanout.ts:98-187: which vaults the second settle leg targets, in what
    order, and how they are split into transactions. */
module SettleVaultFanout {
  import opened Counting
  import opened Results
  import opened StableSort
  import opened TupleKey

  const FANOUT_CHUNK_SIZE := 4
  /** The caller's default for `maxPerTick`. */
  const FANOUT_MAX_PER_TICK := 150

  datatype Vault = Vault(key: string, market: string, expiry: int, isSettled: bool, voided: bool)
  datatype Market = Market(key: string, assetName: string)
  datatype Record = Record(assetName: string, expiry: int)

  datatype SkipReason = NotExpired | AlreadySettled | Voided | NoSettlementRecord | UnknownMarket
  datatype Skips = Skips(notExpired: nat, alreadySettled: nat, voided: nat, noSettlementRecord: nat, unknownMarket: nat)
  datatype Plan = Plan(targets: seq<Vault>, skipped: Skips, eligibleTotal: nat)

  // ---- asset names ----

  predicate IsNul(c: char) { c == '\0' }

  /** The characters a regular expression's \s matches. */
  predicate IsSpace(c: char) {
    var n := c as int;
    9 <= n <= 13 || n == 0x20 || n == 0xA0 || n == 0x1680 || 0x2000 <= n <= 0x200A ||
    n == 0x2028 || n == 0x2029 || n == 0x202F || n == 0x205F || n == 0x3000 || n == 0xFEFF
  }

  /** They are WhiteSpace and LineTerminator of the ECMAScript Language Specification, sections 12.2
      and 12.3: tab, vertical tab, form feed, the byte order mark, the space separators of Unicode,
      and the four line ends. */
  lemma SpacesAre(c: char)
    ensures IsSpace(c) <==>
      c as int in {0x0009, 0x000B, 0x000C, 0xFEFF}
                + {0x0020, 0x00A0, 0x1680, 0x2000, 0x2001, 0x2002, 0x2003, 0x2004, 0x2005, 0x2006, 0x2007, 0x2008,
                   0x2009, 0x200A, 0x202F, 0x205F, 0x3000}
                + {0x000A, 0x000D, 0x2028, 0x2029}
  {
  }

  function StripTrailing(s: string, drop: char -> bool): (r: string)
    ensures r <= s
    ensures r == [] || !drop(r[|r| - 1])
  {
    if s != [] && drop(s[|s| - 1]) then StripTrailing(s[..|s| - 1], drop) else s
  }

  function CleanAssetName(s: string): string {
    StripTrailing(StripTrailing(s, IsNul), IsSpace)
  }

  lemma {:induction false} StripPadding(stem: string, pad: string, drop: char -> bool)
    requires forall c :: c in pad ==> drop(c)
    ensures StripTrailing(stem + pad, drop) == StripTrailing(stem, drop)
  {
    if pad == [] {
      assert stem + pad == stem;
    } else {
      var s := stem + pad;
      assert s[..|s| - 1] == stem + pad[..|pad| - 1];
      assert pad[|pad| - 1] in pad;
      StripPadding(stem, pad[..|pad| - 1], drop);
    }
  }

  /** On-chain padding does not change the name: spaces, then NULs, after a stem that ends in
      neither. */
  lemma PaddingIgnored(stem: string, spaces: string, nuls: string)
    requires stem == [] || (!IsNul(stem[|stem| - 1]) && !IsSpace(stem[|stem| - 1]))
    requires (forall c :: c in spaces ==> IsSpace(c)) && (forall c :: c in nuls ==> IsNul(c))
    ensures CleanAssetName(stem + spaces + nuls) == stem
  {
    StripPadding(stem + spaces, nuls, IsNul);
    if spaces == [] {
      assert stem + spaces == stem;
    } else {
      assert (stem + spaces)[|stem + spaces| - 1] in spaces;
    }
    StripPadding(stem, spaces, IsSpace);
  }

  lemma {:induction false} StrippedPart(s: string, drop: char -> bool)
    ensures forall k :: |StripTrailing(s, drop)| <= k < |s| ==> drop(s[k])
  {
    if s != [] && drop(s[|s| - 1]) {
      StrippedPart(s[..|s| - 1], drop);
    }
  }

  /** `s` is a stem, a NUL, at least one space, and NULs. */
  ghost predicate PaddedOver(s: string, stem: string, spaces: string, nuls: string) {
    && s == stem + "\0" + spaces + nuls && spaces != []
    && (forall c :: c in spaces ==> IsSpace(c)) && (forall c :: c in nuls ==> IsNul(c))
  }

  lemma CleanedOver(s: string, stem: string, spaces: string, nuls: string)
    requires PaddedOver(s, stem, spaces, nuls)
    ensures CleanAssetName(s) == stem + "\0"
  {
    var front := stem + "\0" + spaces;
    assert front[|front| - 1] in spaces;
    StripPadding(front, nuls, IsNul);
    StripPadding(stem + "\0", spaces, IsSpace);
  }

  lemma NulUncovered(s: string) returns (stem: string, spaces: string, nuls: string)
    requires var c := CleanAssetName(s); c != [] && IsNul(c[|c| - 1])
    ensures PaddedOver(s, stem, spaces, nuls)
  {
    var t, c := StripTrailing(s, IsNul), CleanAssetName(s);
    StrippedPart(s, IsNul);
    StrippedPart(t, IsSpace);
    stem, spaces, nuls := c[..|c| - 1], t[|c|..], s[|t|..];
    assert c == stem + "\0" && t == c + spaces && s == t + nuls;
    assert spaces == [] ==> t == c;
  }

  /** Cleaning twice is cleaning once, except for exactly the names that hold a NUL before a
      trailing run of spaces: the first call uncovers it and leaves it there. */
  lemma CleaningTwice(s: string)
    ensures CleanAssetName(CleanAssetName(s)) != CleanAssetName(s) <==>
      exists stem, spaces, nuls :: PaddedOver(s, stem, spaces, nuls)
  {
    var c := CleanAssetName(s);
    var stripped := StripTrailing(c, IsNul);
    assert |CleanAssetName(c)| <= |stripped|;
    if stem, spaces, nuls :| PaddedOver(s, stem, spaces, nuls) {
      CleanedOver(s, stem, spaces, nuls);
      assert c[|c| - 1] == '\0';
    } else if c != [] && IsNul(c[|c| - 1]) {
      var stem, spaces, nuls := NulUncovered(s);
    }
  }

  /** Such a name. */
  lemma CleaningTwiceDiffers()
    ensures CleanAssetName("A\0 ") == "A\0" && CleanAssetName("A\0") == "A"
  {
    assert "A\0 " == "A" + "\0" + " " + "";
    assert PaddedOver("A\0 ", "A", " ", "");
    CleanedOver("A\0 ", "A", " ", "");
    assert "A\0" == "A" + "" + "\0";
    PaddingIgnored("A", "", "\0");
  }

  // ---- eligibility ----

  /** The cleaned asset name of a market, the last listed winning. */
  function AssetOf(markets: seq<Market>, key: string): Option<string> {
    if markets == [] then None
    else
      var last := markets[|markets| - 1];
      if last.key == key then Some(CleanAssetName(last.assetName)) else AssetOf(markets[..|markets| - 1], key)
  }

  function RecordKeys(records: seq<Record>): set<string> {
    set r | r in records :: Key(CleanAssetName(r.assetName), '|', r.expiry)
  }

  /** Why a vault is left alone, or None when it is eligible. */
  function Verdict(v: Vault, markets: seq<Market>, records: seq<Record>, nowSecs: int): Option<SkipReason> {
    if v.expiry > nowSecs then Some(NotExpired)
    else if v.isSettled then Some(AlreadySettled)
    else if v.voided then Some(Voided)
    else match AssetOf(markets, v.market)
      case None => Some(UnknownMarket)
      case Some(asset) => if Key(asset, '|', v.expiry) in RecordKeys(records) then None else Some(NoSettlementRecord)
  }

  /** The only eligibility question is whether a record exists for the vault's own tuple:
      string keys of different tuples cannot be confused, whatever the names contain. */
  lemma EligibleMeansRecorded(v: Vault, markets: seq<Market>, records: seq<Record>, nowSecs: int)
    ensures Verdict(v, markets, records, nowSecs) == None <==>
      && v.expiry <= nowSecs && !v.isSettled && !v.voided
      && AssetOf(markets, v.market).Some?
      && exists r ::
        r in records && CleanAssetName(r.assetName) == AssetOf(markets, v.market).value && r.expiry == v.expiry
  {
    if AssetOf(markets, v.market).Some? {
      var asset := AssetOf(markets, v.market).value;
      forall r | r in records && Key(CleanAssetName(r.assetName), '|', r.expiry) == Key(asset, '|', v.expiry)
        ensures CleanAssetName(r.assetName) == asset && r.expiry == v.expiry
      {
        KeyInjective(CleanAssetName(r.assetName), r.expiry, asset, v.expiry, '|');
      }
    }
  }

  function Eligible(vs: seq<Vault>, markets: seq<Market>, records: seq<Record>, nowSecs: int): seq<Vault> {
    if vs == [] then []
    else Eligible(vs[..|vs| - 1], markets, records, nowSecs) +
         (if Verdict(vs[|vs| - 1], markets, records, nowSecs) == None then [vs[|vs| - 1]] else [])
  }

  function CountOf(vs: seq<Vault>, why: SkipReason, markets: seq<Market>, records: seq<Record>, nowSecs: int): nat {
    if vs == [] then 0
    else CountOf(vs[..|vs| - 1], why, markets, records, nowSecs) +
         (if Verdict(vs[|vs| - 1], markets, records, nowSecs) == Some(why) then 1 else 0)
  }

  /** Oldest expiry first, then by market. `marketLe(a, b)` stands for `a.localeCompare(b) <= 0`. */
  predicate Before(marketLe: (string, string) -> bool, a: Vault, b: Vault) {
    a.expiry < b.expiry || (a.expiry == b.expiry && marketLe(a.market, b.market))
  }

  function ByAge(marketLe: (string, string) -> bool): (Vault, Vault) -> bool {
    (a, b) => Before(marketLe, a, b)
  }

  ghost predicate TotalOrder(le: (string, string) -> bool) {
    TotalPreorder(le) && forall a, b :: le(a, b) && le(b, a) ==> a == b
  }

  /** Array.slice(0, end): a negative end counts from the back. */
  function SliceTo<T>(s: seq<T>, end: int): seq<T> {
    if end < 0 then s[..Max(|s| + end, 0)] else s[..Min(end, |s|)]
  }

  method PlanSettleFanout(vaults: seq<Vault>, markets: seq<Market>, records: seq<Record>,
                          nowSecs: int, maxPerTick: int, marketLe: (string, string) -> bool)
    returns (plan: Plan)
    ensures plan.eligibleTotal == |Eligible(vaults, markets, records, nowSecs)|
    ensures plan.targets == SliceTo(Sort(Eligible(vaults, markets, records, nowSecs), ByAge(marketLe)), maxPerTick)
    ensures plan.skipped == Skips(
      CountOf(vaults, NotExpired, markets, records, nowSecs),
      CountOf(vaults, AlreadySettled, markets, records, nowSecs),
      CountOf(vaults, Voided, markets, records, nowSecs),
      CountOf(vaults, NoSettlementRecord, markets, records, nowSecs),
      CountOf(vaults, UnknownMarket, markets, records, nowSecs))
  {
    var assetByMarket: map<string, string> := map[];
    for i := 0 to |markets|
      invariant forall k :: (k in assetByMarket <==> AssetOf(markets[..i], k).Some?)
      invariant forall k :: k in assetByMarket ==> AssetOf(markets[..i], k) == Some(assetByMarket[k])
    {
      assert markets[..i + 1][..i] == markets[..i];
      assetByMarket := assetByMarket[markets[i].key := CleanAssetName(markets[i].assetName)];
    }
    assert markets[..|markets|] == markets;
    var haveRecord: set<string> := {};
    for i := 0 to |records|
      invariant haveRecord == RecordKeys(records[..i])
    {
      assert records[..i + 1] == records[..i] + [records[i]];
      haveRecord := haveRecord + {Key(CleanAssetName(records[i].assetName), '|', records[i].expiry)};
    }
    assert records[..|records|] == records;

    var skipped := Skips(0, 0, 0, 0, 0);
    var eligible: seq<Vault> := [];
    for i := 0 to |vaults|
      invariant eligible == Eligible(vaults[..i], markets, records, nowSecs)
      invariant skipped.notExpired == CountOf(vaults[..i], NotExpired, markets, records, nowSecs)
      invariant skipped.alreadySettled == CountOf(vaults[..i], AlreadySettled, markets, records, nowSecs)
      invariant skipped.voided == CountOf(vaults[..i], Voided, markets, records, nowSecs)
      invariant skipped.noSettlementRecord == CountOf(vaults[..i], NoSettlementRecord, markets, records, nowSecs)
      invariant skipped.unknownMarket == CountOf(vaults[..i], UnknownMarket, markets, records, nowSecs)
    {
      var v := vaults[i];
      assert vaults[..i + 1][..i] == vaults[..i];
      if v.expiry > nowSecs {
        skipped := skipped.(notExpired := skipped.notExpired + 1);
        continue;
      }
      if v.isSettled {
        skipped := skipped.(alreadySettled := skipped.alreadySettled + 1);
        continue;
      }
      if v.voided {
        skipped := skipped.(voided := skipped.voided + 1);
        continue;
      }
      if v.market !in assetByMarket {
        skipped := skipped.(unknownMarket := skipped.unknownMarket + 1);
        continue;
      }
      if Key(assetByMarket[v.market], '|', v.expiry) !in haveRecord {
        skipped := skipped.(noSettlementRecord := skipped.noSettlementRecord + 1);
        continue;
      }
      eligible := eligible + [v];
    }
    assert vaults[..|vaults|] == vaults;
    plan := Plan(SliceTo(Sort(eligible, ByAge(marketLe)), maxPerTick), skipped, |eligible|);
  }

  // ---- what a plan guarantees ----

  /** Every vault is either eligible or counted under exactly one reason. */
  lemma {:induction false} EveryVaultAccountedFor(vs: seq<Vault>, markets: seq<Market>, records: seq<Record>,
                                                  nowSecs: int)
    ensures |Eligible(vs, markets, records, nowSecs)| +
      CountOf(vs, NotExpired, markets, records, nowSecs) + CountOf(vs, AlreadySettled, markets, records, nowSecs) +
      CountOf(vs, Voided, markets, records, nowSecs) + CountOf(vs, NoSettlementRecord, markets, records, nowSecs) +
      CountOf(vs, UnknownMarket, markets, records, nowSecs) == |vs|
  {
    hide Verdict;
    if vs != [] {
      var verdict := Verdict(vs[|vs| - 1], markets, records, nowSecs);
      assert verdict.None? || verdict.value.NotExpired? || verdict.value.AlreadySettled? || verdict.value.Voided? ||
             verdict.value.NoSettlementRecord? || verdict.value.UnknownMarket?;
      EveryVaultAccountedFor(vs[..|vs| - 1], markets, records, nowSecs);
    }
  }

  /** The asset name of a market is the cleaned name of the last account listed for its address. */
  lemma {:induction false} AssetOfTheLastListed(markets: seq<Market>, key: string, i: nat)
    requires i < |markets| && markets[i].key == key
    requires forall j :: i < j < |markets| ==> markets[j].key != key
    ensures AssetOf(markets, key) == Some(CleanAssetName(markets[i].assetName))
  {
    hide CleanAssetName;
    if i < |markets| - 1 {
      AssetOfTheLastListed(markets[..|markets| - 1], key, i);
    }
  }

  lemma {:induction false} AssetOfListed(markets: seq<Market>, key: string)
    ensures AssetOf(markets, key).None? <==> forall m :: m in markets ==> m.key != key
  {
    hide CleanAssetName;
    if markets != [] {
      AssetOfListed(markets[..|markets| - 1], key);
      assert markets == markets[..|markets| - 1] + [markets[|markets| - 1]];
    }
  }

  function Judged(vs: seq<Vault>, why: SkipReason, markets: seq<Market>, records: seq<Record>, nowSecs: int): set<int> {
    set i | 0 <= i < |vs| && Verdict(vs[i], markets, records, nowSecs) == Some(why)
  }

  lemma {:induction false} CountOfIs(vs: seq<Vault>, why: SkipReason, markets: seq<Market>, records: seq<Record>,
                                     nowSecs: int)
    ensures CountOf(vs, why, markets, records, nowSecs) == |Judged(vs, why, markets, records, nowSecs)|
  {
    hide Verdict;
    if vs == [] {
      assert Judged(vs, why, markets, records, nowSecs) == {};
    } else {
      var front := vs[..|vs| - 1];
      CountOfIs(front, why, markets, records, nowSecs);
      OneMoreIndex(Judged(front, why, markets, records, nowSecs), Judged(vs, why, markets, records, nowSecs), |front|,
                   Verdict(vs[|vs| - 1], markets, records, nowSecs) == Some(why));
    }
  }

  /** An expired vault, neither settled nor voided. */
  predicate Due(v: Vault, nowSecs: int) {
    v.expiry <= nowSecs && !v.isSettled && !v.voided
  }

  /** A record of this asset and expiry is in the scan. */
  ghost predicate HasRecord(asset: string, expiry: int, records: seq<Record>) {
    exists r :: r in records && CleanAssetName(r.assetName) == asset && r.expiry == expiry
  }

  /** A due vault on a market the scan does not list. */
  ghost predicate OnNoMarket(v: Vault, markets: seq<Market>, nowSecs: int) {
    Due(v, nowSecs) && forall m :: m in markets ==> m.key != v.market
  }

  /** A due vault on a listed market, without a record of the market's asset and its expiry. */
  ghost predicate Unrecorded(v: Vault, markets: seq<Market>, records: seq<Record>, nowSecs: int) {
    && Due(v, nowSecs) && AssetOf(markets, v.market).Some?
    && !HasRecord(AssetOf(markets, v.market).value, v.expiry, records)
  }

  lemma VerdictMeans(v: Vault, markets: seq<Market>, records: seq<Record>, nowSecs: int)
    ensures var verdict := Verdict(v, markets, records, nowSecs);
      && (verdict == Some(NotExpired) <==> v.expiry > nowSecs)
      && (verdict == Some(AlreadySettled) <==> v.expiry <= nowSecs && v.isSettled)
      && (verdict == Some(Voided) <==> v.expiry <= nowSecs && !v.isSettled && v.voided)
      && (verdict == Some(UnknownMarket) <==> OnNoMarket(v, markets, nowSecs))
      && (verdict == Some(NoSettlementRecord) <==> Unrecorded(v, markets, records, nowSecs))
  {
    EligibleMeansRecorded(v, markets, records, nowSecs);
    AssetOfListed(markets, v.market);
    hide RecordKeys, AssetOf, CleanAssetName;
  }

  /** What each skip counter counts. */
  lemma SkipsByReason(vs: seq<Vault>, markets: seq<Market>, records: seq<Record>, nowSecs: int)
    ensures CountOf(vs, NotExpired, markets, records, nowSecs) == |set i | 0 <= i < |vs| && vs[i].expiry > nowSecs|
    ensures CountOf(vs, AlreadySettled, markets, records, nowSecs) ==
      |set i | 0 <= i < |vs| && vs[i].expiry <= nowSecs && vs[i].isSettled|
    ensures CountOf(vs, Voided, markets, records, nowSecs) ==
      |set i | 0 <= i < |vs| && vs[i].expiry <= nowSecs && !vs[i].isSettled && vs[i].voided|
    ensures CountOf(vs, UnknownMarket, markets, records, nowSecs) ==
      |set i | 0 <= i < |vs| && OnNoMarket(vs[i], markets, nowSecs)|
    ensures CountOf(vs, NoSettlementRecord, markets, records, nowSecs) ==
      |set i | 0 <= i < |vs| && Unrecorded(vs[i], markets, records, nowSecs)|
  {
    hide CountOf, Verdict, AssetOf, HasRecord, OnNoMarket, Unrecorded;
    CountOfIs(vs, NotExpired, markets, records, nowSecs);
    CountOfIs(vs, AlreadySettled, markets, records, nowSecs);
    CountOfIs(vs, Voided, markets, records, nowSecs);
    CountOfIs(vs, UnknownMarket, markets, records, nowSecs);
    CountOfIs(vs, NoSettlementRecord, markets, records, nowSecs);
    forall v: Vault {
      VerdictMeans(v, markets, records, nowSecs);
    }
    assert Judged(vs, NotExpired, markets, records, nowSecs) == set i | 0 <= i < |vs| && vs[i].expiry > nowSecs;
    assert Judged(vs, AlreadySettled, markets, records, nowSecs) ==
      set i | 0 <= i < |vs| && vs[i].expiry <= nowSecs && vs[i].isSettled;
    assert Judged(vs, Voided, markets, records, nowSecs) ==
      set i | 0 <= i < |vs| && vs[i].expiry <= nowSecs && !vs[i].isSettled && vs[i].voided;
    assert Judged(vs, UnknownMarket, markets, records, nowSecs) ==
      set i | 0 <= i < |vs| && OnNoMarket(vs[i], markets, nowSecs);
    assert Judged(vs, NoSettlementRecord, markets, records, nowSecs) ==
      set i | 0 <= i < |vs| && Unrecorded(vs[i], markets, records, nowSecs);
  }

  lemma {:induction false} EligibleHolds(vs: seq<Vault>, markets: seq<Market>, records: seq<Record>, nowSecs: int,
                                         v: Vault)
    ensures v in Eligible(vs, markets, records, nowSecs) <==>
      v in vs && Verdict(v, markets, records, nowSecs) == None
  {
    hide Verdict;
    if vs != [] {
      EligibleHolds(vs[..|vs| - 1], markets, records, nowSecs, v);
      assert vs == vs[..|vs| - 1] + [vs[|vs| - 1]];
    }
  }

  /** The planner's candidates, from the accounts: due, on a known market, recorded. */
  lemma EligibleExactlyWhen(vs: seq<Vault>, markets: seq<Market>, records: seq<Record>, nowSecs: int, v: Vault)
    ensures v in Eligible(vs, markets, records, nowSecs) <==>
      && v in vs && Due(v, nowSecs) && AssetOf(markets, v.market).Some?
      && HasRecord(AssetOf(markets, v.market).value, v.expiry, records)
  {
    EligibleHolds(vs, markets, records, nowSecs, v);
    EligibleMeansRecorded(v, markets, records, nowSecs);
  }

  lemma ByAgeIsPreorder(marketLe: (string, string) -> bool)
    requires TotalPreorder(marketLe)
    ensures TotalPreorder(ByAge(marketLe))
  {
    var le := ByAge(marketLe);
    forall a, b, c | le(a, b) && le(b, c) ensures le(a, c) {
      assert marketLe(a.market, b.market) && marketLe(b.market, c.market) ==> marketLe(a.market, c.market);
    }
  }

  /** The targets are the oldest eligible vaults: with the rest they make up the eligible
      multiset, there are as many as the ceiling allows, and no vault left out is older. */
  lemma TargetsAreTheOldest(eligible: seq<Vault>, maxPerTick: nat, marketLe: (string, string) -> bool)
    requires TotalPreorder(marketLe)
    ensures var sorted := Sort(eligible, ByAge(marketLe));
      var targets := SliceTo(sorted, maxPerTick);
      var rest := sorted[|targets|..];
      && |targets| == Min(maxPerTick, |eligible|)
      && multiset(targets) + multiset(rest) == multiset(eligible)
      && (forall t, l :: t in targets && l in rest ==> t.expiry <= l.expiry && Before(marketLe, t, l))
  {
    hide Sort, TotalPreorder;
    var sorted := Sort(eligible, ByAge(marketLe));
    var targets := SliceTo(sorted, maxPerTick);
    var rest := sorted[|targets|..];
    ByAgeIsPreorder(marketLe);
    SortSorts(eligible, ByAge(marketLe));
    assert sorted == targets + rest;
    forall t, l | t in targets && l in rest ensures t.expiry <= l.expiry && Before(marketLe, t, l) {
      var i :| 0 <= i < |targets| && targets[i] == t;
      var j :| 0 <= j < |rest| && rest[j] == l;
      assert ByAge(marketLe)(sorted[i], sorted[|targets| + j]);
    }
  }

  /** Targets of the same tuple sit next to each other: between two of them there are only
      others of that tuple. */
  lemma SameTupleAdjacent(eligible: seq<Vault>, end: int, marketLe: (string, string) -> bool, i: nat, k: nat, j: nat)
    requires TotalOrder(marketLe)
    requires i <= k <= j < |SliceTo(Sort(eligible, ByAge(marketLe)), end)|
    requires var ts := SliceTo(Sort(eligible, ByAge(marketLe)), end);
      ts[i].expiry == ts[j].expiry && ts[i].market == ts[j].market
    ensures var ts := SliceTo(Sort(eligible, ByAge(marketLe)), end);
      ts[k].expiry == ts[i].expiry && ts[k].market == ts[i].market
  {
    hide Sort, TotalPreorder;
    var sorted := Sort(eligible, ByAge(marketLe));
    ByAgeIsPreorder(marketLe);
    SortSorts(eligible, ByAge(marketLe));
    assert i < k ==> ByAge(marketLe)(sorted[i], sorted[k]);
    assert k < j ==> ByAge(marketLe)(sorted[k], sorted[j]);
  }

  // ---- chunks ----

  function Concat<T>(chunks: seq<seq<T>>): seq<T> {
    if chunks == [] then [] else Concat(chunks[..|chunks| - 1]) + chunks[|chunks| - 1]
  }

  datatype ChunkError = SizeBelowOne

  method ChunkTargets<T>(targets: seq<T>, size: int) returns (r: Result<seq<seq<T>>, ChunkError>)
    ensures r.Err? <==> size < 1
    ensures r.Ok? ==> Concat(r.value) == targets
    ensures r.Ok? ==> forall c :: 0 <= c < |r.value| ==> 1 <= |r.value[c]| <= size
    ensures r.Ok? ==> forall c :: 0 <= c < |r.value| - 1 ==> |r.value[c]| == size
  {
    if size < 1 {
      return Err(SizeBelowOne);
    }
    var out: seq<seq<T>> := [];
    var i := 0;
    while i < |targets|
      invariant 0 <= i
      invariant Concat(out) == targets[..Min(i, |targets|)]
      invariant forall c :: 0 <= c < |out| ==> 1 <= |out[c]| <= size
      invariant forall c :: 0 <= c < |out| && (i <= |targets| || c < |out| - 1) ==> |out[c]| == size
    {
      var end := Min(i + size, |targets|);
      assert targets[..end] == targets[..i] + targets[i..end];
      out := out + [targets[i..end]];
      i := i + size;
    }
    assert targets[..|targets|] == targets;
    return Ok(out);
  }
}

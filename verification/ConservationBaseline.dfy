/** crank/_probe_conservation_baseline.ts:47-137: the expected payouts of a reclaim sweep.
    Every vault merges its swept writer-ask pot into the pool as equivalent shares, pays its
    pool writers and then its writer-ask backers out of one running pot, and the payouts of
    all vaults are added up. On-chain integers are unsigned. */
module ConservationBaseline {
  import opened Results
  import opened ProRata

  const SCALE := 1_000_000_000_000

  datatype PoolWriter = PoolWriter(owner: string, shares: nat, premiumDebt: nat, premiumClaimed: nat)
  datatype Backer = Backer(owner: string, committed: nat)
  datatype Vault = Vault(
    totalCollateral: nat, totalShares: nat, earlyExercise: nat, premiumPerShare: nat,
    swept: nat, writers: seq<PoolWriter>, backers: seq<Backer>)

  datatype Kind = Pool | Residual
  datatype Payout = Payout(who: string, amount: int, kind: Kind)
  datatype Failure = DivisionByZero
  datatype VaultRun = VaultRun(payouts: seq<Payout>, collateral: int, shares: int)

  // ---- the merge ----

  function EquivTotal(v: Vault): int {
    if v.swept == 0 then 0
    else if v.totalCollateral == 0 then v.swept
    else TruncDiv(v.swept * v.totalShares, v.totalCollateral)
  }

  function CollateralPost(v: Vault): int { v.totalCollateral + v.swept - v.earlyExercise }
  function SharesPost(v: Vault): int { v.totalShares + EquivTotal(v) }

  function EquivShares(v: Vault, b: Backer): int
    requires v.swept > 0
  {
    TruncDiv(b.committed * EquivTotal(v), v.swept)
  }

  function Premium(v: Vault, w: PoolWriter): int {
    var gross := TruncDiv(w.shares * v.premiumPerShare, SCALE);
    var undebted := if gross > w.premiumDebt then gross - w.premiumDebt else 0;
    if undebted > w.premiumClaimed then undebted - w.premiumClaimed else 0
  }

  /** A quotient is the one number that many times the divisor does not exceed the dividend. */
  lemma Quotient(a: int, b: int, q: int)
    requires a >= 0 && b > 0 && q * b <= a < (q + 1) * b
    ensures TruncDiv(a, b) == q
  {
    FloorLeast(a, b, q);
    if a / b > q {
      DivBounds(a, b);
      MulLe(q + 1, a / b, b);
    }
  }

  /** What a writer has still to get: with g the whole premium units its shares have earned, the
      premium, what was owed before it joined and what it has claimed make up g; or it gets nothing. */
  lemma PremiumMakesUpTheGross(v: Vault, w: PoolWriter, g: nat)
    requires g * 1_000_000_000_000 <= w.shares * v.premiumPerShare < (g + 1) * 1_000_000_000_000
    ensures var p := Premium(v, w);
      if g >= w.premiumDebt + w.premiumClaimed then p + w.premiumDebt + w.premiumClaimed == g else p == 0
  {
    assert w.shares * v.premiumPerShare >= 0;
    Quotient(w.shares * v.premiumPerShare, SCALE, g);
  }

  lemma GrossExists(v: Vault, w: PoolWriter) returns (g: nat)
    ensures g * 1_000_000_000_000 <= w.shares * v.premiumPerShare < (g + 1) * 1_000_000_000_000
  {
    assert w.shares * v.premiumPerShare >= 0;
    g := w.shares * v.premiumPerShare / 1_000_000_000_000;
  }

  /** No premium is paid twice: once it is added to what was claimed, nothing is due. */
  lemma NoPremiumTwice(v: Vault, w: PoolWriter)
    ensures Premium(v, w) >= 0
    ensures Premium(v, w.(premiumClaimed := w.premiumClaimed + Premium(v, w))) == 0
  {
    var g := GrossExists(v, w);
    PremiumMakesUpTheGross(v, w, g);
    var p := Premium(v, w);
    PremiumMakesUpTheGross(v, w.(premiumClaimed := w.premiumClaimed + p), g);
  }

  /** The equivalent shares minted for the swept pot: as many as that much collateral was worth
      before it, rounded down; one for one in a vault without collateral. */
  lemma EquivTotalIsFair(v: Vault)
    ensures v.swept > 0 && v.totalCollateral > 0 ==>
      EquivTotal(v) * v.totalCollateral <= v.swept * v.totalShares < (EquivTotal(v) + 1) * v.totalCollateral
    ensures v.totalCollateral == 0 || v.swept == 0 ==> EquivTotal(v) == v.swept
  {
    if v.swept > 0 && v.totalCollateral > 0 {
      MulLe(0, v.swept, v.totalShares);
      DivBounds(v.swept * v.totalShares, v.totalCollateral);
    }
  }

  // ---- who claims, in order ----

  function ActiveWriters(ws: seq<PoolWriter>): (r: seq<PoolWriter>)
    ensures forall i :: 0 <= i < |r| ==> r[i].shares > 0
  {
    if ws == [] then []
    else (if ws[0].shares > 0 then [ws[0]] else []) + ActiveWriters(ws[1..])
  }

  function WriterShares(ws: seq<PoolWriter>): (r: seq<int>)
    ensures |r| == |ws| && forall i :: 0 <= i < |r| ==> r[i] == ws[i].shares
  {
    seq(|ws|, i requires 0 <= i < |ws| => ws[i].shares)
  }

  /** The equivalent shares of the backers that are paid: those who committed something to
      a pot that was swept. */
  function BackerShares(v: Vault, bs: seq<Backer>): (r: seq<int>)
    ensures v.swept > 0 || r == []
  {
    if bs == [] || v.swept == 0 then []
    else (if bs[0].committed > 0 then [EquivShares(v, bs[0])] else []) + BackerShares(v, bs[1..])
  }

  function BackerOwners(v: Vault, bs: seq<Backer>): (r: seq<string>)
    ensures |r| == |BackerShares(v, bs)|
  {
    if bs == [] || v.swept == 0 then []
    else (if bs[0].committed > 0 then [bs[0].owner] else []) + BackerOwners(v, bs[1..])
  }

  function PoolClaims(v: Vault): seq<int> { WriterShares(ActiveWriters(v.writers)) }
  function Claims(v: Vault): seq<int> { PoolClaims(v) + BackerShares(v, v.backers) }

  /** A writer is paid if it has shares. */
  lemma OneWriter(w: PoolWriter)
    ensures ActiveWriters([w]) == if w.shares > 0 then [w] else []
  {
    assert [w][1..] == [];
  }

  /** The writers paid are paid in the order of the list: a list of two parts pays those
      of the first part, then those of the second. */
  lemma {:induction false} WritersInOrder(a: seq<PoolWriter>, b: seq<PoolWriter>)
    ensures ActiveWriters(a + b) == ActiveWriters(a) + ActiveWriters(b)
  {
    if a == [] {
      assert a + b == b;
    } else {
      assert (a + b)[1..] == a[1..] + b;
      WritersInOrder(a[1..], b);
    }
  }

  /** A backer is paid if it committed something and the pot was swept. */
  lemma OneBacker(v: Vault, x: Backer)
    ensures BackerShares(v, [x]) == (if v.swept > 0 && x.committed > 0 then [EquivShares(v, x)] else [])
    ensures BackerOwners(v, [x]) == (if v.swept > 0 && x.committed > 0 then [x.owner] else [])
  {
    hide EquivShares;
    assert [x][1..] == [];
  }

  lemma NoBackers(v: Vault)
    ensures BackerShares(v, []) == [] && BackerOwners(v, []) == []
  {
  }

  lemma FirstOf(v: Vault, x: Backer, rest: seq<Backer>)
    ensures BackerShares(v, [x] + rest) == BackerShares(v, [x]) + BackerShares(v, rest)
    ensures BackerOwners(v, [x] + rest) == BackerOwners(v, [x]) + BackerOwners(v, rest)
  {
    hide EquivShares;
    OneBacker(v, x);
    assert ([x] + rest)[1..] == rest;
  }

  /** The same for the backers. */
  lemma {:induction false} BackersInOrder(v: Vault, a: seq<Backer>, b: seq<Backer>)
    ensures BackerShares(v, a + b) == BackerShares(v, a) + BackerShares(v, b)
    ensures BackerOwners(v, a + b) == BackerOwners(v, a) + BackerOwners(v, b)
  {
    hide EquivShares;
    if a == [] {
      NoBackers(v);
      hide BackerShares, BackerOwners;
      assert a + b == b;
    } else {
      hide BackerShares, BackerOwners;
      assert a + b == [a[0]] + (a[1..] + b) && a == [a[0]] + a[1..];
      FirstOf(v, a[0], a[1..] + b);
      FirstOf(v, a[0], a[1..]);
      BackersInOrder(v, a[1..], b);
    }
  }

  /** Collateral taken by the first `i` claimants, and what they leave. */
  function AfterClaims(v: Vault, i: nat): (d: Distribution)
    requires i <= |Claims(v)|
    ensures |d.payouts| == i
  {
    Distribute(Claims(v)[..i], CollateralPost(v), SharesPost(v))
  }

  /** A backer with shares to redeem when none remain: the source divides by zero. */
  ghost predicate DividesByZero(v: Vault) {
    exists i :: |PoolClaims(v)| <= i < |Claims(v)| && Claims(v)[i] != 0 && AfterClaims(v, i).shares == 0
  }

  // ---- the vault loops ----

  lemma AfterOneMore(v: Vault, i: nat)
    requires i < |Claims(v)|
    ensures var d, s := AfterClaims(v, i), Claims(v)[i]; var p := Take(s, d.collateral, d.shares);
      AfterClaims(v, i + 1) == Distribution(d.payouts + [p], d.collateral - p, d.shares - s)
  {
    var s := Claims(v)[i];
    assert Claims(v)[..i + 1] == Claims(v)[..i] + [s];
    var d := AfterClaims(v, i);
    DistributeSplit(Claims(v)[..i], [s], CollateralPost(v), SharesPost(v));
    assert [s][1..] == [];
  }

  ghost predicate RunMatches(v: Vault, run: VaultRun, i: nat)
    requires i <= |Claims(v)|
  {
    var d := AfterClaims(v, i);
    && run.collateral == d.collateral && run.shares == d.shares
    && |run.payouts| == i
    && forall k :: 0 <= k < i ==> PaidAs(v, run.payouts[k], d.payouts[k], k)
  }

  /** Payout `k`: a pool writer's is its premium plus its collateral, a backer's is its
      collateral alone. */
  ghost predicate PaidAs(v: Vault, p: Payout, collateral: int, k: nat)
    requires k < |Claims(v)|
  {
    var ws := ActiveWriters(v.writers);
    if k < |ws| then p == Payout(ws[k].owner, Premium(v, ws[k]) + collateral, Pool)
    else p == Payout(BackerOwners(v, v.backers)[k - |ws|], collateral, Residual)
  }

  lemma OnePaid(v: Vault, run: VaultRun, p: Payout, i: nat)
    requires i < |Claims(v)| && RunMatches(v, run, i)
    requires PaidAs(v, p, Take(Claims(v)[i], run.collateral, run.shares), i)
    ensures var take := Take(Claims(v)[i], run.collateral, run.shares);
      RunMatches(v, VaultRun(run.payouts + [p], run.collateral - take, run.shares - Claims(v)[i]), i + 1)
  {
    hide Claims, AfterClaims, PaidAs, Take;
    AfterOneMore(v, i);
    var d, d' := AfterClaims(v, i), AfterClaims(v, i + 1);
    forall k | 0 <= k < i + 1 ensures PaidAs(v, (run.payouts + [p])[k], d'.payouts[k], k) {
      if k < i {
        assert (run.payouts + [p])[k] == run.payouts[k] && d'.payouts[k] == d.payouts[k];
      }
    }
  }

  method PayPoolWriters(v: Vault) returns (run: VaultRun)
    ensures RunMatches(v, run, |PoolClaims(v)|)
  {
    var wps := ActiveWriters(v.writers);
    var crRun, tsRun := CollateralPost(v), SharesPost(v);
    var payouts: seq<Payout> := [];
    assert AfterClaims(v, 0) == Distribution([], crRun, tsRun) by { assert Claims(v)[..0] == []; }
    for i := 0 to |wps|
      invariant RunMatches(v, VaultRun(payouts, crRun, tsRun), i)
    {
      hide RunMatches;
      var sh := wps[i].shares;
      var prem := Premium(v, wps[i]);
      var coll := if tsRun == 0 then 0 else TruncDiv(sh * crRun, tsRun);
      var payout := Payout(wps[i].owner, prem + coll, Pool);
      assert Claims(v)[i] == sh;
      OnePaid(v, VaultRun(payouts, crRun, tsRun), payout, i);
      crRun, tsRun := crRun - coll, tsRun - sh;
      payouts := payouts + [payout];
    }
    run := VaultRun(payouts, crRun, tsRun);
  }

  /** The first `done` claims are settled and those still open are the backers' from `i` on. */
  ghost predicate BackersAhead(v: Vault, i: nat, done: nat)
    requires i <= |v.backers|
  {
    && |PoolClaims(v)| <= done <= |Claims(v)|
    && Claims(v)[done..] == BackerShares(v, v.backers[i..])
    && BackerOwners(v, v.backers)[done - |PoolClaims(v)|..] == BackerOwners(v, v.backers[i..])
  }

  lemma FirstBacker(v: Vault)
    ensures BackersAhead(v, 0, |PoolClaims(v)|)
  {
    assert v.backers[0..] == v.backers;
  }

  lemma UnpaidBacker(v: Vault, i: nat, done: nat)
    requires i < |v.backers| && BackersAhead(v, i, done)
    requires v.swept == 0 || v.backers[i].committed == 0
    ensures BackersAhead(v, i + 1, done)
  {
    assert v.backers[i..][0] == v.backers[i] && v.backers[i..][1..] == v.backers[i + 1..];
  }

  lemma NextBacker(v: Vault, i: nat, done: nat)
    requires i < |v.backers| && v.swept > 0 && v.backers[i].committed > 0
    requires BackersAhead(v, i, done)
    ensures |PoolClaims(v)| <= done < |Claims(v)| && Claims(v)[done] == EquivShares(v, v.backers[i])
    ensures BackerOwners(v, v.backers)[done - |PoolClaims(v)|] == v.backers[i].owner
    ensures BackersAhead(v, i + 1, done + 1)
  {
    hide EquivShares, PoolClaims;
    var at := done - |PoolClaims(v)|;
    assert v.backers[i..][0] == v.backers[i] && v.backers[i..][1..] == v.backers[i + 1..];
    assert Claims(v)[done] == Claims(v)[done..][0];
    assert Claims(v)[done + 1..] == Claims(v)[done..][1..];
    assert BackerOwners(v, v.backers)[at] == BackerOwners(v, v.backers)[at..][0];
    assert BackerOwners(v, v.backers)[at + 1..] == BackerOwners(v, v.backers)[at..][1..];
  }

  lemma LastBacker(v: Vault, done: nat)
    requires BackersAhead(v, |v.backers|, done)
    ensures done == |Claims(v)|
  {
    assert v.backers[|v.backers|..] == [];
  }

  lemma SharesLeft(v: Vault, run: VaultRun, i: nat)
    requires i <= |Claims(v)| && RunMatches(v, run, i)
    ensures run.shares == AfterClaims(v, i).shares
  {
  }

  lemma OneBackerPaid(v: Vault, run: VaultRun, i: nat, amount: int, done: nat)
    requires i < |v.backers| && v.swept > 0
    requires |PoolClaims(v)| <= done < |Claims(v)| && RunMatches(v, run, done)
    requires Claims(v)[done] == EquivShares(v, v.backers[i])
    requires BackerOwners(v, v.backers)[done - |PoolClaims(v)|] == v.backers[i].owner
    requires Claims(v)[done] == 0 ==> amount == 0
    requires Claims(v)[done] != 0 ==> amount == Take(Claims(v)[done], run.collateral, run.shares)
    ensures RunMatches(v, VaultRun(run.payouts + [Payout(v.backers[i].owner, amount, Residual)],
                                   run.collateral - amount, run.shares - Claims(v)[done]), done + 1)
  {
    hide RunMatches, EquivShares, BackerShares, BackerOwners;
    assert 0 * run.collateral == 0;
    assert |PoolClaims(v)| == |ActiveWriters(v.writers)|;
    OnePaid(v, run, Payout(v.backers[i].owner, amount, Residual), done);
  }

  method PayBackers(v: Vault, start: VaultRun) returns (r: Result<VaultRun, Failure>)
    requires RunMatches(v, start, |PoolClaims(v)|)
    ensures r.Ok? ==> RunMatches(v, r.value, |Claims(v)|) && !DividesByZero(v)
    ensures r.Err? ==> DividesByZero(v)
  {
    hide EquivShares, PoolClaims, Claims, AfterClaims, RunMatches, BackersAhead, BackerOwners;
    FirstBacker(v);
    var crRun, tsRun, payouts := start.collateral, start.shares, start.payouts;
    ghost var done := |PoolClaims(v)|;
    for i := 0 to |v.backers|
      invariant |PoolClaims(v)| <= done <= |Claims(v)| && BackersAhead(v, i, done)
      invariant RunMatches(v, VaultRun(payouts, crRun, tsRun), done)
      invariant forall j :: |PoolClaims(v)| <= j < done && Claims(v)[j] != 0 ==> AfterClaims(v, j).shares != 0
    {
      var committed := v.backers[i].committed;
      if v.swept == 0 || committed == 0 {
        UnpaidBacker(v, i, done);
        continue;
      }
      var equivShares := EquivShares(v, v.backers[i]);
      NextBacker(v, i, done);
      SharesLeft(v, VaultRun(payouts, crRun, tsRun), done);
      if equivShares != 0 && tsRun == 0 {
        return Err(DivisionByZero);
      }
      var amount := if equivShares == 0 then 0 else TruncDiv(equivShares * crRun, tsRun);
      var payout := Payout(v.backers[i].owner, amount, Residual);
      OneBackerPaid(v, VaultRun(payouts, crRun, tsRun), i, amount, done);
      crRun, tsRun := crRun - amount, tsRun - equivShares;
      payouts := payouts + [payout];
      done := done + 1;
    }
    LastBacker(v, done);
    r := Ok(VaultRun(payouts, crRun, tsRun));
  }

  /** One vault: every payout is the sequential pro-rata taking of the merged pot, and the
      only failure is a division by zero. */
  method PayVault(v: Vault) returns (r: Result<VaultRun, Failure>)
    ensures r.Err? <==> DividesByZero(v)
    ensures r.Ok? ==> RunMatches(v, r.value, |Claims(v)|)
  {
    var run := PayPoolWriters(v);
    r := PayBackers(v, run);
  }

  // ---- what the accounts promise ----

  function Commitments(bs: seq<Backer>): (r: seq<int>)
    ensures |r| == |bs| && forall i :: 0 <= i < |r| ==> r[i] == bs[i].committed
  {
    seq(|bs|, i requires 0 <= i < |bs| => bs[i].committed)
  }

  /** The writers' shares fit the vault, the commitments fit the swept pot, and the early
      exercise was paid out of what is there. */
  ghost predicate WellFunded(v: Vault) {
    && Sum(WriterShares(v.writers)) <= v.totalShares
    && Sum(Commitments(v.backers)) <= v.swept
    && v.earlyExercise <= v.totalCollateral + v.swept
  }

  lemma SharesOfCons(w: PoolWriter, ws: seq<PoolWriter>)
    ensures Sum(WriterShares([w] + ws)) == w.shares + Sum(WriterShares(ws))
  {
    assert WriterShares([w] + ws)[1..] == WriterShares(ws);
  }

  lemma {:induction false} ActiveWritersSum(ws: seq<PoolWriter>)
    ensures Sum(WriterShares(ActiveWriters(ws))) == Sum(WriterShares(ws))
  {
    if ws != [] {
      ActiveWritersSum(ws[1..]);
      var rest := ActiveWriters(ws[1..]);
      SharesOfCons(ws[0], rest);
      SharesOfCons(ws[0], ws[1..]);
      assert ws == [ws[0]] + ws[1..];
      assert ActiveWriters(ws) == if ws[0].shares > 0 then [ws[0]] + rest else rest;
    }
  }

  lemma EquivTotalBounds(v: Vault)
    ensures EquivTotal(v) >= 0
    ensures EquivTotal(v) * v.totalCollateral <= v.swept * v.totalShares || v.totalCollateral == 0
  {
    if v.swept > 0 && v.totalCollateral > 0 {
      MulLe(0, v.swept, v.totalShares);
      DivBounds(v.swept * v.totalShares, v.totalCollateral);
    } else if v.swept == 0 {
      assert 0 * v.totalCollateral == 0 && 0 * v.totalShares == 0;
    }
  }

  /** A backer's equivalent shares: its part of those minted, rounded down. */
  lemma EquivSharesAreFair(v: Vault, b: Backer)
    requires v.swept > 0
    ensures EquivShares(v, b) * v.swept <= b.committed * EquivTotal(v) < (EquivShares(v, b) + 1) * v.swept
  {
    EquivTotalBounds(v);
    hide EquivTotal;
    MulLe(0, b.committed, EquivTotal(v));
    DivBounds(b.committed * EquivTotal(v), v.swept);
  }

  lemma {:induction false} BackerSharesBound(v: Vault, bs: seq<Backer>)
    requires v.swept > 0
    ensures AllNonNegative(BackerShares(v, bs))
    ensures Sum(BackerShares(v, bs)) * v.swept <= Sum(Commitments(bs)) * EquivTotal(v)
  {
    EquivTotalBounds(v);
    if bs == [] {
      assert 0 * v.swept == 0 && 0 * EquivTotal(v) == 0;
    } else {
      var rest, c, e := BackerShares(v, bs[1..]), bs[0].committed, EquivTotal(v);
      BackerSharesBound(v, bs[1..]);
      assert Commitments(bs)[1..] == Commitments(bs[1..]);
      MulLe(0, c, e);
      DivBounds(c * e, v.swept);
      assert Sum(Commitments(bs)) * e == c * e + Sum(Commitments(bs[1..])) * e by {
        Distrib(c, Sum(Commitments(bs[1..])), e);
      }
      if c > 0 {
        assert BackerShares(v, bs) == [EquivShares(v, bs[0])] + rest;
        assert BackerShares(v, bs)[1..] == rest;
        Distrib(EquivShares(v, bs[0]), Sum(rest), v.swept);
      } else {
        assert BackerShares(v, bs) == rest;
      }
    }
  }

  /** The equivalent shares handed out never exceed the equivalent shares minted. */
  lemma EquivSharesFit(v: Vault)
    requires Sum(Commitments(v.backers)) <= v.swept
    ensures AllNonNegative(BackerShares(v, v.backers))
    ensures 0 <= Sum(BackerShares(v, v.backers)) <= EquivTotal(v)
  {
    EquivTotalBounds(v);
    if v.swept > 0 {
      BackerSharesBound(v, v.backers);
      MulLe(Sum(Commitments(v.backers)), v.swept, EquivTotal(v));
      CancelLe(Sum(BackerShares(v, v.backers)), EquivTotal(v), v.swept);
      SumNonNegative(BackerShares(v, v.backers));
    }
  }

  lemma ClaimsSound(v: Vault)
    requires WellFunded(v)
    ensures Sound(Claims(v), CollateralPost(v), SharesPost(v))
  {
    ActiveWritersSum(v.writers);
    EquivSharesFit(v);
    SumSplit(PoolClaims(v), BackerShares(v, v.backers));
  }

  lemma PrefixSound(claims: seq<int>, collateral: int, shares: int, i: nat)
    requires Sound(claims, collateral, shares) && i <= |claims|
    ensures Sound(claims[..i], collateral, shares)
    ensures i < |claims| ==> Distribute(claims[..i], collateral, shares).shares >= claims[i]
  {
    assert claims == claims[..i] + claims[i..];
    SumSplit(claims[..i], claims[i..]);
    SumNonNegative(claims[i..]);
    if i < |claims| {
      SumNonNegative(claims[i..][1..]);
      DistributeConserves(claims[..i], collateral, shares);
    }
  }

  /** Payout conservation of one vault: no division by zero, the running collateral and
      shares never negative, and collateral payouts plus remainder equal to the pot. */
  lemma PayoutConservation(v: Vault)
    requires WellFunded(v)
    ensures !DividesByZero(v)
    ensures forall i :: 0 <= i <= |Claims(v)| ==> AfterClaims(v, i).collateral >= 0 && AfterClaims(v, i).shares >= 0
    ensures var d := AfterClaims(v, |Claims(v)|);
      && AllNonNegative(d.payouts)
      && Sum(d.payouts) + d.collateral == v.totalCollateral + v.swept - v.earlyExercise
      && Sum(Claims(v)) + d.shares == SharesPost(v)
  {
    ClaimsSound(v);
    forall i | 0 <= i <= |Claims(v)|
      ensures AfterClaims(v, i).collateral >= 0 && AfterClaims(v, i).shares >= 0
      ensures i < |Claims(v)| && Claims(v)[i] != 0 ==> AfterClaims(v, i).shares != 0
    {
      PrefixSound(Claims(v), CollateralPost(v), SharesPost(v), i);
      DistributeConserves(Claims(v)[..i], CollateralPost(v), SharesPost(v));
    }
    assert Claims(v)[..|Claims(v)|] == Claims(v);
    DistributeConserves(Claims(v), CollateralPost(v), SharesPost(v));
  }

  /** When all merged shares are claimed nothing is left, except in one family: a pot with
      collateral in it and no share to claim it with. */
  lemma NothingLeftExactlyWhen(v: Vault)
    requires WellFunded(v) && Sum(Claims(v)) == SharesPost(v)
    ensures AfterClaims(v, |Claims(v)|).collateral == 0 <==>
            SharesPost(v) > 0 || v.totalCollateral + v.swept == v.earlyExercise
  {
    ClaimsSound(v);
    assert Claims(v)[..|Claims(v)|] == Claims(v);
    DrainedExactlyWhenOwned(Claims(v), CollateralPost(v), SharesPost(v));
  }

  /** Such a vault: 5 units of collateral, no shares, no claimants, 5 units stranded. */
  lemma StrandedCollateral()
    ensures var v := Vault(5, 0, 0, 0, 0, [], []);
      && WellFunded(v) && Sum(Claims(v)) == SharesPost(v) == 0
      && AfterClaims(v, |Claims(v)|).collateral == 5
  {
    var v := Vault(5, 0, 0, 0, 0, [], []);
    assert PoolClaims(v) == [] && BackerShares(v, []) == [];
    assert Claims(v)[..0] == [];
    assert Distribute([], 5, 0).collateral == 5;
  }

  /** Fairness of one vault: every claimant, writer or backer, gets its share of the merged
      pot rounded down, and at most its position above it. */
  lemma ClaimantBounds(v: Vault, k: nat)
    requires WellFunded(v) && SharesPost(v) > 0 && k < |Claims(v)|
    ensures var p, s := AfterClaims(v, |Claims(v)|).payouts[k], Claims(v)[k];
      && p >= s * CollateralPost(v) / SharesPost(v)
      && p * SharesPost(v) <= s * CollateralPost(v) + k * SharesPost(v)
  {
    ClaimsSound(v);
    assert Claims(v)[..|Claims(v)|] == Claims(v);
    PayoutBounds(Claims(v), CollateralPost(v), SharesPost(v), k);
  }

  /** Merging the swept pot never costs a pool writer anything: as long as the early exercise
      did not exceed the pool's own collateral, each writer still gets at least its share of
      the pool as it was before the merge. */
  lemma MergeNeverDilutes(v: Vault, k: nat)
    requires WellFunded(v) && v.totalShares > 0 && v.earlyExercise <= v.totalCollateral
    requires k < |ActiveWriters(v.writers)|
    ensures AfterClaims(v, |Claims(v)|).payouts[k] >=
            ActiveWriters(v.writers)[k].shares * (v.totalCollateral - v.earlyExercise) / v.totalShares
  {
    hide EquivTotal, Excess;
    ClaimsSound(v);
    var r0, t0 := v.totalCollateral - v.earlyExercise, v.totalShares;
    EquivTotalBounds(v);
    MergeExcess(r0, v.totalCollateral, v.swept, t0, EquivTotal(v));
    var x := Excess(CollateralPost(v), SharesPost(v), r0, t0);
    assert 0 <= x <= x * t0 by { MulLe(1, t0, x); }
    assert Claims(v)[..|Claims(v)|] == Claims(v);
    DistributeFrom(Claims(v), CollateralPost(v), SharesPost(v), r0, t0, x);
    assert Claims(v)[k] == ActiveWriters(v.writers)[k].shares;
  }

  lemma MergeExcess(r0: int, c: int, swept: int, t0: int, q: int)
    requires 0 <= r0 <= c && swept >= 0 && t0 > 0 && q >= 0
    requires q * c <= swept * t0 || c == 0
    ensures Excess(r0 + swept, t0 + q, r0, t0) >= 0
  {
    Distrib(r0, swept, t0);
    Distrib(t0, q, r0);
    assert q * r0 <= swept * t0 by {
      if c == 0 {
        assert q * r0 == 0;
        MulLe(0, swept, t0);
      } else {
        MulLe(r0, c, q);
      }
    }
  }

  // ---- grand totals ----

  function SumOf(ps: seq<Payout>, kind: Kind): int {
    if ps == [] then 0 else SumOf(ps[..|ps| - 1], kind) + (if ps[|ps| - 1].kind == kind then ps[|ps| - 1].amount else 0)
  }

  function Premiums(v: Vault): seq<int> {
    var ws := ActiveWriters(v.writers);
    seq(|ws|, i requires 0 <= i < |ws| => Premium(v, ws[i]))
  }

  /** What the pool writers of a vault get: their premiums, and what is gone from the pot when the
      last of them has been paid. */
  function ToWriters(v: Vault): int {
    Sum(Premiums(v)) + CollateralPost(v) - AfterClaims(v, |PoolClaims(v)|).collateral
  }

  /** What the backers get: what is gone from the pot after that. */
  function ToBackers(v: Vault): int {
    AfterClaims(v, |PoolClaims(v)|).collateral - AfterClaims(v, |Claims(v)|).collateral
  }

  function ToAllWriters(vs: seq<Vault>): int {
    if vs == [] then 0 else ToAllWriters(vs[..|vs| - 1]) + ToWriters(vs[|vs| - 1])
  }

  function ToAllBackers(vs: seq<Vault>): int {
    if vs == [] then 0 else ToAllBackers(vs[..|vs| - 1]) + ToBackers(vs[|vs| - 1])
  }

  lemma {:induction false} SumOfSplit(a: seq<Payout>, b: seq<Payout>, kind: Kind)
    ensures SumOf(a + b, kind) == SumOf(a, kind) + SumOf(b, kind)
  {
    if b == [] {
      assert a + b == a;
    } else {
      assert (a + b)[..|a + b| - 1] == a + b[..|b| - 1];
      SumOfSplit(a, b[..|b| - 1], kind);
    }
  }

  lemma SumSnoc(xs: seq<int>, x: int)
    ensures Sum(xs + [x]) == Sum(xs) + x
  {
    SumSplit(xs, [x]);
    assert [x][1..] == [];
  }

  lemma PrefixSum(xs: seq<int>, n: nat)
    ensures Sum(xs[..Min(n + 1, |xs|)]) == Sum(xs[..Min(n, |xs|)]) + if n < |xs| then xs[n] else 0
  {
    if n < |xs| {
      assert xs[..n + 1] == xs[..n] + [xs[n]];
      SumSnoc(xs[..n], xs[n]);
    }
  }

  /** Of the first n payouts, the writers' are premiums and takings, the backers' takings alone. */
  lemma {:induction false} PayoutsAddUp(v: Vault, ps: seq<Payout>, coll: seq<int>, n: nat)
    requires n == |ps| <= |coll| && n <= |Claims(v)|
    requires forall k :: 0 <= k < n ==> PaidAs(v, ps[k], coll[k], k)
    ensures var prem := Premiums(v); var m := Min(n, |prem|);
      && SumOf(ps, Pool) == Sum(prem[..m]) + Sum(coll[..m])
      && SumOf(ps, Residual) == Sum(coll[..n]) - Sum(coll[..m])
  {
    if n > 0 {
      PayoutsAddUp(v, ps[..n - 1], coll, n - 1);
      assert PaidAs(v, ps[n - 1], coll[n - 1], n - 1);
      PrefixSum(coll, n - 1);
      PrefixSum(Premiums(v), n - 1);
      hide Sum, Claims;
    }
  }

  lemma TakenSoFar(v: Vault, i: nat)
    requires WellFunded(v) && i <= |Claims(v)|
    ensures var d := AfterClaims(v, |Claims(v)|);
      |d.payouts| == |Claims(v)| && Sum(d.payouts[..i]) == CollateralPost(v) - AfterClaims(v, i).collateral
  {
    ClaimsSound(v);
    var claims := Claims(v);
    assert claims[..|claims|] == claims && claims == claims[..i] + claims[i..];
    DistributeSplit(claims[..i], claims[i..], CollateralPost(v), SharesPost(v));
    PrefixSound(claims, CollateralPost(v), SharesPost(v), i);
    DistributeConserves(claims[..i], CollateralPost(v), SharesPost(v));
    assert AfterClaims(v, |claims|).payouts[..i] == AfterClaims(v, i).payouts;
  }

  /** The payouts of one vault: the writers' sum is their premiums and what their claims take, the
      backers' what theirs take. */
  lemma VaultMoves(v: Vault, run: VaultRun)
    requires WellFunded(v) && RunMatches(v, run, |Claims(v)|)
    ensures SumOf(run.payouts, Pool) == ToWriters(v) && SumOf(run.payouts, Residual) == ToBackers(v)
  {
    var d, n := AfterClaims(v, |Claims(v)|), |Claims(v)|;
    PayoutsAddUp(v, run.payouts, d.payouts, n);
    assert Premiums(v)[..|Premiums(v)|] == Premiums(v);
    TakenSoFar(v, |PoolClaims(v)|);
    TakenSoFar(v, n);
  }

  /** The totals the script prints: over well-funded vaults the run succeeds, the first sum is what all
      writers get and the second what all backers get. */
  method GrandTotals(vaults: seq<Vault>) returns (r: Result<(int, int), Failure>)
    ensures r.Err? ==> exists i :: 0 <= i < |vaults| && DividesByZero(vaults[i])
    ensures (forall i :: 0 <= i < |vaults| ==> WellFunded(vaults[i])) ==>
      r.Ok? && r.value.0 == ToAllWriters(vaults) && r.value.1 == ToAllBackers(vaults)
  {
    var grandPayouts: seq<Payout> := [];
    ghost var funded := forall i :: 0 <= i < |vaults| ==> WellFunded(vaults[i]);
    for i := 0 to |vaults|
      invariant funded ==> SumOf(grandPayouts, Pool) == ToAllWriters(vaults[..i])
      invariant funded ==> SumOf(grandPayouts, Residual) == ToAllBackers(vaults[..i])
    {
      if funded {
        PayoutConservation(vaults[i]);
      }
      var run := PayVault(vaults[i]);
      if run.Err? {
        return Err(run.error);
      }
      if funded {
        VaultMoves(vaults[i], run.value);
        assert vaults[..i + 1][..i] == vaults[..i];
      }
      SumOfSplit(grandPayouts, run.value.payouts, Pool);
      SumOfSplit(grandPayouts, run.value.payouts, Residual);
      grandPayouts := grandPayouts + run.value.payouts;
    }
    assert vaults[..|vaults|] == vaults;

    var poolSum, residSum := 0, 0;
    for i := 0 to |grandPayouts|
      invariant poolSum == SumOf(grandPayouts[..i], Pool) && residSum == SumOf(grandPayouts[..i], Residual)
    {
      assert grandPayouts[..i + 1][..i] == grandPayouts[..i];
      if grandPayouts[i].kind == Pool {
        poolSum := poolSum + grandPayouts[i].amount;
      } else {
        residSum := residSum + grandPayouts[i].amount;
      }
    }
    assert grandPayouts[..|grandPayouts|] == grandPayouts;
    r := Ok((poolSum, residSum));
  }
}

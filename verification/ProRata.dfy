/** The sequential floor-division distribution behind every collateral payout
    (crank/_probe_conservation_baseline.ts:86-113): each claimant in turn takes its share of
    what is left, and leaves with its shares. */
module ProRata {

  /** BigInt division: truncates toward zero. */
  function TruncDiv(a: int, b: int): int
    requires b != 0
  {
    if a >= 0 then a / b else -((-a) / b)
  }

  /** It rounds toward zero on either side of it. */
  lemma TruncDivTruncates(a: int, b: int)
    requires b > 0
    ensures TruncDiv(-a, b) == -TruncDiv(a, b)
    ensures a >= 0 ==> TruncDiv(a, b) >= 0 && TruncDiv(a, b) * b <= a < TruncDiv(a, b) * b + b
  {
  }

  function Sum(xs: seq<int>): int {
    if xs == [] then 0 else xs[0] + Sum(xs[1..])
  }

  predicate AllNonNegative(xs: seq<int>) {
    forall i :: 0 <= i < |xs| ==> xs[i] >= 0
  }

  /** What one claimant takes: nothing once no shares are left. */
  function Take(share: int, collateral: int, shares: int): int {
    if shares == 0 then 0 else TruncDiv(share * collateral, shares)
  }

  datatype Distribution = Distribution(payouts: seq<int>, collateral: int, shares: int)

  function Distribute(claims: seq<int>, collateral: int, shares: int): (d: Distribution)
    ensures |d.payouts| == |claims|
  {
    if claims == [] then Distribution([], collateral, shares)
    else
      var p := Take(claims[0], collateral, shares);
      var rest := Distribute(claims[1..], collateral - p, shares - claims[0]);
      Distribution([p] + rest.payouts, rest.collateral, rest.shares)
  }

  /** The distribution is defined and non-negative throughout when claims fit the shares. */
  ghost predicate Sound(claims: seq<int>, collateral: int, shares: int) {
    AllNonNegative(claims) && collateral >= 0 && Sum(claims) <= shares
  }

  // ---- arithmetic of one step ----

  lemma DivBounds(a: int, b: int)
    requires a >= 0 && b > 0
    ensures a / b >= 0 && a / b * b <= a < a / b * b + b
  {
  }

  lemma MulLe(a: int, b: int, c: int)
    requires a <= b && c >= 0
    ensures a * c <= b * c && c * a <= c * b
  {
  }

  lemma CancelLe(a: int, b: int, c: int)
    requires a * c <= b * c && c > 0
    ensures a <= b
  {
  }

  lemma FloorLeast(a: int, b: int, q: int)
    requires b > 0 && q * b <= a
    ensures q <= a / b
  {
    if q > a / b {
      MulLe(a / b + 1, q, b);
    }
  }

  lemma TakeBounds(s: int, r: int, t: int)
    requires 0 <= s <= t && r >= 0
    ensures 0 <= Take(s, r, t) <= r
    ensures Take(s, r, t) * t <= s * r
    ensures t > 0 ==> s * r < Take(s, r, t) * t + t
    ensures t > 0 && s == t ==> Take(s, r, t) == r
  {
    if t > 0 {
      assert s * r >= 0;
      DivBounds(s * r, t);
      MulLe(s, t, r);
      CancelLe(Take(s, r, t), r, t);
      if s == t {
        FloorLeast(s * r, t, r);
      }
    } else {
      assert s * r == 0;
    }
  }

  /** Excess of the running collateral over the running shares' part of the pot (r0, t0). */
  function Excess(r: int, t: int, r0: int, t0: int): int { r * t0 - t * r0 }

  lemma ExcessNext(s: int, r: int, t: int, r0: int, t0: int, p: int, k: nat)
    requires 0 <= s <= t && t > 0 && t0 > 0
    requires p * t <= s * r <= p * t + t
    requires 0 <= Excess(r, t, r0, t0) <= k * t0
    ensures 0 <= Excess(r, t, r0, t0) - p * t0 + s * r0 <= (k + 1) * t0
  {
    var e := Excess(r, t, r0, t0);
    var x, y := e * (t - s), (s * r) * t0 - (p * t) * t0;
    hide Excess;
    assert (e - p * t0 + s * r0) * t == x + y by { ExcessTimes(s, r, t, r0, t0, p); }
    assert 0 <= x <= k * t0 * t by {
      MulLe(0, t - s, e);
      MulLe(t - s, t, e);
      MulLe(e, k * t0, t);
    }
    assert 0 <= y <= t * t0 by {
      MulLe(p * t, s * r, t0);
      MulLe(s * r, p * t + t, t0);
      Distrib(p * t, t, t0);
    }
    Distrib3(k, t0, t);
    CancelLe(0, e - p * t0 + s * r0, t);
    CancelLe(e - p * t0 + s * r0, (k + 1) * t0, t);
  }

  lemma ExcessAfter(s: int, r: int, t: int, r0: int, t0: int, p: int)
    ensures Excess(r - p, t - s, r0, t0) == Excess(r, t, r0, t0) - p * t0 + s * r0
  {
    assert (r - p) * t0 == r * t0 - p * t0;
    assert (t - s) * r0 == t * r0 - s * r0;
  }

  /** One step cannot lower the collateral per share, and floors away at most one unit. */
  lemma ExcessStep(s: int, r: int, t: int, r0: int, t0: int, k: nat)
    requires 0 <= s <= t && r >= 0 && t0 > 0 && r0 >= 0
    requires 0 <= Excess(r, t, r0, t0) <= k * t0
    ensures 0 <= Excess(r - Take(s, r, t), t - s, r0, t0) <= (k + 1) * t0
    ensures Take(s, r, t) * t0 <= s * r0 + k * t0
    ensures Take(s, r, t) >= s * r0 / t0
  {
    var p := Take(s, r, t);
    TakeBounds(s, r, t);
    ExcessAfter(s, r, t, r0, t0, p);
    if t == 0 {
      assert p == 0 && s == 0;
      assert p * t0 == 0 && s * r0 == 0;
      Distrib(k, 1, t0);
      FloorOfZero(t0);
    } else {
      ExcessNext(s, r, t, r0, t0, p, k);
      assert s * r >= 0 by { MulLe(0, s, r); }
      FairLower(s, r, t, r0, t0, p, Excess(r, t, r0, t0));
    }
  }

  lemma FloorOfZero(t0: int)
    requires t0 > 0
    ensures 0 / t0 == 0
  {
  }

  lemma Distrib(a: int, b: int, c: int)
    ensures (a + b) * c == a * c + b * c
  {
  }

  lemma Distrib3(k: int, t0: int, t: int)
    ensures ((k + 1) * t0) * t == k * t0 * t + t * t0
  {
  }

  lemma ExcessTimes(s: int, r: int, t: int, r0: int, t0: int, p: int)
    ensures (Excess(r, t, r0, t0) - p * t0 + s * r0) * t ==
            Excess(r, t, r0, t0) * (t - s) + (s * r) * t0 - (p * t) * t0
  {
    var e := Excess(r, t, r0, t0);
    calc {
      (e - p * t0 + s * r0) * t;
    ==
      e * t - p * t0 * t + s * r0 * t;
    == { assert e * s == (r * t0 - t * r0) * s == r * t0 * s - t * r0 * s; }
      e * t - e * s + r * t0 * s - p * t0 * t;
    ==
      e * (t - s) + (s * r) * t0 - (p * t) * t0;
    }
  }

  lemma FairLower(s: int, r: int, t: int, r0: int, t0: int, p: int, e: int)
    requires 0 <= s <= t && t > 0 && t0 > 0 && r0 >= 0 && r >= 0
    requires e == Excess(r, t, r0, t0) >= 0
    requires p == s * r / t && s * r >= 0
    ensures p >= s * r0 / t0
  {
    var q := s * r0 / t0;
    assert t * r0 <= r * t0;
    hide Excess;
    assert s * r0 >= 0 by { MulLe(0, s, r0); }
    DivBounds(s * r0, t0);
    // q * t0 <= s * r0, and t * r0 <= r * t0, so q * t <= s * r
    CrossFair(q, s, r, t, r0, t0);
    CancelLe(q * t, s * r, t0);
    FloorLeast(s * r, t, q);
  }

  lemma CrossFair(q: int, s: int, r: int, t: int, r0: int, t0: int)
    requires q * t0 <= s * r0 && t * r0 <= r * t0 && s >= 0 && t >= 0
    ensures (q * t) * t0 <= (s * r) * t0
  {
    MulLe(q * t0, s * r0, t);
    MulLe(t * r0, r * t0, s);
    Reassociate(q, t, t0);
    Reassociate(s, t, r0);
    Reassociate(s, r, t0);
  }

  lemma Reassociate(a: int, b: int, c: int)
    ensures (a * b) * c == a * (b * c) == (a * c) * b
  {
  }

  // ---- whole distributions ----

  lemma {:induction false} SumNonNegative(xs: seq<int>)
    requires AllNonNegative(xs)
    ensures Sum(xs) >= 0
  {
    if xs != [] {
      SumNonNegative(xs[1..]);
    }
  }

  lemma SoundStep(claims: seq<int>, collateral: int, shares: int)
    requires Sound(claims, collateral, shares) && claims != []
    ensures 0 <= claims[0] <= shares
    ensures 0 <= Take(claims[0], collateral, shares) <= collateral
    ensures Sound(claims[1..], collateral - Take(claims[0], collateral, shares), shares - claims[0])
  {
    SumNonNegative(claims[1..]);
    TakeBounds(claims[0], collateral, shares);
  }

  /** Nothing goes negative and nothing is created or lost. */
  lemma {:induction false} DistributeConserves(claims: seq<int>, collateral: int, shares: int)
    requires Sound(claims, collateral, shares)
    ensures var d := Distribute(claims, collateral, shares);
      && AllNonNegative(d.payouts)
      && d.collateral >= 0 && d.shares >= 0
      && Sum(d.payouts) + d.collateral == collateral
      && Sum(claims) + d.shares == shares
  {
    if claims != [] {
      SoundStep(claims, collateral, shares);
      var p := Take(claims[0], collateral, shares);
      DistributeConserves(claims[1..], collateral - p, shares - claims[0]);
      var d := Distribute(claims, collateral, shares);
      assert d.payouts[1..] == Distribute(claims[1..], collateral - p, shares - claims[0]).payouts;
    }
  }

  /** The distribution continued from a point where the pot was (r0, t0) and at most k units
      had been floored away: a bound on every payout and on what is left. */
  lemma {:induction false} DistributeFrom(claims: seq<int>, r: int, t: int, r0: int, t0: int, k: nat)
    requires Sound(claims, r, t) && t0 > 0 && r0 >= 0
    requires 0 <= Excess(r, t, r0, t0) <= k * t0
    ensures var d := Distribute(claims, r, t);
      && (forall j :: 0 <= j < |claims| ==>
            d.payouts[j] >= claims[j] * r0 / t0 && d.payouts[j] * t0 <= claims[j] * r0 + (k + j) * t0)
      && Excess(d.collateral, d.shares, r0, t0) >= 0
  {
    if claims != [] {
      SoundStep(claims, r, t);
      ExcessStep(claims[0], r, t, r0, t0, k);
      var p := Take(claims[0], r, t);
      var rest := Distribute(claims[1..], r - p, t - claims[0]);
      DistributeFrom(claims[1..], r - p, t - claims[0], r0, t0, k + 1);
      var d := Distribute(claims, r, t);
      forall j | 0 <= j < |claims|
        ensures d.payouts[j] >= claims[j] * r0 / t0 && d.payouts[j] * t0 <= claims[j] * r0 + (k + j) * t0
      {
        if j > 0 {
          assert d.payouts[j] == rest.payouts[j - 1] && claims[j] == claims[1..][j - 1];
        }
      }
    }
  }

  /** The claimant at 0-based position k gets at least its share of the whole pot rounded
      down, and at most that share plus k, whatever the other claimants and their order. */
  lemma PayoutBounds(claims: seq<int>, collateral: int, shares: int, k: nat)
    requires Sound(claims, collateral, shares) && shares > 0 && k < |claims|
    ensures var p := Distribute(claims, collateral, shares).payouts[k];
      && p >= claims[k] * collateral / shares
      && p * shares <= claims[k] * collateral + k * shares
  {
    DistributeFrom(claims, collateral, shares, collateral, shares, 0);
  }

  lemma FloorWithin(p: int, k: int, a: int, b: int)
    requires b > 0 && a >= 0 && p * b <= a + k * b
    ensures p <= a / b + k
  {
    Distrib(p, -k, b);
    FloorLeast(a, b, p - k);
  }

  /** Reordering the claimants moves one claimant's payout by at most its later position. */
  lemma OrderMovesPayoutLittle(a: seq<int>, b: seq<int>, collateral: int, shares: int, i: nat, j: nat)
    requires Sound(a, collateral, shares) && Sound(b, collateral, shares) && shares > 0
    requires i < |a| && j < |b| && a[i] == b[j]
    ensures var p, q := Distribute(a, collateral, shares).payouts[i], Distribute(b, collateral, shares).payouts[j];
      p - i <= q <= p + j
  {
    PayoutBounds(a, collateral, shares, i);
    PayoutBounds(b, collateral, shares, j);
    assert a[i] * collateral >= 0 by { MulLe(0, a[i], collateral); }
    FloorWithin(Distribute(a, collateral, shares).payouts[i], i, a[i] * collateral, shares);
    FloorWithin(Distribute(b, collateral, shares).payouts[j], j, a[i] * collateral, shares);
  }

  lemma {:induction false} DistributeSplit(a: seq<int>, b: seq<int>, r: int, t: int)
    ensures var d := Distribute(a, r, t); var e := Distribute(b, d.collateral, d.shares);
      Distribute(a + b, r, t) == Distribution(d.payouts + e.payouts, e.collateral, e.shares)
  {
    if a == [] {
      assert a + b == b;
      var e := Distribute(b, r, t);
      assert [] + e.payouts == e.payouts;
    } else {
      var p := Take(a[0], r, t);
      assert (a + b)[1..] == a[1..] + b;
      DistributeSplit(a[1..], b, r - p, t - a[0]);
      var d := Distribute(a[1..], r - p, t - a[0]);
      var e := Distribute(b, d.collateral, d.shares);
      assert [p] + (d.payouts + e.payouts) == ([p] + d.payouts) + e.payouts;
    }
  }

  lemma {:induction false} SumSplit(a: seq<int>, b: seq<int>)
    ensures Sum(a + b) == Sum(a) + Sum(b)
  {
    if a == [] {
      assert a + b == b;
    } else {
      assert (a + b)[1..] == a[1..] + b;
      SumSplit(a[1..], b);
    }
  }

  /** The remaining collateral per remaining share never falls, over any stretch of the run. */
  lemma RatioNeverFalls(claims: seq<int>, collateral: int, shares: int, i: nat, j: nat)
    requires Sound(claims, collateral, shares) && i <= j <= |claims|
    ensures var a, b := Distribute(claims[..i], collateral, shares), Distribute(claims[..j], collateral, shares);
      b.collateral * a.shares >= a.collateral * b.shares
  {
    var a, b := Distribute(claims[..i], collateral, shares), Distribute(claims[..j], collateral, shares);
    assert claims == claims[..j] + claims[j..];
    assert claims[..j] == claims[..i] + claims[i..j];
    SumSplit(claims[..j], claims[j..]);
    SumSplit(claims[..i], claims[i..j]);
    SumNonNegative(claims[i..j]);
    SumNonNegative(claims[j..]);
    DistributeConserves(claims[..i], collateral, shares);
    DistributeConserves(claims[..j], collateral, shares);
    DistributeSplit(claims[..i], claims[i..j], collateral, shares);
    if a.shares > 0 {
      DistributeFrom(claims[i..j], a.collateral, a.shares, a.collateral, a.shares, 0);
    } else {
      assert b.shares == 0;
      assert b.collateral * 0 == 0 && a.collateral * 0 == 0;
    }
  }

  /** Once every share is claimed nothing is left behind, unless there were never any shares
      to claim a non-empty pot with. */
  lemma {:induction false} DrainedExactlyWhenOwned(claims: seq<int>, collateral: int, shares: int)
    requires Sound(claims, collateral, shares) && Sum(claims) == shares
    ensures Distribute(claims, collateral, shares).collateral == 0 <==> shares > 0 || collateral == 0
  {
    if claims != [] {
      SoundStep(claims, collateral, shares);
      TakeBounds(claims[0], collateral, shares);
      DrainedExactlyWhenOwned(claims[1..], collateral - Take(claims[0], collateral, shares), shares - claims[0]);
    }
  }
}

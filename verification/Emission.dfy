/** The block subsidy and the total emission it adds up to. */
module Emission {
  import opened Basics

  const HALVING_INTERVAL: nat := 2_100_000
  const INITIAL_SUBSIDY: nat := 10_000_000_000
  const TAIL_SUBSIDY: nat := 500_000_000
  const MAX_HALVINGS: nat := 64
  /** The first height that earns the tail subsidy. */
  const TAIL_HEIGHT: nat := 134_400_000
  const U128_BOUND: nat := 0x1_0000_0000_0000_0000_0000_0000_0000_0000

  /** `s >> k`. */
  function Halved(s: nat, k: nat): nat {
    if k == 0 then s else Halved(s, k - 1) / 2
  }

  function Subsidy(height: nat): nat {
    var halvings := height / HALVING_INTERVAL;
    if halvings >= MAX_HALVINGS then TAIL_SUBSIDY else Halved(INITIAL_SUBSIDY, halvings)
  }

  /** What the first `n` blocks create together. */
  function Emitted(n: nat): nat {
    if n == 0 then 0 else Emitted(n - 1) + Subsidy(n - 1)
  }

  /** The schedule: every 2100000 blocks the subsidy is halved, down to the tail. */
  lemma SubsidyHalves(height: nat)
    ensures height < 2_100_000 ==> Subsidy(height) == 10_000_000_000
    ensures height + 2_100_000 < 134_400_000 ==> Subsidy(height + 2_100_000) == Subsidy(height) / 2
    ensures height >= 134_400_000 ==> Subsidy(height) == 500_000_000
  {
    assert (height + HALVING_INTERVAL) / HALVING_INTERVAL == height / HALVING_INTERVAL + 1;
  }

  // ----- one era at a time

  lemma EraOf(k: nat, r: nat)
    requires r < HALVING_INTERVAL
    ensures (k * HALVING_INTERVAL + r) / HALVING_INTERVAL == k
  {
  }

  lemma OneMore(r: nat, s: nat)
    requires r > 0
    ensures r * s == (r - 1) * s + s
  {
  }

  lemma {:induction false} EraSum(k: nat, r: nat)
    requires k < MAX_HALVINGS && r <= HALVING_INTERVAL
    ensures Emitted(k * HALVING_INTERVAL + r) == Emitted(k * HALVING_INTERVAL) + r * Halved(INITIAL_SUBSIDY, k)
  {
    if r > 0 {
      EraSum(k, r - 1);
      var h := k * HALVING_INTERVAL + r - 1;
      assert Subsidy(h) == Halved(INITIAL_SUBSIDY, k) by { EraOf(k, r - 1); }
      assert Emitted(h + 1) == Emitted(h) + Subsidy(h);
      OneMore(r, Halved(INITIAL_SUBSIDY, k));
    }
  }

  /** Sum of the first `k` era subsidies. */
  function EraTotal(k: nat): nat {
    if k == 0 then 0 else EraTotal(k - 1) + Halved(INITIAL_SUBSIDY, k - 1)
  }

  lemma {:induction false} EmissionOfEras(k: nat)
    requires k <= MAX_HALVINGS
    ensures Emitted(k * HALVING_INTERVAL) == HALVING_INTERVAL * EraTotal(k)
  {
    hide Emitted, Halved, EraTotal;
    NoEras();
    if k > 0 {
      EmissionOfEras(k - 1);
      EraSum(k - 1, HALVING_INTERVAL);
      NextEra(k);
    }
  }

  lemma NoEras()
    ensures Emitted(0) == 0 && EraTotal(0) == 0
  {
  }

  lemma NextEra(k: nat)
    requires k > 0
    ensures EraTotal(k) == EraTotal(k - 1) + Halved(INITIAL_SUBSIDY, k - 1)
  {
  }

  /** Every era still leaves room for twice its own subsidy: the geometric
      series never reaches its limit. */
  lemma {:induction false} EraTotalBound(k: nat)
    ensures EraTotal(k) + 2 * Halved(INITIAL_SUBSIDY, k) <= 2 * INITIAL_SUBSIDY
  {
    if k > 0 {
      EraTotalBound(k - 1);
    }
  }

  lemma PartialEra(k: nat, r: nat)
    requires k < MAX_HALVINGS && r <= HALVING_INTERVAL
    ensures Emitted(k * HALVING_INTERVAL + r) <= 2 * HALVING_INTERVAL * INITIAL_SUBSIDY
  {
    EraTotalBound(k);
    EmissionOfEras(k);
    EraSum(k, r);
    PartialProduct(EraTotal(k), Halved(INITIAL_SUBSIDY, k), r);
  }

  lemma PartialProduct(total: nat, s: nat, r: nat)
    requires total + 2 * s <= 2 * INITIAL_SUBSIDY && r <= HALVING_INTERVAL
    ensures HALVING_INTERVAL * total + r * s <= 2 * HALVING_INTERVAL * INITIAL_SUBSIDY
  {
    assert r * s <= HALVING_INTERVAL * s;
  }

  lemma {:induction false} TailSum(n: nat)
    requires n >= TAIL_HEIGHT
    ensures Emitted(n) == Emitted(TAIL_HEIGHT) + TAIL_SUBSIDY * (n - TAIL_HEIGHT)
  {
    if n > TAIL_HEIGHT {
      TailSum(n - 1);
    }
  }

  /** The emission of any number of blocks, bounded. */
  lemma EmissionBound(n: nat)
    ensures Emitted(n) <= 2 * HALVING_INTERVAL * INITIAL_SUBSIDY + TAIL_SUBSIDY * Max(0, n - TAIL_HEIGHT)
  {
    if n < TAIL_HEIGHT {
      var k, r := n / HALVING_INTERVAL, n % HALVING_INTERVAL;
      assert n == k * HALVING_INTERVAL + r;
      PartialEra(k, r);
    } else {
      PartialEra(MAX_HALVINGS - 1, HALVING_INTERVAL);
      TailSum(n);
    }
  }

  lemma FourEras(k: nat)
    ensures var h := Halved(INITIAL_SUBSIDY, k);
            && Halved(INITIAL_SUBSIDY, k + 4) == h / 16
            && EraTotal(k + 4) == EraTotal(k) + h + h / 2 + h / 4 + h / 8
  {
    assert Halved(INITIAL_SUBSIDY, k + 2) == Halved(INITIAL_SUBSIDY, k) / 4;
    assert EraTotal(k + 2) == EraTotal(k) + Halved(INITIAL_SUBSIDY, k) + Halved(INITIAL_SUBSIDY, k + 1);
    assert EraTotal(k + 4) == EraTotal(k + 2) + Halved(INITIAL_SUBSIDY, k + 2) + Halved(INITIAL_SUBSIDY, k + 3);
  }

  lemma EraTable()
    ensures EraTotal(36) == 19_999_999_989
    ensures Halved(INITIAL_SUBSIDY, 4) == 625_000_000 && Halved(INITIAL_SUBSIDY, 32) == 2
  {
    FourEras(0);
    assert Halved(INITIAL_SUBSIDY, 4) == 625000000 && EraTotal(4) == 18750000000;
    FourEras(4);
    assert Halved(INITIAL_SUBSIDY, 8) == 39062500 && EraTotal(8) == 19921875000;
    FourEras(8);
    assert Halved(INITIAL_SUBSIDY, 12) == 2441406 && EraTotal(12) == 19995117187;
    FourEras(12);
    assert Halved(INITIAL_SUBSIDY, 16) == 152587 && EraTotal(16) == 19999694822;
    FourEras(16);
    assert Halved(INITIAL_SUBSIDY, 20) == 9536 && EraTotal(20) == 19999980921;
    FourEras(20);
    assert Halved(INITIAL_SUBSIDY, 24) == 596 && EraTotal(24) == 19999998801;
    FourEras(24);
    assert Halved(INITIAL_SUBSIDY, 28) == 37 && EraTotal(28) == 19999999918;
    FourEras(28);
    assert Halved(INITIAL_SUBSIDY, 32) == 2 && EraTotal(32) == 19999999986;
    FourEras(32);
    assert Halved(INITIAL_SUBSIDY, 36) == 0 && EraTotal(36) == 19999999989;
  }

  lemma {:induction false} EmptyEra(k: nat)
    requires 34 <= k
    ensures Halved(INITIAL_SUBSIDY, k) == 0
  {
    if k == 34 {
      EraTable();
      assert Halved(INITIAL_SUBSIDY, 33) == Halved(INITIAL_SUBSIDY, 32) / 2;
    } else {
      EmptyEra(k - 1);
    }
  }

  lemma {:induction false} EmptyEras(base: nat, k: nat)
    requires 34 <= base <= k
    ensures EraTotal(k) == EraTotal(base)
  {
    if k > base {
      EmptyEra(k - 1);
      EmptyEras(base, k - 1);
    }
  }

  /** All that is ever created before the tail, to the unit. */
  lemma EmissionBeforeTail()
    ensures Emitted(TAIL_HEIGHT) == 41_999_999_976_900_000
  {
    EmissionOfEras(MAX_HALVINGS);
    EraTable();
    EmptyEras(36, MAX_HALVINGS);
  }

  // ----- the tail is not a floor

  lemma {:induction false} HalvedMonotone(s: nat, j: nat, k: nat)
    requires j <= k
    ensures Halved(s, k) <= Halved(s, j)
  {
    if j < k {
      HalvedMonotone(s, j, k - 1);
    }
  }

  /** The subsidy is below the tail subsidy from the fifth halving until the
      sixty-fourth, and for the last thirty of those eras it is zero. */
  lemma BelowTailIff(height: nat)
    ensures Subsidy(height) < TAIL_SUBSIDY <==> 5 * HALVING_INTERVAL <= height < TAIL_HEIGHT
    ensures Subsidy(height) == 0 <==> 34 * HALVING_INTERVAL <= height < TAIL_HEIGHT
  {
    var k := height / HALVING_INTERVAL;
    EraTable();
    assert Halved(INITIAL_SUBSIDY, 5) == 312_500_000;
    assert Halved(INITIAL_SUBSIDY, 33) == 1;
    if k < MAX_HALVINGS {
      if k <= 33 {
        HalvedMonotone(INITIAL_SUBSIDY, k, 33);
      } else {
        EmptyEra(k);
      }
      if k <= 4 {
        HalvedMonotone(INITIAL_SUBSIDY, k, 4);
      } else {
        HalvedMonotone(INITIAL_SUBSIDY, 5, k);
      }
    }
  }

  // ----- the supply loops

  /** The checked 64-bit loop fails exactly when the emission does not fit. */
  method SupplyChecked(bestHeight: nat) returns (r: Result<nat>)
    ensures r == if Emitted(bestHeight + 1) < U64_BOUND then Ok(Emitted(bestHeight + 1)) else Err(ValueOverflow)
    ensures bestHeight < U32_BOUND ==> r == Ok(Emitted(bestHeight + 1))
  {
    FitsU64(bestHeight);
    var supply := 0;
    for h := 0 to bestHeight + 1
      invariant supply == Emitted(h) < U64_BOUND
    {
      var sum := CheckedAdd(supply, Subsidy(h));
      if sum.None? {
        EmissionMonotone(h + 1, bestHeight + 1);
        return Err(ValueOverflow);
      }
      supply := sum.value;
    }
    return Ok(supply);
  }

  /** The 128-bit loop wraps silently, and agrees for every height that fits
      the stored 32-bit field. */
  method SupplyWrapping(bestHeight: nat) returns (supply: nat)
    ensures supply == Emitted(bestHeight + 1) % U128_BOUND
    ensures bestHeight < U32_BOUND ==> supply == Emitted(bestHeight + 1)
  {
    supply := 0;
    for h := 0 to bestHeight + 1
      invariant supply == Emitted(h) % U128_BOUND
    {
      WrapOnce(Emitted(h), Subsidy(h));
      supply := (supply + Subsidy(h)) % U128_BOUND;
    }
    FitsU64(bestHeight);
  }

  lemma FitsU64(bestHeight: nat)
    ensures bestHeight < U32_BOUND ==> Emitted(bestHeight + 1) < U64_BOUND
  {
    EmissionBound(bestHeight + 1);
  }

  lemma WrapOnce(a: nat, b: nat)
    ensures (a % U128_BOUND + b) % U128_BOUND == (a + b) % U128_BOUND
  {
  }

  lemma {:induction false} EmissionMonotone(m: nat, n: nat)
    requires m <= n
    ensures Emitted(m) <= Emitted(n)
  {
    if m < n {
      EmissionMonotone(m, n - 1);
    }
  }
}

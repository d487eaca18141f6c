/** The difficulty rule: which bits the next block must carry, and what every
    chain that follows the rule from genesis can rely on. */
module Retarget {
  import opened Basics
  import opened Compact
  import opened MedianTime

  const ADJUST_INTERVAL: nat := 2016
  const EXPECTED_TIME: nat := 60 * 2016
  const TWO_POW_32: nat := 0x1_0000_0000

  ghost const GENESIS_TARGET: nat := ShiftLeft(0xffff, 26)
  ghost const TWO_POW_256: nat := Pow256(32)

  function Timestamps(chain: seq<Header>): (times: seq<nat>)
    ensures |times| == |chain|
    ensures forall i :: 0 <= i < |chain| ==> times[i] == chain[i].timestamp
  {
    seq(|chain|, i requires 0 <= i < |chain| => chain[i].timestamp)
  }

  /** Seconds over the last interval as a wrapping 32-bit difference, kept
      between a quarter and four times the expected time. */
  function ActualTime(chain: seq<Header>): (t: nat)
    requires |chain| >= ADJUST_INTERVAL
    ensures EXPECTED_TIME / 4 <= t <= EXPECTED_TIME * 4
  {
    var elapsed := (chain[|chain| - 1].timestamp - chain[|chain| - ADJUST_INTERVAL].timestamp) % U32_BOUND;
    Max(EXPECTED_TIME / 4, Min(elapsed, EXPECTED_TIME * 4))
  }

  /** The last block does not even exceed the median of its own window. */
  predicate Lagging(chain: seq<Header>)
    requires chain != []
  {
    chain[|chain| - 1].timestamp <= Median(Window(Timestamps(chain)))
  }

  /** The rule without the two redundant clamps. */
  ghost function NextTarget(prev: nat, actual: nat, lagging: bool): nat {
    if lagging then prev else Min(prev * actual / EXPECTED_TIME, GENESIS_TARGET)
  }

  ghost function NextBits(chain: seq<Header>): Result<nat>
    requires chain != []
  {
    var last := chain[|chain| - 1].bits;
    if |chain| % ADJUST_INTERVAL != 0 then Ok(last)
    else match Decode(last)
      case Err(e) => Err(e)
      case Ok(prev) => Ok(Encode(NextTarget(prev, ActualTime(chain), Lagging(chain))))
  }

  /** The four-fold clamps around the division never change its result. */
  lemma ClampsAreRedundant(prev: nat, actual: nat)
    requires EXPECTED_TIME / 4 <= actual <= EXPECTED_TIME * 4
    ensures prev / 4 <= prev * actual / EXPECTED_TIME <= prev * 4
  {
    ProductKeepsOrder(prev, EXPECTED_TIME / 4, actual);
    ProductKeepsOrder(prev, actual, EXPECTED_TIME * 4);
    ScaledBounds(prev, prev * actual);
  }

  lemma ProductKeepsOrder(x: nat, a: nat, b: nat)
    requires a <= b
    ensures x * a <= x * b
  {
  }

  lemma ScaledBounds(prev: nat, scaled: nat)
    requires prev * (EXPECTED_TIME / 4) <= scaled <= prev * (EXPECTED_TIME * 4)
    ensures prev / 4 <= scaled / EXPECTED_TIME <= prev * 4
  {
  }

  method CalculateNextBits(chain: seq<Header>) returns (r: Result<nat>)
    requires chain != []
    ensures r == NextBits(chain)
  {
    var height := |chain|;
    if height % ADJUST_INTERVAL != 0 {
      return Ok(chain[height - 1].bits);
    }
    IntervalReached(height);
    var start, end := chain[height - ADJUST_INTERVAL], chain[height - 1];
    var actual := (end.timestamp - start.timestamp) % U32_BOUND;
    actual := Max(EXPECTED_TIME / 4, Min(actual, EXPECTED_TIME * 4));
    assert actual == ActualTime(chain);
    var decoded := CompactToTarget(end.bits);
    if decoded.Err? {
      return Err(decoded.error);
    }
    var median := Median(Window(Timestamps(chain)));
    var target := AdjustedTarget(decoded.value, actual, end.timestamp <= median);
    assert target == NextTarget(decoded.value, ActualTime(chain), Lagging(chain));
    var bits := TargetToCompact(target);
    return Ok(bits);
  }

  /** The arithmetic of the adjustment, clamps included. */
  method AdjustedTarget(prev: nat, actual: nat, lagging: bool) returns (target: nat)
    requires EXPECTED_TIME / 4 <= actual <= EXPECTED_TIME * 4
    ensures target == NextTarget(prev, actual, lagging)
  {
    var high, low, limit := prev * 4, prev / 4, ShiftLeft(0xffff, 26);
    target := prev * actual / EXPECTED_TIME;
    if target > high {
      target := high;
    }
    if target < low {
      target := low;
    }
    if target > limit {
      target := limit;
    }
    if lagging {
      target := prev;
    }
    ClampsAreRedundant(prev, actual);
  }

  // ----- one retarget

  lemma GenesisTargetSize()
    ensures ByteLength(GENESIS_TARGET) == 28
    ensures Decode(DEFAULT_BITS) == Ok(GENESIS_TARGET)
    ensures 1 <= GENESIS_TARGET < Pow256(28)
  {
    GenesisBitsNotCanonical();
    CappedMantissa(26);
    ThreeBytes(GENESIS_TARGET);
    ByteLengthBound(GENESIS_TARGET, 28);
  }

  /** Whatever the timestamps, the next target stays between 1 and the genesis
      target. */
  lemma NextTargetInRange(prev: nat, actual: nat, lagging: bool)
    requires 1 <= prev <= GENESIS_TARGET
    requires EXPECTED_TIME / 4 <= actual <= EXPECTED_TIME * 4
    ensures var t := NextTarget(prev, actual, lagging);
            && Decode(Encode(t)) == Ok(if t == 0 then GENESIS_TARGET else Truncate(t))
            && 1 <= Decode(Encode(t)).value <= GENESIS_TARGET
            && Encode(t) < U32_BOUND
  {
    GenesisTargetSize();
    var t := NextTarget(prev, actual, lagging);
    if t > 0 {
      ByteLengthMonotone(t, GENESIS_TARGET);
      DecodeEncode(t);
      TruncateLoss(t);
    }
  }

  /** From an old target of at least 4, one retarget stays within a factor of
      four upwards and, up to the encoding's rounding, downwards. */
  lemma RetargetBounds(prev: nat, actual: nat, lagging: bool)
    requires 4 <= prev <= GENESIS_TARGET
    requires EXPECTED_TIME / 4 <= actual <= EXPECTED_TIME * 4
    ensures var d := Decode(Encode(NextTarget(prev, actual, lagging)));
            d.Ok? && d.value <= 4 * prev && 0x1_0000 * d.value > 32767 * (prev / 4)
  {
    ClampsAreRedundant(prev, actual);
    NextTargetInRange(prev, actual, lagging);
    TruncateLoss(NextTarget(prev, actual, lagging));
  }

  /** The fourfold ceiling fails exactly when the division rounds down to zero:
      zero has no encoding of its own and falls back to the genesis bits. */
  lemma CeilingBrokenIff(prev: nat, actual: nat, lagging: bool)
    requires 1 <= prev <= GENESIS_TARGET
    requires EXPECTED_TIME / 4 <= actual <= EXPECTED_TIME * 4
    ensures var d := Decode(Encode(NextTarget(prev, actual, lagging)));
            d.Ok? && (d.value > 4 * prev <==> !lagging && prev * actual < EXPECTED_TIME)
  {
    NextTargetInRange(prev, actual, lagging);
    BigGenesisTarget();
    var t := NextTarget(prev, actual, lagging);
    var d := Decode(Encode(t)).value;
    RoundsToZero(prev, actual, lagging);
    if t > 0 {
      TruncateLoss(t);
      assert d <= t <= 4 * prev;
    } else {
      assert d == GENESIS_TARGET && prev < 4;
    }
  }

  lemma RoundsToZero(prev: nat, actual: nat, lagging: bool)
    requires 1 <= prev <= GENESIS_TARGET
    requires EXPECTED_TIME / 4 <= actual <= EXPECTED_TIME * 4
    ensures NextTarget(prev, actual, lagging) == 0 <==> !lagging && prev * actual < EXPECTED_TIME
    ensures NextTarget(prev, actual, lagging) == 0 ==> prev < 4
    ensures NextTarget(prev, actual, lagging) <= 4 * prev
  {
    ClampsAreRedundant(prev, actual);
  }

  lemma BigGenesisTarget()
    ensures GENESIS_TARGET > 16
  {
    GenesisTargetSize();
    ThreeBytes(16);
    if GENESIS_TARGET <= 16 {
      ByteLengthMonotone(GENESIS_TARGET, 16);
    }
  }

  /** A target of 1 retargeted after a fast interval jumps to the genesis
      target. */
  lemma CeilingBreaks()
    ensures Decode(Encode(NextTarget(1, EXPECTED_TIME / 4, false))).Ok?
    ensures Decode(Encode(NextTarget(1, EXPECTED_TIME / 4, false))).value > 4 * 1
  {
    BigGenesisTarget();
    CeilingBrokenIff(1, EXPECTED_TIME / 4, false);
  }

  // ----- the rule on the chain's own timestamps

  /** A retarget is due: the last bits decode to `prev`, and `seconds` lie between
      the first and the last block of the interval. Timestamps are 32-bit. */
  ghost predicate Due(chain: seq<Header>, prev: nat, seconds: int) {
    && |chain| >= ADJUST_INTERVAL && |chain| % ADJUST_INTERVAL == 0
    && Decode(chain[|chain| - 1].bits) == Ok(prev)
    && seconds == chain[|chain| - 1].timestamp - chain[|chain| - 2016].timestamp
    && -U32_BOUND < seconds < U32_BOUND
  }

  lemma NextBitsDue(chain: seq<Header>, prev: nat, seconds: int)
    requires Due(chain, prev, seconds)
    ensures NextBits(chain) == Ok(Encode(NextTarget(prev, ActualTime(chain), Lagging(chain))))
  {
    hide Lagging, Encode, Decode, ActualTime, NextTarget;
  }

  /** Unless the last block lags, the target is scaled by the seconds of the interval
      to the expected 120960, up to the genesis target. */
  lemma RetargetScales(chain: seq<Header>, prev: nat, seconds: nat, t: nat)
    requires Due(chain, prev, seconds) && !Lagging(chain) && 30240 <= seconds <= 483840
    requires t * 120960 <= prev * seconds < (t + 1) * 120960
    ensures NextBits(chain) == Ok(Encode(Min(t, GENESIS_TARGET)))
  {
    hide NextBits, Due, Lagging, Encode, Decode, ActualTime;
    NextBitsDue(chain, prev, seconds);
    RetargetSeconds(chain, prev, seconds);
  }

  /** Below a quarter of the expected time and above four times of it the answer no
      longer changes. An interval that runs backwards counts as the slowest one, unless
      its wrapped length is short enough. */
  lemma RetargetSaturates(chain: seq<Header>, prev: nat, seconds: int)
    requires Due(chain, prev, seconds) && !Lagging(chain)
    ensures 0 <= seconds <= 30240 ==> NextBits(chain) == Ok(Encode(Min(prev / 4, GENESIS_TARGET)))
    ensures 483840 <= seconds || -(U32_BOUND - 483840) <= seconds < 0 ==>
              NextBits(chain) == Ok(Encode(Min(prev * 4, GENESIS_TARGET)))
  {
    hide NextBits, Due, Lagging, Encode, Decode, ActualTime, NextTarget;
    NextBitsDue(chain, prev, seconds);
    RetargetSeconds(chain, prev, seconds);
    SaturatedTargets(prev);
  }

  lemma SaturatedTargets(prev: nat)
    ensures NextTarget(prev, 30240, false) == Min(prev / 4, GENESIS_TARGET)
    ensures NextTarget(prev, 483840, false) == Min(prev * 4, GENESIS_TARGET)
  {
    QuarterAndFourfold(prev);
  }

  /** The seconds as they are counted. */
  lemma RetargetSeconds(chain: seq<Header>, prev: nat, seconds: int)
    requires Due(chain, prev, seconds)
    ensures ActualTime(chain)
            == if seconds < 0 then Min(Max(30240, seconds + U32_BOUND), 483840) else Min(Max(30240, seconds), 483840)
  {
    hide Decode;
    WrappedSeconds(seconds);
  }

  lemma WrappedSeconds(seconds: int)
    requires -U32_BOUND < seconds < U32_BOUND
    ensures seconds % U32_BOUND == if seconds < 0 then seconds + U32_BOUND else seconds
  {
  }

  lemma QuarterAndFourfold(prev: nat)
    ensures prev * 30240 / 120960 == prev / 4
    ensures prev * 120960 / 120960 == prev
    ensures prev * 483840 / 120960 == prev * 4
  {
    assert prev == 4 * (prev / 4) + prev % 4;
  }

  /** An interval of exactly the expected length keeps the target. */
  lemma OnTimeKeepsTarget(chain: seq<Header>, prev: nat)
    requires Due(chain, prev, 120960) && prev <= GENESIS_TARGET
    ensures NextBits(chain) == Ok(Encode(prev))
  {
    hide Encode, Decode, Lagging;
    QuarterAndFourfold(prev);
  }

  /** The last block lags exactly when at least six of the last eleven timestamps,
      its own among them, reach its timestamp; then the target is kept. */
  lemma LaggingKeepsTarget(chain: seq<Header>, prev: nat, seconds: int)
    requires Due(chain, prev, seconds)
    ensures Lagging(chain)
            <==> CountAtLeast(Timestamps(chain)[|chain| - 11..], chain[|chain| - 1].timestamp) >= 6
    ensures Lagging(chain) ==> NextBits(chain) == Ok(Encode(prev))
  {
    hide Encode, Decode, CountAtLeast, Median;
    var times := Timestamps(chain);
    assert Window(times) == times[|chain| - 11..];
    MedianReaches(Window(times), chain[|chain| - 1].timestamp);
  }

  ghost predicate Timely(chain: seq<Header>, prev: nat, seconds: int) {
    Due(chain, prev, seconds) && seconds >= 0 && !Lagging(chain)
  }

  /** From equal bits a longer interval never gives a smaller target, with one
      exception: the shorter one scales the target to zero, which stands for the
      genesis target, and the longer one does not. */
  lemma SlowerIsEasierIff(a: seq<Header>, b: seq<Header>, prev: nat, s: nat, t: nat)
    requires Timely(a, prev, s) && Timely(b, prev, t) && s <= t && 1 <= prev <= GENESIS_TARGET
    ensures NextBits(a).Ok? && NextBits(b).Ok?
    ensures var x, y := Decode(NextBits(a).value), Decode(NextBits(b).value);
            && x.Ok? && y.Ok?
            && (x.value <= y.value <==> !(prev * Max(30240, s) < 120960 <= prev * Max(30240, t)))
  {
    var s', t' := ActualTime(a), ActualTime(b);
    NextBitsDue(a, prev, s);
    NextBitsDue(b, prev, t);
    RetargetSeconds(a, prev, s);
    RetargetSeconds(b, prev, t);
    hide NextBits, Due, Timely, Encode, Decode, ActualTime;
    ScaledOrder(prev, s', t');
    ScaledOrder(prev, Max(30240, s), Max(30240, t));
    SmallSeconds(prev, Max(30240, s), s');
    SmallSeconds(prev, Max(30240, t), t');
    EasierIff(prev, s', t');
  }

  /** From a target of 1, the fastest interval gives an easier target than one on time. */
  lemma FasterIsEasier(a: seq<Header>, b: seq<Header>)
    requires Timely(a, 1, 30240) && Timely(b, 1, 120960)
    ensures NextBits(a).Ok? && NextBits(b).Ok?
    ensures var x, y := Decode(NextBits(a).value), Decode(NextBits(b).value); x.Ok? && y.Ok? && x.value > y.value
  {
    hide Timely, NextBits, Decode;
    BigGenesisTarget();
    SlowerIsEasierIff(a, b, 1, 30240, 120960);
  }

  lemma SmallSeconds(prev: nat, x: nat, y: nat)
    requires prev >= 1 && x >= 30240 && y == Min(x, 483840)
    ensures prev * x < 120960 <==> prev * y < 120960
  {
    ProductKeepsOrder(prev, y, x);
    if prev * x >= 120960 && y != x {
      assert prev * y >= y;
    }
  }

  lemma ScaledOrder(prev: nat, s: nat, t: nat)
    requires s <= t
    ensures prev * s / EXPECTED_TIME <= prev * t / EXPECTED_TIME
  {
    ProductKeepsOrder(prev, s, t);
  }

  lemma EasierIff(prev: nat, s: nat, t: nat)
    requires 1 <= prev <= GENESIS_TARGET && EXPECTED_TIME / 4 <= s <= t <= EXPECTED_TIME * 4
    ensures var x, y := Decode(Encode(NextTarget(prev, s, false))), Decode(Encode(NextTarget(prev, t, false)));
            x.Ok? && y.Ok? && (x.value <= y.value <==> !(prev * s < EXPECTED_TIME <= prev * t))
  {
    hide Encode, Decode;
    NextTargetInRange(prev, s, false);
    NextTargetInRange(prev, t, false);
    RoundsToZero(prev, s, false);
    RoundsToZero(prev, t, false);
    BigGenesisTarget();
    ScaledOrder(prev, s, t);
    ProductKeepsOrder(prev, s, t);
    var x, y := NextTarget(prev, s, false), NextTarget(prev, t, false);
    if x > 0 {
      TruncateMonotone(x, y);
    } else if y > 0 {
      TruncateLoss(y);
    }
  }

  // ----- whole chains

  /** The block at height `i` carries the bits the rule asks for. */
  ghost predicate BitsRuleAt(chain: seq<Header>, i: nat)
    requires i < |chain|
  {
    if i == 0 then chain[0].bits == DEFAULT_BITS else NextBits(chain[..i]) == Ok(chain[i].bits)
  }

  ghost predicate ObeysBitsRule(chain: seq<Header>) {
    forall i :: 0 <= i < |chain| ==> BitsRuleAt(chain, i)
  }

  ghost predicate TargetInRange(bits: nat) {
    && bits < U32_BOUND
    && Decode(bits).Ok?
    && 1 <= Decode(bits).value <= GENESIS_TARGET
  }

  /** Bits change at multiples of 2016 only. */
  lemma {:induction false} BitsWithinInterval(chain: seq<Header>, i: nat, j: nat)
    requires ObeysBitsRule(chain) && i <= j < |chain| && i / 2016 == j / 2016
    ensures chain[i].bits == chain[j].bits
  {
    if i < j {
      assert BitsRuleAt(chain, j);
      assert chain[..j][j - 1] == chain[j - 1];
      InsideInterval(i, j);
      BitsWithinInterval(chain, i, j - 1);
    }
  }

  lemma InsideInterval(i: nat, j: nat)
    requires i < j && i / 2016 == j / 2016
    ensures j % 2016 != 0 && i / 2016 == (j - 1) / 2016
  {
  }

  /** The expected number of hashes below a target. */
  ghost function Work(target: nat): nat {
    TWO_POW_256 / (target + 1)
  }

  /** The work of one block. */
  ghost function BlockWork(bits: nat): nat
    requires Decode(bits).Ok?
  {
    Work(Decode(bits).value)
  }

  /** The work is the quotient of 2^256 by the target plus one, rounded down. */
  lemma WorkBracket(target: nat)
    ensures Work(target) * (target + 1) <= TWO_POW_256 < (Work(target) + 1) * (target + 1)
  {
    Quotient(TWO_POW_256, target + 1);
  }

  lemma Quotient(a: nat, b: nat)
    requires b > 0
    ensures a / b * b <= a < (a / b + 1) * b
  {
  }

  /** A smaller target never has less work, and one half as large has at least twice
      the work. */
  lemma WorkOfSmaller(s: nat, t: nat)
    requires s <= t
    ensures Work(s) >= Work(t)
    ensures 2 * (s + 1) <= t + 1 ==> Work(s) >= 2 * Work(t)
  {
    hide Work, TWO_POW_256;
    WorkBracket(s);
    WorkBracket(t);
    var w := Work(t);
    ProductKeepsOrder(w, s + 1, t + 1);
    Commute(w, s + 1);
    AtLeastQuotient(s, w);
    if 2 * (s + 1) <= t + 1 {
      ProductKeepsOrder(w, 2 * (s + 1), t + 1);
      DoubleProduct(w, s + 1);
      AtLeastQuotient(s, 2 * w);
    }
  }

  lemma Commute(a: nat, b: nat)
    ensures a * b == b * a
  {
  }

  lemma DoubleProduct(w: nat, b: nat)
    ensures w * (2 * b) == 2 * w * b == b * (2 * w)
  {
  }

  lemma AtLeastQuotient(target: nat, c: nat)
    requires (target + 1) * c <= TWO_POW_256
    ensures Work(target) >= c
  {
    hide TWO_POW_256;
    QuotientAtLeast(TWO_POW_256, target + 1, c);
  }

  lemma WorkOfTarget(target: nat)
    requires target < Pow256(28)
    ensures Work(target) >= TWO_POW_32
  {
    var p := Pow256(28);
    assert TWO_POW_256 == TWO_POW_32 * p by {
      assert ShiftLeft(1, 29) == 256 * ShiftLeft(1, 28);
      assert ShiftLeft(1, 30) == 256 * ShiftLeft(1, 29);
      assert ShiftLeft(1, 31) == 256 * ShiftLeft(1, 30);
      assert ShiftLeft(1, 32) == 256 * ShiftLeft(1, 31);
    }
    QuotientAtLeast(TWO_POW_256, target + 1, TWO_POW_32);
  }

  lemma FactorLess(x: nat, y: nat, b: nat)
    requires b * x < b * y
    ensures x < y
  {
  }

  lemma QuotientAtLeast(a: nat, b: nat, c: nat)
    requires b > 0 && b * c <= a
    ensures a / b >= c
  {
    var q := a / b;
    assert b * c <= a < b * (q + 1);
    FactorLess(c, q + 1, b);
  }

  lemma IntervalReached(n: nat)
    requires n > 0 && n % ADJUST_INTERVAL == 0
    ensures n >= ADJUST_INTERVAL
  {
  }

  lemma NextBitsInRange(chain: seq<Header>)
    requires chain != [] && TargetInRange(chain[|chain| - 1].bits)
    ensures NextBits(chain).Ok? && TargetInRange(NextBits(chain).value)
  {
    if |chain| % ADJUST_INTERVAL == 0 {
      IntervalReached(|chain|);
      NextTargetInRange(Decode(chain[|chain| - 1].bits).value, ActualTime(chain), Lagging(chain));
    }
  }

  lemma WorkInRange(bits: nat)
    requires TargetInRange(bits)
    ensures BlockWork(bits) >= TWO_POW_32
  {
    GenesisTargetSize();
    WorkOfTarget(Decode(bits).value);
  }

  /** On every chain that obeys the bits rule from genesis, every block's bits
      decode, to a target between 1 and the genesis target, and every block
      counts for at least 2^32 hashes. */
  lemma {:induction false} TargetsInRange(chain: seq<Header>, i: nat)
    requires ObeysBitsRule(chain) && i < |chain|
    ensures TargetInRange(chain[i].bits)
    ensures BlockWork(chain[i].bits) >= TWO_POW_32
  {
    assert BitsRuleAt(chain, i);
    if i == 0 {
      GenesisTargetSize();
    } else {
      TargetsInRange(chain, i - 1);
      var before := chain[..i];
      assert before[i - 1] == chain[i - 1];
      NextBitsInRange(before);
    }
    WorkInRange(chain[i].bits);
  }
}

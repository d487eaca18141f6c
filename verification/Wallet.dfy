/** Building a payment: which coins are spent, what fee is paid, and how much
    change is left. All sums are 64-bit and wrap around. */
module Wallet {
  import opened Basics

  const RESERVE: nat := 100_000
  const DUST: nat := 1000
  const OVERHEAD: nat := 26
  const INPUT_SIZE: nat := 106
  const OUTPUT_SIZE: nat := 34
  const MAX_ROUNDS: nat := 20

  datatype Coin = Coin(prev: Outpoint, value: U64)

  datatype Payment = Payment(inputs: seq<Coin>, amount: U64, change: Option<nat>, fee: nat)

  function Wrap(x: int): (w: nat)
    ensures w < U64_BOUND
  {
    x % U64_BOUND
  }

  function Value(coins: seq<Coin>): nat {
    if coins == [] then 0 else Value(coins[..|coins| - 1]) + coins[|coins| - 1].value
  }

  // ----- largest first

  predicate Descending(coins: seq<Coin>) {
    forall i, j :: 0 <= i < j < |coins| ==> coins[i].value >= coins[j].value
  }

  /** The coins of one value, in their order. */
  function OfValue(coins: seq<Coin>, v: nat): seq<Coin> {
    if coins == [] then [] else (if coins[0].value == v then [coins[0]] else []) + OfValue(coins[1..], v)
  }

  /** The same coins, and those of equal value in the same order. */
  ghost predicate Rearranged(coins: seq<Coin>, sorted: seq<Coin>) {
    multiset(sorted) == multiset(coins) && forall v :: OfValue(sorted, v) == OfValue(coins, v)
  }

  /** Sorts by descending value; equal values keep their order. */
  method SortDescending(coins: seq<Coin>) returns (sorted: seq<Coin>)
    ensures Descending(sorted) && Rearranged(coins, sorted)
  {
    hide Descending, Inserted, Rearranged;
    sorted := [];
    NoCoins();
    for i := 0 to |coins|
      invariant Descending(sorted) && Rearranged(coins[..i], sorted)
    {
      var k := |sorted|;
      while k > 0 && sorted[k - 1].value < coins[i].value
        invariant 0 <= k <= |sorted|
        invariant forall j :: k <= j < |sorted| ==> sorted[j].value < coins[i].value
      {
        k := k - 1;
      }
      InsertedAt(sorted, k, coins[i]);
      InsertedCoins(coins[..i], sorted, k, coins[i]);
      assert coins[..i + 1] == coins[..i] + [coins[i]];
      sorted := Inserted(sorted, k, coins[i]);
    }
    assert coins[..|coins|] == coins;
  }

  lemma NoCoins()
    ensures Descending([]) && Rearranged([], [])
  {
  }

  function Inserted(sorted: seq<Coin>, k: nat, c: Coin): seq<Coin>
    requires k <= |sorted|
  {
    sorted[..k] + [c] + sorted[k..]
  }

  lemma InsertedAt(sorted: seq<Coin>, k: nat, c: Coin)
    requires Descending(sorted) && k <= |sorted|
    requires k > 0 ==> sorted[k - 1].value >= c.value
    requires forall j :: k <= j < |sorted| ==> sorted[j].value < c.value
    ensures Descending(Inserted(sorted, k, c))
  {
    var more := Inserted(sorted, k, c);
    assert forall i :: 0 <= i < k ==> more[i] == sorted[i] && sorted[i].value >= c.value;
    assert more[k] == c;
    assert forall i :: k < i < |more| ==> more[i] == sorted[i - 1];
    forall i, j | 0 <= i < j < |more|
      ensures more[i].value >= more[j].value
    {
    }
  }

  lemma InsertedCoins(coins: seq<Coin>, sorted: seq<Coin>, k: nat, c: Coin)
    requires Rearranged(coins, sorted) && k <= |sorted|
    requires forall j :: k <= j < |sorted| ==> sorted[j].value < c.value
    ensures Rearranged(coins + [c], Inserted(sorted, k, c))
  {
    assert sorted == sorted[..k] + sorted[k..];
    assert multiset(Inserted(sorted, k, c)) == multiset(coins + [c]);
    forall v
      ensures OfValue(Inserted(sorted, k, c), v) == OfValue(coins + [c], v)
    {
      InsertedOfValue(coins, sorted, k, c, v);
    }
  }

  lemma InsertedOfValue(coins: seq<Coin>, sorted: seq<Coin>, k: nat, c: Coin, v: nat)
    requires OfValue(sorted, v) == OfValue(coins, v) && k <= |sorted|
    requires forall j :: k <= j < |sorted| ==> sorted[j].value < c.value
    ensures OfValue(Inserted(sorted, k, c), v) == OfValue(coins + [c], v)
  {
    hide OfValue;
    var left, right := sorted[..k], sorted[k..];
    assert sorted == left + right;
    OfValueConcat(left, right, v);
    OfValueConcat(left + [c], right, v);
    OfValueConcat(left, [c], v);
    OfValueConcat(coins, [c], v);
    if v == c.value {
      NoneOfValue(right, v);
      assert OfValue(left, v) == OfValue(coins, v);
    } else {
      NoneOfValue([c], v);
      assert OfValue(left, v) + [] == OfValue(left, v) && OfValue(coins, v) + [] == OfValue(coins, v);
    }
  }

  lemma {:induction false} OfValueConcat(a: seq<Coin>, b: seq<Coin>, v: nat)
    ensures OfValue(a + b, v) == OfValue(a, v) + OfValue(b, v)
  {
    if a == [] {
      assert a + b == b;
    } else {
      var first := if a[0].value == v then [a[0]] else [];
      assert (a + b)[1..] == a[1..] + b && (a + b)[0] == a[0];
      OfValueConcat(a[1..], b, v);
      Regroup(first, OfValue(a[1..], v), OfValue(b, v));
    }
  }

  lemma Regroup(a: seq<Coin>, b: seq<Coin>, c: seq<Coin>)
    ensures a + (b + c) == (a + b) + c
  {
  }

  lemma {:induction false} NoneOfValue(coins: seq<Coin>, v: nat)
    requires forall j :: 0 <= j < |coins| ==> coins[j].value != v
    ensures OfValue(coins, v) == []
  {
    if coins != [] {
      NoneOfValue(coins[1..], v);
    }
  }

  /** The order is determined by the coins. */
  lemma {:induction false} OneOrder(a: seq<Coin>, b: seq<Coin>)
    requires Descending(a) && Descending(b) && forall v :: OfValue(a, v) == OfValue(b, v)
    ensures a == b
  {
    if a == [] || b == [] {
      assert a != [] ==> OfValue(a, a[0].value) != [];
      assert b != [] ==> OfValue(b, b[0].value) != [];
    } else {
      FirstIsLargest(a, b);
      FirstIsLargest(b, a);
      var v := a[0].value;
      assert OfValue(a, v)[0] == a[0] && OfValue(b, v)[0] == b[0];
      forall w
        ensures OfValue(a[1..], w) == OfValue(b[1..], w)
      {
        var first := if w == v then [a[0]] else [];
        assert OfValue(a, w) == first + OfValue(a[1..], w) && OfValue(b, w) == first + OfValue(b[1..], w);
        assert OfValue(a, w)[|first|..] == OfValue(a[1..], w) && OfValue(b, w)[|first|..] == OfValue(b[1..], w);
      }
      OneOrder(a[1..], b[1..]);
    }
  }

  lemma FirstIsLargest(a: seq<Coin>, b: seq<Coin>)
    requires Descending(a) && a != [] && b != [] && OfValue(a, b[0].value) == OfValue(b, b[0].value)
    ensures a[0].value >= b[0].value
  {
    if a[0].value < b[0].value {
      NoneOfValue(a, b[0].value);
    }
  }

  /** Takes coins from the front until the sum reaches the target. */
  method SelectCoins(sorted: seq<Coin>, target: U64) returns (n: nat, sum: nat)
    ensures Selected(sorted, target, n) && sum == Wrap(Value(sorted[..n]))
  {
    hide Value, Wrap;
    n, sum := 0, 0;
    NoValue(sorted);
    while n < |sorted|
      invariant 0 <= n <= |sorted| && sum == Wrap(Value(sorted[..n]))
      invariant forall i :: 0 < i <= n ==> Wrap(Value(sorted[..i])) < target
    {
      ValueNext(sorted, n);
      WrapStep(Value(sorted[..n]), sorted[n].value);
      sum := Wrap(sum + sorted[n].value);
      n := n + 1;
      if sum >= target {
        return;
      }
    }
  }

  lemma NoValue(coins: seq<Coin>)
    ensures Wrap(Value(coins[..0])) == 0
  {
  }

  lemma WrapStep(a: nat, b: nat)
    ensures Wrap(Wrap(a) + b) == Wrap(a + b)
  {
  }

  ghost predicate Selected(sorted: seq<Coin>, target: nat, n: nat) {
    && n <= |sorted|
    && (forall i :: 0 < i < n ==> Wrap(Value(sorted[..i])) < target)
    && (n == |sorted| || Stopped(sorted, target, n))
  }

  /** The selection ended because the target was reached. */
  ghost predicate Stopped(sorted: seq<Coin>, target: nat, n: nat)
    requires n <= |sorted|
  {
    n > 0 && Wrap(Value(sorted[..n])) >= target
  }

  lemma ValueNext(coins: seq<Coin>, n: nat)
    requires n < |coins|
    ensures Value(coins[..n + 1]) == Value(coins[..n]) + coins[n].value
  {
    assert coins[..n + 1][..n] == coins[..n];
  }

  // ----- no smaller set of coins reaches the target

  /** The value of the coins at the positions in `picks`, among the first `n`. */
  function ValueAt(coins: seq<Coin>, picks: set<nat>, n: nat): nat
    requires n <= |coins|
  {
    if n == 0 then 0 else ValueAt(coins, picks, n - 1) + if n - 1 in picks then coins[n - 1].value else 0
  }

  function CountAt(picks: set<nat>, n: nat): (c: nat)
    ensures c <= n
  {
    if n == 0 then 0 else CountAt(picks, n - 1) + if n - 1 in picks then 1 else 0
  }

  /** As many coins from the front are worth at least as much. */
  lemma {:induction false} FrontIsLargest(coins: seq<Coin>, picks: set<nat>, n: nat)
    requires Descending(coins) && n <= |coins|
    ensures ValueAt(coins, picks, n) <= Value(coins[..CountAt(picks, n)])
  {
    if n > 0 {
      FrontIsLargest(coins, picks, n - 1);
      if n - 1 in picks {
        ValueNext(coins, CountAt(picks, n - 1));
      }
    }
  }

  lemma {:induction false} CountIsSize(picks: set<nat>, n: nat)
    requires forall p :: p in picks ==> p < n
    ensures CountAt(picks, n) == |picks|
  {
    if n == 0 {
      assert picks == {};
    } else {
      var rest := picks - {n - 1};
      CountIsSize(rest, n - 1);
      SameCount(picks, rest, n - 1);
    }
  }

  lemma {:induction false} SameCount(a: set<nat>, b: set<nat>, n: nat)
    requires forall p :: p < n ==> (p in a <==> p in b)
    ensures CountAt(a, n) == CountAt(b, n)
  {
    if n > 0 {
      SameCount(a, b, n - 1);
    }
  }

  lemma {:induction false} ValueMonotone(coins: seq<Coin>, i: nat, j: nat)
    requires i <= j <= |coins|
    ensures Value(coins[..i]) <= Value(coins[..j])
    decreases j
  {
    if i < j {
      ValueMonotone(coins, i, j - 1);
      ValueNext(coins, j - 1);
    }
  }

  ghost predicate TooFew(coins: seq<Coin>, goal: nat, n: nat) {
    forall picks: set<nat> :: (forall p :: p in picks ==> p < |coins|) && |picks| < n ==>
      ValueAt(coins, picks, |coins|) < goal
  }

  function Front(k: nat): (front: set<nat>)
    ensures forall p: nat :: p in front <==> p < k
    ensures |front| == k
  {
    if k == 0 then {} else Front(k - 1) + {k - 1}
  }

  lemma {:induction false} ValueOfFront(coins: seq<Coin>, k: nat, n: nat)
    requires k <= |coins| && n <= |coins|
    ensures ValueAt(coins, Front(k), n) == Value(coins[..Min(k, n)])
    ensures CountAt(Front(k), n) == Min(k, n)
  {
    if n > 0 {
      ValueOfFront(coins, k, n - 1);
      if n <= k {
        ValueNext(coins, n - 1);
      }
    }
  }

  /** Coins below the target never wrap before the target is reached. */
  lemma {:induction false} SmallSums(sorted: seq<Coin>, target: nat, n: nat, i: nat)
    requires Descending(sorted) && Selected(sorted, target, n) && target <= RESERVE && 0 < i < n
    ensures Value(sorted[..i]) < target
  {
    ValueNext(sorted, i - 1);
    assert sorted[..0] == [];
    if i > 1 {
      SmallSums(sorted, target, n, i - 1);
      SmallSums(sorted, target, n, 1);
      ValueNext(sorted, 0);
    }
    assert Wrap(Value(sorted[..i])) < target;
  }

  /** A sum that has wrapped had already done so one coin earlier, with a target
      that fits 64 bits. */
  lemma WrappedEarlier(sorted: seq<Coin>, goal: nat, n: nat)
    requires Descending(sorted) && Selected(sorted, Wrap(goal), n) && Stopped(sorted, Wrap(goal), n)
    requires goal < U64_BOUND + RESERVE && Value(sorted[..n]) >= U64_BOUND
    ensures Value(sorted[..n - 1]) >= goal
  {
    ValueNext(sorted, n - 1);
    assert sorted[..0] == [];
    var before := Value(sorted[..n - 1]);
    assert n > 1;
    WrapsAgain(before, sorted[n - 1].value, Wrap(goal));
    if goal >= U64_BOUND {
      SmallSums(sorted, Wrap(goal), n, n - 1);
    }
  }

  /** The addition that wraps leaves less than there was. */
  lemma WrapsAgain(before: nat, value: U64, target: nat)
    requires Wrap(before) < target <= Wrap(before + value) && before + value >= U64_BOUND
    ensures before >= U64_BOUND
  {
  }

  /** When the selection stopped early, no smaller set of coins reaches the
      amount and the reserve, exactly when the selected value fits 64 bits. */
  lemma FewestCoinsIff(sorted: seq<Coin>, amount: U64, n: nat)
    requires Descending(sorted)
    requires n <= |sorted| && Selected(sorted, Wrap(amount + RESERVE), n)
    requires Stopped(sorted, Wrap(amount + RESERVE), n)
    ensures TooFew(sorted, amount + RESERVE, n) <==> Value(sorted[..n]) < U64_BOUND
  {
    hide Descending, Selected, Value;
    var goal, m := amount + RESERVE, |sorted|;
    if Value(sorted[..n]) < U64_BOUND {
      forall picks: set<nat> | (forall p :: p in picks ==> p < m) && |picks| < n
        ensures ValueAt(sorted, picks, m) < goal
      {
        FrontIsLargest(sorted, picks, m);
        CountIsSize(picks, m);
        FrontTooFew(sorted, goal, n, |picks|);
      }
    } else {
      WrappedEarlier(sorted, goal, n);
      ValueOfFront(sorted, n - 1, m);
      assert ValueAt(sorted, Front(n - 1), m) >= goal;
    }
  }

  lemma FrontTooFew(sorted: seq<Coin>, goal: nat, n: nat, i: nat)
    requires Selected(sorted, Wrap(goal), n) && i < n && goal > 0
    requires Value(sorted[..n]) < U64_BOUND
    ensures Value(sorted[..i]) < goal
  {
    ValueMonotone(sorted, i, n);
    if i > 0 {
      assert Wrap(Value(sorted[..i])) == Value(sorted[..i]) < Wrap(goal);
    }
  }

  // ----- the fee

  function SignedWord(x: nat): int {
    if x < U64_BOUND / 2 then x else x - U64_BOUND
  }

  /** The wrapping signed difference is below 20 in absolute value; the absolute
      value of the least number is that number itself. */
  predicate Close(a: nat, b: nat) {
    var d := SignedWord(Wrap(a - b));
    d == -(U64_BOUND / 2) || -20 < d < 20
  }

  /** The size first assumed for a payment with `n` inputs. */
  function FirstSize(n: nat): nat {
    n * INPUT_SIZE + OVERHEAD + OUTPUT_SIZE
  }

  function SizeOf(n: nat, outputs: nat): nat {
    OVERHEAD + n * INPUT_SIZE + outputs * OUTPUT_SIZE + n * 4
  }

  function FeeFor(size: nat, feeRate: nat): nat {
    Wrap(size * feeRate)
  }

  /** The size of the payment whose change is left by `fee`. */
  function SizeFor(sum: nat, amount: nat, n: nat, fee: nat): nat {
    SizeOf(n, if Wrap(sum - amount - fee) > DUST then 2 else 1)
  }

  /** The fee for the size that a fee leads to: its change may need an output. */
  function NextFee(sum: nat, amount: nat, feeRate: nat, n: nat, fee: nat): nat {
    FeeFor(SizeFor(sum, amount, n, fee), feeRate)
  }

  function FeeAfter(sum: nat, amount: nat, feeRate: nat, n: nat, fee: nat, rounds: nat): nat
    decreases n + rounds
  {
    if rounds == 0 then fee else
      var next := NextFee(sum, amount, feeRate, n, fee);
      if Close(next, fee) then fee else FeeAfter(sum, amount, feeRate, n, next, rounds - 1)
  }

  function FinalFee(sum: nat, amount: nat, feeRate: nat, n: nat): nat {
    FeeAfter(sum, amount, feeRate, n, FeeFor(FirstSize(n), feeRate), MAX_ROUNDS)
  }

  /** Repeats the fee estimate until it is nearly stable, twenty times at most. */
  method SettleFee(sum: U64, amount: U64, feeRate: U64, n: nat) returns (fee: nat)
    ensures fee == FinalFee(sum, amount, feeRate, n)
  {
    hide Wrap, Close;
    fee := FeeFor(n * INPUT_SIZE + OVERHEAD + OUTPUT_SIZE, feeRate);
    hide FeeFor;
    for i := 0 to MAX_ROUNDS
      invariant FeeAfter(sum, amount, feeRate, n, fee, MAX_ROUNDS - i) == FinalFee(sum, amount, feeRate, n)
    {
      var change := Wrap(sum - amount - fee);
      var outputs := if change > DUST then 2 else 1;
      var size := OVERHEAD + n * INPUT_SIZE + outputs * OUTPUT_SIZE + n * 4;
      var newFee := FeeFor(size, feeRate);
      if Close(newFee, fee) {
        break;
      }
      fee := newFee;
    }
  }

  predicate OneOf(fee: nat, feeRate: nat, n: nat) {
    fee == FeeFor(SizeOf(n, 1), feeRate) || fee == FeeFor(SizeOf(n, 2), feeRate)
  }

  /** A fee that reproduces itself up to 19 units, or alternates with another one
      for ever. */
  predicate Settled(sum: nat, amount: nat, feeRate: nat, n: nat, fee: nat) {
    var next := NextFee(sum, amount, feeRate, n, fee);
    Close(next, fee) || NextFee(sum, amount, feeRate, n, next) == fee
  }

  /** However many rounds there are, from two on, the final fee is settled and is
      that of one of the three sizes. */
  lemma FeeSettles(sum: nat, amount: nat, feeRate: nat, n: nat, rounds: nat)
    requires rounds >= 2
    ensures var first := FeeFor(FirstSize(n), feeRate);
            var fee := FeeAfter(sum, amount, feeRate, n, first, rounds);
            Settled(sum, amount, feeRate, n, fee) && (fee == first || OneOf(fee, feeRate, n))
  {
    hide FeeFor, Wrap, Close;
    var first := FeeFor(FirstSize(n), feeRate);
    var second := NextFee(sum, amount, feeRate, n, first);
    if !Close(second, first) {
      var third := NextFee(sum, amount, feeRate, n, second);
      if !Close(third, second) {
        FeeAlternates(sum, amount, feeRate, n, second, third, rounds - 2);
      }
    }
  }

  /** From the second round on only two fees are possible. */
  lemma {:induction false} FeeAlternates(sum: nat, amount: nat, feeRate: nat, n: nat, prev: nat, fee: nat, rounds: nat)
    requires OneOf(prev, feeRate, n) && fee == NextFee(sum, amount, feeRate, n, prev) && !Close(fee, prev)
    ensures var final := FeeAfter(sum, amount, feeRate, n, fee, rounds);
            OneOf(final, feeRate, n) && Settled(sum, amount, feeRate, n, final)
    decreases rounds
  {
    hide FeeFor, Wrap, Close;
    SameIsClose(fee);
    var next := NextFee(sum, amount, feeRate, n, fee);
    assert OneOf(fee, feeRate, n) && OneOf(next, feeRate, n);
    if rounds > 0 && !Close(next, fee) {
      FeeAlternates(sum, amount, feeRate, n, fee, next, rounds - 1);
    }
  }

  lemma SameIsClose(fee: nat)
    ensures Close(fee, fee)
  {
  }

  // ----- what twenty rounds come to

  lemma CloseIsSymmetric(a: nat, b: nat)
    ensures Close(a, b) <==> Close(b, a)
  {
    var x, y := Wrap(a - b), Wrap(b - a);
    assert y == if x == 0 then 0 else U64_BOUND - x;
  }

  /** Once two fees alternate, an even number of rounds changes nothing. */
  lemma {:induction false} EvenRounds(sum: nat, amount: nat, feeRate: nat, n: nat, prev: nat, fee: nat, rounds: nat)
    requires OneOf(prev, feeRate, n) && fee == NextFee(sum, amount, feeRate, n, prev) && !Close(fee, prev)
    requires rounds % 2 == 0
    ensures FeeAfter(sum, amount, feeRate, n, fee, rounds) == fee
    decreases rounds
  {
    hide FeeFor, Wrap, Close;
    SameIsClose(fee);
    CloseIsSymmetric(fee, prev);
    var next := NextFee(sum, amount, feeRate, n, fee);
    assert OneOf(fee, feeRate, n) && OneOf(next, feeRate, n);
    if rounds > 0 && !Close(next, fee) {
      assert next == prev;
      EvenRounds(sum, amount, feeRate, n, prev, fee, rounds - 2);
    }
  }

  /** Twenty rounds give what two give: the estimate if the next fee is close to
      it, else that next fee if the one after is close to it, else the one after. */
  lemma FinalFeeIs(sum: nat, amount: nat, feeRate: nat, n: nat)
    ensures var f0 := FeeFor(FirstSize(n), feeRate);
            var f1 := NextFee(sum, amount, feeRate, n, f0);
            var f2 := NextFee(sum, amount, feeRate, n, f1);
            FinalFee(sum, amount, feeRate, n) == if Close(f1, f0) then f0 else if Close(f2, f1) then f1 else f2
  {
    hide FeeFor, Close, Wrap;
    var f0 := FeeFor(FirstSize(n), feeRate);
    var f1 := NextFee(sum, amount, feeRate, n, f0);
    var f2 := NextFee(sum, amount, feeRate, n, f1);
    if !Close(f1, f0) {
      assert FeeAfter(sum, amount, feeRate, n, f0, MAX_ROUNDS) == FeeAfter(sum, amount, feeRate, n, f1, MAX_ROUNDS - 1);
      if !Close(f2, f1) {
        EvenRounds(sum, amount, feeRate, n, f1, f2, MAX_ROUNDS - 2);
      }
    }
  }

  /** The fee of an ordinary payment, without any wrapping: `rest` is what the inputs
      leave above the amount. With more than dust left after a fee for two outputs, that
      is the fee. If even the first estimate leaves no more than dust, the fee is that of
      one output, or the estimate itself while the two are less than 20 apart. In between
      the two fees alternate, and the one for one output stays, whenever it can be paid.
      If the fee reached cannot be paid, it exceeds what is left. */
  lemma OrdinaryFee(sum: nat, amount: nat, feeRate: nat, n: nat, rest: nat)
    requires n >= 1 && feeRate >= 1 && sum == amount + rest && sum < U64_BOUND / 4
    requires (94 + 110 * n) * feeRate < U64_BOUND / 4
    ensures var first, one, two := (60 + 106 * n) * feeRate, (60 + 110 * n) * feeRate, (94 + 110 * n) * feeRate;
            var fee := FinalFee(sum, amount, feeRate, n);
            && (rest > two + 1000 ==> fee == two)
            && (two <= rest <= two + 1000 && rest > first + 1000 ==> fee == one)
            && (first <= rest <= first + 1000 && 4 * n * feeRate < 20 ==> fee == first)
            && (one <= rest <= first + 1000 && 4 * n * feeRate >= 20 ==> fee == one)
            && (rest < first || (rest < one && 4 * n * feeRate >= 20) || (first + 1000 < rest < two) ==> fee > rest)
  {
    FinalFeeIs(sum, amount, feeRate, n);
    FeeSizes(feeRate, n);
    var first, one, two := (60 + 106 * n) * feeRate, (60 + 110 * n) * feeRate, (94 + 110 * n) * feeRate;
    hide FinalFee, FeeFor, SizeOf, FirstSize;
    OrdinaryNext(sum, amount, feeRate, n, first);
    OrdinaryNext(sum, amount, feeRate, n, one);
    OrdinaryNext(sum, amount, feeRate, n, two);
    hide NextFee;
    OrdinaryClose(first, one);
    OrdinaryClose(first, two);
    OrdinaryClose(one, two);
    OrdinaryClose(one, one);
    OrdinaryClose(two, two);
    CloseIsSymmetric(one, two);
    CloseIsSymmetric(first, one);
    CloseIsSymmetric(first, two);
  }

  /** The three fees, and how far they are apart. */
  lemma FeeSizes(feeRate: nat, n: nat)
    requires n >= 1 && feeRate >= 1 && (94 + 110 * n) * feeRate < U64_BOUND / 4
    ensures FeeFor(FirstSize(n), feeRate) == (60 + 106 * n) * feeRate
    ensures FeeFor(SizeOf(n, 1), feeRate) == (60 + 110 * n) * feeRate
    ensures FeeFor(SizeOf(n, 2), feeRate) == (94 + 110 * n) * feeRate
    ensures (60 + 110 * n) * feeRate == (60 + 106 * n) * feeRate + 4 * n * feeRate
    ensures (94 + 110 * n) * feeRate == (60 + 110 * n) * feeRate + 34 * feeRate
    ensures 4 * n * feeRate >= 4
  {
    hide FeeFor;
    Distribute(60 + 106 * n, 4 * n, feeRate);
    Distribute(60 + 110 * n, 34, feeRate);
    ScaledOrder(4, 4 * n, feeRate);
    SmallFee(60 + 106 * n, feeRate);
    SmallFee(60 + 110 * n, feeRate);
    SmallFee(94 + 110 * n, feeRate);
  }

  lemma SmallFee(size: nat, feeRate: nat)
    requires size * feeRate < U64_BOUND
    ensures FeeFor(size, feeRate) == size * feeRate
  {
  }

  /** A fee that can be paid leads to two outputs exactly when it leaves more than dust;
      one that cannot be paid always does. */
  lemma OrdinaryNext(sum: nat, amount: nat, feeRate: nat, n: nat, fee: nat)
    requires amount <= sum < U64_BOUND / 4 && fee < U64_BOUND / 4
    ensures NextFee(sum, amount, feeRate, n, fee)
            == FeeFor(SizeOf(n, if sum - amount >= fee && sum - amount <= fee + 1000 then 1 else 2), feeRate)
  {
    hide FeeFor, SizeOf;
  }

  lemma OrdinaryClose(a: nat, b: nat)
    requires a <= b < U64_BOUND / 4
    ensures Close(a, b) <==> b - a < 20
  {
    hide Wrap;
    WrapOfDifference(a, b);
  }

  lemma WrapOfDifference(a: nat, b: nat)
    requires a <= b < U64_BOUND / 4
    ensures Wrap(a - b) == if a == b then 0 else U64_BOUND - (b - a)
  {
  }

  /** The estimate has room for what a larger size adds to it. */
  predicate RoomFor(feeRate: nat, n: nat, size: nat)
    requires size >= FirstSize(n)
  {
    FeeFor(FirstSize(n), feeRate) + Wrap((size - FirstSize(n)) * feeRate) < U64_BOUND
  }

  /** The final fee is at least the first estimate if and only if the fee for the
      change of the estimate is close to the estimate, or the estimate has room for
      the size of that change, or for the size of the change after it if their fees
      are not close; in particular when the fee of the largest size does not wrap. */
  lemma FeeCoversEstimateIff(sum: nat, amount: nat, feeRate: nat, n: nat)
    ensures var f0 := FeeFor(FirstSize(n), feeRate);
            var size1 := SizeFor(sum, amount, n, f0);
            var f1 := FeeFor(size1, feeRate);
            var size2 := SizeFor(sum, amount, n, f1);
            var f2 := FeeFor(size2, feeRate);
            FinalFee(sum, amount, feeRate, n) >= f0
            <==> Close(f1, f0) || RoomFor(feeRate, n, if Close(f2, f1) then size1 else size2)
    ensures SizeOf(n, 2) * feeRate < U64_BOUND ==>
              FinalFee(sum, amount, feeRate, n) >= FeeFor(FirstSize(n), feeRate)
  {
    FinalFeeIs(sum, amount, feeRate, n);
    hide FinalFee, Wrap, Close;
    var f0 := FeeFor(FirstSize(n), feeRate);
    var size1 := SizeFor(sum, amount, n, f0);
    var size2 := SizeFor(sum, amount, n, FeeFor(size1, feeRate));
    RoomIff(feeRate, n, size1);
    RoomIff(feeRate, n, size2);
  }

  lemma RoomIff(feeRate: nat, n: nat, size: nat)
    requires FirstSize(n) <= size <= SizeOf(n, 2)
    ensures FeeFor(size, feeRate) >= FeeFor(FirstSize(n), feeRate) <==> RoomFor(feeRate, n, size)
    ensures SizeOf(n, 2) * feeRate < U64_BOUND ==> RoomFor(feeRate, n, size)
  {
    hide FirstSize, SizeOf, Wrap;
    var first := FirstSize(n);
    Distribute(first, size - first, feeRate);
    WrapOfSum(first * feeRate, (size - first) * feeRate);
    if SizeOf(n, 2) * feeRate < U64_BOUND {
      ScaledOrder(size, SizeOf(n, 2), feeRate);
    }
  }

  lemma Distribute(a: nat, b: nat, c: nat)
    ensures (a + b) * c == a * c + b * c
  {
  }

  lemma ScaledOrder(a: nat, b: nat, c: nat)
    requires a <= b
    ensures a * c <= b * c
  {
  }

  lemma WrapOfSum(a: nat, b: nat)
    ensures Wrap(a + b) >= Wrap(a) <==> Wrap(a) + Wrap(b) < U64_BOUND
    ensures a + b < U64_BOUND ==> Wrap(a) + Wrap(b) < U64_BOUND
  {
    var w := Wrap(a) + Wrap(b);
    assert Wrap(a + b) == if w < U64_BOUND then w else w - U64_BOUND;
  }

  // ----- the payment

  /** What the payment hands out: the amount and the change. */
  function Paid(p: Payment): nat {
    p.amount + if p.change.Some? then p.change.value else 0
  }

  /** How the change follows from the inputs, the amount and the fee. */
  predicate Balanced(p: Payment, changeAddr: bool) {
    var sum := Wrap(Value(p.inputs));
    var change := Wrap(sum - p.amount - p.fee);
    && p.fee < U64_BOUND
    && sum >= p.amount && sum >= Wrap(p.amount + p.fee)
    && p.change == if change > DUST || changeAddr then Some(change) else None
  }

  /** The inputs are the largest coins, as many as the target takes. */
  ghost predicate LargestFirst(coins: seq<Coin>, target: nat, inputs: seq<Coin>) {
    exists sorted :: SelectedFrom(coins, sorted, target, inputs)
  }

  ghost predicate SelectedFrom(coins: seq<Coin>, sorted: seq<Coin>, target: nat, inputs: seq<Coin>) {
    && Descending(sorted) && Rearranged(coins, sorted)
    && Selected(sorted, target, |inputs|) && inputs == sorted[..|inputs|]
  }

  /** Which coins are spent is determined. */
  lemma InputsAreDetermined(coins: seq<Coin>, target: nat, inputs: seq<Coin>, inputs': seq<Coin>)
    requires LargestFirst(coins, target, inputs) && LargestFirst(coins, target, inputs')
    ensures inputs == inputs'
  {
    hide Descending, Value, Wrap, OfValue;
    var sorted :| SelectedFrom(coins, sorted, target, inputs);
    var sorted' :| SelectedFrom(coins, sorted', target, inputs');
    OneOrder(sorted, sorted');
  }

  /** The inputs cover the amount, and the amount with the fee, in 64-bit
      arithmetic. */
  predicate Affordable(inputs: seq<Coin>, amount: nat, feeRate: nat) {
    var sum := Wrap(Value(inputs));
    sum >= amount && sum >= Wrap(amount + FinalFee(sum, amount, feeRate, |inputs|))
  }

  /** Spends the largest coins first, and fails exactly when they do not cover the
      payment. */
  method CreateTx(coins: seq<Coin>, amount: U64, feeRate: U64, changeAddr: bool) returns (r: Result<Payment>)
    ensures r.Ok? ==> LargestFirst(coins, Wrap(amount + RESERVE), r.value.inputs)
                      && Affordable(r.value.inputs, amount, feeRate)
    ensures r.Ok? ==> r.value.amount == amount && Balanced(r.value, changeAddr)
    ensures r.Ok? ==> var sum := Wrap(Value(r.value.inputs));
                      r.value.fee == FinalFee(sum, amount, feeRate, |r.value.inputs|)
    ensures r.Err? ==> exists inputs :: LargestFirst(coins, Wrap(amount + RESERVE), inputs)
                                        && !Affordable(inputs, amount, feeRate)
  {
    hide FinalFee, Value, Wrap, Descending, Rearranged;
    var sorted := SortDescending(coins);
    var n, sum := SelectCoins(sorted, Wrap(amount + RESERVE));
    var inputs := sorted[..n];
    assert SelectedFrom(coins, sorted, Wrap(amount + RESERVE), inputs);
    assert LargestFirst(coins, Wrap(amount + RESERVE), inputs);
    if sum < amount {
      assert !Affordable(inputs, amount, feeRate);
      return Err(InsufficientFunds);
    }
    var fee := SettleFee(sum, amount, feeRate, n);
    var change := Wrap(sum - amount - fee);
    if sum < Wrap(amount + fee) {
      assert !Affordable(inputs, amount, feeRate);
      return Err(InsufficientFunds);
    }
    var output := if change > DUST || changeAddr then Some(change) else None;
    FeeFits(sum, amount, feeRate, n);
    return Ok(Payment(inputs, amount, output, fee));
  }

  lemma FeeFits(sum: nat, amount: nat, feeRate: nat, n: nat)
    ensures FinalFee(sum, amount, feeRate, n) < U64_BOUND
  {
    hide FeeAfter, Settled;
    FeeSettles(sum, amount, feeRate, n, MAX_ROUNDS);
  }

  /** A payment gives away between its fee and its fee plus the dust limit
      exactly when the input value and the amount with the fee wrap equally
      often; in particular when neither wraps. */
  lemma GivenAwayIff(p: Payment, changeAddr: bool)
    requires Balanced(p, changeAddr)
    ensures p.fee <= Value(p.inputs) - Paid(p) <= p.fee + DUST
            <==> Value(p.inputs) / U64_BOUND == (p.amount + p.fee) / U64_BOUND
    ensures p.change.Some? && Value(p.inputs) / U64_BOUND == (p.amount + p.fee) / U64_BOUND ==>
              Value(p.inputs) - Paid(p) == p.fee
  {
    hide Value;
    Balance(Value(p.inputs), p.amount, p.fee, Paid(p) - p.amount);
  }

  /** The same over plain numbers; `change` is what is handed back. */
  lemma Balance(value: nat, amount: nat, fee: nat, change: nat)
    requires amount < U64_BOUND && fee < U64_BOUND
    requires Wrap(value) >= amount && Wrap(value) >= Wrap(amount + fee)
    requires var due := Wrap(Wrap(value) - amount - fee); change == due || (change == 0 && due <= DUST)
    ensures fee <= value - amount - change <= fee + DUST <==> value / U64_BOUND == (amount + fee) / U64_BOUND
    ensures change == Wrap(Wrap(value) - amount - fee) && value / U64_BOUND == (amount + fee) / U64_BOUND ==>
              value - amount - change == fee
  {
    var k, sum := value / U64_BOUND, Wrap(value);
    assert value == k * U64_BOUND + sum;
    var due := Wrap(sum - amount - fee);
    if amount + fee < U64_BOUND {
      assert due == sum - amount - fee;
    } else {
      assert due == sum - amount - fee + U64_BOUND;
    }
  }

  // ----- calls at which the arithmetic wraps

  const STEEP_RATE: nat := 111124964299455130

  /** One input and a rate whose first estimate just fits: the larger sizes wrap,
      and the final fee is less than a quarter of the estimate. */
  lemma FeeFallsBelowEstimate(prev: Outpoint)
    ensures var inputs := [Coin(prev, U64_BOUND - 1)];
            var fee := FinalFee(Wrap(Value(inputs)), 0, STEEP_RATE, 1);
            Affordable(inputs, 0, STEEP_RATE) && 4 * fee < FeeFor(FirstSize(1), STEEP_RATE)
  {
    hide FinalFee, Value, LargestFirst;
    OneCoin(Coin(prev, U64_BOUND - 1), 0);
    SteepFee();
    SteepFees();
  }

  lemma SteepFees()
    ensures FeeFor(FirstSize(1), STEEP_RATE) == U64_BOUND - 36
    ensures NextFee(U64_BOUND - 1, 0, STEEP_RATE, 1, U64_BOUND - 36) == 444499857197820484
    ensures NextFee(U64_BOUND - 1, 0, STEEP_RATE, 1, 444499857197820484) == 4222748643379294904
    ensures NextFee(U64_BOUND - 1, 0, STEEP_RATE, 1, 4222748643379294904) == 4222748643379294904
  {
  }

  lemma SteepFee()
    ensures FinalFee(U64_BOUND - 1, 0, STEEP_RATE, 1) == 4222748643379294904
  {
    SteepFees();
    assert !Close(444499857197820484, U64_BOUND - 36);
    assert !Close(4222748643379294904, 444499857197820484);
    hide FeeFor, NextFee, Close, FinalFee;
    FinalFeeIs(U64_BOUND - 1, 0, STEEP_RATE, 1);
  }

  /** One coin and an amount of all it is worth, at a fee rate of one: amount and
      fee wrap together, the payment is built, and hands out more than it has. */
  lemma PaysMoreThanItHas(prev: Outpoint)
    ensures var inputs := [Coin(prev, U64_BOUND - 1)];
            var p := Payment(inputs, U64_BOUND - 1, Some(U64_BOUND - 204), 204);
            && LargestFirst(inputs, Wrap(p.amount + RESERVE), inputs)
            && FinalFee(Wrap(Value(inputs)), p.amount, 1, 1) == p.fee
            && Affordable(inputs, p.amount, 1) && Balanced(p, false)
            && Paid(p) > Value(p.inputs)
  {
    hide FinalFee, Value, LargestFirst;
    var coins: seq<Coin> := [Coin(prev, U64_BOUND - 1)];
    OneCoin(coins[0], Wrap(U64_BOUND - 1 + RESERVE));
    FeeOfEverything();
  }

  lemma OneCoin(c: Coin, target: nat)
    ensures Value([c]) == c.value && LargestFirst([c], target, [c])
  {
    hide Wrap, OfValue;
    var coins := [c];
    assert coins[..0] == [] && coins[..1] == coins;
    assert SelectedFrom(coins, coins, target, coins);
  }

  lemma FeeOfEverything()
    ensures FinalFee(U64_BOUND - 1, U64_BOUND - 1, 1, 1) == 204
  {
    var sum := U64_BOUND - 1;
    assert FeeFor(FirstSize(1), 1) == 166;
    assert NextFee(sum, sum, 1, 1, 166) == 204 && NextFee(sum, sum, 1, 1, 204) == 204;
    assert !Close(204, 166);
    assert Close(204, 204);
    hide FeeFor, NextFee, Close, FinalFee;
    FinalFeeIs(sum, sum, 1, 1);
  }

  /** Three equal coins of which two wrap: all three are taken although two are
      worth enough. */
  lemma ThreeWhereTwoSuffice(a: Outpoint, b: Outpoint, c: Outpoint)
    ensures var value: U64 := 5 * (U64_BOUND / 8);
            var amount: U64 := 6 * (U64_BOUND / 8) - RESERVE;
            var coins := [Coin(a, value), Coin(b, value), Coin(c, value)];
            && LargestFirst(coins, Wrap(amount + RESERVE), coins)
            && Stopped(coins, Wrap(amount + RESERVE), 3)
            && Value(coins[..2]) >= amount + RESERVE
  {
    hide Value, Descending, LargestFirst;
    var value: U64, amount: U64 := 5 * (U64_BOUND / 8), 6 * (U64_BOUND / 8) - RESERVE;
    ThreeCoins(Coin(a, value), Coin(b, value), Coin(c, value), value, Wrap(amount + RESERVE));
  }

  lemma ThreeCoins(a: Coin, b: Coin, c: Coin, value: U64, target: nat)
    requires a.value == b.value == c.value == value
    requires value < target && Wrap(2 * value) < target
    ensures Value([a, b, c][..2]) == 2 * value && Value([a, b, c]) == 3 * value
    ensures LargestFirst([a, b, c], target, [a, b, c])
    ensures [a, b, c][..3] == [a, b, c]
  {
    hide Wrap, OfValue;
    var coins := [a, b, c];
    assert coins[..3] == coins && coins[..0] == [];
    ValueNext(coins, 0);
    ValueNext(coins, 1);
    ValueNext(coins, 2);
    WrapsNot(value);
    hide Value;
    assert Selected(coins, target, 3);
    assert SelectedFrom(coins, coins, target, coins);
  }

  lemma WrapsNot(value: U64)
    ensures Wrap(value) == value
  {
  }
}

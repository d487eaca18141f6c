/** What connecting a block keeps: the running digest and supply against the
    set of unspent outputs itself. */
module LedgerInvariants {
  import opened Basics
  import opened Sums
  import opened SetDigest
  import opened Ledger

  // ----- every effect a block plans is well formed

  /** Spends carry what the snapshot holds; only outputs live under output keys. */
  predicate WellFormed(store: Store, e: Effect) {
    match e
    case Spend(key, out) => key.OutKey? && key in store && store[key] == OutValue(out)
    case Create(key, _) => key.OutKey?
    case Mark(key, _) => Tracked(key) && !key.OutKey?
  }

  /** The column families the undo log covers. */
  predicate Tracked(key: DbKey) {
    key.OutKey? || key.KeyImageKey? || key.CoinbaseKey? || key.AddrKey?
  }

  predicate AllWellFormed(store: Store, effects: seq<Effect>) {
    forall e :: e in effects ==> WellFormed(store, e)
  }

  lemma {:induction false} InputsWellFormed(store: Store, tx: Tx, n: nat, height: nat)
    requires n <= |tx.inputs|
    ensures AllWellFormed(store, InputsPlan(store, tx, n, height).effects)
  {
    if n > 0 {
      InputsWellFormed(store, tx, n - 1, height);
      assert AllWellFormed(store, InputPlan(store, tx, tx.inputs[n - 1], height).effects);
    }
  }

  lemma {:induction false} OutputsWellFormed(hashes: Hashes, store: Store, tx: Tx, n: nat)
    requires n <= |tx.outputs|
    ensures AllWellFormed(store, OutputsEffects(hashes, tx, n))
  {
    if n > 0 {
      OutputsWellFormed(hashes, store, tx, n - 1);
      assert AllWellFormed(store, OutputEffects(hashes, tx, n - 1));
    }
  }

  lemma TxWellFormed(hashes: Hashes, store: Store, tx: Tx, height: nat)
    ensures AllWellFormed(store, TxPlan(hashes, store, tx, height).effects)
  {
    InputsWellFormed(store, tx, |tx.inputs|, height);
    OutputsWellFormed(hashes, store, tx, |tx.outputs|);
  }

  lemma {:induction false} BlockWellFormed(hashes: Hashes, store: Store, txs: seq<Tx>, height: nat)
    ensures AllWellFormed(store, BlockPlan(hashes, store, txs, height).effects)
  {
    if txs != [] {
      BlockWellFormed(hashes, store, txs[..|txs| - 1], height);
      TxWellFormed(hashes, store, txs[|txs| - 1], height);
    }
  }

  // ----- the hypotheses about a block

  /** No output is spent twice. */
  predicate DistinctSpends(effects: seq<Effect>) {
    forall i, j :: 0 <= i < j < |effects| && effects[i].Spend? && effects[j].Spend? ==> effects[i].key != effects[j].key
  }

  /** No created output exists already, and none is created twice. */
  predicate FreshCreates(store: Store, effects: seq<Effect>) {
    && (forall i :: 0 <= i < |effects| && effects[i].Create? ==> effects[i].key !in store)
    && (forall i, j :: 0 <= i < j < |effects| && effects[i].Create? && effects[j].Create?
          ==> effects[i].key != effects[j].key)
  }

  predicate Clean(store: Store, effects: seq<Effect>) {
    AllWellFormed(store, effects) && DistinctSpends(effects) && FreshCreates(store, effects)
  }

  lemma CleanFront(store: Store, effects: seq<Effect>)
    requires effects != [] && Clean(store, effects)
    ensures Clean(store, effects[..|effects| - 1])
    ensures WellFormed(store, effects[|effects| - 1])
  {
    var front := effects[..|effects| - 1];
    assert forall e :: e in front ==> e in effects;
    assert effects[|effects| - 1] in effects;
  }

  // ----- the store along the effects

  function After(store: Store, effects: seq<Effect>): Store {
    ApplyOps(store, OpsOf(effects))
  }

  lemma AfterStep(store: Store, effects: seq<Effect>)
    requires effects != []
    ensures After(store, effects)
            == ApplyOp(After(store, effects[..|effects| - 1]), OpOf(effects[|effects| - 1]))
  {
    assert OpsOf(effects)[..|effects| - 1] == OpsOf(effects[..|effects| - 1]);
  }

  lemma {:induction false} Untouched(store: Store, effects: seq<Effect>, key: DbKey)
    requires forall i :: 0 <= i < |effects| ==> effects[i].key != key
    ensures Lookup(After(store, effects), key) == Lookup(store, key)
  {
    if effects != [] {
      Untouched(store, effects[..|effects| - 1], key);
      AfterStep(store, effects);
    }
  }

  /** In a clean list, the key of the last effect is untouched before it. */
  lemma LastKeyUntouched(store: Store, effects: seq<Effect>)
    requires effects != [] && Clean(store, effects) && !effects[|effects| - 1].Mark?
    ensures var e := effects[|effects| - 1];
            Lookup(After(store, effects[..|effects| - 1]), e.key) == Lookup(store, e.key)
  {
    var last, front := |effects| - 1, effects[..|effects| - 1];
    forall i | 0 <= i < last
      ensures front[i].key != effects[last].key
    {
      assert effects[i] in effects && effects[last] in effects;
      assert WellFormed(store, effects[i]) && WellFormed(store, effects[last]);
    }
    Untouched(store, front, effects[last].key);
  }

  function OutsStep(outs: map<DbKey, TxOut>, e: Effect): map<DbKey, TxOut> {
    match e
    case Spend(key, _) => outs - {key}
    case Create(key, out) => outs[key := out]
    case Mark(_, _) => outs
  }

  lemma OutsOfStep(store: Store, now: Store, e: Effect)
    requires WellFormed(store, e)
    ensures Outs(ApplyOp(now, OpOf(e))) == OutsStep(Outs(now), e)
  {
  }

  // ----- the running digest is the digest of the set

  /** If the digest matches the set before a clean list of effects, it matches
      the set after it. */
  lemma {:induction false} DigestFollowsSet(hashes: Hashes, store: Store, effects: seq<Effect>)
    requires Clean(store, effects)
    ensures HashAfter(hashes, SetHash(hashes, store), effects) == SetHash(hashes, After(store, effects))
  {
    if effects != [] {
      var front, e := effects[..|effects| - 1], effects[|effects| - 1];
      CleanFront(store, effects);
      DigestFollowsSet(hashes, store, front);
      AfterStep(store, effects);
      var now := After(store, front);
      OutsOfStep(store, now, e);
      if !e.Mark? {
        LastKeyUntouched(store, effects);
        if e.Spend? {
          XorAllDelete(Outs(now), e.key, Digester(hashes));
        } else {
          XorAllInsert(Outs(now), e.key, e.out, Digester(hashes));
        }
      }
    }
  }

  // ----- how far the digest drifts when outputs are spent more than once

  function SpendCount(effects: seq<Effect>, key: DbKey): nat {
    if effects == [] then 0 else
      var e := effects[|effects| - 1];
      SpendCount(effects[..|effects| - 1], key) + if e.Spend? && e.key == key then 1 else 0
  }

  /** The outputs spent an even number of times, but at least once. */
  function EvenlySpent(store: Store, effects: seq<Effect>): map<DbKey, TxOut> {
    map key | key in Outs(store) && SpendCount(effects, key) > 0 && SpendCount(effects, key) % 2 == 0 ::
      Outs(store)[key]
  }

  ghost function Drift(hashes: Hashes, store: Store, effects: seq<Effect>): Hash {
    XorAll(EvenlySpent(store, effects), Digester(hashes))
  }

  lemma FreshFront(store: Store, effects: seq<Effect>)
    requires effects != [] && AllWellFormed(store, effects) && FreshCreates(store, effects)
    ensures AllWellFormed(store, effects[..|effects| - 1]) && FreshCreates(store, effects[..|effects| - 1])
    ensures WellFormed(store, effects[|effects| - 1])
  {
    var front := effects[..|effects| - 1];
    assert forall e :: e in front ==> e in effects;
    assert effects[|effects| - 1] in effects;
  }

  /** An output of the snapshot stays until it is first spent. */
  lemma {:induction false} SpentIsGone(store: Store, effects: seq<Effect>, key: DbKey)
    requires AllWellFormed(store, effects) && FreshCreates(store, effects) && key in Outs(store)
    ensures Lookup(After(store, effects), key) == if SpendCount(effects, key) == 0 then Lookup(store, key) else None
  {
    if effects != [] {
      FreshFront(store, effects);
      SpentIsGone(store, effects[..|effects| - 1], key);
      AfterStep(store, effects);
    }
  }

  /** A created output is not there before. */
  lemma CreatedIsNew(store: Store, effects: seq<Effect>)
    requires AllWellFormed(store, effects) && FreshCreates(store, effects)
    requires effects != [] && effects[|effects| - 1].Create?
    ensures effects[|effects| - 1].key !in Outs(After(store, effects[..|effects| - 1]))
  {
    var last, front := |effects| - 1, effects[..|effects| - 1];
    forall i | 0 <= i < last
      ensures front[i].key != effects[last].key
    {
      assert effects[i] in effects && effects[last] in effects;
      assert WellFormed(store, effects[i]) && WellFormed(store, effects[last]);
    }
    Untouched(store, front, effects[last].key);
  }

  lemma EvenlySpentStep(store: Store, effects: seq<Effect>)
    requires effects != [] && WellFormed(store, effects[|effects| - 1])
    ensures var front, e := effects[..|effects| - 1], effects[|effects| - 1];
            var c := if e.Spend? then SpendCount(front, e.key) else 0;
            EvenlySpent(store, effects)
            == if c == 0 then EvenlySpent(store, front)
               else if c % 2 == 1 then EvenlySpent(store, front)[e.key := e.out]
               else EvenlySpent(store, front) - {e.key}
  {
    var front, e := effects[..|effects| - 1], effects[|effects| - 1];
    assert forall key :: SpendCount(effects, key)
                         == SpendCount(front, key) + if e.Spend? && e.key == key then 1 else 0;
    if e.Spend? {
      SpentIsThere(store, e);
      hide SpendCount, Outs;
      assert forall key :: key != e.key ==> SpendCount(effects, key) == SpendCount(front, key);
    } else {
      hide SpendCount, Outs;
    }
  }

  lemma SpentIsThere(store: Store, e: Effect)
    requires WellFormed(store, e) && e.Spend?
    ensures e.key in Outs(store) && Outs(store)[e.key] == e.out
  {
  }

  /** The incremental digest is the digest of the set with the drift on top. */
  lemma {:induction false} DigestDrifts(hashes: Hashes, store: Store, effects: seq<Effect>)
    requires AllWellFormed(store, effects) && FreshCreates(store, effects)
    ensures HashAfter(hashes, SetHash(hashes, store), effects)
            == Xor(SetHash(hashes, After(store, effects)), Drift(hashes, store, effects))
  {
    if effects == [] {
      assert EvenlySpent(store, effects) == map[];
      XorSelf(SetHash(hashes, store), ZERO_HASH);
      assert After(store, []) == store;
    } else {
      var front, e := effects[..|effects| - 1], effects[|effects| - 1];
      FreshFront(store, effects);
      DigestDrifts(hashes, store, front);
      AfterStep(store, effects);
      OutsOfStep(store, After(store, front), e);
      EvenlySpentStep(store, effects);
      DriftStep(hashes, store, effects);
    }
  }

  lemma DriftStep(hashes: Hashes, store: Store, effects: seq<Effect>)
    requires AllWellFormed(store, effects) && FreshCreates(store, effects) && effects != []
    ensures var front, e := effects[..|effects| - 1], effects[|effects| - 1];
            Xor(SetHash(hashes, After(store, effects)), Drift(hashes, store, effects))
            == HashStep(hashes, Xor(SetHash(hashes, After(store, front)), Drift(hashes, store, front)), e)
  {
    var front, e := effects[..|effects| - 1], effects[|effects| - 1];
    FreshFront(store, effects);
    AfterStep(store, effects);
    OutsOfStep(store, After(store, front), e);
    EvenlySpentStep(store, effects);
    hide After, EvenlySpent, XorAll, Xor, SpendCount;
    var outs, even, digest := Outs(After(store, front)), EvenlySpent(store, front), Digester(hashes);
    if e.Create? {
      CreatedIsNew(store, effects);
      DriftOfCreate(outs, even, e.key, e.out, digest);
    } else if e.Spend? {
      SpentIsThere(store, e);
      SpentIsGone(store, front, e.key);
      EvenIf(store, front, e.key);
      if SpendCount(front, e.key) == 0 {
        DriftOfFirstSpend(outs, even, e.key, digest);
      } else {
        assert outs - {e.key} == outs;
        DriftOfLaterSpend(outs, even, EvenlySpent(store, effects), e.key, e.out, digest);
      }
    }
  }

  lemma DriftOfCreate<K(!new), V>(outs: map<K, V>, even: map<K, V>, key: K, out: V, digest: (K, V) -> Hash)
    requires key !in outs
    ensures Xor(XorAll(outs[key := out], digest), XorAll(even, digest))
            == Xor(Xor(XorAll(outs, digest), XorAll(even, digest)), digest(key, out))
  {
    hide XorAll, Xor;
    XorAllInsert(outs, key, out, digest);
    XorSwap(XorAll(outs, digest), digest(key, out), XorAll(even, digest));
  }

  lemma DriftOfFirstSpend<K(!new), V>(outs: map<K, V>, even: map<K, V>, key: K, digest: (K, V) -> Hash)
    requires key in outs
    ensures Xor(XorAll(outs - {key}, digest), XorAll(even, digest))
            == Xor(Xor(XorAll(outs, digest), XorAll(even, digest)), digest(key, outs[key]))
  {
    hide XorAll, Xor;
    XorAllDelete(outs, key, digest);
    XorSwap(XorAll(outs, digest), digest(key, outs[key]), XorAll(even, digest));
  }

  lemma DriftOfLaterSpend<K(!new), V>(outs: map<K, V>, even: map<K, V>, even': map<K, V>, key: K, out: V,
                                      digest: (K, V) -> Hash)
    requires if key in even then even[key] == out && even' == even - {key} else even' == even[key := out]
    ensures Xor(XorAll(outs, digest), XorAll(even', digest))
            == Xor(Xor(XorAll(outs, digest), XorAll(even, digest)), digest(key, out))
  {
    hide XorAll, Xor;
    if key in even {
      XorAllDelete(even, key, digest);
    } else {
      XorAllInsert(even, key, out, digest);
    }
    XorAssociates(XorAll(outs, digest), XorAll(even, digest), digest(key, out));
  }

  lemma EvenIf(store: Store, effects: seq<Effect>, key: DbKey)
    requires key in Outs(store)
    ensures key in EvenlySpent(store, effects) <==> SpendCount(effects, key) > 0 && SpendCount(effects, key) % 2 == 0
    ensures key in EvenlySpent(store, effects) ==> EvenlySpent(store, effects)[key] == Outs(store)[key]
  {
  }

  /** So it matches the set if and only if the drift is zero. */
  lemma DigestMatchesIff(hashes: Hashes, store: Store, effects: seq<Effect>)
    requires AllWellFormed(store, effects) && FreshCreates(store, effects)
    ensures HashAfter(hashes, SetHash(hashes, store), effects) == SetHash(hashes, After(store, effects))
            <==> Drift(hashes, store, effects) == ZERO_HASH
  {
    DigestDrifts(hashes, store, effects);
    XorSelf(SetHash(hashes, After(store, effects)), Drift(hashes, store, effects));
  }

  // ----- value

  function Spent(effects: seq<Effect>): nat {
    if effects == [] then 0 else
      var e := effects[|effects| - 1];
      Spent(effects[..|effects| - 1]) + if e.Spend? then e.out.value else 0
  }

  function Created(effects: seq<Effect>): nat {
    if effects == [] then 0 else
      var e := effects[|effects| - 1];
      Created(effects[..|effects| - 1]) + if e.Create? then e.out.value else 0
  }

  lemma {:induction false} ValueFollowsSet(store: Store, effects: seq<Effect>)
    requires Clean(store, effects)
    ensures SetValue(After(store, effects)) + Spent(effects) == SetValue(store) + Created(effects)
  {
    if effects != [] {
      var front, e := effects[..|effects| - 1], effects[|effects| - 1];
      CleanFront(store, effects);
      ValueFollowsSet(store, front);
      AfterStep(store, effects);
      var now := After(store, front);
      OutsOfStep(store, now, e);
      if !e.Mark? {
        LastKeyUntouched(store, effects);
        if e.Spend? {
          MapSumRemove(Outs(now), e.key, OutAmount);
        } else {
          MapSumInsert(Outs(now), e.key, e.out, OutAmount);
        }
      }
    }
  }

  /** The supply moves exactly as the value of the set does, whenever the
      checked arithmetic succeeds. */
  lemma {:induction false} SupplyFollowsValue(supply: nat, effects: seq<Effect>)
    requires SupplyAfter(supply, effects).Some?
    ensures SupplyAfter(supply, effects).value + Spent(effects) == supply + Created(effects)
  {
    if effects != [] {
      SupplyFollowsValue(supply, effects[..|effects| - 1]);
    }
  }
}

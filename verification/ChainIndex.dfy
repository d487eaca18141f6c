/** The block indexes: what connecting and saving blocks leaves in memory and in
    the database, and what loading rebuilds from the database alone. */
module ChainIndex {
  import opened Basics
  import opened Compact
  import opened MedianTime
  import opened Retarget

  const PRUNE_DEPTH: nat := 10080

  /** The stored records: block hash by height, block by hash, header by height,
      and the tip. */
  datatype Db = Db(
    heights: map<nat, Hash>,
    blocks: map<Hash, Block>,
    headers: map<nat, Header>,
    tip: Option<Hash>,
    height: Option<nat>
  )

  datatype State = State(
    blocks: map<nat, Block>,
    heightToHash: map<nat, Hash>,
    hashToHeight: map<Hash, nat>,
    work: map<nat, nat>,
    timestamps: seq<nat>
  )

  const EMPTY_STATE: State := State(map[], map[], map[], map[], [])

  type Hasher = Header -> Hash

  // ----- the indexes of a chain

  ghost function HeightIndex(hash: Hasher, chain: seq<Block>): map<nat, Hash> {
    if chain == [] then map[] else
      var n := |chain| - 1;
      HeightIndex(hash, chain[..n])[n := hash(chain[n].header)]
  }

  ghost function HashIndex(hash: Hasher, chain: seq<Block>): map<Hash, nat> {
    if chain == [] then map[] else
      var n := |chain| - 1;
      HashIndex(hash, chain[..n])[hash(chain[n].header) := n]
  }

  ghost function WorkOf(header: Header): nat {
    if Decode(header.bits).Ok? then BlockWork(header.bits) else 0
  }

  /** The summed work of a chain. */
  ghost function TotalWork(chain: seq<Block>): nat {
    if chain == [] then 0 else TotalWork(chain[..|chain| - 1]) + WorkOf(chain[|chain| - 1].header)
  }

  ghost function WorkIndex(chain: seq<Block>): map<nat, nat> {
    if chain == [] then map[] else WorkIndex(chain[..|chain| - 1])[|chain| - 1 := TotalWork(chain)]
  }

  function Times(chain: seq<Block>): (times: seq<nat>)
    ensures |times| == |chain|
    ensures forall i :: 0 <= i < |chain| ==> times[i] == chain[i].header.timestamp
  {
    seq(|chain|, i requires 0 <= i < |chain| => chain[i].header.timestamp)
  }

  /** No two blocks have the same hash. */
  ghost predicate Distinct(hash: Hasher, chain: seq<Block>) {
    forall i, j :: 0 <= i < j < |chain| ==> hash(chain[i].header) != hash(chain[j].header)
  }

  ghost predicate AllDecode(chain: seq<Block>) {
    forall i :: 0 <= i < |chain| ==> Decode(chain[i].header.bits).Ok?
  }

  /** The four indexes in memory are those of the chain, and every recent block
      is at hand. */
  ghost predicate Indexed(hash: Hasher, st: State, chain: seq<Block>) {
    && st.heightToHash == HeightIndex(hash, chain)
    && st.hashToHeight == HashIndex(hash, chain)
    && st.work == WorkIndex(chain)
    && st.timestamps == Window(Times(chain))
    && BlocksKept(st.blocks, chain)
  }

  ghost predicate BlocksKept(blocks: map<nat, Block>, chain: seq<Block>) {
    && (forall h :: h in blocks ==> h < |chain| && blocks[h] == chain[h])
    && (forall h :: 0 <= h < |chain| && h + PRUNE_DEPTH >= |chain| ==> h in blocks)
  }

  /** Exactly the first block and the last 10080 are at hand. */
  ghost predicate Pruned(blocks: map<nat, Block>, chain: seq<Block>) {
    forall h :: h in blocks <==> 0 <= h < |chain| && (h == 0 || h + 10080 >= |chain|)
  }

  lemma PrunedStep(st: State, x: Hash, chain: seq<Block>, b: Block, work: nat)
    requires Pruned(st.blocks, chain)
    ensures Pruned(Applied(st, x, b, |chain|, work, true).blocks, chain + [b])
  {
  }

  ghost predicate StoredAt(hash: Hasher, db: Db, chain: seq<Block>, h: nat)
    requires h < |chain|
  {
    var b := chain[h];
    && h in db.heights && db.heights[h] == hash(b.header)
    && hash(b.header) in db.blocks && db.blocks[hash(b.header)] == b
    && h in db.headers && db.headers[h] == b.header
  }

  /** The chain from height `low` on and, if that is not empty, its tip are in the
      database. */
  ghost predicate StoredFrom(hash: Hasher, db: Db, chain: seq<Block>, low: nat) {
    && (forall h :: low <= h < |chain| ==> StoredAt(hash, db, chain, h))
    && (|chain| > low ==> db.tip == Some(hash(chain[|chain| - 1].header)))
    && (|chain| > low ==> db.height == Some((|chain| - 1) % U32_BOUND))
  }

  /** The whole chain and its tip are in the database. */
  ghost predicate Stored(hash: Hasher, db: Db, chain: seq<Block>) {
    StoredFrom(hash, db, chain, 0)
  }

  // ----- what the indexes mean

  lemma {:induction false} HeightIndexAt(hash: Hasher, chain: seq<Block>, h: nat)
    ensures h in HeightIndex(hash, chain) <==> h < |chain|
    ensures h < |chain| ==> HeightIndex(hash, chain)[h] == hash(chain[h].header)
  {
    if chain != [] {
      HeightIndexAt(hash, chain[..|chain| - 1], h);
    }
  }

  lemma {:induction false} HashIndexAt(hash: Hasher, chain: seq<Block>, h: nat)
    requires Distinct(hash, chain) && h < |chain|
    ensures var x := hash(chain[h].header); x in HashIndex(hash, chain) && HashIndex(hash, chain)[x] == h
  {
    var n := |chain| - 1;
    if h < n {
      assert chain[..n][h] == chain[h];
      HashIndexAt(hash, chain[..n], h);
    }
  }

  lemma {:induction false} HashIndexOnly(hash: Hasher, chain: seq<Block>, x: Hash)
    requires x in HashIndex(hash, chain)
    ensures var h := HashIndex(hash, chain)[x]; h < |chain| && hash(chain[h].header) == x
  {
    var n := |chain| - 1;
    if x != hash(chain[n].header) {
      HashIndexOnly(hash, chain[..n], x);
    }
  }

  /** The two hash indexes are inverse to each other. */
  lemma IndexesAreInverse(hash: Hasher, chain: seq<Block>)
    requires Distinct(hash, chain)
    ensures var byHeight, byHash := HeightIndex(hash, chain), HashIndex(hash, chain);
            && (forall h :: h in byHeight ==> byHeight[h] in byHash && byHash[byHeight[h]] == h)
            && (forall x :: x in byHash ==> byHash[x] in byHeight && byHeight[byHash[x]] == x)
  {
    forall h | h in HeightIndex(hash, chain)
      ensures HeightIndex(hash, chain)[h] in HashIndex(hash, chain)
      ensures HashIndex(hash, chain)[HeightIndex(hash, chain)[h]] == h
    {
      HeightIndexAt(hash, chain, h);
      HashIndexAt(hash, chain, h);
    }
    forall x | x in HashIndex(hash, chain)
      ensures HashIndex(hash, chain)[x] in HeightIndex(hash, chain)
      ensures HeightIndex(hash, chain)[HashIndex(hash, chain)[x]] == x
    {
      HashIndexOnly(hash, chain, x);
      HeightIndexAt(hash, chain, HashIndex(hash, chain)[x]);
    }
  }

  /** The work recorded at a height is the sum up to and including it. */
  lemma {:induction false} WorkIndexAt(chain: seq<Block>, h: nat)
    ensures h in WorkIndex(chain) <==> h < |chain|
    ensures h < |chain| ==> WorkIndex(chain)[h] == TotalWork(chain[..h + 1])
  {
    if chain != [] {
      var n := |chain| - 1;
      WorkIndexAt(chain[..n], h);
      if h < n {
        assert chain[..n][..h + 1] == chain[..h + 1];
      } else {
        assert chain[..n + 1] == chain;
      }
    }
  }

  function Headers(chain: seq<Block>): (headers: seq<Header>)
    ensures |headers| == |chain|
    ensures forall i :: 0 <= i < |chain| ==> headers[i] == chain[i].header
  {
    seq(|chain|, i requires 0 <= i < |chain| => chain[i].header)
  }

  /** On a chain that obeys the bits rule, every block adds at least 2^32. */
  lemma {:induction false} WorkIncreases(chain: seq<Block>, g: nat, h: nat)
    requires ObeysBitsRule(Headers(chain)) && g < h < |chain|
    ensures g in WorkIndex(chain) && h in WorkIndex(chain)
    ensures WorkIndex(chain)[h] >= WorkIndex(chain)[g] + TWO_POW_32
    decreases h
  {
    hide ObeysBitsRule, WorkIndex, Decode, GENESIS_TARGET, Work;
    WorkIndexAt(chain, g);
    WorkIndexAt(chain, h);
    WorkIndexAt(chain, h - 1);
    TargetsInRange(Headers(chain), h);
    var upTo := chain[..h + 1];
    assert upTo[..h] == chain[..h] && upTo[h] == chain[h];
    if g < h - 1 {
      WorkIncreases(chain, g, h - 1);
    }
  }

  /** Every block of the second chain is at most as hard as that of the first. */
  ghost predicate HarderThan(a: seq<Block>, b: seq<Block>) {
    && |a| == |b| && AllDecode(a) && AllDecode(b)
    && forall i :: 0 <= i < |a| ==> Decode(a[i].header.bits).value <= Decode(b[i].header.bits).value
  }

  /** The harder of two chains of one length never has less work. It has more if the
      target of one of its blocks is at most half of the other's, which is worth
      anything at all. */
  lemma {:induction false} HarderChainWins(a: seq<Block>, b: seq<Block>, k: nat)
    requires HarderThan(a, b)
    ensures TotalWork(a) >= TotalWork(b)
    ensures k < |a| && WorkOf(b[k].header) > 0
            && 2 * (Decode(a[k].header.bits).value + 1) <= Decode(b[k].header.bits).value + 1 ==>
              TotalWork(a) > TotalWork(b)
  {
    if a != [] {
      var n := |a| - 1;
      HarderChainWins(a[..n], b[..n], k);
      hide Work, Decode;
      WorkOfSmaller(Decode(a[n].header.bits).value, Decode(b[n].header.bits).value);
    }
  }

  /** The median of the deque is the median the database scan finds. */
  lemma MedianAgrees(hash: Hasher, db: Db, st: State, chain: seq<Block>)
    requires Stored(hash, db, chain) && Indexed(hash, st, chain) && chain != []
    ensures Median(st.timestamps)
            == Median(StoredTimes(db.heights, map x | x in db.blocks :: db.blocks[x].header,
                                  Max(0, |chain| - 11), |chain|))
  {
    hide Median, HeightIndex, HashIndex, WorkIndex, BlocksKept;
    var headers := map x | x in db.blocks :: db.blocks[x].header;
    var times := Times(chain);
    forall h | 0 <= h < |chain|
      ensures h in db.heights && db.heights[h] in headers && headers[db.heights[h]].timestamp == times[h]
    {
      assert StoredAt(hash, db, chain, h);
    }
    StoredTimesAreChain(db.heights, headers, times, Max(0, |chain| - 11), |chain|);
    assert Window(times) == times[Max(0, |chain| - 11)..|chain|];
  }

  // ----- connecting and saving

  function WorkBelow(st: State, height: nat): nat {
    if height > 0 && height - 1 in st.work then st.work[height - 1] else 0
  }

  /** The state after a block is connected at a height. The block that falls out
      of the kept range is dropped from memory. */
  function Applied(st: State, x: Hash, b: Block, height: nat, work: nat, isBest: bool): State {
    var blocks := st.blocks[height := b];
    State(if isBest && height > PRUNE_DEPTH then blocks - {height - PRUNE_DEPTH} else blocks,
          st.heightToHash[height := x],
          st.hashToHeight[x := height],
          st.work[height := WorkBelow(st, height) + work],
          PushTimestamp(st.timestamps, b.header.timestamp))
  }

  /** The database after the connected block is also saved. */
  function Saved(db: Db, x: Hash, b: Block, height: nat): Db {
    Db(db.heights[height := x], db.blocks[x := b], db.headers, Some(x), Some(height % U32_BOUND))
  }

  /** Extending the chain by one block extends every index by one entry. */
  lemma AppliedIsIndexed(hash: Hasher, st: State, chain: seq<Block>, b: Block)
    requires Indexed(hash, st, chain)
    ensures Indexed(hash, Applied(st, hash(b.header), b, |chain|, WorkOf(b.header), true), chain + [b])
  {
    hide HeightIndex, HashIndex, WorkIndex, TotalWork, WorkOf, Window, PushTimestamp, BlocksKept, WorkBelow;
    IndexesExtend(hash, chain, b);
    TimesExtend(chain, b);
    StillKept(st.blocks, chain, b);
    WorkBelowIsTotal(st, chain);
  }

  lemma IndexesExtend(hash: Hasher, chain: seq<Block>, b: Block)
    ensures HeightIndex(hash, chain + [b]) == HeightIndex(hash, chain)[|chain| := hash(b.header)]
    ensures HashIndex(hash, chain + [b]) == HashIndex(hash, chain)[hash(b.header) := |chain|]
    ensures TotalWork(chain + [b]) == TotalWork(chain) + WorkOf(b.header)
    ensures WorkIndex(chain + [b]) == WorkIndex(chain)[|chain| := TotalWork(chain + [b])]
  {
    hide WorkOf;
    var longer := chain + [b];
    assert longer[..|chain|] == chain && longer[|chain|] == b;
  }

  lemma TimesExtend(chain: seq<Block>, b: Block)
    ensures Window(Times(chain + [b])) == PushTimestamp(Window(Times(chain)), b.header.timestamp)
  {
    assert Times(chain + [b]) == Times(chain) + [b.header.timestamp];
    PushKeepsWindow(Times(chain), b.header.timestamp);
  }

  lemma WorkBelowIsTotal(st: State, chain: seq<Block>)
    requires st.work == WorkIndex(chain)
    ensures WorkBelow(st, |chain|) == TotalWork(chain)
  {
    var n := |chain|;
    if n > 0 {
      WorkIndexAt(chain, n - 1);
      assert chain[..n] == chain;
    }
  }

  lemma StillKept(blocks: map<nat, Block>, chain: seq<Block>, b: Block)
    requires BlocksKept(blocks, chain)
    ensures var n, all := |chain|, blocks[|chain| := b];
            BlocksKept(if n > PRUNE_DEPTH then all - {n - PRUNE_DEPTH} else all, chain + [b])
  {
  }

  lemma SavedIsStored(hash: Hasher, db: Db, chain: seq<Block>, low: nat, b: Block)
    requires StoredFrom(hash, db, chain, low) && low <= |chain| && Distinct(hash, chain + [b])
    ensures var connected := db.(headers := db.headers[|chain| := b.header]);
            StoredFrom(hash, Saved(connected, hash(b.header), b, |chain|), chain + [b], low)
  {
    var longer := chain + [b];
    var db' := Saved(db.(headers := db.headers[|chain| := b.header]), hash(b.header), b, |chain|);
    assert longer[|chain|] == b;
    forall h | low <= h < |longer|
      ensures StoredAt(hash, db', longer, h)
    {
      if h < |chain| {
        assert StoredAt(hash, db, chain, h);
        assert longer[h] == chain[h];
      }
    }
  }

  // ----- loading

  /** The header at a height: from the block itself in the kept range, otherwise
      from the header record, or from the block where there is none. */
  function HeaderAt(db: Db, start: nat, h: nat): Option<Header> {
    if h !in db.heights then None
    else if h < start && h in db.headers then Some(db.headers[h])
    else if db.heights[h] in db.blocks then Some(db.blocks[db.heights[h]].header) else None
  }

  ghost predicate LoadableAt(db: Db, start: nat, h: nat) {
    var header := HeaderAt(db, start, h);
    header.Some? && Decode(header.value.bits).Ok?
  }

  ghost predicate LoadableUpTo(db: Db, start: nat, n: nat) {
    forall h :: 0 <= h < n ==> LoadableAt(db, start, h)
  }

  function PruneStart(height: nat): nat {
    Max(0, height - PRUNE_DEPTH)
  }

  ghost function LoadedWork(db: Db, start: nat, n: nat): nat
    requires LoadableUpTo(db, start, n)
  {
    if n == 0 then 0 else
      assert LoadableAt(db, start, n - 1);
      LoadedWork(db, start, n - 1) + WorkOf(HeaderAt(db, start, n - 1).value)
  }

  /** The state built from the records of the first `n` heights. */
  ghost function LoadedState(db: Db, start: nat, n: nat): State
    requires LoadableUpTo(db, start, n)
  {
    if n == 0 then EMPTY_STATE else
      assert LoadableAt(db, start, n - 1);
      NextLoaded(db, LoadedState(db, start, n - 1), start, n - 1, LoadedWork(db, start, n))
  }

  function NextLoaded(db: Db, st: State, start: nat, h: nat, work: nat): State
    requires HeaderAt(db, start, h).Some?
  {
    var x := db.heights[h];
    State(if h >= start then st.blocks[h := db.blocks[x]] else st.blocks,
          st.heightToHash[h := x], st.hashToHeight[x := h], st.work[h := work],
          if h >= start then PushTimestamp(st.timestamps, db.blocks[x].header.timestamp) else st.timestamps)
  }

  /** What has been rebuilt after `n` heights. */
  ghost predicate Rebuilt(hash: Hasher, st: State, chain: seq<Block>, start: nat, n: nat)
    requires n <= |chain|
  {
    && st.heightToHash == HeightIndex(hash, chain[..n])
    && st.hashToHeight == HashIndex(hash, chain[..n])
    && st.work == WorkIndex(chain[..n])
    && st.timestamps == RecentTimes(chain, start, n)
    && BlocksFrom(st.blocks, chain, start, n)
  }

  ghost function RecentTimes(chain: seq<Block>, start: nat, n: nat): seq<nat>
    requires n <= |chain|
  {
    Window(if start <= n then Times(chain[start..n]) else [])
  }

  ghost predicate BlocksFrom(blocks: map<nat, Block>, chain: seq<Block>, start: nat, n: nat)
    requires n <= |chain|
  {
    && (forall h :: h in blocks <==> start <= h < n)
    && (forall h :: start <= h < n ==> blocks[h] == chain[h])
  }

  lemma StoredIsLoadable(hash: Hasher, db: Db, chain: seq<Block>, start: nat, h: nat)
    requires Stored(hash, db, chain) && AllDecode(chain) && h < |chain|
    ensures LoadableAt(db, start, h) && HeaderAt(db, start, h).value == chain[h].header
    ensures db.heights[h] == hash(chain[h].header)
    ensures db.heights[h] in db.blocks && db.blocks[db.heights[h]] == chain[h]
  {
    assert StoredAt(hash, db, chain, h);
  }

  lemma StoredIsLoadableUpTo(hash: Hasher, db: Db, chain: seq<Block>, start: nat, n: nat)
    requires Stored(hash, db, chain) && AllDecode(chain) && n <= |chain|
    ensures LoadableUpTo(db, start, n)
  {
    forall h | 0 <= h < n
      ensures LoadableAt(db, start, h)
    {
      StoredIsLoadable(hash, db, chain, start, h);
    }
  }

  lemma RebuiltStep(hash: Hasher, db: Db, chain: seq<Block>, start: nat, st: State, n: nat)
    requires n < |chain| && Rebuilt(hash, st, chain, start, n)
    requires HeaderAt(db, start, n).Some? && db.heights[n] == hash(chain[n].header)
    requires db.heights[n] in db.blocks && db.blocks[db.heights[n]] == chain[n]
    ensures Rebuilt(hash, NextLoaded(db, st, start, n, TotalWork(chain[..n + 1])), chain, start, n + 1)
  {
    hide HeightIndex, HashIndex, WorkIndex, TotalWork, PushTimestamp, HeaderAt, RecentTimes, BlocksFrom;
    var b := chain[n];
    assert chain[..n + 1] == chain[..n] + [b];
    IndexesExtend(hash, chain[..n], b);
    RecentTimesStep(chain, start, n);
    BlocksFromStep(st.blocks, chain, start, n);
  }

  lemma RecentTimesStep(chain: seq<Block>, start: nat, n: nat)
    requires n < |chain|
    ensures RecentTimes(chain, start, n + 1)
            == if n >= start then PushTimestamp(RecentTimes(chain, start, n), chain[n].header.timestamp)
               else RecentTimes(chain, start, n)
  {
    if start <= n {
      assert chain[start..n + 1] == chain[start..n] + [chain[n]];
      TimesExtend(chain[start..n], chain[n]);
    } else if start == n + 1 {
      assert Times(chain[start..n + 1]) == [];
    }
  }

  lemma BlocksFromStep(blocks: map<nat, Block>, chain: seq<Block>, start: nat, n: nat)
    requires n < |chain| && BlocksFrom(blocks, chain, start, n)
    ensures BlocksFrom(if n >= start then blocks[n := chain[n]] else blocks, chain, start, n + 1)
  {
  }

  lemma {:induction false} RebuiltFromStored(hash: Hasher, db: Db, chain: seq<Block>, start: nat, n: nat)
    requires Stored(hash, db, chain) && AllDecode(chain) && n <= |chain|
    ensures LoadableUpTo(db, start, n)
    ensures LoadedWork(db, start, n) == TotalWork(chain[..n])
    ensures Rebuilt(hash, LoadedState(db, start, n), chain, start, n)
  {
    hide Rebuilt, NextLoaded, Stored, AllDecode, HeaderAt, WorkOf;
    StoredIsLoadableUpTo(hash, db, chain, start, n);
    if n == 0 {
      RebuiltNothing(hash, chain, start);
    } else {
      RebuiltFromStored(hash, db, chain, start, n - 1);
      StoredIsLoadable(hash, db, chain, start, n - 1);
      assert chain[..n] == chain[..n - 1] + [chain[n - 1]];
      IndexesExtend(hash, chain[..n - 1], chain[n - 1]);
      RebuiltStep(hash, db, chain, start, LoadedState(db, start, n - 1), n - 1);
    }
  }

  lemma RebuiltNothing(hash: Hasher, chain: seq<Block>, start: nat)
    ensures Rebuilt(hash, EMPTY_STATE, chain, start, 0)
  {
    assert chain[..0] == [];
  }

  lemma SuffixWindow(chain: seq<Block>, start: nat)
    requires start == 0 || start + WINDOW <= |chain|
    ensures start <= |chain| && Window(Times(chain[start..|chain|])) == Window(Times(chain))
  {
    assert Times(chain[start..|chain|]) == Times(chain)[start..];
    if |chain| - start > WINDOW {
      assert Times(chain)[start..][|chain| - start - WINDOW..] == Times(chain)[|chain| - WINDOW..];
    }
  }

  /** Loading rebuilds, from the database alone, the indexes of the chain. */
  lemma LoadedIsIndexed(hash: Hasher, db: Db, chain: seq<Block>)
    requires Stored(hash, db, chain) && AllDecode(chain) && chain != []
    ensures var start := PruneStart(|chain| - 1);
            LoadableUpTo(db, start, |chain|) && Indexed(hash, LoadedState(db, start, |chain|), chain)
  {
    hide Stored, AllDecode, LoadableUpTo, LoadedState, HeightIndex, HashIndex, WorkIndex, Window;
    var n, start := |chain|, PruneStart(|chain| - 1);
    RebuiltFromStored(hash, db, chain, start, n);
    assert chain[..n] == chain;
    SuffixWindow(chain, start);
  }

  lemma EmptyIsIndexed(hash: Hasher)
    ensures Indexed(hash, EMPTY_STATE, [])
    ensures Stored(hash, Db(map[], map[], map[], None, None), [])
  {
  }

  lemma KnownHashes(hash: Hasher, st: State, chain: seq<Block>)
    requires Indexed(hash, st, chain) && Distinct(hash, chain)
    ensures forall x :: x in st.hashToHeight <==> exists h :: 0 <= h < |chain| && hash(chain[h].header) == x
  {
    forall h | 0 <= h < |chain|
      ensures hash(chain[h].header) in st.hashToHeight
    {
      HashIndexAt(hash, chain, h);
    }
    forall x | x in st.hashToHeight
      ensures exists h :: 0 <= h < |chain| && hash(chain[h].header) == x
    {
      HashIndexOnly(hash, chain, x);
    }
  }

  lemma LoadsNothing(db: Db, start: nat)
    ensures LoadableUpTo(db, start, 0) && LoadedWork(db, start, 0) == 0
    ensures LoadedState(db, start, 0) == EMPTY_STATE
  {
  }

  lemma LoadsOneMore(db: Db, start: nat, h: nat)
    requires LoadableUpTo(db, start, h) && LoadableAt(db, start, h)
    ensures LoadableUpTo(db, start, h + 1)
    ensures LoadedWork(db, start, h + 1) == LoadedWork(db, start, h) + BlockWork(HeaderAt(db, start, h).value.bits)
    ensures LoadedState(db, start, h + 1)
            == NextLoaded(db, LoadedState(db, start, h), start, h, LoadedWork(db, start, h + 1))
  {
  }

  lemma LastWork(db: Db, start: nat, h: nat)
    requires LoadableUpTo(db, start, h + 1)
    ensures var work := LoadedState(db, start, h + 1).work; h in work && work[h] == LoadedWork(db, start, h + 1)
  {
  }
}

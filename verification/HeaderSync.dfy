/** Serving and receiving headers: what a reply holds, when the receiver accepts
    it, and how many rounds fetch the rest of a chain. */
module HeaderSync {
  import opened Basics
  import opened ChainIndex

  const MAX_HEADERS: nat := 2000

  // ----- the request

  /** A request names a known block and, if it is long enough, a last block. */
  datatype Request = Request(locator: Hash, stop: Hash)

  method ParseRequest(data: seq<bv8>) returns (r: Result<Request>)
    ensures r.Ok? <==> |data| >= 40
    ensures r.Ok? ==> r.value.locator == data[4..36]
    ensures r.Ok? ==> r.value.stop == if |data| >= 72 then data[36..68] else ZERO_HASH
  {
    if |data| < 40 {
      return Err(TooShort);
    }
    var stop := if |data| >= 72 then data[36..68] else ZERO_HASH;
    return Ok(Request(data[4..36], stop));
  }

  /** A message of exactly the two hashes is read without its second one; only
      four more bytes bring it back. */
  lemma StopIsReadIff(kind: seq<bv8>, locator: Hash, stop: Hash, rest: seq<bv8>)
    requires |kind| == 4
    ensures var data := kind + locator + stop + rest;
            && data[4..36] == locator && data[36..68] == stop
            && ((if |data| >= 72 then data[36..68] else ZERO_HASH) == stop <==> |rest| >= 4 || stop == ZERO_HASH)
  {
  }

  // ----- the reply

  function LoadHeader(db: Db, h: nat): Option<Header> {
    if h in db.headers then Some(db.headers[h])
    else if h in db.heights && db.heights[h] in db.blocks then Some(db.blocks[db.heights[h]].header)
    else None
  }

  /** The stored headers from `start` on, up to two thousand of them, none behind
      the one with the stop hash; ended only by one of these limits. */
  ghost predicate IsReply(hash: Hasher, db: Db, best: nat, start: nat, stop: Hash, reply: seq<Header>) {
    && |reply| <= MAX_HEADERS
    && (reply != [] ==> start + |reply| <= best + 1)
    && (forall k :: 0 <= k < |reply| ==> LoadHeader(db, start + k) == Some(reply[k]))
    && (forall k :: 0 <= k < |reply| - 1 ==> hash(reply[k]) != stop)
    && (|reply| == MAX_HEADERS || start + |reply| > best || (reply != [] && hash(reply[|reply| - 1]) == stop))
  }

  /** The header at height `h` is missing, and nothing ended the reply before. */
  ghost predicate BreaksAt(hash: Hasher, db: Db, best: nat, start: nat, stop: Hash, h: nat) {
    && start <= h <= best && h - start < MAX_HEADERS && LoadHeader(db, h).None?
    && forall k :: start <= k < h ==> LoadHeader(db, k).Some? && hash(LoadHeader(db, k).value) != stop
  }

  ghost predicate Breaks(hash: Hasher, db: Db, best: nat, start: nat, stop: Hash) {
    exists h: nat :: BreaksAt(hash, db, best, start, stop, h)
  }

  method GetHeaders(hash: Hasher, index: map<Hash, nat>, db: Db, best: nat, request: Request)
    returns (r: Result<seq<Header>>)
    ensures request.locator !in index ==> r == Ok([])
    ensures request.locator in index && r.Ok? ==>
              IsReply(hash, db, best, index[request.locator] + 1, request.stop, r.value)
    ensures r.Err? <==> request.locator in index
                        && Breaks(hash, db, best, index[request.locator] + 1, request.stop)
  {
    if request.locator !in index {
      return Ok([]);
    }
    var start := index[request.locator] + 1;
    var reply := [];
    while start + |reply| <= best && |reply| < MAX_HEADERS
      invariant |reply| <= MAX_HEADERS && (reply != [] ==> start + |reply| <= best + 1)
      invariant forall k :: 0 <= k < |reply| ==> LoadHeader(db, start + k) == Some(reply[k])
      invariant forall k :: 0 <= k < |reply| ==> hash(reply[k]) != request.stop
      decreases MAX_HEADERS - |reply|
    {
      var header := LoadHeader(db, start + |reply|);
      if header.None? {
        assert BreaksAt(hash, db, best, start, request.stop, start + |reply|) by {
          assert forall k :: start <= k < start + |reply| ==> LoadHeader(db, k) == Some(reply[k - start]);
        }
        return Err(MissingBlock);
      }
      reply := reply + [header.value];
      if hash(header.value) == request.stop {
        NeverBreaks(hash, db, best, start, request.stop, reply);
        return Ok(reply);
      }
    }
    NeverBreaks(hash, db, best, start, request.stop, reply);
    return Ok(reply);
  }

  lemma NeverBreaks(hash: Hasher, db: Db, best: nat, start: nat, stop: Hash, reply: seq<Header>)
    requires IsReply(hash, db, best, start, stop, reply)
    ensures !Breaks(hash, db, best, start, stop)
  {
    forall h: nat
      ensures !BreaksAt(hash, db, best, start, stop, h)
    {
      if start <= h < start + |reply| {
        assert LoadHeader(db, start + (h - start)) == Some(reply[h - start]);
      } else if h >= start + |reply| && reply != [] {
        var last := |reply| - 1;
        assert LoadHeader(db, start + last) == Some(reply[last]);
      }
    }
  }

  /** Each header names the one before it. */
  predicate Linked(hash: Hasher, headers: seq<Header>) {
    forall k :: 0 < k < |headers| ==> headers[k].prevHash == hash(headers[k - 1])
  }

  /** The receiver accepts exactly the linked sequences. */
  method ReceiveHeaders(hash: Hasher, headers: seq<Header>) returns (r: Result<nat>)
    ensures r.Ok? <==> Linked(hash, headers)
    ensures r.Ok? ==> r.value == |headers|
  {
    if headers == [] {
      return Ok(0);
    }
    var prevHash := headers[0].prevHash;
    for i := 0 to |headers|
      invariant prevHash == if i == 0 then headers[0].prevHash else hash(headers[i - 1])
      invariant forall k :: 0 < k < i ==> headers[k].prevHash == hash(headers[k - 1])
    {
      if headers[i].prevHash != prevHash {
        return Err(DiscontinuousHeaders);
      }
      prevHash := hash(headers[i]);
    }
    return Ok(|headers|);
  }

  /** The header at height `h` is recorded, or else its block is. */
  ghost predicate ServableAt(db: Db, chain: seq<Block>, h: nat)
    requires h < |chain|
  {
    if h in db.headers then db.headers[h] == chain[h].header
    else h in db.heights && db.heights[h] in db.blocks && db.blocks[db.heights[h]].header == chain[h].header
  }

  /** Every header of the chain can be read, and the stored height is that of its tip. */
  ghost predicate Servable(db: Db, chain: seq<Block>) {
    && (forall h :: 0 <= h < |chain| ==> ServableAt(db, chain, h))
    && (chain != [] ==> db.height == Some((|chain| - 1) % U32_BOUND))
  }

  /** A stored chain can be served, also after its header records are lost. */
  lemma StoredIsServable(hash: Hasher, db: Db, chain: seq<Block>, kept: set<nat>)
    requires Stored(hash, db, chain)
    ensures Servable(db.(headers := map h | h in db.headers && h in kept :: db.headers[h]), chain)
  {
    var db' := db.(headers := map h | h in db.headers && h in kept :: db.headers[h]);
    forall h | 0 <= h < |chain|
      ensures ServableAt(db', chain, h)
    {
      assert StoredAt(hash, db, chain, h);
    }
  }

  /** On such a chain a reply is a stretch of it. */
  lemma ReplyIsStretch(hash: Hasher, db: Db, chain: seq<Block>, start: nat, stop: Hash, reply: seq<Header>)
    requires Servable(db, chain) && chain != [] && start <= |chain|
    requires IsReply(hash, db, |chain| - 1, start, stop, reply)
    ensures start + |reply| <= |chain| && reply == Headers(chain)[start..start + |reply|]
  {
    forall k | 0 <= k < |reply|
      ensures reply[k] == Headers(chain)[start + k]
    {
      assert ServableAt(db, chain, start + k);
    }
  }

  /** Every reply from a linked chain is accepted. */
  lemma ReplyIsAccepted(hash: Hasher, db: Db, chain: seq<Block>, start: nat, stop: Hash, reply: seq<Header>)
    requires Servable(db, chain) && chain != [] && start <= |chain| && Linked(hash, Headers(chain))
    requires IsReply(hash, db, |chain| - 1, start, stop, reply)
    ensures Linked(hash, reply)
  {
    ReplyIsStretch(hash, db, chain, start, stop, reply);
    hide Servable, IsReply;
    var headers := Headers(chain);
    forall k | 0 < k < |reply|
      ensures reply[k].prevHash == hash(reply[k - 1])
    {
      assert reply[k] == headers[start + k] && reply[k - 1] == headers[start + k - 1];
    }
  }

  // ----- fetching the rest of a chain

  function Replies(n: nat): nat {
    (n + MAX_HEADERS - 1) / MAX_HEADERS
  }

  /** How many non-empty replies lead from height `pos` to the end of a chain of
      length `len`, when the stop hash is that of the block at height `at`. */
  function Rounds(len: nat, pos: nat, at: Option<nat>): nat
    requires pos <= len && (at.Some? ==> at.value < len)
  {
    if at.Some? && pos <= at.value
    then Replies(at.value + 1 - pos) + Replies(len - at.value - 1)
    else Replies(len - pos)
  }

  ghost predicate StopIsAt(hash: Hasher, chain: seq<Block>, stop: Hash, at: Option<nat>) {
    if at.Some? then at.value < |chain| && hash(chain[at.value].header) == stop
    else forall h :: 0 <= h < |chain| ==> hash(chain[h].header) != stop
  }

  lemma RepliesStep(n: nat, k: nat)
    requires 0 < k <= n && (k == MAX_HEADERS || (k < MAX_HEADERS && k == n))
    ensures Replies(n) == 1 + Replies(n - k)
  {
  }

  lemma RoundsStep(hash: Hasher, db: Db, chain: seq<Block>, pos: nat, stop: Hash, at: Option<nat>, reply: seq<Header>)
    requires Servable(db, chain) && Distinct(hash, chain) && StopIsAt(hash, chain, stop, at)
    requires chain != [] && pos < |chain| && IsReply(hash, db, |chain| - 1, pos, stop, reply)
    ensures reply != [] && pos + |reply| <= |chain|
    ensures Rounds(|chain|, pos, at) == 1 + Rounds(|chain|, pos + |reply|, at)
  {
    ReplyIsStretch(hash, db, chain, pos, stop, reply);
    hide Servable, Replies;
    var k, n := |reply|, |chain|;
    assert forall i :: 0 <= i < k ==> reply[i] == chain[pos + i].header;
    forall h | pos <= h < pos + k - 1
      ensures hash(chain[h].header) != stop
    {
      assert reply[h - pos] == chain[h].header;
    }
    if at.Some? && pos <= at.value {
      if at.value == pos + k - 1 {
        RepliesStep(k, k);
        NoReplies();
      } else {
        RepliesStep(at.value + 1 - pos, k);
      }
    } else {
      RepliesStep(n - pos, k);
    }
  }

  lemma NoReplies()
    ensures Replies(0) == 0
  {
  }

  /** One request from the last header received, and its reply. */
  method Fetch(hash: Hasher, index: map<Hash, nat>, db: Db, request: Request,
               ghost chain: seq<Block>, ghost pos: nat, ghost at: Option<nat>)
    returns (reply: seq<Header>)
    requires Servable(db, chain) && Distinct(hash, chain) && Linked(hash, Headers(chain))
    requires index == HashIndex(hash, chain) && |chain| <= U32_BOUND && StopIsAt(hash, chain, request.stop, at)
    requires 0 < pos <= |chain| && request.locator == hash(chain[pos - 1].header)
    ensures pos + |reply| <= |chain| && reply == Headers(chain)[pos..pos + |reply|] && Linked(hash, reply)
    ensures reply == [] <==> pos == |chain|
    ensures reply != [] ==> Rounds(|chain|, pos, at) == 1 + Rounds(|chain|, pos + |reply|, at)
  {
    hide IsReply, Rounds, HashIndex, Distinct, ServableAt, StopIsAt, Linked;
    HashIndexAt(hash, chain, pos - 1);
    ServedWithoutError(hash, db, chain);
    var r := GetHeaders(hash, index, db, StoredHeight(db), request);
    reply := r.value;
    ReplyIsStretch(hash, db, chain, pos, request.stop, reply);
    ReplyIsAccepted(hash, db, chain, pos, request.stop, reply);
    if pos < |chain| {
      RoundsStep(hash, db, chain, pos, request.stop, at, reply);
    }
  }

  /** Asks again from the last header received until a reply is empty. Whatever
      the stop hash, this yields the rest of the chain without gap or repeat; with
      a stop hash that no block has, in a reply for every two thousand headers
      begun. */
  method Sync(hash: Hasher, index: map<Hash, nat>, db: Db, request: Request,
              ghost chain: seq<Block>, ghost from: nat, ghost at: Option<nat>)
    returns (headers: seq<Header>, rounds: nat)
    requires Servable(db, chain) && Distinct(hash, chain) && Linked(hash, Headers(chain))
    requires index == HashIndex(hash, chain) && |chain| <= U32_BOUND && StopIsAt(hash, chain, request.stop, at)
    requires from < |chain| && request.locator == hash(chain[from].header)
    ensures headers == Headers(chain)[from + 1..]
    ensures rounds == Rounds(|chain|, from + 1, at)
  {
    hide Rounds, HashIndex, Distinct, Servable, Linked;
    headers, rounds := [], 0;
    ghost var pos := from + 1;
    var reply := Fetch(hash, index, db, request, chain, pos, at);
    while reply != []
      invariant 0 < pos <= |chain| && pos + |reply| <= |chain|
      invariant reply == Headers(chain)[pos..pos + |reply|] && Linked(hash, reply)
      invariant reply == [] <==> pos == |chain|
      invariant headers == Headers(chain)[from + 1..pos]
      invariant rounds + Rounds(|chain|, pos, at) == Rounds(|chain|, from + 1, at)
      invariant reply != [] ==> Rounds(|chain|, pos, at) == 1 + Rounds(|chain|, pos + |reply|, at)
      decreases |chain| - pos
    {
      var accepted := ReceiveHeaders(hash, reply);
      assert accepted.Ok?;
      headers := headers + reply;
      rounds := rounds + 1;
      var locator := hash(reply[|reply| - 1]);
      pos := pos + |reply|;
      reply := Fetch(hash, index, db, Request(locator, request.stop), chain, pos, at);
    }
    RoundsAtEnd(|chain|, at);
  }

  function StoredHeight(db: Db): nat {
    if db.height.Some? then db.height.value else 0
  }

  lemma ServedWithoutError(hash: Hasher, db: Db, chain: seq<Block>)
    requires Servable(db, chain)
    ensures forall h :: 0 <= h < |chain| ==> LoadHeader(db, h).Some?
  {
    forall h | 0 <= h < |chain|
      ensures LoadHeader(db, h).Some?
    {
      assert ServableAt(db, chain, h);
    }
  }

  lemma RoundsAtEnd(len: nat, at: Option<nat>)
    requires at.Some? ==> at.value < len
    ensures Rounds(len, len, at) == 0
  {
  }

  /** Without a matching stop hash, fetching `n` headers takes a reply for every
      two thousand begun. */
  lemma RoundsWithoutStop(len: nat, pos: nat)
    requires pos <= len
    ensures var n, r := len - pos, Rounds(len, pos, None);
            r * MAX_HEADERS >= n && (n > 0 ==> (r - 1) * MAX_HEADERS < n)
  {
  }
}

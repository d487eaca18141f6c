/** The reorganization journal: what survives a crash, what recovery does with
    it, and how often each reorganization's batch is written. */
module Journal {
  import opened Basics

  const REORG_MAX_DEPTH: nat := 2016

  type Hasher = Header -> Hash

  /** One block's part of a reorganization batch. */
  datatype BlockOp = Disconnect(block: Block, height: nat) | Connect(block: Block, height: nat)

  /** `serial` numbers the reorganizations in the order they began. */
  datatype Entry = Entry(oldHeight: nat, oldTip: Hash, depth: nat, block: Block, serial: nat)

  /** A batch that reached the database. */
  datatype Batch = Batch(serial: nat, ops: seq<BlockOp>)

  datatype Disk = Disk(
    tip: Hash,
    height: nat,
    heights: map<nat, Hash>,
    blocks: map<Hash, Block>,
    journals: map<nat, Entry>,
    log: seq<Batch>
  )

  predicate Present(disk: Disk, h: nat) {
    h in disk.heights && disk.heights[h] in disk.blocks
  }

  function BlockAt(disk: Disk, h: nat): Block
    requires Present(disk, h)
  {
    disk.blocks[disk.heights[h]]
  }

  predicate Loadable(disk: Disk, low: nat, top: nat) {
    forall h :: low < h <= top ==> Present(disk, h)
  }

  /** The blocks above `low` are disconnected from the top down, then the new
      block is connected on `low`. */
  function Reorg(disk: Disk, top: nat, low: nat, block: Block): seq<BlockOp>
    requires Loadable(disk, low, top)
  {
    Unwind(disk, top, low, Max(0, top - low)) + [Connect(block, low + 1)]
  }

  function Unwind(disk: Disk, top: nat, low: nat, n: nat): seq<BlockOp>
    requires Loadable(disk, low, top) && n <= Max(0, top - low)
  {
    seq(n, i requires 0 <= i < n => Disconnect(BlockAt(disk, top - i), top - i))
  }

  /** The list can be carried out one by one on a chain of height `top`: each step
      disconnects the block stored at the height reached, and the last one connects
      the new block right above the height reached in the end, which is `low`. */
  ghost predicate Replays(disk: Disk, ops: seq<BlockOp>, top: nat, low: nat, block: Block) {
    && ops != []
    && if |ops| == 1 then top == low && ops[0] == Connect(block, low + 1)
       else top > 0 && Present(disk, top) && ops[0] == Disconnect(BlockAt(disk, top), top)
            && Replays(disk, ops[1..], top - 1, low, block)
  }

  lemma {:induction false} ReorgReplays(disk: Disk, top: nat, low: nat, block: Block)
    requires Loadable(disk, low, top) && low <= top
    ensures Replays(disk, Reorg(disk, top, low, block), top, low, block)
    decreases top
  {
    var ops := Reorg(disk, top, low, block);
    if top == low {
      assert Unwind(disk, top, low, 0) == [];
    } else {
      assert ops[1..] == Reorg(disk, top - 1, low, block);
      ReorgReplays(disk, top - 1, low, block);
    }
  }

  /** No other list can be carried out. */
  lemma {:induction false} OnlyReorgReplays(disk: Disk, ops: seq<BlockOp>, top: nat, low: nat, block: Block)
    requires Replays(disk, ops, top, low, block)
    ensures low <= top && Loadable(disk, low, top) && ops == Reorg(disk, top, low, block)
    decreases top
  {
    if |ops| == 1 {
      assert ops == [ops[0]] && Unwind(disk, top, low, 0) == [];
    } else {
      OnlyReorgReplays(disk, ops[1..], top - 1, low, block);
      ReorgReplays(disk, top, low, block);
      assert Reorg(disk, top, low, block)[1..] == Reorg(disk, top - 1, low, block);
      assert ops == [ops[0]] + ops[1..];
    }
  }

  // ----- the two ways a batch is built

  /** While the block is added: down from the best height to the fork. */
  method BuildBatch(disk: Disk, best: nat, fork: nat, block: Block) returns (r: Result<seq<BlockOp>>)
    ensures r.Ok? <==> Loadable(disk, fork, best)
    ensures r.Ok? ==> r.value == Reorg(disk, best, fork, block)
    ensures r.Ok? && fork <= best ==> Replays(disk, r.value, best, fork, block)
  {
    hide Replays;
    var ops: seq<BlockOp> := [];
    var h := best;
    while h > fork
      invariant fork <= h <= best || h == best <= fork
      invariant Loadable(disk, h, best)
      invariant ops == seq(best - h, i requires 0 <= i < best - h => Disconnect(BlockAt(disk, best - i), best - i))
    {
      if !Present(disk, h) {
        return Err(MissingBlock);
      }
      ops := ops + [Disconnect(BlockAt(disk, h), h)];
      h := h - 1;
    }
    if fork <= best {
      ReorgReplays(disk, best, fork, block);
    }
    return Ok(ops + [Connect(block, fork + 1)]);
  }

  /** During recovery: the recorded number of blocks down from the stored height,
      in wrapping 64-bit arithmetic. */
  method RebuildBatch(disk: Disk, height: nat, depth: nat, block: Block) returns (r: Result<seq<BlockOp>>)
    requires height < U32_BOUND
    ensures depth <= height ==> (r.Ok? <==> Loadable(disk, height - depth, height))
    ensures depth <= height && r.Ok? ==> r.value == Reorg(disk, height, height - depth, block)
    ensures depth <= height && r.Ok? ==> Replays(disk, r.value, height, height - depth, block)
    ensures depth > height + 1 && !Present(disk, U64_BOUND - 1) ==> r.Err?
  {
    hide Replays;
    var ops: seq<BlockOp> := [];
    var h := height;
    for i := 0 to depth
      invariant 0 <= h < U64_BOUND
      invariant i <= height ==> h == height - i && Loadable(disk, h, height)
      invariant i <= height ==>
                  ops == seq(i, k requires 0 <= k < i => Disconnect(BlockAt(disk, height - k), height - k))
      invariant i == height + 1 ==> h == U64_BOUND - 1
      invariant i > height + 1 ==> Present(disk, U64_BOUND - 1)
    {
      if !Present(disk, h) {
        return Err(MissingBlock);
      }
      ops := ops + [Disconnect(BlockAt(disk, h), h)];
      h := (h - 1) % U64_BOUND;
    }
    if depth <= height {
      ReorgReplays(disk, height, height - depth, block);
    }
    return Ok(ops + [Connect(block, (h + 1) % U64_BOUND)]);
  }

  // ----- the protocol as steps that a crash or a failure may separate

  /** Where the process is: not running or still recovering, between operations, or
      inside a reorganization (`id` names its journal record). */
  datatype Phase =
    | Down
    | Idle
    | Journalled(id: nat, fork: nat)
    | Written(id: nat, fork: nat)
    | Cleared(fork: nat, block: Block)
    | Recovered(id: nat)

  /** The history of one reorganization: the batch planned when it began, if its
      blocks could be read; whether its record disagrees with the stored tip, or
      has been overwritten; whether a block was saved while it was pending; whether
      a crash or failure came before its first write; how many came between a write
      and the removal of its record; whether the record is gone. */
  datatype Account = Account(
    plan: Option<seq<BlockOp>>,
    stale: bool,
    touched: bool,
    cutShort: bool,
    windowStops: nat,
    settled: bool
  )

  datatype System = System(disk: Disk, phase: Phase, bestTip: Hash, bestHeight: nat, accounts: seq<Account>)

  /** `Recover` is one turn of the recovery loop. `Up` begins normal operation, with
      the stored tip in memory if the load passed, and the genesis block if any part
      of it was refused; records may still be pending then. `Fail` is an error
      return: the process goes on and the record stays. `Save` saves any block, on
      the losing branch or at shutdown. */
  datatype Event =
    | Recover(id: nat)
    | Up(tip: Hash, height: nat)
    | Begin(block: Block, fork: nat, id: nat)
    | Write
    | Delete
    | Finish
    | Save(block: Block, height: nat)
    | Fail
    | Crash

  predicate Matches(disk: Disk, j: Entry) {
    disk.height == j.oldHeight && disk.tip == j.oldTip
  }

  function AddPlan(disk: Disk, best: nat, fork: nat, block: Block): Option<seq<BlockOp>> {
    if Loadable(disk, fork, best) then Some(Reorg(disk, best, fork, block)) else None
  }

  function RecoveryPlan(disk: Disk, j: Entry): Option<seq<BlockOp>> {
    if j.depth <= disk.height && Loadable(disk, disk.height - j.depth, disk.height)
    then Some(Reorg(disk, disk.height, disk.height - j.depth, j.block)) else None
  }

  /** `save_block`: the only step that moves the stored tip. */
  function SaveBlock(disk: Disk, x: Hash, block: Block, height: nat): Disk {
    disk.(tip := x, height := height % U32_BOUND,
    heights := disk.heights[height := x], blocks := disk.blocks[x := block])
  }

  function Logged(disk: Disk, serial: nat, ops: seq<BlockOp>): Disk {
    disk.(log := disk.log + [Batch(serial, ops)])
  }

  function Forgotten(disk: Disk, id: nat): Disk {
    disk.(journals := disk.journals - {id})
  }

  /** The account of the record `id`. */
  function AccountOf(s: System, id: nat): Account {
    if id in s.disk.journals && s.disk.journals[id].serial < |s.accounts|
    then s.accounts[s.disk.journals[id].serial] else Account(None, false, false, false, 0, true)
  }

  /** The accounts with that of the record `id` replaced. */
  function WithAccount(s: System, id: nat, a: Account): seq<Account> {
    if id in s.disk.journals && s.disk.journals[id].serial < |s.accounts|
    then s.accounts[s.disk.journals[id].serial := a] else s.accounts
  }

  /** The record written when a reorganization onto height `fork` begins. It
      trusts the tip and height in memory; the depth wraps. */
  function RecordOf(s: System, block: Block, fork: nat): Entry {
    Entry(s.bestHeight, s.bestTip, (s.bestHeight - fork) % U64_BOUND, block, |s.accounts|)
  }

  /** A record with the same identifier is overwritten. */
  function BeginStep(s: System, block: Block, fork: nat, id: nat): System {
    var j := RecordOf(s, block, fork);
    var account := Account(AddPlan(s.disk, s.bestHeight, fork, block), !Matches(s.disk, j), false, false, 0, false);
    s.(disk := s.disk.(journals := s.disk.journals[id := j]), phase := Journalled(id, fork),
    accounts := WithAccount(s, id, AccountOf(s, id).(settled := true, stale := true)) + [account])
  }

  /** A record that does not match the stored tip is discarded; for one that does,
      the batch is rebuilt and written. */
  function RecoverStep(s: System, id: nat): System {
    if id !in s.disk.journals then s
    else
      var j := s.disk.journals[id];
      if !Matches(s.disk, j) then
        s.(disk := Forgotten(s.disk, id), accounts := WithAccount(s, id, AccountOf(s, id).(settled := true)))
      else match RecoveryPlan(s.disk, j)
        case None => s
        case Some(ops) => s.(disk := Logged(s.disk, j.serial, ops), phase := Recovered(id))
  }

  /** The record that is being worked on. */
  function Current(phase: Phase): Option<nat> {
    match phase
    case Journalled(id, _) => Some(id)
    case Written(id, _) => Some(id)
    case Recovered(id) => Some(id)
    case _ => None
  }

  predicate InWindow(phase: Phase) {
    phase.Written? || phase.Recovered?
  }

  /** The work on the current record ends where it is. */
  function StopStep(s: System, phase: Phase): System {
    match Current(s.phase)
    case None => s.(phase := phase)
    case Some(id) =>
      var a := AccountOf(s, id);
      s.(phase := phase,
      accounts := WithAccount(s, id, if InWindow(s.phase) then a.(windowStops := a.windowStops + 1)
                                     else a.(cutShort := true)))
  }

  ghost predicate SomeMatches(disk: Disk, n: nat) {
    exists id :: id in disk.journals && disk.journals[id].serial == n && Matches(disk, disk.journals[id])
  }

  ghost function Restamp(disk: Disk, n: nat, a: Account): Account {
    if a.settled then a else a.(stale := !SomeMatches(disk, n), touched := true)
  }

  ghost function Restamped(disk: Disk, accounts: seq<Account>): (restamped: seq<Account>)
    ensures |restamped| == |accounts|
    ensures forall n :: 0 <= n < |accounts| ==> restamped[n] == Restamp(disk, n, accounts[n])
  {
    seq(|accounts|, n requires 0 <= n < |accounts| => Restamp(disk, n, accounts[n]))
  }

  /** Saving a block settles anew which pending records match. */
  ghost function SaveStep(s: System, x: Hash, block: Block, height: nat, best: nat): System {
    var disk := SaveBlock(s.disk, x, block, height);
    s.(disk := disk, phase := Idle, bestHeight := best, accounts := Restamped(disk, s.accounts))
  }

  /** What an event does; an event that cannot happen now does nothing. */
  ghost function Next(hash: Hasher, s: System, e: Event): System {
    match e
    case Recover(id) => if s.phase.Down? then RecoverStep(s, id) else s
    case Up(tip, height) =>
      if s.phase.Down? && height < U64_BOUND then s.(phase := Idle, bestTip := tip, bestHeight := height) else s
    case Begin(block, fork, id) =>
      if s.phase.Idle? && fork + 1 < U64_BOUND && s.bestHeight - fork <= REORG_MAX_DEPTH
      then BeginStep(s, block, fork, id) else s
    case Write =>
      if s.phase.Journalled? && s.phase.id in s.disk.journals then
        var j := s.disk.journals[s.phase.id];
        match AddPlan(s.disk, s.bestHeight, s.phase.fork, j.block)
        case None => s
        case Some(ops) => s.(disk := Logged(s.disk, j.serial, ops), phase := Written(s.phase.id, s.phase.fork))
      else s
    case Delete =>
      if InWindow(s.phase) && s.phase.id in s.disk.journals then
        var phase := if s.phase.Recovered? then Down else Cleared(s.phase.fork, s.disk.journals[s.phase.id].block);
        s.(disk := Forgotten(s.disk, s.phase.id), phase := phase,
        accounts := WithAccount(s, s.phase.id, AccountOf(s, s.phase.id).(settled := true)))
      else s
    case Finish =>
      if s.phase.Cleared? then
        SaveStep(s, hash(s.phase.block.header), s.phase.block, s.phase.fork + 1, s.phase.fork + 1)
      else s
    case Save(block, height) =>
      if s.phase.Idle? then SaveStep(s, hash(block.header), block, height, s.bestHeight) else s
    case Fail =>
      if s.phase.Journalled? || s.phase.Written? then StopStep(s, Idle)
      else if s.phase.Recovered? then StopStep(s, Down) else s
    case Crash => StopStep(s, Down)
  }

  // ----- what every run keeps

  /** How often a reorganization's batch was written. */
  function Count(log: seq<Batch>, serial: nat): nat {
    if log == [] then 0 else
      Count(log[..|log| - 1], serial) + if log[|log| - 1].serial == serial then 1 else 0
  }

  /** A crash or failure left the record behind. */
  predicate LeftBehind(a: Account) {
    a.cutShort || a.windowStops > 0
  }

  /** The number of writes an account explains. */
  function Explained(a: Account, written: bool): nat {
    a.windowStops +
    if a.settled then (if a.stale && LeftBehind(a) then 0 else 1)
    else if written then 1 else 0
  }

  /** Reorganization `n` has a batch written whose record is about to go. */
  predicate JustWritten(s: System, n: nat) {
    InWindow(s.phase) && s.phase.id in s.disk.journals && s.disk.journals[s.phase.id].serial == n
  }

  ghost predicate Accounted(s: System, n: nat)
    requires n < |s.accounts|
  {
    Count(s.disk.log, n) == Explained(s.accounts[n], JustWritten(s, n))
  }

  /** Every batch in the log is the planned one, if no block was saved meanwhile. */
  ghost predicate AsPlanned(log: seq<Batch>, accounts: seq<Account>) {
    forall k :: 0 <= k < |log| ==>
      && log[k].serial < |accounts|
      && (!accounts[log[k].serial].touched ==> accounts[log[k].serial].plan == Some(log[k].ops))
  }

  /** The account of a pending record says whether it matches the stored tip, and
      what recovery would rebuild from it. */
  ghost predicate RecordOk(s: System, id: nat)
    requires id in s.disk.journals
  {
    var j, a := s.disk.journals[id], AccountOf(s, id);
    && j.serial < |s.accounts| && !a.settled
    && (Matches(s.disk, j) <==> !a.stale)
    && (!a.touched && !a.stale && RecoveryPlan(s.disk, j).Some? ==> RecoveryPlan(s.disk, j) == a.plan)
    && (Current(s.phase) == Some(id) || LeftBehind(a))
  }

  ghost predicate RecordsOk(s: System) {
    && (forall id :: id in s.disk.journals ==> RecordOk(s, id))
    && (forall id, id' :: id in s.disk.journals && id' in s.disk.journals && id != id' ==>
          s.disk.journals[id].serial != s.disk.journals[id'].serial)
  }

  ghost predicate PhaseOk(s: System) {
    match s.phase
    case Journalled(id, fork) =>
      && id in s.disk.journals && !LeftBehind(AccountOf(s, id))
      && AddPlan(s.disk, s.bestHeight, fork, s.disk.journals[id].block) == AccountOf(s, id).plan
    case Written(id, _) => id in s.disk.journals && !LeftBehind(AccountOf(s, id))
    case Recovered(id) => id in s.disk.journals && !AccountOf(s, id).stale && LeftBehind(AccountOf(s, id))
    case _ => true
  }

  /** Heights are machine words. */
  ghost predicate InRange(s: System) {
    && s.bestHeight < U64_BOUND && s.disk.height < U64_BOUND
    && (s.phase.Journalled? || s.phase.Written? || s.phase.Cleared? ==> s.phase.fork + 1 < U64_BOUND)
  }

  ghost predicate AllAccounted(s: System) {
    forall n :: 0 <= n < |s.accounts| ==> Accounted(s, n)
  }

  ghost predicate Inv(s: System) {
    InRange(s) && RecordsOk(s) && PhaseOk(s) && AllAccounted(s) && AsPlanned(s.disk.log, s.accounts)
  }

  lemma {:induction false} CountFresh(log: seq<Batch>, accounts: seq<Account>)
    requires AsPlanned(log, accounts)
    ensures Count(log, |accounts|) == 0
  {
    if log != [] {
      CountFresh(log[..|log| - 1], accounts);
    }
  }

  lemma CountLogged(disk: Disk, serial: nat, ops: seq<BlockOp>, n: nat)
    ensures Count(Logged(disk, serial, ops).log, n) == Count(disk.log, n) + if n == serial then 1 else 0
  {
    var log := disk.log + [Batch(serial, ops)];
    assert log[..|log| - 1] == disk.log;
  }

  /** Plans depend on the stored blocks only. */
  lemma PlansUnchanged(d: Disk, d': Disk, best: nat, fork: nat, block: Block)
    requires d.heights == d'.heights && d.blocks == d'.blocks
    ensures AddPlan(d', best, fork, block) == AddPlan(d, best, fork, block)
  {
    assert forall h :: Present(d', h) == Present(d, h);
    if Loadable(d, fork, best) {
      assert Loadable(d', fork, best);
      var n := Max(0, best - fork);
      forall i | 0 <= i < n
        ensures Unwind(d', best, fork, n)[i] == Unwind(d, best, fork, n)[i]
      {
        assert Present(d, best - i) && BlockAt(d', best - i) == BlockAt(d, best - i);
      }
      assert Unwind(d', best, fork, n) == Unwind(d, best, fork, n);
    } else {
      assert !Loadable(d', fork, best);
    }
  }

  lemma RecoveryIsAdd(d: Disk, j: Entry)
    requires j.depth <= d.height
    ensures RecoveryPlan(d, j) == AddPlan(d, d.height, d.height - j.depth, j.block)
  {
  }

  lemma RecoveryUnchanged(d: Disk, d': Disk, j: Entry)
    requires d.heights == d'.heights && d.blocks == d'.blocks && d.height == d'.height
    ensures RecoveryPlan(d', j) == RecoveryPlan(d, j)
  {
    hide AddPlan;
    if j.depth <= d.height {
      RecoveryIsAdd(d, j);
      RecoveryIsAdd(d', j);
      PlansUnchanged(d, d', d.height, d.height - j.depth, j.block);
    }
  }

  /** Recovery rebuilds the list that adding the block built, for every fork at
      or below the best height; above it the recorded depth has wrapped and
      nothing can be rebuilt. */
  lemma SamePlan(s: System, block: Block, fork: nat)
    requires fork < U64_BOUND && s.bestHeight < U64_BOUND && Matches(s.disk, RecordOf(s, block, fork))
    ensures fork <= s.bestHeight ==>
              RecoveryPlan(s.disk, RecordOf(s, block, fork)) == AddPlan(s.disk, s.bestHeight, fork, block)
    ensures fork > s.bestHeight ==>
              && RecoveryPlan(s.disk, RecordOf(s, block, fork)).None?
              && AddPlan(s.disk, s.bestHeight, fork, block) == Some([Connect(block, fork + 1)])
  {
    var j := RecordOf(s, block, fork);
    if fork <= s.bestHeight {
      assert j.depth == s.bestHeight - fork;
      RecoveryIsAdd(s.disk, j);
    } else {
      assert j.depth == U64_BOUND + s.bestHeight - fork;
      assert Loadable(s.disk, fork, s.bestHeight);
      assert Max(0, s.bestHeight - fork) == 0 && Unwind(s.disk, s.bestHeight, fork, 0) == [];
      assert Reorg(s.disk, s.bestHeight, fork, block) == [Connect(block, fork + 1)];
    }
  }

  // ----- every event keeps the invariant

  lemma BeginKeeps(s: System, block: Block, fork: nat, id: nat)
    requires Inv(s) && s.phase.Idle? && fork + 1 < U64_BOUND
    ensures Inv(BeginStep(s, block, fork, id))
  {
    hide AddPlan, RecoveryPlan, Count;
    var s', j := BeginStep(s, block, fork, id), RecordOf(s, block, fork);
    PlansUnchanged(s.disk, s'.disk, s.bestHeight, fork, block);
    assert RecordOk(s', id) by {
      RecoveryUnchanged(s.disk, s'.disk, j);
      if Matches(s.disk, j) {
        SamePlan(s, block, fork);
      }
    }
    forall x | x in s'.disk.journals && x != id
      ensures RecordOk(s', x)
    {
      assert RecordOk(s, x);
      RecoveryUnchanged(s.disk, s'.disk, s.disk.journals[x]);
    }
    assert RecordsOk(s') by {
      assert forall x :: x in s.disk.journals ==> RecordOk(s, x);
    }
    CountFresh(s.disk.log, s.accounts);
    BeginAccounts(s, block, fork, id);
  }

  lemma BeginAccounts(s: System, block: Block, fork: nat, id: nat)
    requires Inv(s) && s.phase.Idle? && Count(s.disk.log, |s.accounts|) == 0
    ensures AllAccounted(BeginStep(s, block, fork, id))
    ensures var s' := BeginStep(s, block, fork, id); AsPlanned(s'.disk.log, s'.accounts)
  {
    hide AddPlan, RecoveryPlan, Count;
    var s' := BeginStep(s, block, fork, id);
    assert id in s.disk.journals ==> RecordOk(s, id);
    forall n | 0 <= n < |s'.accounts|
      ensures Accounted(s', n)
    {
      assert n < |s.accounts| ==> Accounted(s, n);
    }
  }

  /** A batch of the current record reaches the log. */
  lemma LoggedKeeps(s: System, id: nat, ops: seq<BlockOp>, phase: Phase)
    requires Inv(s) && id in s.disk.journals && !InWindow(s.phase)
    requires !AccountOf(s, id).touched ==> AccountOf(s, id).plan == Some(ops)
    requires if s.phase.Down? then phase == Recovered(id) && !AccountOf(s, id).stale
             else s.phase.Journalled? && s.phase.id == id && phase == Written(id, s.phase.fork)
    ensures Inv(s.(disk := Logged(s.disk, s.disk.journals[id].serial, ops), phase := phase))
  {
    hide AddPlan, RecoveryPlan, Count;
    var j := s.disk.journals[id];
    var s' := s.(disk := Logged(s.disk, j.serial, ops), phase := phase);
    forall x | x in s'.disk.journals
      ensures RecordOk(s', x)
    {
      assert RecordOk(s, x);
      RecoveryUnchanged(s.disk, s'.disk, s.disk.journals[x]);
    }
    assert RecordOk(s, id);
    forall n | 0 <= n < |s.accounts|
      ensures Accounted(s', n)
    {
      assert Accounted(s, n);
      CountLogged(s.disk, j.serial, ops, n);
    }
  }

  /** A record is removed and its reorganization settled. */
  lemma ForgottenKeeps(s: System, id: nat, phase: Phase)
    requires Inv(s) && id in s.disk.journals
    requires if s.phase.Down? then AccountOf(s, id).stale else InWindow(s.phase) && s.phase.id == id
    requires phase.Down? || (phase.Cleared? && phase.fork + 1 < U64_BOUND)
    ensures Inv(s.(disk := Forgotten(s.disk, id), phase := phase,
                   accounts := WithAccount(s, id, AccountOf(s, id).(settled := true))))
  {
    hide AddPlan, RecoveryPlan, Count;
    var s' := s.(disk := Forgotten(s.disk, id), phase := phase,
    accounts := WithAccount(s, id, AccountOf(s, id).(settled := true)));
    assert RecordOk(s, id);
    forall x | x in s'.disk.journals
      ensures RecordOk(s', x)
    {
      assert RecordOk(s, x);
      RecoveryUnchanged(s.disk, s'.disk, s.disk.journals[x]);
    }
    forall n | 0 <= n < |s.accounts|
      ensures Accounted(s', n)
    {
      assert Accounted(s, n);
    }
  }

  lemma StopKeeps(s: System, phase: Phase)
    requires Inv(s) && (phase.Down? || phase.Idle?)
    ensures Inv(StopStep(s, phase))
  {
    hide AddPlan, RecoveryPlan, Count;
    var s' := StopStep(s, phase);
    forall x | x in s'.disk.journals
      ensures RecordOk(s', x)
    {
      assert RecordOk(s, x);
      assert Current(s.phase).Some? && Current(s.phase).value in s.disk.journals ==>
          RecordOk(s, Current(s.phase).value);
    }
    forall n | 0 <= n < |s.accounts|
      ensures Accounted(s', n)
    {
      assert Accounted(s, n);
    }
  }

  lemma SaveKeeps(s: System, x: Hash, block: Block, height: nat, best: nat)
    requires Inv(s) && (s.phase.Idle? || s.phase.Cleared?) && best < U64_BOUND
    ensures Inv(SaveStep(s, x, block, height, best))
  {
    hide AddPlan, RecoveryPlan, Count;
    var s' := SaveStep(s, x, block, height, best);
    forall id | id in s'.disk.journals
      ensures RecordOk(s', id)
    {
      assert RecordOk(s, id);
      OnlyRecord(s, s'.disk, id);
    }
    forall n | 0 <= n < |s.accounts|
      ensures Accounted(s', n)
    {
      assert Accounted(s, n);
    }
  }

  lemma OnlyRecord(s: System, disk: Disk, id: nat)
    requires RecordsOk(s) && disk.journals == s.disk.journals && id in disk.journals
    ensures SomeMatches(disk, disk.journals[id].serial) <==> Matches(disk, disk.journals[id])
  {
    hide RecordOk;
  }

  lemma UpKeeps(s: System, tip: Hash, height: nat)
    requires Inv(s) && s.phase.Down? && height < U64_BOUND
    ensures Inv(s.(phase := Idle, bestTip := tip, bestHeight := height))
  {
    hide AddPlan, RecoveryPlan, Count;
    var s' := s.(phase := Idle, bestTip := tip, bestHeight := height);
    forall id | id in s'.disk.journals
      ensures RecordOk(s', id)
    {
      assert RecordOk(s, id);
    }
    forall n | 0 <= n < |s.accounts|
      ensures Accounted(s', n)
    {
      assert Accounted(s, n);
    }
  }

  lemma RecoverKeeps(s: System, id: nat)
    requires Inv(s) && s.phase.Down?
    ensures Inv(RecoverStep(s, id))
  {
    hide AddPlan, RecoveryPlan, Count, AllAccounted, AsPlanned;
    if id in s.disk.journals {
      var j := s.disk.journals[id];
      assert RecordOk(s, id);
      if !Matches(s.disk, j) {
        ForgottenKeeps(s, id, Down);
      } else if RecoveryPlan(s.disk, j).Some? {
        LoggedKeeps(s, id, RecoveryPlan(s.disk, j).value, Recovered(id));
      }
    }
  }

  lemma NextKeeps(hash: Hasher, s: System, e: Event)
    requires Inv(s)
    ensures Inv(Next(hash, s, e))
  {
    hide Inv, RecoverStep, BeginStep, StopStep, SaveStep, AddPlan;
    InvParts(s);
    match e
    case Recover(id) =>
      if s.phase.Down? {
        RecoverKeeps(s, id);
      }
    case Up(tip, height) =>
      if s.phase.Down? && height < U64_BOUND {
        UpKeeps(s, tip, height);
      }
    case Begin(block, fork, id) =>
      if s.phase.Idle? && fork + 1 < U64_BOUND {
        BeginKeeps(s, block, fork, id);
      }
    case Write =>
      if s.phase.Journalled? && AccountOf(s, s.phase.id).plan.Some? {
        LoggedKeeps(s, s.phase.id, AccountOf(s, s.phase.id).plan.value, Written(s.phase.id, s.phase.fork));
      }
    case Delete =>
      if InWindow(s.phase) {
        ForgottenKeeps(s, s.phase.id, if s.phase.Recovered? then Down
                                      else Cleared(s.phase.fork, s.disk.journals[s.phase.id].block));
      }
    case Finish =>
      if s.phase.Cleared? {
        SaveKeeps(s, hash(s.phase.block.header), s.phase.block, s.phase.fork + 1, s.phase.fork + 1);
      }
    case Save(block, height) =>
      if s.phase.Idle? {
        SaveKeeps(s, hash(block.header), block, height, s.bestHeight);
      }
    case Fail =>
      StopKeeps(s, Idle);
      StopKeeps(s, Down);
    case Crash =>
      StopKeeps(s, Down);
  }

  lemma InvParts(s: System)
    requires Inv(s)
    ensures PhaseOk(s) && InRange(s)
  {
    hide PhaseOk, AllAccounted, RecordsOk, AsPlanned, InRange;
  }

  // ----- whole runs

  ghost predicate Initial(s: System) {
    && s.phase.Down? && s.disk.journals == map[] && s.disk.log == [] && s.accounts == []
    && s.bestHeight < U64_BOUND && s.disk.height < U64_BOUND
  }

  /** Any sequence of operations, failures, crashes and restarts. */
  ghost predicate IsRun(hash: Hasher, run: seq<System>, events: seq<Event>) {
    && |run| == |events| + 1 && Initial(run[0])
    && forall i :: 0 <= i < |events| ==> run[i + 1] == Next(hash, run[i], events[i])
  }

  lemma {:induction false} RunKeeps(hash: Hasher, run: seq<System>, events: seq<Event>, i: nat)
    requires IsRun(hash, run, events) && i < |run|
    ensures Inv(run[i])
  {
    hide Inv, Next;
    if i == 0 {
      InitialIsInv(run[0]);
    } else {
      RunKeeps(hash, run, events, i - 1);
      NextKeeps(hash, run[i - 1], events[i - 1]);
    }
  }

  lemma InitialIsInv(s: System)
    requires Initial(s)
    ensures Inv(s)
  {
  }

  /** How often a reorganization's batch was written, once its record is gone: once
      for every crash or failure between a write and the removal of the record, and
      once more unless the record was left behind and did not match the stored tip
      when it was removed. Every write was the planned list, unless a block was
      saved while the record was pending. */
  lemma WritesOfSettled(hash: Hasher, run: seq<System>, events: seq<Event>, i: nat, n: nat)
    requires IsRun(hash, run, events) && i < |run| && n < |run[i].accounts| && run[i].accounts[n].settled
    ensures var a := run[i].accounts[n];
            Count(run[i].disk.log, n) == a.windowStops + if a.stale && LeftBehind(a) then 0 else 1
    ensures !run[i].accounts[n].touched ==>
              forall k :: 0 <= k < |run[i].disk.log| && run[i].disk.log[k].serial == n ==>
                run[i].accounts[n].plan == Some(run[i].disk.log[k].ops)
  {
    RunKeeps(hash, run, events, i);
    hide Count;
    assert Accounted(run[i], n);
  }

  /** Without a crash or failure between a write and the removal of the record, the
      batch is written exactly once, unless one came before the write and the record
      did not match the stored tip any more; then never. */
  lemma WrittenOnceIff(hash: Hasher, run: seq<System>, events: seq<Event>, i: nat, n: nat)
    requires IsRun(hash, run, events) && i < |run| && n < |run[i].accounts| && run[i].accounts[n].settled
    requires run[i].accounts[n].windowStops == 0
    ensures var a := run[i].accounts[n];
            Count(run[i].disk.log, n) == 1 <==> !(a.stale && a.cutShort)
  {
    hide Count;
    WritesOfSettled(hash, run, events, i, n);
  }

  // ----- when a record is stale from the start

  /** A new record matches the stored tip exactly when memory does; after a start
      that depends only on what the start put in memory. */
  lemma StaleAfterUp(hash: Hasher, s: System, tip: Hash, height: nat, block: Block, fork: nat, id: nat)
    requires s.phase.Down? && height < U64_BOUND
    ensures var s' := Next(hash, s, Up(tip, height));
            && s'.phase.Idle?
            && (AccountOf(BeginStep(s', block, fork, id), id).stale
                <==> s.disk.tip != tip || s.disk.height != height)
  {
    hide AddPlan;
    BeginAccountOf(Next(hash, s, Up(tip, height)), block, fork, id);
  }

  lemma BeginAccountOf(s: System, block: Block, fork: nat, id: nat)
    ensures AccountOf(BeginStep(s, block, fork, id), id)
            == Account(AddPlan(s.disk, s.bestHeight, fork, block), !Matches(s.disk, RecordOf(s, block, fork)),
                       false, false, 0, false)
    ensures |BeginStep(s, block, fork, id).accounts| == |s.accounts| + 1
    ensures BeginStep(s, block, fork, id).disk.journals[id] == RecordOf(s, block, fork)
  {
    hide AddPlan;
  }

  /** A finished reorganization moves the stored tip but not the one in memory,
      so the next record is stale unless the new block has the old tip's hash. */
  lemma StaleAfterFinish(hash: Hasher, s: System, block: Block, fork: nat, id: nat)
    requires s.phase.Cleared? && s.phase.fork + 1 < U32_BOUND
    ensures var s' := Next(hash, s, Finish);
            && s'.phase.Idle?
            && (AccountOf(BeginStep(s', block, fork, id), id).stale <==> hash(s.phase.block.header) != s.bestTip)
  {
    hide AddPlan;
    BeginAccountOf(Next(hash, s, Finish), block, fork, id);
  }

  // ----- what becomes of a reorganization that is cut off before its write

  /** Begun, cut off by a crash, and looked at by recovery. */
  ghost function CutOff(hash: Hasher, s: System, block: Block, fork: nat, id: nat): System {
    Next(hash, Next(hash, Next(hash, s, Begin(block, fork, id)), Crash), Recover(id))
  }

  /** If memory and the stored tip differ, its record is discarded and it is never
      written. */
  lemma StaleReorgIsLost(hash: Hasher, s: System, block: Block, fork: nat, id: nat)
    requires Inv(s) && s.phase.Idle? && fork + 1 < U64_BOUND && s.bestHeight - fork <= REORG_MAX_DEPTH
    requires s.disk.tip != s.bestTip || s.disk.height != s.bestHeight
    ensures var s', n := CutOff(hash, s, block, fork, id), |s.accounts|;
            && |s'.accounts| == n + 1 && s'.accounts[n].settled && s'.accounts[n].windowStops == 0
            && id !in s'.disk.journals && Count(s'.disk.log, n) == 0
  {
    hide Inv, AddPlan, Count;
    var n := |s.accounts|;
    var s1 := Next(hash, s, Begin(block, fork, id));
    BeginAccountOf(s, block, fork, id);
    NextKeeps(hash, s, Begin(block, fork, id));
    var s2 := Next(hash, s1, Crash);
    NextKeeps(hash, s1, Crash);
    var s3 := Next(hash, s2, Recover(id));
    NextKeeps(hash, s2, Recover(id));
    assert s1.disk.journals[id].serial == n && s2.disk == s1.disk;
    assert s3.accounts[n].settled && s3.accounts[n].stale && s3.accounts[n].cutShort;
    IsAccounted(s3, n);
  }

  lemma IsAccounted(s: System, n: nat)
    requires Inv(s) && n < |s.accounts|
    ensures Count(s.disk.log, n) == Explained(s.accounts[n], JustWritten(s, n))
  {
    hide Count;
    assert Accounted(s, n);
  }

  /** The second reorganization of one process: the first has moved the stored tip. */
  lemma SecondReorgIsLost(hash: Hasher, s: System, block: Block, fork: nat, id: nat)
    requires Inv(s) && s.phase.Cleared? && s.phase.fork + 1 < U32_BOUND && hash(s.phase.block.header) != s.bestTip
    requires fork + 1 < U64_BOUND && s.phase.fork + 1 - fork <= REORG_MAX_DEPTH
    ensures var s1 := Next(hash, s, Finish);
            Count(CutOff(hash, s1, block, fork, id).disk.log, |s1.accounts|) == 0
  {
    hide Inv, AddPlan, Count, CutOff;
    NextKeeps(hash, s, Finish);
    StaleReorgIsLost(hash, Next(hash, s, Finish), block, fork, id);
  }

  /** The first reorganization after a refused load: the node has started from its
      genesis block over a database with another tip. */
  lemma FirstReorgAfterRefusalIsLost(hash: Hasher, s: System, genesis: Hash, block: Block, fork: nat, id: nat)
    requires Inv(s) && s.phase.Down? && s.disk.tip != genesis && fork + 1 < U64_BOUND
    ensures var s1 := Next(hash, s, Up(genesis, 0));
            Count(CutOff(hash, s1, block, fork, id).disk.log, |s1.accounts|) == 0
  {
    hide Inv, AddPlan, Count, CutOff;
    NextKeeps(hash, s, Up(genesis, 0));
    StaleReorgIsLost(hash, Next(hash, s, Up(genesis, 0)), block, fork, id);
  }

  /** A reorganization whose adding failed before the write is written all the same
      at the next recovery, if its record still matches and its blocks are stored. */
  lemma FailedReorgComesBack(hash: Hasher, s: System, block: Block, fork: nat, id: nat)
    requires Inv(s) && s.phase.Idle? && fork <= s.bestHeight && s.bestHeight - fork <= REORG_MAX_DEPTH
    requires s.disk.tip == s.bestTip && s.disk.height == s.bestHeight && fork + 1 < U64_BOUND
    requires Loadable(s.disk, fork, s.bestHeight)
    ensures var s1 := Next(hash, Next(hash, s, Begin(block, fork, id)), Fail);
            var s2 := Next(hash, Next(hash, s1, Crash), Recover(id));
            && s1.phase.Idle? && Count(s1.disk.log, |s.accounts|) == 0
            && s2.phase == Recovered(id) && Count(s2.disk.log, |s.accounts|) == 1
  {
    hide Inv, AddPlan, RecoveryPlan, Count;
    var n := |s.accounts|;
    var s0 := Next(hash, s, Begin(block, fork, id));
    BeginAccountOf(s, block, fork, id);
    NextKeeps(hash, s, Begin(block, fork, id));
    var s1 := Next(hash, s0, Fail);
    NextKeeps(hash, s0, Fail);
    IsAccounted(s1, n);
    var down := Next(hash, s1, Crash);
    NextKeeps(hash, s1, Crash);
    InvParts(s);
    SamePlan(s, block, fork);
    assert AddPlan(s.disk, s.bestHeight, fork, block).Some? by {
      PlanIsSome(s.disk, s.bestHeight, fork, block);
    }
    RecoveryUnchanged(s.disk, down.disk, RecordOf(s, block, fork));
    var s2 := Next(hash, down, Recover(id));
    NextKeeps(hash, down, Recover(id));
    IsAccounted(s2, n);
  }

  lemma PlanIsSome(disk: Disk, best: nat, fork: nat, block: Block)
    requires Loadable(disk, fork, best)
    ensures AddPlan(disk, best, fork, block).Some?
  {
  }
}

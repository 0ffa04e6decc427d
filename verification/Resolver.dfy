/** p2p/chain_resolver.go: blocks that arrive before their parents. */
module Resolutions {
  import opened Types

  /** blocksToResolve and waitingBlocks. */
  datatype Resolver = Resolver(pending: map<Hash, seq<Block>>, waiting: map<Hash, Hash>)

  /** The pending lists with `b` put on the list of `k`, unless its hash is there. */
  function Enlist(pending: map<Hash, seq<Block>>, k: Hash, b: Block): map<Hash, seq<Block>> {
    if k !in pending then pending[k := [b]]
    else if HasHash(pending[k], b.hash) then pending
    else pending[k := pending[k] + [b]]
  }

  /** A missing entry reads as the empty hash. */
  function Lookup(waiting: map<Hash, Hash>, h: Hash): Hash {
    if h in waiting then waiting[h] else []
  }

  /** Following the waiting entries always lowers the rank. */
  ghost predicate Ranked(waiting: map<Hash, Hash>, rank: Hash -> nat) {
    forall h {:trigger waiting[h]} :: h in waiting && waiting[h] != [] ==> rank(waiting[h]) < rank(h)
  }

  /** `b` enlisted under `k` and under everything that `k` waits for, directly or not. */
  ghost function Chase(pending: map<Hash, seq<Block>>, waiting: map<Hash, Hash>, k: Hash, b: Block,
                       rank: Hash -> nat): map<Hash, seq<Block>>
    requires Ranked(waiting, rank)
    decreases if k == [] then 0 else rank(k) + 1
  {
    if k == [] then pending
    else
      var next := Lookup(waiting, k);
      assert k in waiting ==> waiting[k] == next;
      Chase(Enlist(pending, k, b), waiting, next, b, rank)
  }

  /** A block has been flooded: the new state, and the hashes to download. */
  ghost function Flooded(r: Resolver, b: Block, rank: Hash -> nat): (Resolver, seq<Hash>)
    requires Ranked(r.waiting, rank)
  {
    if b.previousHash in r.pending then
      (Resolver(Enlist(r.pending, b.previousHash, b), r.waiting[b.hash := b.previousHash]), [])
    else
      var chased := Chase(r.pending, r.waiting, Lookup(r.waiting, b.previousHash), b, rank);
      var found := Lookup(r.waiting, b.hash);
      var pending := Enlist(chased, b.previousHash, b);
      if found == [] then (Resolver(pending, r.waiting[b.hash := b.previousHash]), [b.previousHash])
      else if found in chased then (Resolver(pending, r.waiting[b.hash := b.previousHash]), [])
      else (Resolver(pending, r.waiting), [b.previousHash])
  }

  /** What resolving `h` emits. */
  function Emitted(r: Resolver, h: Hash): seq<Block> {
    if h in r.pending then r.pending[h] else []
  }

  /** The block with hash `h` has been added. */
  ghost function Added(r: Resolver, h: Hash): Resolver {
    Resolver(r.pending - {h}, r.waiting - HashSet(Emitted(r, h)))
  }

  // ---------- the invariant ----------

  /** `n` steps up from `h`, where `blockOf` knows every block by its hash. */
  ghost function Up(blockOf: Hash -> Block, h: Hash, n: nat): Hash
    decreases n
  {
    if n == 0 then h else Up(blockOf, blockOf(h).previousHash, n - 1)
  }

  /** `k` is an ancestor of `h`. */
  ghost predicate Below(blockOf: Hash -> Block, h: Hash, k: Hash) {
    exists n: nat :: n > 0 && Up(blockOf, h, n) == k
  }

  lemma {:induction false} UpOneMore(blockOf: Hash -> Block, h: Hash, n: nat)
    ensures Up(blockOf, h, n + 1) == blockOf(Up(blockOf, h, n)).previousHash
    decreases n
  {
    if n > 0 {
      UpOneMore(blockOf, blockOf(h).previousHash, n - 1);
    }
  }

  lemma {:induction false} BelowParent(blockOf: Hash -> Block, h: Hash)
    ensures Below(blockOf, h, blockOf(h).previousHash)
  {
    assert Up(blockOf, h, 1) == Up(blockOf, blockOf(h).previousHash, 0);
  }

  lemma {:induction false} BelowStepsUp(blockOf: Hash -> Block, h: Hash, k: Hash)
    requires Below(blockOf, h, k)
    ensures Below(blockOf, h, blockOf(k).previousHash)
  {
    var n: nat :| n > 0 && Up(blockOf, h, n) == k;
    UpOneMore(blockOf, h, n);
  }

  ghost predicate NoRepeats(bs: seq<Block>) {
    forall i, j :: 0 <= i < j < |bs| ==> bs[i].hash != bs[j].hash
  }

  /** A pending list has no repeated hash and holds only true descendants of its key. */
  ghost predicate ListOk(blockOf: Hash -> Block, bs: seq<Block>, k: Hash) {
    && NoRepeats(bs)
    && (forall b {:trigger b in bs} :: b in bs ==> blockOf(b.hash) == b && Below(blockOf, b.hash, k))
  }

  /** A waiting entry names the parent, and the parent's list has the block. */
  ghost predicate WaitingOk(blockOf: Hash -> Block, pending: map<Hash, seq<Block>>, h: Hash, p: Hash) {
    && p == blockOf(h).previousHash && p in pending && blockOf(h).hash == h && blockOf(h) in pending[p]
  }

  ghost predicate ListsOk(blockOf: Hash -> Block, pending: map<Hash, seq<Block>>) {
    forall k {:trigger ListOk(blockOf, pending[k], k)} :: k in pending ==> ListOk(blockOf, pending[k], k)
  }

  ghost predicate AllWaitingOk(blockOf: Hash -> Block, r: Resolver) {
    forall h {:trigger WaitingOk(blockOf, r.pending, h, r.waiting[h])} ::
      h in r.waiting ==> WaitingOk(blockOf, r.pending, h, r.waiting[h])
  }

  ghost predicate Consistent(blockOf: Hash -> Block, r: Resolver) {
    ListsOk(blockOf, r.pending) && AllWaitingOk(blockOf, r)
  }

  /** Nothing has left a list. */
  ghost predicate Keeps(p: map<Hash, seq<Block>>, q: map<Hash, seq<Block>>) {
    forall k {:trigger q[k]} {:trigger p[k]} :: k in p ==> k in q && p[k] <= q[k]
  }

  lemma {:induction false} EnlistOk(blockOf: Hash -> Block, pending: map<Hash, seq<Block>>, k: Hash, b: Block)
    requires ListsOk(blockOf, pending) && blockOf(b.hash) == b && Below(blockOf, b.hash, k)
    ensures ListsOk(blockOf, Enlist(pending, k, b)) && Keeps(pending, Enlist(pending, k, b))
    ensures k in Enlist(pending, k, b) && b in Enlist(pending, k, b)[k]
  {
    var q := Enlist(pending, k, b);
    if k in pending {
      assert ListOk(blockOf, pending[k], k);
      if HasHash(pending[k], b.hash) {
        var i :| 0 <= i < |pending[k]| && pending[k][i].hash == b.hash;
        assert pending[k][i] in pending[k];
      } else {
        assert q[k][|pending[k]|] == b;
      }
    }
    forall j | j in q
      ensures ListOk(blockOf, q[j], j)
    {
      assert j in pending ==> ListOk(blockOf, pending[j], j);
    }
  }

  lemma {:induction false} KeepsTransitive(p: map<Hash, seq<Block>>, q: map<Hash, seq<Block>>, r: map<Hash, seq<Block>>)
    requires Keeps(p, q) && Keeps(q, r)
    ensures Keeps(p, r)
  {
    forall k | k in p
      ensures k in r && p[k] <= r[k]
    {
      assert p[k] <= q[k] && q[k] <= r[k];
    }
  }

  lemma {:induction false} ChaseOk(blockOf: Hash -> Block, r: Resolver, pending: map<Hash, seq<Block>>, k: Hash,
                                   b: Block, rank: Hash -> nat)
    requires Ranked(r.waiting, rank) && AllWaitingOk(blockOf, r)
    requires ListsOk(blockOf, pending) && blockOf(b.hash) == b && (k != [] ==> Below(blockOf, b.hash, k))
    ensures ListsOk(blockOf, Chase(pending, r.waiting, k, b, rank))
    ensures Keeps(pending, Chase(pending, r.waiting, k, b, rank))
    decreases if k == [] then 0 else rank(k) + 1
  {
    if k != [] {
      var next := Lookup(r.waiting, k);
      EnlistOk(blockOf, pending, k, b);
      if k in r.waiting {
        assert WaitingOk(blockOf, r.pending, k, r.waiting[k]);
        BelowStepsUp(blockOf, b.hash, k);
      }
      ChaseOk(blockOf, r, Enlist(pending, k, b), next, b, rank);
      KeepsTransitive(pending, Enlist(pending, k, b), Chase(Enlist(pending, k, b), r.waiting, next, b, rank));
    }
  }

  /** What `k` waits for, `n` entries further on. */
  ghost function Awaited(waiting: map<Hash, Hash>, k: Hash, n: nat): Hash
    decreases n
  {
    if n == 0 then k else Awaited(waiting, Lookup(waiting, k), n - 1)
  }

  /** The block's hash is on the list of `k`. */
  ghost predicate Listed(pending: map<Hash, seq<Block>>, k: Hash, b: Block) {
    k in pending && HasHash(pending[k], b.hash)
  }

  lemma {:induction false} ChaseKeepsListed(pending: map<Hash, seq<Block>>, waiting: map<Hash, Hash>, k: Hash, b: Block,
                                            rank: Hash -> nat, j: Hash)
    requires Ranked(waiting, rank) && Listed(pending, j, b)
    ensures Listed(Chase(pending, waiting, k, b, rank), j, b)
    decreases if k == [] then 0 else rank(k) + 1
  {
    if k != [] {
      ChaseKeepsListed(Enlist(pending, k, b), waiting, Lookup(waiting, k), b, rank, j);
    }
  }

  /** The chase gets everywhere: the block is listed under everything that is waited for, up to the first missing
      entry. */
  lemma {:induction false} ChaseReaches(pending: map<Hash, seq<Block>>, waiting: map<Hash, Hash>, k: Hash, b: Block,
                                        rank: Hash -> nat, n: nat)
    requires Ranked(waiting, rank) && forall m :: 0 <= m <= n ==> Awaited(waiting, k, m) != []
    ensures Listed(Chase(pending, waiting, k, b, rank), Awaited(waiting, k, n), b)
    decreases n
  {
    assert Awaited(waiting, k, 0) != [];
    var next, more := Lookup(waiting, k), Enlist(pending, k, b);
    if n == 0 {
      assert Listed(more, k, b) by { assert b in [b]; }
      ChaseKeepsListed(more, waiting, next, b, rank, k);
    } else {
      forall m: nat | m <= n - 1
        ensures Awaited(waiting, next, m) != []
      {
        assert Awaited(waiting, k, m + 1) != [];
      }
      ChaseReaches(more, waiting, next, b, rank, n - 1);
    }
  }

  lemma {:induction false} WaitingStaysOk(blockOf: Hash -> Block, r: Resolver, pending: map<Hash, seq<Block>>, h: Hash)
    requires Keeps(r.pending, pending) && h in r.waiting && WaitingOk(blockOf, r.pending, h, r.waiting[h])
    ensures WaitingOk(blockOf, pending, h, r.waiting[h])
  {
    assert r.pending[r.waiting[h]] <= pending[r.waiting[h]];
  }

  /** In a consistent state the parent is asked for exactly when nothing is pending on it. */
  lemma {:induction false} AsksOnce(blockOf: Hash -> Block, r: Resolver, b: Block, rank: Hash -> nat)
    requires Ranked(r.waiting, rank) && Consistent(blockOf, r) && blockOf(b.hash) == b
    ensures Flooded(r, b, rank).1 == if b.previousHash in r.pending then [] else [b.previousHash]
    ensures Flooded(r, b, rank).0.waiting == r.waiting[b.hash := b.previousHash]
  {
    assert b.hash in r.waiting ==> WaitingOk(blockOf, r.pending, b.hash, r.waiting[b.hash]);
  }

  lemma {:induction false} FloodedLists(blockOf: Hash -> Block, r: Resolver, b: Block, rank: Hash -> nat)
    requires Ranked(r.waiting, rank) && Consistent(blockOf, r) && blockOf(b.hash) == b
    ensures ListsOk(blockOf, Flooded(r, b, rank).0.pending) && Keeps(r.pending, Flooded(r, b, rank).0.pending)
    ensures b.previousHash in Flooded(r, b, rank).0.pending && b in Flooded(r, b, rank).0.pending[b.previousHash]
  {
    var prev := b.previousHash;
    BelowParent(blockOf, b.hash);
    if prev in r.pending {
      EnlistOk(blockOf, r.pending, prev, b);
    } else {
      var k := Lookup(r.waiting, prev);
      if prev in r.waiting {
        assert WaitingOk(blockOf, r.pending, prev, r.waiting[prev]);
        BelowStepsUp(blockOf, b.hash, prev);
      }
      ChaseOk(blockOf, r, r.pending, k, b, rank);
      var chased := Chase(r.pending, r.waiting, k, b, rank);
      EnlistOk(blockOf, chased, prev, b);
      KeepsTransitive(r.pending, chased, Enlist(chased, prev, b));
    }
  }

  lemma {:induction false} FloodedOk(blockOf: Hash -> Block, r: Resolver, b: Block, rank: Hash -> nat)
    requires Ranked(r.waiting, rank) && Consistent(blockOf, r) && blockOf(b.hash) == b
    ensures Consistent(blockOf, Flooded(r, b, rank).0)
  {
    var r' := Flooded(r, b, rank).0;
    FloodedLists(blockOf, r, b, rank);
    AsksOnce(blockOf, r, b, rank);
    forall h | h in r'.waiting
      ensures WaitingOk(blockOf, r'.pending, h, r'.waiting[h])
    {
      if h != b.hash {
        assert WaitingOk(blockOf, r.pending, h, r.waiting[h]);
        WaitingStaysOk(blockOf, r, r'.pending, h);
      }
    }
  }

  lemma {:induction false} AddedOk(blockOf: Hash -> Block, r: Resolver, k: Hash)
    requires Consistent(blockOf, r)
    ensures Consistent(blockOf, Added(r, k))
  {
    var r' := Added(r, k);
    forall j | j in r'.pending
      ensures ListOk(blockOf, r'.pending[j], j)
    {
      assert ListOk(blockOf, r.pending[j], j);
    }
    forall h | h in r'.waiting
      ensures WaitingOk(blockOf, r'.pending, h, r'.waiting[h])
    {
      assert WaitingOk(blockOf, r.pending, h, r.waiting[h]);
      assert r.waiting[h] == k ==> blockOf(h) in Emitted(r, k);
    }
  }

  // ---------- runs ----------

  datatype Event = Offer(block: Block) | Resolve(hash: Hash)

  ghost function Next(r: Resolver, e: Event, rank: Hash -> nat): Resolver
    requires Ranked(r.waiting, rank)
  {
    match e
    case Offer(b) => Flooded(r, b, rank).0
    case Resolve(h) => Added(r, h)
  }

  /** Parent links of true blocks lower the rank. */
  ghost predicate Acyclic(blockOf: Hash -> Block, rank: Hash -> nat) {
    forall h {:trigger blockOf(h)} ::
      blockOf(h).hash == h && blockOf(h).previousHash != [] ==> rank(blockOf(h).previousHash) < rank(h)
  }

  /** With acyclic parent links the chase of a consistent resolver ends. */
  lemma {:induction false} ConsistentIsRanked(blockOf: Hash -> Block, rank: Hash -> nat, r: Resolver)
    requires Acyclic(blockOf, rank) && Consistent(blockOf, r)
    ensures Ranked(r.waiting, rank)
  {
    forall h | h in r.waiting && r.waiting[h] != []
      ensures rank(r.waiting[h]) < rank(h)
    {
      assert WaitingOk(blockOf, r.pending, h, r.waiting[h]);
    }
  }

  ghost predicate StepAt(blockOf: Hash -> Block, rank: Hash -> nat, rs: seq<Resolver>, es: seq<Event>, i: int) {
    && 0 <= i < |es| && |rs| == |es| + 1
    && (es[i].Offer? ==> blockOf(es[i].block.hash) == es[i].block)
    && (Ranked(rs[i].waiting, rank) ==> rs[i + 1] == Next(rs[i], es[i], rank))
  }

  /** A run from a new resolver, with blocks known by their hashes. */
  ghost predicate IsRun(blockOf: Hash -> Block, rank: Hash -> nat, rs: seq<Resolver>, es: seq<Event>) {
    && |rs| == |es| + 1 && rs[0] == Resolver(map[], map[])
    && (forall i {:trigger StepAt(blockOf, rank, rs, es, i)} :: 0 <= i < |es| ==> StepAt(blockOf, rank, rs, es, i))
  }

  lemma {:induction false} RunIsConsistent(blockOf: Hash -> Block, rank: Hash -> nat, rs: seq<Resolver>,
                                           es: seq<Event>, k: nat)
    requires Acyclic(blockOf, rank) && IsRun(blockOf, rank, rs, es) && k < |rs|
    ensures Consistent(blockOf, rs[k]) && Ranked(rs[k].waiting, rank)
  {
    if k > 0 {
      RunIsConsistent(blockOf, rank, rs, es, k - 1);
      assert StepAt(blockOf, rank, rs, es, k - 1);
      match es[k - 1]
      case Offer(b) => FloodedOk(blockOf, rs[k - 1], b, rank);
      case Resolve(h) => AddedOk(blockOf, rs[k - 1], h);
    }
    ConsistentIsRanked(blockOf, rank, rs[k]);
  }

  /** The block is on its parent's list. */
  ghost predicate Held(r: Resolver, b: Block) {
    b.previousHash in r.pending && b in r.pending[b.previousHash]
  }

  lemma {:induction false} StepHolds(blockOf: Hash -> Block, rank: Hash -> nat, r: Resolver, e: Event, b: Block)
    requires Ranked(r.waiting, rank) && Consistent(blockOf, r) && (e.Offer? ==> blockOf(e.block.hash) == e.block)
    requires Held(r, b) || e == Offer(b)
    ensures Held(Next(r, e, rank), b) || (e == Resolve(b.previousHash) && b in Emitted(r, b.previousHash))
  {
    if e.Offer? {
      FloodedLists(blockOf, r, e.block, rank);
      if Held(r, b) {
        assert r.pending[b.previousHash] <= Next(r, e, rank).pending[b.previousHash];
      }
    }
  }

  /** Between event `i` and state `k`, resolving the block's parent has emitted it. */
  ghost predicate EmittedSince(rs: seq<Resolver>, es: seq<Event>, b: Block, i: nat, k: nat)
    requires |rs| == |es| + 1 && k <= |es|
  {
    exists j :: i < j < k && es[j] == Resolve(b.previousHash) && b in Emitted(rs[j], b.previousHash)
  }

  /** The resolver loses nothing: an offered block is on its parent's list until resolving the parent emits it. */
  lemma {:induction false} NothingIsLost(blockOf: Hash -> Block, rank: Hash -> nat, rs: seq<Resolver>,
                                         es: seq<Event>, i: nat, k: nat)
    requires Acyclic(blockOf, rank) && IsRun(blockOf, rank, rs, es) && i < k < |rs| && es[i].Offer?
    ensures Held(rs[k], es[i].block) || EmittedSince(rs, es, es[i].block, i, k)
  {
    var b := es[i].block;
    RunIsConsistent(blockOf, rank, rs, es, k - 1);
    assert StepAt(blockOf, rank, rs, es, k - 1);
    if i < k - 1 {
      NothingIsLost(blockOf, rank, rs, es, i, k - 1);
    }
    if i == k - 1 || Held(rs[k - 1], b) {
      StepHolds(blockOf, rank, rs[k - 1], es[k - 1], b);
    }
  }

  ghost predicate OfferedBy(es: seq<Event>, n: nat, b: Block)
    requires n <= |es|
  {
    exists i {:trigger es[i]} :: 0 <= i < n && es[i] == Offer(b)
  }

  ghost predicate AllOffered(pending: map<Hash, seq<Block>>, es: seq<Event>, n: nat)
    requires n <= |es|
  {
    forall k, b {:trigger b in pending[k]} :: k in pending && b in pending[k] ==> OfferedBy(es, n, b)
  }

  lemma {:induction false} ChaseAdds(pending: map<Hash, seq<Block>>, waiting: map<Hash, Hash>, k: Hash, b: Block,
                                     rank: Hash -> nat, es: seq<Event>, n: nat)
    requires Ranked(waiting, rank) && n <= |es| && AllOffered(pending, es, n) && OfferedBy(es, n, b)
    ensures AllOffered(Chase(pending, waiting, k, b, rank), es, n)
    decreases if k == [] then 0 else rank(k) + 1
  {
    if k != [] {
      ChaseAdds(Enlist(pending, k, b), waiting, Lookup(waiting, k), b, rank, es, n);
    }
  }

  lemma {:induction false} FloodedAdds(r: Resolver, b: Block, rank: Hash -> nat, es: seq<Event>, n: nat)
    requires Ranked(r.waiting, rank) && n <= |es| && AllOffered(r.pending, es, n) && OfferedBy(es, n, b)
    ensures AllOffered(Flooded(r, b, rank).0.pending, es, n)
  {
    ChaseAdds(r.pending, r.waiting, Lookup(r.waiting, b.previousHash), b, rank, es, n);
  }

  /** The resolver makes nothing up: whatever is pending, and so whatever is emitted, has been offered. */
  lemma {:induction false} OnlyOfferedIsHeld(blockOf: Hash -> Block, rank: Hash -> nat, rs: seq<Resolver>,
                                             es: seq<Event>, n: nat)
    requires Acyclic(blockOf, rank) && IsRun(blockOf, rank, rs, es) && n < |rs|
    ensures AllOffered(rs[n].pending, es, n)
  {
    if n > 0 {
      OnlyOfferedIsHeld(blockOf, rank, rs, es, n - 1);
      RunIsConsistent(blockOf, rank, rs, es, n - 1);
      assert StepAt(blockOf, rank, rs, es, n - 1);
      OfferedLater(rs[n - 1].pending, es, n - 1);
      if es[n - 1].Offer? {
        assert OfferedBy(es, n, es[n - 1].block);
        FloodedAdds(rs[n - 1], es[n - 1].block, rank, es, n);
      }
    }
  }

  lemma {:induction false} OfferedLater(pending: map<Hash, seq<Block>>, es: seq<Event>, n: nat)
    requires n < |es| && AllOffered(pending, es, n)
    ensures AllOffered(pending, es, n + 1)
  {
    forall k, b | k in pending && b in pending[k]
      ensures OfferedBy(es, n + 1, b)
    {
      var i :| 0 <= i < n && es[i] == Offer(b);
      assert es[i] == Offer(b);
    }
  }
}

/** The resolver itself. */
module ChainResolvers {
  import opened Types
  import opened Resolutions

  class ChainResolver {
    var blocksToResolve: map<Hash, seq<Block>>
    var waitingBlocks: map<Hash, Hash>

    ghost function State(): Resolver
      reads this
    {
      Resolver(blocksToResolve, waitingBlocks)
    }

    constructor ()
      ensures State() == Resolver(map[], map[])
    {
      blocksToResolve, waitingBlocks := map[], map[];
    }

    static method HasBlock(blocks: seq<Block>, hash: Hash) returns (found: bool)
      ensures found <==> HasHash(blocks, hash)
    {
      for i := 0 to |blocks|
        invariant forall j :: 0 <= j < i ==> blocks[j].hash != hash
      {
        if blocks[i].hash == hash {
          return true;
        }
      }
      return false;
    }

    method AddPendingDownload(block: Block)
      modifies this`blocksToResolve
      ensures blocksToResolve == Enlist(old(blocksToResolve), block.previousHash, block)
    {
      var pendingBlocks := [block];
      if block.previousHash in blocksToResolve {
        pendingBlocks := blocksToResolve[block.previousHash];
        var found := HasBlock(pendingBlocks, block.hash);
        if !found {
          pendingBlocks := pendingBlocks + [block];
        }
      }
      blocksToResolve := blocksToResolve[block.previousHash := pendingBlocks];
    }

    method FindPendingDownloadForBlock(block: Block, ghost rank: Hash -> nat) returns (found: Hash)
      requires Ranked(waitingBlocks, rank)
      modifies this`blocksToResolve
      ensures var k := Lookup(waitingBlocks, block.previousHash);
              blocksToResolve == Chase(old(blocksToResolve), waitingBlocks, k, block, rank)
      ensures found == Lookup(waitingBlocks, block.hash)
    {
      var pendingDownload := Lookup(waitingBlocks, block.previousHash);
      while pendingDownload != []
        invariant waitingBlocks == old(waitingBlocks)
        invariant Chase(blocksToResolve, waitingBlocks, pendingDownload, block, rank)
               == Chase(old(blocksToResolve), waitingBlocks, Lookup(waitingBlocks, block.previousHash), block, rank)
        decreases if pendingDownload == [] then 0 else rank(pendingDownload) + 1
      {
        ghost var lists := blocksToResolve;
        var blocks := if pendingDownload in blocksToResolve then blocksToResolve[pendingDownload] else [];
        var has := HasBlock(blocks, block.hash);
        if !has {
          blocks := blocks + [block];
          blocksToResolve := blocksToResolve[pendingDownload := blocks];
        }
        assert [] + [block] == [block];
        assert blocksToResolve == Enlist(lists, pendingDownload, block);
        pendingDownload := Lookup(waitingBlocks, pendingDownload);
      }
      found := Lookup(waitingBlocks, block.hash);
    }

    method ResolveFloodedBlock(block: Block, ghost rank: Hash -> nat) returns (download: seq<Hash>)
      requires Ranked(waitingBlocks, rank)
      modifies this
      ensures (State(), download) == Flooded(old(State()), block, rank)
    {
      if block.previousHash in blocksToResolve {
        AddPendingDownload(block);
        waitingBlocks := waitingBlocks[block.hash := block.previousHash];
        return [];
      }
      var pendingDownload := FindPendingDownloadForBlock(block, rank);
      if pendingDownload == [] {
        AddPendingDownload(block);
        waitingBlocks := waitingBlocks[block.hash := block.previousHash];
        return [block.previousHash];
      }
      if pendingDownload in blocksToResolve {
        AddPendingDownload(block);
        waitingBlocks := waitingBlocks[block.hash := block.previousHash];
        return [];
      }
      AddPendingDownload(block);
      return [block.previousHash];
    }

    method ResolveAddedBlock(hash: Hash) returns (addBlock: seq<Block>)
      modifies this
      ensures State() == Added(old(State()), hash) && addBlock == Emitted(old(State()), hash)
    {
      var pendingDownBlocks := if hash in blocksToResolve then blocksToResolve[hash] else [];
      addBlock := [];
      for i := 0 to |pendingDownBlocks|
        invariant addBlock == pendingDownBlocks[..i]
        invariant waitingBlocks == old(waitingBlocks) - HashSet(pendingDownBlocks[..i])
        invariant blocksToResolve == old(blocksToResolve)
      {
        assert HashSet(pendingDownBlocks[..i + 1]) == HashSet(pendingDownBlocks[..i]) + {pendingDownBlocks[i].hash};
        waitingBlocks := waitingBlocks - {pendingDownBlocks[i].hash};
        addBlock := addBlock + [pendingDownBlocks[i]];
      }
      assert pendingDownBlocks[..|pendingDownBlocks|] == pendingDownBlocks;
      blocksToResolve := blocksToResolve - {hash};
    }
  }
}

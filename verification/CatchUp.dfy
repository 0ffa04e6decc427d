/** Catching up from another miner's ledger: the segment that a peer serves is enough. */
module CatchUp {
  import opened Types
  import opened BlockTree
  import opened Growth
  import opened Convergence

  /** The two ledgers have the same genesis block, up to its timestamp, and agree on every hash they share. */
  ghost predicate Agree(s: Tree, u: Tree) {
    && s.genesis == u.genesis && s.genesis in s.blocks && u.genesis in u.blocks
    && SameEffects([s.blocks[s.genesis]], [u.blocks[u.genesis]])
    && (forall h :: h in s.blocks && h in u.blocks && h != s.genesis ==> s.blocks[h] == u.blocks[h])
  }

  /** The chain as it stands in `u`, with its genesis block. */
  ghost function InTree(u: Tree, c: seq<Block>): seq<Block>
    requires u.genesis in u.blocks && |c| > 0
  {
    c[0 := u.blocks[u.genesis]]
  }

  /** A shared block has the same ancestors in both ledgers. */
  lemma {:induction false} SharedAncestry(s: Tree, u: Tree, c: seq<Block>, n: nat)
    requires Rooted(s) && Rooted(u) && Agree(s, u) && IsChain(s, c) && 0 < n <= |c| && c[n - 1].hash in u.blocks
    ensures IsChain(u, InTree(u, c[..n]))
  {
    RootedChainStart(s, c);
    if n == 1 {
      assert InTree(u, c[..1]) == [u.blocks[u.genesis]];
    } else {
      var h := c[n - 1].hash;
      ChainDistinct(s, c, 0, n - 1);
      assert FromGenesis(u, h);
      if h !in u.parent {
        ChainOfRoot(u, h);
      }
      SharedAncestry(s, u, c, n - 1);
      assert InTree(u, c[..n]) == InTree(u, c[..n - 1]) + [c[n - 1]];
    }
  }

  lemma InTreeEffects(s: Tree, u: Tree, c: seq<Block>)
    requires Rooted(s) && Agree(s, u) && |c| > 0 && c[0] == s.blocks[s.genesis]
    ensures SameEffects(c, InTree(u, c))
  {
    assert [s.blocks[s.genesis]][0] == s.blocks[s.genesis];
    assert [u.blocks[u.genesis]][0] == u.blocks[u.genesis];
  }

  lemma {:induction false} NextMayFollow(rule: Rule, s: Tree, u: Tree, c: seq<Block>, n: nat)
    requires EffectsDecide(rule) && Honest(rule, s) && Agree(s, u) && IsChain(s, c) && 0 < n < |c|
    ensures rule(InTree(u, c[..n]), c[n])
  {
    RootedChainStart(s, c);
    HonestChain(rule, s, c, n);
    InTreeEffects(s, u, c[..n]);
  }

  lemma {:induction false} NextCompletes(rule: Rule, s: Tree, u: Tree, c: seq<Block>, n: nat)
    requires Rooted(s) && Rooted(u) && Agree(s, u) && IsChain(s, c) && 0 < n < |c|
    requires IsChain(u, InTree(u, c[..n])) && rule(InTree(u, c[..n]), c[n])
    ensures IsChain(Offer(rule, u, c[n]), InTree(u, c[..n + 1]))
  {
    RootedChainStart(s, c);
    ChainDistinct(s, c, 0, n);
    OfferCompletes(rule, u, InTree(u, c[..n]), c[n]);
    assert InTree(u, c[..n + 1]) == InTree(u, c[..n]) + [c[n]];
  }

  /** If the first `n` blocks of a chain of an honest ledger are in `u`, offering the next one leaves it in `u`. */
  lemma {:induction false} NextIsAccepted(rule: Rule, s: Tree, u: Tree, c: seq<Block>, n: nat)
    requires EffectsDecide(rule) && Honest(rule, s) && Rooted(u) && Agree(s, u)
    requires IsChain(s, c) && 0 < n < |c| && c[n - 1].hash in u.blocks
    ensures IsChain(Offer(rule, u, c[n]), InTree(u, c[..n + 1]))
    ensures c[n].hash in Offer(rule, u, c[n]).blocks
  {
    SharedAncestry(s, u, c, n);
    NextMayFollow(rule, s, u, c, n);
    NextCompletes(rule, s, u, c, n);
    assert InTree(u, c[..n + 1])[n] == c[n];
  }

  lemma OfferKeepsAgreement(rule: Rule, s: Tree, u: Tree, b: Block)
    requires Rooted(u) && Agree(s, u) && (b.hash in s.blocks && b.hash != s.genesis ==> s.blocks[b.hash] == b)
    ensures Agree(s, Offer(rule, u, b))
  {
  }

  /** `list` runs down a chain of `s` from position `i`; its last block may be repeated. */
  ghost predicate IsSegment(s: Tree, c: seq<Block>, i: nat, list: seq<Block>) {
    && IsChain(s, c) && i < |c|
    && list == c[i..] + [c[|c| - 1]]
  }

  /** Offering position `k` of a chain to a ledger that has the position before it. */
  lemma {:induction false} StepIsAccepted(rule: Rule, s: Tree, v: Tree, c: seq<Block>, k: nat)
    requires EffectsDecide(rule) && Honest(rule, s) && Rooted(v) && Agree(s, v)
    requires IsChain(s, c) && k < |c| && (k > 0 ==> c[k - 1].hash in v.blocks)
    ensures Agree(s, Offer(rule, v, c[k])) && c[k].hash in Offer(rule, v, c[k]).blocks
  {
    OfferKeepsAgreement(rule, s, v, c[k]);
    if k == 0 {
      RootedChainStart(s, c);
    } else {
      NextIsAccepted(rule, s, v, c, k);
    }
  }

  lemma ParentIsShared(s: Tree, u: Tree, c: seq<Block>, i: nat)
    requires Rooted(s) && Rooted(u) && Agree(s, u) && IsChain(s, c) && 0 < i < |c| && c[i].hash in u.blocks
    ensures c[i - 1].hash in u.blocks
  {
    SharedAncestry(s, u, c, i + 1);
    RootedChainStart(s, c);
    assert InTree(u, c[..i + 1])[i - 1].hash == c[i - 1].hash;
  }

  /** Offered in order, every block of a segment is present afterwards. */
  lemma {:induction false} SegmentIsAccepted(rule: Rule, s: Tree, u: Tree, c: seq<Block>, i: nat, list: seq<Block>,
                                             n: nat)
    requires EffectsDecide(rule) && Honest(rule, s) && Rooted(u) && Agree(s, u) && IsSegment(s, c, i, list)
    requires i > 0 ==> c[i - 1].hash in u.blocks
    requires n <= |list|
    ensures Agree(s, OfferFirst(rule, u, list, n))
    ensures n > 0 ==> list[n - 1].hash in OfferFirst(rule, u, list, n).blocks
  {
    if n > 0 {
      SegmentIsAccepted(rule, s, u, c, i, list, n - 1);
      var v, k := OfferFirst(rule, u, list, n - 1), i + n - 1;
      if k < |c| {
        assert list[n - 1] == c[k] && (n > 1 ==> list[n - 2] == c[k - 1]);
        StepIsAccepted(rule, s, v, c, k);
      } else {
        assert list[n - 1] == list[n - 2];
      }
    }
  }

  /** Catch-up is sufficient: a ledger that holds the oldest block of the served segment, or that block's
      parent, holds the requested block once the segment has been offered, with the same ancestors. */
  lemma {:induction false} CatchUpSuffices(rule: Rule, s: Tree, u: Tree, c: seq<Block>, i: nat, list: seq<Block>)
    requires EffectsDecide(rule) && Honest(rule, s) && Rooted(u) && Agree(s, u) && IsSegment(s, c, i, list)
    requires c[i].hash in u.blocks || (i > 0 && c[i - 1].hash in u.blocks)
    ensures var v := OfferAll(rule, u, list);
            IsChain(v, InTree(v, c)) && InTree(v, c)[|c| - 1].hash == c[|c| - 1].hash
    ensures forall n :: 0 < n <= |list| ==> list[n - 1].hash in OfferFirst(rule, u, list, n).blocks
  {
    if i > 0 && c[i].hash in u.blocks {
      ParentIsShared(s, u, c, i);
    }
    var v := OfferAll(rule, u, list);
    forall n | 0 < n <= |list|
      ensures list[n - 1].hash in OfferFirst(rule, u, list, n).blocks
    {
      SegmentIsAccepted(rule, s, u, c, i, list, n);
    }
    SegmentIsAccepted(rule, s, u, c, i, list, |list|);
    SharedAncestry(s, v, c, |c|);
    RootedChainStart(s, c);
    assert c[..|c|] == c;
  }
}

/** Catching up through the manager's queues: whatever the order in which it receives, adds, replays and
    downloads, no block of a served segment is lost. */
module CatchUpRuns {
  import opened Types
  import opened BlockTree
  import opened Growth
  import opened Convergence
  import opened CatchUp
  import opened ManagerSteps

  /** A listed block that shares a hash with the serving ledger is that ledger's block. */
  ghost predicate Matches(src: Tree, bs: seq<Block>) {
    forall b :: b in bs && b.hash in src.blocks && b.hash != src.genesis ==> src.blocks[b.hash] == b
  }

  /** The ledgers agree, no queue has a false block, and blocks are queued for adding only below blocks we have. */
  ghost predicate QueuesOk(src: Tree, s: State) {
    && Rooted(s.tree) && Agree(src, s.tree)
    && Matches(src, s.received) && Matches(src, s.adding) && Matches(src, s.replayQueue)
    && (forall b :: b in s.adding ==> b.previousHash in s.tree.blocks)
  }

  /** From position `i` on every block of `c` is marked, and present or queued; the one before is present. */
  ghost predicate SegmentOk(c: seq<Block>, i: nat, s: State) {
    && (0 < i <= |c| ==> c[i - 1].hash in s.tree.blocks)
    && (forall k :: i <= k < |c| ==> c[k].hash in s.replayMap)
    && (forall k :: i <= k < |c| ==> Holds(s, c[k]))
  }

  /** What every step keeps while the chain `c` of `src` is being caught up from position `i`. */
  ghost predicate CatchingUp(src: Tree, c: seq<Block>, i: nat, s: State) {
    IsChain(src, c) && i < |c| && QueuesOk(src, s) && SegmentOk(c, i, s)
  }

  /** The event brings in no false block, and blocks of our own only below blocks we have. */
  ghost predicate Fair(src: Tree, s: State, e: Event) {
    && CanStep(s, e) && Matches(src, Brings(e))
    && (e.Mined? ==> e.block.previousHash in s.tree.blocks)
  }

  lemma ChainLink(src: Tree, c: seq<Block>, k: nat)
    requires Linked(src) && IsChain(src, c) && 0 < k < |c|
    ensures c[k].previousHash == c[k - 1].hash
  {
  }

  lemma {:induction false} ReceiveHolds(src: Tree, c: seq<Block>, i: nat, s: State, k: nat)
    requires Rooted(src) && CatchingUp(src, c, i, s) && s.received != [] && i <= k < |c|
    ensures Holds(Receive(s), c[k])
  {
    assert Holds(s, c[k]);
    assert c[k].hash in s.tree.blocks || c[k].previousHash in s.tree.blocks || c[k].previousHash in s.replayMap by {
      if k > 0 {
        ChainLink(src, c, k);
        assert k > i ==> c[k - 1].hash in s.replayMap;
      } else {
        RootedChainStart(src, c);
      }
    }
    StaysHeld(s, c[k]);
  }

  /** Receiving drops no block that has its parent or a marked parent. */
  lemma {:induction false} StaysHeld(s: State, b: Block)
    requires s.received != [] && Holds(s, b)
    requires b.hash in s.tree.blocks || b.previousHash in s.tree.blocks || b.previousHash in s.replayMap
    ensures Holds(Receive(s), b)
  {
    assert s.received == [s.received[0]] + s.received[1..];
  }

  lemma {:induction false} ReceiveKeepsQueues(src: Tree, s: State)
    requires QueuesOk(src, s) && s.received != []
    ensures QueuesOk(src, Receive(s))
  {
    var b, s' := s.received[0], Receive(s);
    assert s.received == [b] + s.received[1..];
    assert b in s.received;
    assert forall x :: x in s'.received || x in s'.adding || x in s'.replayQueue ==>
                         x in s.received || x in s.adding || x in s.replayQueue;
  }

  lemma {:induction false} ReceiveKeeps(src: Tree, c: seq<Block>, i: nat, s: State)
    requires Rooted(src) && CatchingUp(src, c, i, s) && s.received != []
    ensures CatchingUp(src, c, i, Receive(s))
  {
    ReceiveKeepsQueues(src, s);
    forall k | i <= k < |c|
      ensures Holds(Receive(s), c[k])
    {
      ReceiveHolds(src, c, i, s, k);
    }
  }

  lemma {:induction false} AddHolds(rule: Rule, src: Tree, c: seq<Block>, i: nat, s: State, k: nat)
    requires EffectsDecide(rule) && Honest(rule, src) && CatchingUp(src, c, i, s) && s.adding != [] && i <= k < |c|
    ensures Holds(AddNext(rule, s), c[k])
  {
    var b := s.adding[0];
    assert s.adding == [b] + s.adding[1..];
    assert Holds(s, c[k]);
    OfferKeepsTree(rule, s.tree, b);
    if c[k] == b {
      if k > 0 {
        ChainLink(src, c, k);
      }
      assert b in s.adding;
      StepIsAccepted(rule, src, s.tree, c, k);
    }
  }

  lemma {:induction false} AddKeepsQueues(rule: Rule, src: Tree, s: State)
    requires QueuesOk(src, s) && s.adding != []
    ensures QueuesOk(src, AddNext(rule, s))
  {
    var b, s' := s.adding[0], AddNext(rule, s);
    assert s.adding == [b] + s.adding[1..];
    assert b in s.adding;
    OfferKeepsTree(rule, s.tree, b);
    OfferKeepsAgreement(rule, src, s.tree, b);
    assert forall x :: x in s'.adding ==> x in s.adding;
  }

  lemma {:induction false} AddKeeps(rule: Rule, src: Tree, c: seq<Block>, i: nat, s: State)
    requires EffectsDecide(rule) && Honest(rule, src) && CatchingUp(src, c, i, s) && s.adding != []
    ensures CatchingUp(src, c, i, AddNext(rule, s))
  {
    AddKeepsQueues(rule, src, s);
    OfferKeepsTree(rule, s.tree, s.adding[0]);
    forall k | i <= k < |c|
      ensures Holds(AddNext(rule, s), c[k])
    {
      AddHolds(rule, src, c, i, s, k);
    }
  }

  /** A state with the same ledger whose queues and marks have only been added to. */
  ghost predicate Fuller(s: State, s': State) {
    && s'.tree == s.tree && s.replayMap <= s'.replayMap
    && (forall b :: b in s.received ==> b in s'.received) && (forall b :: b in s.adding ==> b in s'.adding)
  }

  lemma {:induction false} FullerKeepsSegment(c: seq<Block>, i: nat, s: State, s': State)
    requires SegmentOk(c, i, s) && Fuller(s, s')
    ensures SegmentOk(c, i, s')
  {
    assert forall k :: i <= k < |c| ==> Holds(s, c[k]) && c[k].hash in s.replayMap;
  }

  /** An event that only brings blocks in. */
  lemma {:induction false} BringsKeep(rule: Rule, src: Tree, s: State, e: Event)
    requires QueuesOk(src, s) && Fair(src, s, e) && (e.Arrive? || e.Mined? || e.DownloadDone?)
    ensures QueuesOk(src, Step(rule, s, e)) && Fuller(s, Step(rule, s, e))
  {
    assert forall b :: b in Brings(e) && b.hash in src.blocks && b.hash != src.genesis ==> src.blocks[b.hash] == b;
    assert e.Arrive? || e.Mined? ==> e.block in Brings(e);
  }

  lemma {:induction false} StepKeepsCatchingUp(rule: Rule, src: Tree, c: seq<Block>, i: nat, s: State, e: Event)
    requires EffectsDecide(rule) && Honest(rule, src) && CatchingUp(src, c, i, s) && Fair(src, s, e)
    ensures CatchingUp(src, c, i, Step(rule, s, e))
  {
    match e
    case ReceiveNext =>
      if s.received != [] {
        ReceiveKeeps(src, c, i, s);
      }
    case AddNextBlock =>
      if s.adding != [] {
        AddKeeps(rule, src, c, i, s);
      }
    case _ =>
      BringsKeep(rule, src, s, e);
      FullerKeepsSegment(c, i, s, Step(rule, s, e));
  }

  /** The states of a run of fair events. */
  ghost predicate IsRun(rule: Rule, src: Tree, states: seq<State>, events: seq<Event>) {
    && |states| == |events| + 1
    && (forall n :: 0 <= n < |states| ==> Rooted(states[n].tree))
    && (forall n :: 0 <= n < |events| ==>
        Fair(src, states[n], events[n]) && states[n + 1] == Step(rule, states[n], events[n]))
  }

  lemma {:induction false} RunKeepsCatchingUp(rule: Rule, src: Tree, c: seq<Block>, i: nat,
                                              states: seq<State>, events: seq<Event>, n: nat)
    requires EffectsDecide(rule) && Honest(rule, src) && IsRun(rule, src, states, events) && n < |states|
    requires CatchingUp(src, c, i, states[0])
    ensures CatchingUp(src, c, i, states[n])
  {
    if n > 0 {
      RunKeepsCatchingUp(rule, src, c, i, states, events, n - 1);
      StepKeepsCatchingUp(rule, src, c, i, states[n - 1], events[n - 1]);
    }
  }

  /** The arrival of a segment starts the catch-up. */
  lemma {:induction false} SegmentStartsCatchUp(src: Tree, c: seq<Block>, i: nat, list: seq<Block>, s: State)
    requires Rooted(src) && IsSegment(src, c, i, list) && Rooted(s.tree) && Agree(src, s.tree)
    requires i > 0 ==> c[i - 1].hash in s.tree.blocks
    requires Matches(src, s.received) && Matches(src, s.adding) && Matches(src, s.replayQueue)
    requires s.replayQueue != [] && forall b :: b in s.adding ==> b.previousHash in s.tree.blocks
    ensures CatchingUp(src, c, i, Downloaded(s, list))
  {
    var s' := Downloaded(s, list);
    forall k | i <= k < |c|
      ensures Holds(s', c[k]) && c[k].hash in s'.replayMap
    {
      assert list[k - i] == c[k];
      assert c[k] in list && c[k] in s'.received;
    }
    forall b | b in list
      ensures b.hash in src.blocks && src.blocks[b.hash] == b
    {
      var j :| 0 <= j < |list| && list[j] == b;
      assert b == c[if j < |c| - i then i + j else |c| - 1];
    }
  }

  /** Under any interleaving of the manager's steps with other traffic: once no block of the segment waits in
      a queue, the whole segment is in the ledger, with the ancestors that it has in the serving ledger. */
  lemma {:induction false} CatchUpUnderAnyInterleaving(rule: Rule, src: Tree, c: seq<Block>, i: nat, list: seq<Block>,
                                                       s: State,
                                                       states: seq<State>, events: seq<Event>, n: nat)
    requires EffectsDecide(rule) && Honest(rule, src) && IsSegment(src, c, i, list)
    requires Rooted(s.tree) && Agree(src, s.tree) && (i > 0 ==> c[i - 1].hash in s.tree.blocks)
    requires Matches(src, s.received) && Matches(src, s.adding) && Matches(src, s.replayQueue)
    requires s.replayQueue != [] && forall b :: b in s.adding ==> b.previousHash in s.tree.blocks
    requires IsRun(rule, src, states, events) && states[0] == Downloaded(s, list) && n < |states|
    requires forall k :: i <= k < |c| ==> c[k] !in states[n].received && c[k] !in states[n].adding
    ensures IsChain(states[n].tree, InTree(states[n].tree, c))
  {
    SegmentStartsCatchUp(src, c, i, list, s);
    RunKeepsCatchingUp(rule, src, c, i, states, events, n);
    assert Holds(states[n], c[|c| - 1]);
    SharedAncestry(src, states[n].tree, c, |c|);
    assert c[..|c|] == c;
  }
}

/** The two ends of a download put together. */
module CatchUpServed {
  import opened Types
  import opened BlockTree
  import opened Growth
  import opened Ledger
  import opened Convergence
  import opened CatchUp
  import opened ChainManagers

  /** The position on the chain at which a served segment of up to `n` blocks starts. */
  function Oldest(chain: seq<Block>, n: nat): nat {
    if n <= |chain| then |chain| - n else 0
  }

  /** What a sound ledger serves for one of its hashes brings any ledger that holds the oldest block served, or its
      parent, up to that hash: every block is present once it has been offered. */
  lemma {:induction false} ServedSegmentCatchesUp(rules: Rules, s: Tree, u: Tree, h: Hash, n: nat)
    requires Sound(rules, s) && Rooted(u) && Agree(s, u) && Grounded(s, h) && h in s.blocks && n > 0
    requires var c := Chain(s, h);
             c[Oldest(c, n)].hash in u.blocks || (Oldest(c, n) > 0 && c[Oldest(c, n) - 1].hash in u.blocks)
    ensures var list := ChainManager.Served(s, h, n);
            && h in OfferAll(RuleOf(rules), u, list).blocks
            && (forall k :: 0 < k <= |list| ==> list[k - 1].hash in OfferFirst(RuleOf(rules), u, list, k).blocks)
  {
    var c, list := Chain(s, h), ChainManager.Served(s, h, n);
    LedgerEffectsDecide(rules);
    ChainManager.ServedIsNewest(s, h, n);
    assert list == c[Oldest(c, n)..] + [c[|c| - 1]];
    CatchUpSuffices(RuleOf(rules), s, u, c, Oldest(c, n), list);
    assert list[|list| - 1].hash == h;
  }
}

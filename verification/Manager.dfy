/** p2p/blockchain_manager.go: the event loop that owns a miner's ledger. Channels are queues. */
module ManagerSteps {
  import opened Types
  import opened BlockTree
  import opened Growth

  /** The ledger, the three block queues, the two replay structures, and the download requests sent. */
  datatype State = State(
    tree: Tree,
    received: seq<Block>,
    adding: seq<Block>,
    sending: seq<Block>,
    replayQueue: seq<Block>,
    replayMap: set<Hash>,
    downloads: seq<Block>)

  /** Take the next received block: queue it for adding, send it round again, or keep it for a replay. */
  function Receive(s: State): State
    requires s.received != []
  {
    var b, rest := s.received[0], s.received[1..];
    var hasBlock := b.hash in s.tree.blocks;
    var canAdd := !hasBlock && b.previousHash in s.tree.blocks;
    if canAdd then s.(received := rest, adding := s.adding + [b])
    else if hasBlock then s.(received := rest)
    else if b.previousHash in s.replayMap then s.(received := rest + [b], replayMap := s.replayMap + {b.hash})
    else s.(received := rest,
            downloads := if s.replayQueue == [] then s.downloads + [b] else s.downloads,
            replayQueue := s.replayQueue + [b],
            replayMap := s.replayMap + {b.hash})
  }

  /** A download has arrived: replay it, followed by everything that was kept. Something must have been kept: the
      source looks at the first kept block, and stops the whole process if there is none. */
  function Downloaded(s: State, blocks: seq<Block>): State
    requires s.replayQueue != []
  {
    s.(received := s.received + blocks + s.replayQueue,
       replayQueue := [],
       replayMap := s.replayMap + HashSet(blocks))
  }

  /** Offer the next queued block to the ledger, and send it on if it was accepted. */
  ghost function AddNext(rule: Rule, s: State): State
    requires s.adding != []
    requires s.adding[0].previousHash in s.tree.blocks ==> Grounded(s.tree, s.adding[0].previousHash)
  {
    var b := s.adding[0];
    s.(tree := Offer(rule, s.tree, b),
       adding := s.adding[1..],
       sending := if Fits(rule, s.tree, b) then s.sending + [b] else s.sending)
  }

  /** The block is in the ledger, or in a queue on its way there. */
  ghost predicate Holds(s: State, b: Block) {
    b.hash in s.tree.blocks || b in s.adding || b in s.received
  }

  datatype Event =
    | Arrive(block: Block)          // a peer has flooded a block to us
    | Mined(block: Block)           // our worker has found a block
    | DownloadDone(blocks: seq<Block>)
    | ReceiveNext
    | AddNextBlock

  /** The manager survives the event. */
  predicate CanStep(s: State, e: Event) {
    e.DownloadDone? ==> s.replayQueue != []
  }

  ghost function Step(rule: Rule, s: State, e: Event): (s': State)
    requires Rooted(s.tree) && CanStep(s, e)
    ensures Rooted(s'.tree) && Grows(s.tree, s'.tree)
  {
    match e
    case Arrive(b) => s.(received := s.received + [b])
    case Mined(b) => s.(adding := s.adding + [b])
    case DownloadDone(blocks) => Downloaded(s, blocks)
    case ReceiveNext => if s.received == [] then s else Receive(s)
    case AddNextBlock =>
      if s.adding == [] then s else
        OfferKeepsTree(rule, s.tree, s.adding[0]);
        AddNext(rule, s)
  }

  /** The blocks that an event brings in. */
  function Brings(e: Event): seq<Block> {
    match e
    case Arrive(b) => [b]
    case Mined(b) => [b]
    case DownloadDone(blocks) => blocks
    case _ => []
  }
}

/** Why an answer to a download request finds kept blocks, and when it does not. */
module Downloads {
  import opened Types
  import opened BlockTree
  import opened Growth
  import opened ManagerSteps

  ghost predicate StepAt(rule: Rule, states: seq<State>, events: seq<Event>, i: int) {
    && 0 <= i < |events| && |states| == |events| + 1
    && Rooted(states[i].tree) && CanStep(states[i], events[i]) && states[i + 1] == Step(rule, states[i], events[i])
  }

  ghost predicate IsNew(s: State) {
    Rooted(s.tree) && s == State(s.tree, [], [], [], [], {}, [])
  }

  /** A run of a manager that starts with empty queues. */
  ghost predicate IsRun(rule: Rule, states: seq<State>, events: seq<Event>) {
    && |states| == |events| + 1 && IsNew(states[0])
    && (forall i {:trigger StepAt(rule, states, events, i)} :: 0 <= i < |events| ==> StepAt(rule, states, events, i))
  }

  /** How many of the first `n` events are answers. */
  ghost function Answers(events: seq<Event>, n: nat): nat
    requires n <= |events|
  {
    if n == 0 then 0 else Answers(events, n - 1) + if events[n - 1].DownloadDone? then 1 else 0
  }

  /** Requests not answered yet: one while blocks are kept, none otherwise. */
  ghost function Open(s: State): nat {
    if s.replayQueue == [] then 0 else 1
  }

  lemma {:induction false} StepCounts(rule: Rule, s: State, e: Event)
    requires Rooted(s.tree) && CanStep(s, e)
    ensures var s' := Step(rule, s, e);
            |s'.downloads| + Open(s) == |s.downloads| + Open(s') + if e.DownloadDone? then 1 else 0
  {
  }

  lemma {:induction false} RequestsMatchAnswers(rule: Rule, states: seq<State>, events: seq<Event>, n: nat)
    requires IsRun(rule, states, events) && n < |states|
    ensures |states[n].downloads| == Answers(events, n) + Open(states[n])
  {
    if n > 0 {
      RequestsMatchAnswers(rule, states, events, n - 1);
      assert StepAt(rule, states, events, n - 1);
      StepCounts(rule, states[n - 1], events[n - 1]);
    }
  }

  /** In every run, the manager survives an answer exactly when fewer answers have come than requests were sent. */
  lemma {:induction false} SurvivesAnswerExactly(rule: Rule, states: seq<State>, events: seq<Event>, n: nat,
                                                 blocks: seq<Block>)
    requires IsRun(rule, states, events) && n < |states|
    ensures CanStep(states[n], DownloadDone(blocks)) <==> Answers(events, n) < |states[n].downloads|
  {
    RequestsMatchAnswers(rule, states, events, n);
  }

  /** Two peers have sent the same orphan, and both are asked: the second answer ends the manager. */
  lemma {:induction false} SecondAnswerFails(rule: Rule, t: Tree, orphan: Block, first: seq<Block>, second: seq<Block>)
    returns (states: seq<State>, events: seq<Event>)
    requires Rooted(t) && orphan.hash !in t.blocks && orphan.previousHash !in t.blocks
    ensures events == [Arrive(orphan), Arrive(orphan), ReceiveNext, DownloadDone(first)]
    ensures IsRun(rule, states, events) && states[0].tree == t
    ensures states[4].downloads == [orphan] && !CanStep(states[4], DownloadDone(second))
  {
    var s0 := State(t, [], [], [], [], {}, []);
    var s1 := Step(rule, s0, Arrive(orphan));
    var s2 := Step(rule, s1, Arrive(orphan));
    var s3 := Step(rule, s2, ReceiveNext);
    assert s2.received[0] == orphan && s3.replayQueue == [orphan];
    var s4 := Step(rule, s3, DownloadDone(first));
    states, events := [s0, s1, s2, s3, s4], [Arrive(orphan), Arrive(orphan), ReceiveNext, DownloadDone(first)];
    assert StepAt(rule, states, events, 0) && StepAt(rule, states, events, 1);
    assert StepAt(rule, states, events, 2) && StepAt(rule, states, events, 3);
  }
}

/** The same steps on the pointer-linked ledger. */
module ChainManagers {
  import opened Types
  import opened BlockTree
  import opened Growth
  import opened Ledger
  import opened Blockchains
  import M = ManagerSteps
  import Reversal
  import Serialization
  import Walks

  class ChainManager {
    var blockchain: Blockchain
    var received: seq<Block>
    var adding: seq<Block>
    var sending: seq<Block>
    var replayQueue: seq<Block>
    var replayMap: set<Hash>
    var downloads: seq<Block>

    /** The ledger is consistently linked. After a sync it may have several roots and detached cycles. */
    ghost predicate Valid()
      reads this`blockchain, blockchain, blockchain.m.Values
    {
      blockchain.Wired()
    }

    ghost function State(): M.State
      reads this, blockchain, blockchain.m.Values
    {
      M.State(blockchain.View(), received, adding, sending, replayQueue, replayMap, downloads)
    }

    constructor (bc: Blockchain)
      requires bc.Wired()
      ensures Valid() && blockchain == bc && State() == M.State(bc.View(), [], [], [], [], {}, [])
    {
      blockchain := bc;
      received, adding, sending, replayQueue, replayMap, downloads := [], [], [], [], {}, [];
    }

    /** A flooded block is taken from its queue. */
    method ReceiveNext()
      requires Valid() && received != []
      modifies this`received, this`adding, this`replayQueue, this`replayMap, this`downloads
      ensures Valid() && State() == M.Receive(old(State()))
    {
      var block := received[0];
      var hasBlock := block.hash in blockchain.m;
      var canAdd := !hasBlock && block.previousHash in blockchain.m;
      TakeReceived(block, hasBlock, canAdd);
    }

    method TakeReceived(block: Block, hasBlock: bool, canAdd: bool)
      requires received != [] && received[0] == block
      modifies this`received, this`adding, this`replayQueue, this`replayMap, this`downloads
      ensures adding == if canAdd then old(adding) + [block] else old(adding)
      ensures var again := !canAdd && !hasBlock && block.previousHash in old(replayMap);
              received == old(received)[1..] + if again then [block] else []
      ensures replayMap == if canAdd || hasBlock then old(replayMap) else old(replayMap) + {block.hash}
      ensures if canAdd || hasBlock || block.previousHash in old(replayMap)
              then downloads == old(downloads) && replayQueue == old(replayQueue)
              else && downloads == old(downloads) + (if old(replayQueue) == [] then [block] else [])
                   && replayQueue == old(replayQueue) + [block]
    {
      received := received[1..];
      if canAdd {
        adding := adding + [block];
      } else if !hasBlock {
        if block.previousHash in replayMap {
          replayMap := replayMap + {block.hash};
          received := received + [block];
          return;
        }
        if |replayQueue| == 0 {
          downloads := downloads + [block];
        }
        replayQueue := replayQueue + [block];
        replayMap := replayMap + {block.hash};
      }
    }

    /** The downloaded blocks followed by the kept ones, and the hashes of the downloaded ones. */
    static method ReplaySlice(blocks: seq<Block>, kept: seq<Block>, replayMap0: set<Hash>)
      returns (slice: seq<Block>, replayMap: set<Hash>)
      ensures slice == blocks + kept && replayMap == replayMap0 + HashSet(blocks)
    {
      slice, replayMap := [], replayMap0;
      for i := 0 to |blocks|
        invariant slice == blocks[..i] && replayMap == replayMap0 + HashSet(blocks[..i])
      {
        slice := slice + [blocks[i]];
        replayMap := replayMap + {blocks[i].hash};
        assert blocks[..i + 1] == blocks[..i] + [blocks[i]];
      }
      assert blocks[..|blocks|] == blocks;
      for i := 0 to |kept|
        invariant slice == blocks + kept[..i]
      {
        slice := slice + [kept[i]];
      }
      assert kept[..|kept|] == kept;
    }

    /** A download has arrived. */
    method DownloadDone(blocks: seq<Block>)
      requires Valid() && replayQueue != []
      modifies this`received, this`replayQueue, this`replayMap
      ensures Valid() && State() == M.Downloaded(old(State()), blocks)
    {
      var slice, hashes := ReplaySlice(blocks, replayQueue, replayMap);
      Requeue(slice, hashes);
    }

    method Requeue(slice: seq<Block>, hashes: set<Hash>)
      requires Valid()
      modifies this`received, this`replayQueue, this`replayMap
      ensures Valid()
      ensures State() == old(State()).(received := old(received) + slice, replayQueue := [], replayMap := hashes)
    {
      received := received + slice;
      replayQueue := [];
      replayMap := hashes;
    }

    /** A peer's blocks have arrived at dial time: replace the ledger if they can be linked. The queues stay. */
    method Sync(blocks: seq<Block>) returns (done: bool)
      requires Valid()
      modifies this`blockchain
      ensures done <==> Serialization.Linkable(Serialization.Table(blocks))
      ensures Valid() && blockchain.TheRules() == old(blockchain.TheRules())
      ensures !done ==> blockchain == old(blockchain)
      ensures var table, g := Serialization.Table(blocks), blockchain.genesis.block.hash;
              done ==> Serialization.IsRoot(table, g) && blockchain.View() == Serialization.LinkedTree(table, g)
    {
      blockchain, done := Serialization.Synchronize(blockchain, blocks);
    }

    /** If the blocks list a ledger that can be sent, that ledger is what the manager has then, and nothing else
        changes. */
    method SyncWith(blocks: seq<Block>, ghost t: Tree)
      requires Valid() && Rooted(t) && Serialization.Portable(t) && ListsBlocks(blocks, t.blocks)
      modifies this`blockchain
      ensures Valid() && State() == old(State()).(tree := t) && blockchain.TheRules() == old(blockchain.TheRules())
    {
      Serialization.TableOfListing(blocks, t.blocks);
      Serialization.RebuildsExactly(t);
      var done := Sync(blocks);
    }

    method OfferBlock(block: Block) returns (r: AddResult)
      requires Valid()
      requires block.previousHash in blockchain.View().blocks ==> Grounded(blockchain.View(), block.previousHash)
      modifies blockchain`m, blockchain.m.Values
      ensures Valid()
      ensures blockchain.View() == Offer(RuleOf(blockchain.TheRules()), old(blockchain.View()), block)
      ensures r.Added? <==> Fits(RuleOf(blockchain.TheRules()), old(blockchain.View()), block)
    {
      r := blockchain.AddBlock(block);
    }

    /** Take the block off the queue, and send it on if it was accepted. */
    method Dequeue(accepted: bool)
      requires Valid() && adding != []
      modifies this`adding, this`sending
      ensures Valid() && blockchain.View() == old(blockchain.View())
      ensures adding == old(adding)[1..]
      ensures sending == old(sending) + if accepted then [old(adding)[0]] else []
    {
      var block := adding[0];
      adding := adding[1..];
      if accepted {
        sending := sending + [block];
      }
    }

    /** A queued block is offered to the ledger. The walk up from its parent must end. */
    method AddNext()
      requires Valid() && adding != []
      requires var t, prev := blockchain.View(), adding[0].previousHash; prev in t.blocks ==> Grounded(t, prev)
      modifies this`adding, this`sending, blockchain`m, blockchain.m.Values
      ensures Valid() && State() == M.AddNext(RuleOf(blockchain.TheRules()), old(State()))
    {
      var r := OfferBlock(adding[0]);
      Dequeue(r == Added);
    }

    /** GetPreviousBlocks as served to a peer: oldest block first, the requested block twice at the end. */
    method GetPreviousBlocks(h: Hash, n: nat) returns (blocks: seq<Block>)
      requires Valid()
      ensures h !in old(blockchain.View()).blocks ==> blocks == []
      ensures h in old(blockchain.View()).blocks ==>
                Linked(old(blockchain.View())) && blocks == Served(old(blockchain.View()), h, n)
    {
      ghost var t := blockchain.View();
      var list := blockchain.GetPreviousBlocks(h, n);
      blocks := Reversed(list);
      if h in t.blocks {
        Reversal.ReverseConcat([t.blocks[h]], Ancestors(t, h, n));
      }
    }

    static method Reversed(list: seq<Block>) returns (blocks: seq<Block>)
      ensures blocks == Reversal.Reverse(list)
    {
      var a := new Block[|list|](i requires 0 <= i < |list| => list[i]);
      assert a[..] == list;
      Reversal.ReverseToMiddle(a);
      blocks := a[..];
    }

    static ghost function Served(t: Tree, h: Hash, n: nat): seq<Block>
      requires Linked(t) && h in t.blocks
    {
      Reversal.Reverse(Ancestors(t, h, n)) + [t.blocks[h]]
    }

    static lemma ReverseTwice(s: seq<Block>)
      ensures Reversal.Reverse(Reversal.Reverse(s)) == s
    {
    }

    /** Where the chain ends, its newest part is served. */
    static lemma ServedIsNewest(t: Tree, h: Hash, n: nat)
      requires Linked(t) && Grounded(t, h) && h in t.blocks
      ensures Served(t, h, n) == Walks.Newest(Chain(t, h), n) + [t.blocks[h]]
    {
      Walks.AncestorsAreNewest(t, h, n);
      ReverseTwice(Walks.Newest(Chain(t, h), n));
    }
  }
}

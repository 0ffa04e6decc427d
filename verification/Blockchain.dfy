/** bclib/blockchain.go and bclib/blockchain_rfs.go: the pointer-linked block tree that a miner keeps. */
module Blockchains {
  import opened Types
  import opened BlockTree
  import opened Growth
  import opened Accounting
  import opened Selection
  import opened Ledger
  import opened FileViews
  import opened ViewPlaces
  import opened Nodes
  import Walks
  import Search
  import Validation
  import ProofOfWork

  /** The list holds the blocks of the table, each once. */
  ghost predicate ListsBlocks(list: seq<Block>, table: map<Hash, Block>) {
    && (forall b :: b in list <==> b.hash in table && table[b.hash] == b)
    && (forall i, j :: 0 <= i < j < |list| ==> list[i].hash != list[j].hash)
  }

  lemma SameTree(t: Tree, u: Tree)
    requires t.genesis == u.genesis
    requires forall h :: h in t.blocks <==> h in u.blocks
    requires forall h :: h in t.blocks && h in u.blocks ==> t.blocks[h] == u.blocks[h]
    requires forall h :: h in t.parent <==> h in u.parent
    requires forall h :: h in t.parent && h in u.parent ==> t.parent[h] == u.parent[h]
    ensures t == u
  {
  }

  class Blockchain {
    var genesis: Node
    var lastNode: Node
    var m: map<Hash, Node>
    var config: Settings
    const md5: PowData -> Hash

    predicate Known(n: Node)
      reads this`m
    {
      KnownIn(m, n)
    }

    /** Keys, parents and children agree with each other. */
    ghost predicate Wired()
      reads this`m, this`genesis, this`lastNode, m.Values
    {
      && Known(genesis) && genesis.parent == null
      && Known(lastNode)
      && Wires(m)
    }

    ghost function View(): Tree
      reads this`m, this`genesis, m.Values
    {
      Tree(map h | h in m :: m[h].block, ParentMap(m), genesis.block.hash)
    }

    /** The child lists, as hashes. */
    ghost function Kids(): Search.Kids
      reads this`m, m.Values
    {
      map h | h in m :: Hashes(m[h].children)
    }

    /** The hashes that getLastNodes lists, in order: they depend on the child lists only. */
    ghost function Tips(): seq<Hash>
      reads this`m, this`genesis, m.Values
    {
      Search.LastTips(genesis.block.hash, Kids())
    }

    ghost function TheRules(): Rules
      reads this`config
    {
      Rules(config, md5)
    }

    lemma WiredIsLinked()
      requires Wired()
      ensures Linked(View())
    {
      assert forall h :: h in m && m[h].parent != null ==> PointsUp(m, m[h]);
    }

    /** NewBlockchain, with the clock reading passed in. */
    constructor (config: Settings, md5: PowData -> Hash, now: int)
      ensures Wired() && fresh(m.Values)
      ensures View() == Single(GenesisBlock(config, now)) && Kids() == map[config.genesisBlockHash := []]
      ensures this.config == config && this.md5 == md5
    {
      var node := new Node(GenesisBlock(config, now), null);
      genesis, lastNode := node, node;
      m := map[node.block.hash := node];
      this.config, this.md5 := config, md5;
    }

    /** The struct that UnmarshallBlockchain fills in: its settings are still the zero value. */
    constructor FromNodes(genesis: Node, m: map<Hash, Node>, md5: PowData -> Hash)
      requires Wires(m) && KnownIn(m, genesis) && genesis.parent == null
      ensures Wired() && this.genesis == genesis && this.m == m && this.md5 == md5
    {
      this.genesis, this.lastNode, this.m, this.md5 := genesis, genesis, m, md5;
      this.config := Settings(0, 0, 0, 0, 0, 0, 0, []);
    }

    method SetConfig(config: Settings)
      modifies this`config
      ensures this.config == config
    {
      this.config := config;
    }

    /** The nodes that a walk from `h` to the root visits, in root-first order. */
    ghost function PathTo(h: Hash): (p: seq<Node>)
      requires Wired() && Grounded(View(), h)
      reads this`m, this`genesis, this`lastNode, m.Values
      ensures |p| == |Chain(View(), h)|
      ensures forall i :: 0 <= i < |p| ==> p[i].block == Chain(View(), h)[i] && Known(p[i])
    {
      var c, nodes := Chain(View(), h), m;
      seq(|c|, i requires 0 <= i < |c| => nodes[c[i].hash])
    }

    lemma PathToIsPath(h: Hash)
      requires Wired() && Grounded(View(), h)
      ensures h in m && IsNodePath(PathTo(h)) && PathTo(h)[|PathTo(h)| - 1] == m[h]
      ensures BlocksOf(PathTo(h)) == Chain(View(), h)
    {
      var c, p := Chain(View(), h), PathTo(h);
      forall i | 0 <= i < |p|
        ensures p[i].parent == if i == 0 then null else p[i - 1]
      {
        assert PointsUp(m, m[c[i].hash]);
      }
    }

    /** ValidateOperations: the answer is a maximal affordable choice of the operations that do not
        conflict with the chain, and the verdict is exact. */
    method ValidateOperations(ops: seq<Operation>, prev: Hash) returns (valid: seq<Operation>, ok: bool)
      requires Wired() && (prev in m ==> Grounded(View(), prev))
      ensures ops == [] ==> valid == [] && ok
      ensures ops != [] && prev !in m ==> valid == [] && !ok
      ensures ops != [] && prev in m ==> IsSelection(config, Chain(View(), prev), ops, valid)
      ensures ops != [] && prev in m ==> (ok <==> Acceptable(config, Chain(View(), prev), ops))
      // the same without tables and replay
      ensures ops != [] && prev in m ==> SelectsMost(config, Chain(View(), prev), ops, valid)
      ensures ops != [] && prev in m ==> (ok <==> MayFollow(config, Chain(View(), prev), ops))
    {
      if |ops| == 0 {
        return [], true;
      }
      if prev !in m {
        return [], false;
      }
      PathToIsPath(prev);
      var balances, opIds := Walks.ReplayChain(config, m[prev], ops, PathTo(prev));
      Validation.ReplayedAll(config, Chain(View(), prev), ops);
      SurvivorsKnown(OpsOn(Chain(View(), prev)), ops);
      valid := Validation.SelectAffordable(config, balances, opIds);
      assert IsSelection(config, Chain(View(), prev), ops, valid);
      VerdictIsExact(config, Chain(View(), prev), ops, valid);
      SelectionByCounting(config, Chain(View(), prev), ops, valid);
      AcceptableByCounting(config, Chain(View(), prev), ops);
      ok := |ops| == |valid|;
    }

    static lemma SurvivorsKnown(past: seq<Operation>, ops: seq<Operation>)
      ensures forall id :: id in Survivors(past, ops) ==>
                             && Survivors(past, ops)[id].operationID == id
                             && Survivors(past, ops)[id].minerID in MinersOf(ops)
    {
      ByIdHolds(ops);
    }

    method ValidateBlock(block: Block) returns (r: AddResult)
      requires Wired() && block.hash !in m && (block.previousHash in m ==> Grounded(View(), block.previousHash))
      ensures r == if Verdict(TheRules(), View(), block).MissingPrevious? then Added
                   else Verdict(TheRules(), View(), block)
    {
      var difficulty := config.powPerNoOpBlock;
      if |block.operations| > 0 {
        difficulty := config.powPerOpBlock;
      }
      var powOk := ProofOfWork.Validate(md5, block, difficulty);
      if !powOk {
        return PowFailed;
      }
      var _, ok := ValidateOperations(block.operations, block.previousHash);
      if !ok {
        return OperationsInvalid;
      }
      return Added;
    }

    /** The one change to the pointers: `node` is new and hangs below the node of its previous hash. */
    twostate predicate Hung(new node: Node)
      reads this, node, m.Values
    {
      var b := node.block;
      && b.hash !in old(m) && b.previousHash in old(m)
      && m == old(m)[b.hash := node] && genesis == old(genesis) && lastNode == old(lastNode)
      && node.parent == old(m[b.previousHash]) && node.children == []
      && forall h :: h in old(m) ==>
                       && m[h].parent == old(m[h].parent)
                       && m[h].children == if h == b.previousHash then old(m[h].children) + [node]
                           else old(m[h].children)
    }

    twostate lemma HungPointsUp(new node: Node, h: Hash)
      requires old(Wired()) && Hung(node) && h in m
      ensures m[h].block.hash == h && PointsUp(m, m[h])
    {
      if h != node.block.hash {
        assert old(PointsUp(m, m[h]));
      }
    }

    twostate lemma HungPointsDown(new node: Node, h: Hash)
      requires old(Wired()) && Hung(node) && h in m
      requires node !in old(m.Values)
      ensures m[h].block.hash == h && PointsDown(m, m[h])
    {
      if h != node.block.hash {
        assert old(PointsDown(m, m[h]));
        assert forall i :: 0 <= i < |old(m[h].children)| ==> m[h].children[i] == old(m[h].children)[i];
      }
    }

    twostate lemma HungIsAttached(new node: Node)
      requires old(Wired()) && Hung(node)
      ensures View() == Attach(old(View()), node.block)
    {
      SameTree(View(), Attach(old(View()), node.block));
    }

    twostate lemma HungKids(new node: Node)
      requires old(Wired()) && Hung(node)
      ensures Kids() == Search.Hang(old(Kids()), node.block)
    {
      var was, now, b := old(Kids()), Kids(), node.block;
      assert now.Keys == Search.Hang(was, b).Keys;
      forall h | h in now
        ensures now[h] == Search.Hang(was, b)[h]
      {
        assert h in old(m) ==> was[h] == Hashes(old(m[h].children));
      }
    }

    /** Hang a new node below its parent, at the end of its child list. */
    method Link(block: Block)
      requires Wired() && block.hash !in m && block.previousHash in m
      modifies this`m, m.Values
      ensures Wired() && fresh(m.Values - old(m.Values))
      ensures View() == Attach(old(View()), block) && Kids() == Search.Hang(old(Kids()), block)
    {
      var prevNode := m[block.previousHash];
      var node := new Node(block, prevNode);
      prevNode.children := prevNode.children + [node];
      m := m[block.hash := node];
      assert Hung(node);
      HungIsAttached(node);
      HungKids(node);
      forall h | h in m
        ensures m[h].block.hash == h && PointsUp(m, m[h]) && PointsDown(m, m[h])
      {
        HungPointsUp(node, h);
        HungPointsDown(node, h);
      }
    }

    /** AddBlock: the tree grows by the block exactly when it fits. */
    method AddBlock(block: Block) returns (r: AddResult)
      requires Wired() && (block.previousHash in m ==> Grounded(View(), block.previousHash))
      modifies this`m, m.Values
      ensures Wired() && fresh(m.Values - old(m.Values))
      ensures r == Verdict(TheRules(), old(View()), block)
      ensures View() == Offer(RuleOf(TheRules()), old(View()), block)
      ensures Kids() == if r.Added? then Search.Hang(old(Kids()), block) else old(Kids())
    {
      ghost var kids := Kids();
      r := CheckBlock(block);
      assert Kids() == kids;
      if r == Added {
        Link(block);
      }
    }

    /** The checks of AddBlock, in order. */
    method CheckBlock(block: Block) returns (r: AddResult)
      requires Wired() && (block.previousHash in m ==> Grounded(View(), block.previousHash))
      ensures r == Verdict(TheRules(), old(View()), block)
    {
      if block.hash in m {
        return AlreadyExists;
      }
      r := ValidateBlock(block);
      if r != Added {
        return;
      }
      if block.previousHash !in m {
        return MissingPrevious;
      }
    }

    // ---------- the longest chains ----------

    static ghost function Hashes(nodes: seq<Node>): (hs: seq<Hash>)
      ensures |hs| == |nodes|
      ensures forall i :: 0 <= i < |nodes| ==> hs[i] == nodes[i].block.hash
    {
      seq(|nodes|, i requires 0 <= i < |nodes| => nodes[i].block.hash)
    }

    static lemma HashesConcat(a: seq<Node>, b: seq<Node>)
      ensures Hashes(a + b) == Hashes(a) + Hashes(b)
    {
    }

    ghost predicate AllKnown(nodes: seq<Node>)
      reads this`m
    {
      forall i :: 0 <= i < |nodes| ==> Known(nodes[i])
    }

    lemma ChildrenAreKids(n: Node)
      requires Wired() && Known(n)
      ensures AllKnown(n.children) && Search.IsKids(View().parent, n.block.hash, Hashes(n.children))
    {
      var parent, kids := View().parent, Hashes(n.children);
      assert PointsDown(m, m[n.block.hash]);
      forall c
        ensures c in kids <==> c in parent && parent[c] == n.block.hash
      {
        if c in kids {
          var i :| 0 <= i < |kids| && kids[i] == c;
          assert Known(n.children[i]) && n.children[i].parent == n;
        }
        if c in parent && parent[c] == n.block.hash {
          assert PointsUp(m, m[c]) && m[c] in n.children;
          var i :| 0 <= i < |n.children| && n.children[i] == m[c];
          assert kids[i] == c;
        }
      }
    }

    lemma KidsOrder()
      requires Wired()
      ensures Linked(View()) && Search.Orders(View(), Kids())
    {
      WiredIsLinked();
      forall h | h in Kids()
        ensures Search.IsKids(View().parent, h, Kids()[h])
      {
        ChildrenAreKids(m[h]);
      }
    }

    /** Every node's children are known, and listed in `kids`. */
    ghost predicate ListsKids(kids: Search.Kids)
      reads this`m, m.Values
    {
      forall h {:trigger m[h].children} :: h in m ==>
                                             AllKnown(m[h].children) && h in kids && kids[h] == Hashes(m[h].children)
    }

    lemma NodesListKids()
      requires Wired()
      ensures ListsKids(Kids())
    {
      forall h | h in m
        ensures AllKnown(m[h].children)
      {
        ChildrenAreKids(m[h]);
      }
    }

    /** Push nodes and their common depth, in lockstep. */
    static method PushAll(nStack0: seq<Node>, dStack0: seq<nat>, nodes: seq<Node>, d: nat)
      returns (nStack: seq<Node>, dStack: seq<nat>)
      ensures nStack == nStack0 + nodes && dStack == dStack0 + seq(|nodes|, _ => d)
    {
      nStack, dStack := nStack0, dStack0;
      for i := 0 to |nodes|
        invariant nStack == nStack0 + nodes[..i] && dStack == dStack0 + seq(i, _ => d)
      {
        nStack := nStack + [nodes[i]];
        dStack := dStack + [d];
      }
      assert nodes[..|nodes|] == nodes;
    }

    /** Pop the top of the two stacks and push its children. */
    method Expand(nStack0: seq<Node>, dStack0: seq<nat>, ghost kids: Search.Kids)
      returns (node: Node, d: nat, nStack: seq<Node>, dStack: seq<nat>)
      requires ListsKids(kids) && AllKnown(nStack0) && |dStack0| == |nStack0| > 0
      ensures node == nStack0[|nStack0| - 1] && d == dStack0[|nStack0| - 1]
      ensures AllKnown(nStack) && node.block.hash in kids
      ensures Hashes(nStack) == Hashes(nStack0)[..|nStack0| - 1] + kids[node.block.hash]
      ensures dStack == dStack0[..|nStack0| - 1] + seq(|kids[node.block.hash]|, _ => d + 1)
    {
      d, node := dStack0[|dStack0| - 1], nStack0[|nStack0| - 1];
      assert Known(node) && AllKnown(m[node.block.hash].children);
      ghost var children := node.children;
      HashesBelowTop(nStack0, children);
      nStack, dStack := PushAll(nStack0[..|nStack0| - 1], dStack0[..|dStack0| - 1], node.children, d + 1);
    }

    static lemma HashesBelowTop(nStack: seq<Node>, kids: seq<Node>)
      requires |nStack| > 0
      ensures Hashes(nStack[..|nStack| - 1] + kids) == Hashes(nStack)[..|nStack| - 1] + Hashes(kids)
    {
    }

    /** Note a visited node in the list of deepest nodes. */
    static method Visit(node: Node, d: nat, maxDepth0: nat, last0: Node, lastNodes0: seq<Node>)
      returns (maxDepth: nat, last: Node, lastNodes: seq<Node>)
      requires |lastNodes0| > 0 && last0 == lastNodes0[0]
      ensures |lastNodes| > 0 && last == lastNodes[0] && maxDepth == if d > maxDepth0 then d else maxDepth0
      ensures lastNodes == if d > maxDepth0 then [node] else if d == maxDepth0 then lastNodes0 + [node] else lastNodes0
    {
      maxDepth, last, lastNodes := maxDepth0, last0, lastNodes0;
      if d > maxDepth {
        maxDepth, last, lastNodes := d, node, [node];
      } else if d == maxDepth {
        lastNodes := lastNodes + [node];
      }
    }

    /** The loop variables are those of the search state. */
    static ghost predicate Shows(s: Search.Hunt, nStack: seq<Node>, dStack: seq<nat>, maxDepth: nat,
                                 lastNodes: seq<Node>)
    {
      s.stack == Hashes(nStack) && s.depths == dStack && s.max == maxDepth && s.last == Hashes(lastNodes)
    }

    static lemma ShowsTurn(kids: Search.Kids, s: Search.Hunt, nStack0: seq<Node>, dStack0: seq<nat>, max0: nat,
                           lastNodes0: seq<Node>,
                           nStack: seq<Node>, dStack: seq<nat>, max: nat, lastNodes: seq<Node>)
      requires Shows(s, nStack0, dStack0, max0, lastNodes0) && |dStack0| == |nStack0| > 0
      requires nStack0[|nStack0| - 1].block.hash in kids
      requires var node, d := nStack0[|nStack0| - 1], dStack0[|nStack0| - 1];
               && Hashes(nStack) == Hashes(nStack0)[..|nStack0| - 1] + kids[node.block.hash]
               && dStack == dStack0[..|nStack0| - 1] + seq(|kids[node.block.hash]|, _ => d + 1)
               && max == (if d > max0 then d else max0)
               && lastNodes == if d > max0 then [node] else if d == max0 then lastNodes0 + [node] else lastNodes0
      ensures Shows(Search.Turn(kids, s), nStack, dStack, max, lastNodes)
    {
      var node := nStack0[|nStack0| - 1];
      assert Hashes([node]) == [node.block.hash];
      HashesConcat(lastNodes0, [node]);
    }

    /** One turn of the loop. */
    method Advance(nStack0: seq<Node>, dStack0: seq<nat>, max0: nat, last0: Node, lastNodes0: seq<Node>,
                   ghost kids: Search.Kids, ghost s: Search.Hunt)
      returns (nStack: seq<Node>, dStack: seq<nat>, maxDepth: nat, last: Node, lastNodes: seq<Node>)
      requires ListsKids(kids) && |dStack0| == |nStack0| > 0 && Tracks(s, nStack0, dStack0, max0, last0, lastNodes0)
      requires s.stack[|s.stack| - 1] in kids
      ensures Tracks(Search.Turn(kids, s), nStack, dStack, maxDepth, last, lastNodes)
    {
      var node, d;
      node, d, nStack, dStack := Expand(nStack0, dStack0, kids);
      maxDepth, last, lastNodes := Visit(node, d, max0, last0, lastNodes0);
      ShowsTurn(kids, s, nStack0, dStack0, max0, lastNodes0, nStack, dStack, maxDepth, lastNodes);
    }

    /** The loop variables hold known nodes and show the search state. */
    ghost predicate Tracks(s: Search.Hunt, nStack: seq<Node>, dStack: seq<nat>, maxDepth: nat, last: Node,
                           lastNodes: seq<Node>)
      reads this`m
    {
      && AllKnown(nStack) && AllKnown(lastNodes) && |lastNodes| > 0 && last == lastNodes[0]
      && Shows(s, nStack, dStack, maxDepth, lastNodes)
    }

    /** The search itself: two stacks in lockstep, from the genesis block downwards. It keeps what its turns keep. */
    method RunSearch(ghost kids: Search.Kids, ghost inv: Search.Hunt -> bool, ghost left: Search.Hunt -> nat)
      returns (lastNodes: seq<Node>, last: Node, ghost s: Search.Hunt)
      requires Known(genesis) && ListsKids(kids) && inv(Search.Start(genesis.block.hash))
      requires forall s {:trigger Search.TurnWorks(kids, inv, left, s)} :: Search.TurnWorks(kids, inv, left, s)
      ensures inv(s) && (s.stack == [] || s.depths == []) && s.last == Hashes(lastNodes)
      ensures AllKnown(lastNodes) && |lastNodes| > 0 && last == lastNodes[0]
    {
      s := Search.Start(genesis.block.hash);
      assert Hashes([genesis]) == [genesis.block.hash];
      var dStack, nStack: seq<Node> := [0], [genesis];
      last, lastNodes := genesis, [genesis];
      var maxDepth := 0;
      while |nStack| > 0 && |dStack| > 0
        invariant ListsKids(kids) && Tracks(s, nStack, dStack, maxDepth, last, lastNodes) && inv(s)
        decreases left(s)
      {
        assert Search.TurnWorks(kids, inv, left, s);
        nStack, dStack, maxDepth, last, lastNodes := Advance(nStack, dStack, maxDepth, last, lastNodes, kids, s);
        s := Search.Turn(kids, s);
      }
    }

    method FindDeepest(ghost parent: map<Hash, Hash>, ghost kids: Search.Kids, ghost depth: map<Hash, nat>,
                       ghost top: nat)
      returns (lastNodes: seq<Node>, last: Node)
      requires Known(genesis) && ListsKids(kids) && Search.ListsAllKids(parent, kids)
      requires Search.IsDepths(parent, genesis.block.hash, depth) && Search.Descends(kids, depth, top)
      ensures Hashes(lastNodes) == Search.DeepestVisited(kids, depth, top, genesis.block.hash)
      ensures AllKnown(lastNodes) && |lastNodes| > 0 && last == lastNodes[0]
    {
      ghost var g := genesis.block.hash;
      ghost var inv, left := Search.TurnsWork(parent, g, kids, depth, top);
      ghost var s;
      lastNodes, last, s := RunSearch(kids, inv, left);
      Search.Finish(parent, g, kids, depth, top, s);
    }

    method Deepest(ghost t: Tree, ghost kids: Search.Kids) returns (lastNodes: seq<Node>, last: Node)
      requires Wired() && t == View() && kids == Kids()
      ensures AllKnown(lastNodes) && |lastNodes| > 0 && last == lastNodes[0]
      ensures Hashes(lastNodes) == Search.LastTips(t.genesis, kids)
    {
      KidsOrder();
      NodesListKids();
      Search.DepthsHold(t);
      Search.OrderedDescends(t, kids);
      lastNodes, last := FindDeepest(t.parent, kids, Search.Depths(t), Search.Top(Search.Depths(t)));
      Search.LastTipsInOrder(t.parent, t.genesis, kids, Search.Depths(t), Search.Top(Search.Depths(t)));
    }

    /** getLastNodes: the nodes of maximum depth below the genesis block, in the order of the search. */
    method GetLastNodes() returns (lastNodes: seq<Node>)
      requires Wired()
      modifies this`lastNode
      ensures Wired()
      ensures Hashes(lastNodes) == old(Tips()) && AllKnown(lastNodes)
      ensures |lastNodes| > 0 && lastNode == lastNodes[0]
    {
      var last;
      lastNodes, last := Deepest(View(), Kids());
      SetLastNode(last);
    }

    method SetLastNode(node: Node)
      requires Wired() && Known(node)
      modifies this`lastNode
      ensures Wired() && lastNode == node
    {
      lastNode := node;
    }

    /** The search has left `lastNode` at the first tip. */
    twostate predicate AtFirstTip()
      reads this`lastNode
    {
      old(Tips()) != [] && lastNode.block.hash == old(Tips())[0] && IsTip(old(View()), lastNode.block.hash)
    }

    lemma TipsAreTips()
      requires Wired()
      ensures Tips() != [] && forall h :: h in Tips() <==> IsTip(View(), h)
      ensures if IsTip(View(), genesis.block.hash) then Tips() == [genesis.block.hash, genesis.block.hash]
              else Search.Distinct(Tips())
    {
      KidsOrder();
      Search.LastTipsAreTips(View(), Kids());
    }

    /** The tip that all reads go by. */
    lemma FirstTip()
      requires Wired()
      ensures Tips() != [] && IsTip(View(), Tips()[0])
    {
      TipsAreTips();
      assert Tips()[0] in Tips();
    }

    method GetLastHash() returns (h: Hash)
      requires Wired()
      modifies this`lastNode
      ensures Wired()
      ensures old(Tips()) != [] && h == old(Tips())[0] == lastNode.block.hash && IsTip(old(View()), h)
    {
      FirstTip();
      var lastNodes := GetLastNodes();
      h := lastNodes[0].block.hash;
      assert Hashes(lastNodes)[0] == h;
    }

    static method ListBlocks(nodes: seq<Node>) returns (blocks: seq<Block>)
      ensures blocks == BlocksOf(nodes)
    {
      blocks := [];
      for i := 0 to |nodes|
        invariant blocks == BlocksOf(nodes[..i])
      {
        blocks := blocks + [nodes[i].block];
      }
      assert nodes[..|nodes|] == nodes;
    }

    /** The list has the blocks of the given hashes, in the same order. */
    static ghost predicate AreBlocksOf(t: Tree, hs: seq<Hash>, blocks: seq<Block>) {
      |blocks| == |hs| && forall i {:trigger blocks[i]} :: 0 <= i < |hs| ==>
                            hs[i] in t.blocks && blocks[i] == t.blocks[hs[i]] && blocks[i].hash == hs[i]
    }

    /** GetLastBlocks: the blocks of the tips, in the same order. */
    method GetLastBlocks() returns (blocks: seq<Block>)
      requires Wired()
      modifies this`lastNode
      ensures Wired()
      ensures |blocks| > 0 && blocks[0] == lastNode.block && AreBlocksOf(old(View()), old(Tips()), blocks)
    {
      var lastNodes := GetLastNodes();
      BlocksOfKnown(lastNodes);
      blocks := ListBlocks(lastNodes);
    }

    lemma BlocksOfKnown(nodes: seq<Node>)
      requires Wired() && AllKnown(nodes)
      ensures AreBlocksOf(View(), Hashes(nodes), BlocksOf(nodes))
    {
      assert forall i :: 0 <= i < |nodes| ==> Known(nodes[i]);
    }

    // ---------- file views ----------

    /** getLastConfirmedNode: the node `n` steps above the chosen tip, if the chain is that long. */
    method GetLastConfirmedNode(n: nat) returns (node: Node, ok: bool)
      requires Wired()
      modifies this`lastNode
      ensures Wired() && AtFirstTip()
      ensures ok <==> n < |Chain(old(View()), lastNode.block.hash)|
      ensures ok ==> Known(node) && node.block.hash == ConfirmedHash(old(View()), lastNode.block.hash, n)
    {
      var tip := GetLastHash();
      node, ok := NodeAbove(tip, n);
    }

    method NodeAbove(tip: Hash, n: nat) returns (node: Node, ok: bool)
      requires Wired() && Grounded(View(), tip)
      ensures ok <==> n < |Chain(old(View()), tip)|
      ensures ok ==> Known(node) && node.block.hash == ConfirmedHash(old(View()), tip, n)
    {
      PathToIsPath(tip);
      node, ok := Walks.StepBack(m[tip], n, PathTo(tip));
    }

    /** The nodes above a confirmed node carry the confirmed chain. */
    lemma ConfirmedPath(tip: Hash, n: nat)
      requires Wired() && Grounded(View(), tip) && n < |Chain(View(), tip)|
      ensures var h := ConfirmedHash(View(), tip, n);
              && h in m && Grounded(View(), h)
              && IsNodePath(PathTo(h)) && PathTo(h)[|PathTo(h)| - 1] == m[h]
              && BlocksOf(PathTo(h)) == Confirmed(Chain(View(), tip), n)
    {
      ConfirmedIsChain(View(), tip, n);
      PathToIsPath(ConfirmedHash(View(), tip, n));
    }

    /** GetFile: the records of the file on the confirmed part of the longest chain. */
    method GetFile(fname: string) returns (file: FileOps, ok: bool)
      requires Wired()
      modifies this`lastNode
      ensures Wired() && AtFirstTip()
      ensures ShowsFile(Chain(old(View()), lastNode.block.hash), config.confirmsPerFileAppend, fname, file, ok)
    {
      var node, found := GetLastConfirmedNode(config.confirmsPerFileAppend);
      if !found {
        return FileOps("", [], false), false;
      }
      file, ok := ReadAt(node, fname, lastNode.block.hash, config.confirmsPerFileAppend);
    }

    /** The file on the chain of a confirmed node. */
    method ReadAt(node: Node, fname: string, ghost tip: Hash, ghost n: nat) returns (file: FileOps, ok: bool)
      requires Wired() && Grounded(View(), tip) && n < |Chain(View(), tip)|
      requires Known(node) && node.block.hash == ConfirmedHash(View(), tip, n)
      ensures ShowsFile(Chain(old(View()), tip), n, fname, file, ok)
    {
      ConfirmedPath(tip, n);
      file, ok := Walks.ReadFile(node, fname, PathTo(node.block.hash));
    }

    /** NumRecs: as many records as GetFile returns. */
    method NumRecs(fname: string) returns (numRecs: int, ok: bool)
      requires Wired()
      modifies this`lastNode
      ensures Wired() && AtFirstTip()
      ensures ShowsCount(Chain(old(View()), lastNode.block.hash), config.confirmsPerFileAppend, fname, numRecs, ok)
    {
      var node, found := GetLastConfirmedNode(config.confirmsPerFileAppend);
      if !found {
        return -1, false;
      }
      numRecs, ok := CountAt(node, fname, lastNode.block.hash, config.confirmsPerFileAppend);
    }

    method CountAt(node: Node, fname: string, ghost tip: Hash, ghost n: nat) returns (numRecs: nat, ok: bool)
      requires Wired() && Grounded(View(), tip) && n < |Chain(View(), tip)|
      requires Known(node) && node.block.hash == ConfirmedHash(View(), tip, n)
      ensures ShowsCount(Chain(old(View()), tip), n, fname, numRecs, ok)
    {
      ConfirmedPath(tip, n);
      numRecs, ok := Walks.CountFile(node, fname, PathTo(node.block.hash));
    }

    /** ListFiles: the files named on the confirmed part of the longest chain, each once. */
    method ListFiles() returns (list: seq<string>)
      requires Wired()
      modifies this`lastNode
      ensures Wired() && AtFirstTip()
      ensures ShowsNames(Chain(old(View()), lastNode.block.hash), config.confirmsPerFileCreate, list)
      ensures forall i, j :: 0 <= i < j < |list| ==> list[i] != list[j]
    {
      var node, found := GetLastConfirmedNode(config.confirmsPerFileCreate);
      if !found {
        return [];
      }
      list := ListAt(node, lastNode.block.hash, config.confirmsPerFileCreate);
    }

    method ListAt(node: Node, ghost tip: Hash, ghost n: nat) returns (list: seq<string>)
      requires Wired() && Grounded(View(), tip) && n < |Chain(View(), tip)|
      requires Known(node) && node.block.hash == ConfirmedHash(View(), tip, n)
      ensures ShowsNames(Chain(old(View()), tip), n, list)
      ensures forall i, j :: 0 <= i < j < |list| ==> list[i] != list[j]
    {
      ConfirmedPath(tip, n);
      list := Walks.ListNames(node, PathTo(node.block.hash));
    }

    /** What is said about `o` on the chain: with the settings' own fields, and place by place. */
    static ghost predicate Reports(cfg: Settings, c: seq<Block>, o: Operation, confirmed: bool, exists_: bool,
                                   otherMiner: bool)
    {
      && (exists_ <==> o.operationID in IdsIn(OpsOn(c)))
      && (o.op.Append? ==> (confirmed <==> Settled(c, o.operationID, cfg.confirmsPerFileAppend + 1)))
      && (!o.op.Append? ==> (confirmed <==> Settled(c, o.operationID, cfg.confirmsPerFileCreate + 1)))
      && (otherMiner <==> exists i, k :: ClashAt(c, o, i, k))
    }

    /** CheckOpConfirmed, on the chosen longest chain. */
    method CheckOpConfirmed(o: Operation) returns (confirmed: bool, exists_: bool, otherMiner: bool)
      requires Wired()
      modifies this`lastNode
      ensures Wired() && AtFirstTip()
      ensures var c := Chain(old(View()), lastNode.block.hash);
              (confirmed <==> IsConfirmed(config, c, o)) && Reports(config, c, o, confirmed, exists_, otherMiner)
    {
      var tip := GetLastHash();
      confirmed, exists_, otherMiner := CheckAt(tip, o);
    }

    method CheckAt(tip: Hash, o: Operation) returns (confirmed: bool, exists_: bool, otherMiner: bool)
      requires Wired() && Grounded(View(), tip)
      ensures var c := Chain(old(View()), tip);
              (confirmed <==> IsConfirmed(config, c, o)) && Reports(config, c, o, confirmed, exists_, otherMiner)
    {
      PathToIsPath(tip);
      confirmed, exists_, otherMiner := Walks.CheckOperation(config, m[tip], o, PathTo(tip));
      ReportsHold(config, Chain(View(), tip), o, confirmed, exists_, otherMiner);
    }

    static lemma ReportsHold(cfg: Settings, c: seq<Block>, o: Operation, confirmed: bool, exists_: bool,
                             otherMiner: bool)
      requires exists_ <==> o.operationID in IdsIn(OpsOn(c))
      requires (confirmed <==> IsConfirmed(cfg, c, o)) && (otherMiner <==> ClashBeforeMatch(Scan(c), o))
      ensures Reports(cfg, c, o, confirmed, exists_, otherMiner)
    {
      ConfirmedIsSettled(cfg, c, o);
      ClashByPlace(c, o);
    }

    /** GetPreviousBlocks: the requested block, then the same block again and up to `n - 1` blocks above it. It answers
        on any linked ledger, also for a block on a detached cycle. */
    method GetPreviousBlocks(h: Hash, n: nat) returns (result: seq<Block>)
      requires Wired()
      ensures h !in m ==> result == []
      ensures h in m ==> Linked(View()) && result == [View().blocks[h]] + Ancestors(View(), h, n)
    {
      if h !in m {
        return [];
      }
      WiredIsLinked();
      result := CollectBlocks(m[h], n, View());
    }

    method CollectBlocks(node0: Node, n: nat, ghost t: Tree) returns (result: seq<Block>)
      requires Wired() && Known(node0) && t == View() && Linked(t)
      ensures result == [node0.block] + Ancestors(t, node0.block.hash, n)
    {
      result := [node0.block];
      var node: Node? := node0;
      var i := 1;
      while node != null && i <= n
        invariant 1 <= i <= n + 1
        invariant node != null ==> Known(node)
        invariant result + (if node == null then [] else Ancestors(t, node.block.hash, n + 1 - i))
               == [node0.block] + Ancestors(t, node0.block.hash, n)
        decreases n + 1 - i
      {
        assert PointsUp(m, m[node.block.hash]);
        ghost var up := node.parent;
        assert Ancestors(t, node.block.hash, n + 1 - i)
            == [node.block] + if up == null then [] else Ancestors(t, up.block.hash, n - i);
        result := result + [node.block];
        i := i + 1;
        node := node.parent;
      }
    }

    /** GetBlocks: every block once, in an arbitrary order. */
    method GetBlocks() returns (blocks: seq<Block>)
      requires Wired()
      ensures ListsBlocks(blocks, View().blocks)
    {
      blocks := [];
      var todo := m.Keys;
      while todo != {}
        invariant todo <= m.Keys
        invariant forall b :: b in blocks <==> b.hash in m && b.hash !in todo && m[b.hash].block == b
        invariant forall i, j :: 0 <= i < j < |blocks| ==> blocks[i].hash != blocks[j].hash
        decreases todo
      {
        var h :| h in todo;
        blocks := blocks + [m[h].block];
        todo := todo - {h};
      }
    }
  }
}

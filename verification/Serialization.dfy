/** Turning a ledger into a list of blocks and back: GetBlocks and UnmarshallBlockchain. */
module Serialization {
  import opened Types
  import opened BlockTree
  import opened Growth
  import opened Nodes
  import opened Blockchains

  // ---------- what a list of blocks links to ----------

  /** The block stored for each hash: a later block replaces an earlier one. */
  ghost function Table(blocks: seq<Block>): map<Hash, Block> {
    if blocks == [] then map[]
    else Table(blocks[..|blocks| - 1])[blocks[|blocks| - 1].hash := blocks[|blocks| - 1]]
  }

  ghost predicate IsRoot(table: map<Hash, Block>, h: Hash) {
    h in table && table[h].previousHash == []
  }

  ghost predicate HasParent(table: map<Hash, Block>, h: Hash) {
    h in table && table[h].previousHash != [] && table[h].previousHash in table
  }

  /** Every block is a root or has its parent in the table. */
  ghost predicate Closed(table: map<Hash, Block>) {
    forall h :: h in table ==> IsRoot(table, h) || HasParent(table, h)
  }

  /** Every block but the roots has its parent, and there is a root. */
  ghost predicate Linkable(table: map<Hash, Block>) {
    Closed(table) && exists h :: IsRoot(table, h)
  }

  ghost function LinkedParents(table: map<Hash, Block>): map<Hash, Hash> {
    map h | h in table && table[h].previousHash != [] :: table[h].previousHash
  }

  /** The tree that linking the table by previous hashes gives, with the chosen genesis. */
  ghost function LinkedTree(table: map<Hash, Block>, genesis: Hash): Tree {
    Tree(table, LinkedParents(table), genesis)
  }

  // ---------- the linking loops ----------

  datatype Unmarshalled = Linked(bc: Blockchain) | NoParent | NoGenesis

  method MakeNodes(blocks: seq<Block>) returns (nodes: map<Hash, Node>)
    ensures fresh(nodes.Values) && Unlinked(nodes, Table(blocks))
  {
    nodes := map[];
    for i := 0 to |blocks|
      invariant forall h :: h in nodes ==> fresh(nodes[h])
      invariant Unlinked(nodes, Table(blocks[..i]))
    {
      var node := new Node(blocks[i], null);
      nodes := nodes[blocks[i].hash := node];
      assert blocks[..i + 1][..i] == blocks[..i];
    }
    assert blocks[..|blocks|] == blocks;
  }

  /** Fresh nodes for the table, without any links. */
  ghost predicate Unlinked(nodes: map<Hash, Node>, table: map<Hash, Block>)
    reads nodes.Values
  {
    && nodes.Keys == table.Keys
    && (forall h :: h in nodes ==> nodes[h].block == table[h] && table[h].hash == h)
    && (forall h :: h in nodes ==> nodes[h].parent == null && nodes[h].children == [])
  }

  lemma UnlinkedIsWired(nodes: map<Hash, Node>, table: map<Hash, Block>)
    requires Unlinked(nodes, table)
    ensures Wires(nodes) && ParentMap(nodes) == map[]
  {
  }

  /** The one change to the pointers: the node of `h` now hangs below the node of its previous hash. */
  twostate predicate HungBelow(nodes: map<Hash, Node>, new h: Hash)
    reads nodes.Values
  {
    && h in nodes && nodes[h].block.previousHash in nodes
    && old(nodes[h].parent) == null
    && (forall k :: k in nodes ==>
                      nodes[k].parent == if k == h then nodes[nodes[h].block.previousHash] else old(nodes[k].parent))
    && (forall k :: k in nodes ==>
                      nodes[k].children == if k == nodes[h].block.previousHash then old(nodes[k].children) + [nodes[h]]
                                           else old(nodes[k].children))
  }

  twostate lemma HungPointsUp(nodes: map<Hash, Node>, new h: Hash, new k: Hash)
    requires old(Wires(nodes)) && HungBelow(nodes, h) && k in nodes
    ensures nodes[k].block.hash == k && PointsUp(nodes, nodes[k])
  {
    assert old(PointsUp(nodes, nodes[k]));
  }

  twostate lemma HungPointsDown(nodes: map<Hash, Node>, new h: Hash, new k: Hash)
    requires old(Wires(nodes)) && HungBelow(nodes, h) && k in nodes
    ensures nodes[k].block.hash == k && PointsDown(nodes, nodes[k])
  {
    assert old(PointsDown(nodes, nodes[k]));
    assert forall i :: 0 <= i < |old(nodes[k].children)| ==> nodes[k].children[i] == old(nodes[k].children)[i];
  }

  twostate lemma HungParents(nodes: map<Hash, Node>, new h: Hash)
    requires HungBelow(nodes, h) && nodes[nodes[h].block.previousHash].block.hash == nodes[h].block.previousHash
    ensures ParentMap(nodes) == old(ParentMap(nodes))[h := nodes[h].block.previousHash]
  {
    var was, now := old(ParentMap(nodes)), ParentMap(nodes);
    assert forall k :: k in now <==> k in was || k == h;
  }

  twostate lemma HungIsWired(nodes: map<Hash, Node>, new h: Hash)
    requires old(Wires(nodes)) && HungBelow(nodes, h)
    ensures Wires(nodes)
  {
    forall k | k in nodes
      ensures PointsUp(nodes, nodes[k])
    {
      HungPointsUp(nodes, h, k);
    }
    forall k | k in nodes
      ensures PointsDown(nodes, nodes[k])
    {
      HungPointsDown(nodes, h, k);
    }
  }

  method LinkChild(nodes: map<Hash, Node>, h: Hash)
    requires Wires(nodes) && h in nodes && nodes[h].parent == null && nodes[h].block.previousHash in nodes
    modifies nodes.Values
    ensures Wires(nodes) && ParentMap(nodes) == old(ParentMap(nodes))[h := nodes[h].block.previousHash]
  {
    var node := nodes[h];
    var parentNode := nodes[node.block.previousHash];
    node.parent := parentNode;
    parentNode.children := parentNode.children + [node];
    assert HungBelow(nodes, h);
    HungIsWired(nodes, h);
    HungParents(nodes, h);
  }

  /** The parents set so far, when the keys in `todo` are still to be visited. */
  ghost function ParentsBut(table: map<Hash, Block>, todo: set<Hash>): map<Hash, Hash> {
    map h | h in table && h !in todo && table[h].previousHash != [] :: table[h].previousHash
  }

  lemma ParentsButOne(table: map<Hash, Block>, todo: set<Hash>, key: Hash)
    requires key in table && key in todo
    ensures key !in ParentsBut(table, todo)
    ensures ParentsBut(table, todo - {key})
            == if table[key].previousHash == [] then ParentsBut(table, todo)
               else ParentsBut(table, todo)[key := table[key].previousHash]
  {
  }

  /** The keys that have been visited were all in order. */
  ghost predicate ClosedBut(table: map<Hash, Block>, todo: set<Hash>) {
    forall h :: h in table && h !in todo ==> IsRoot(table, h) || HasParent(table, h)
  }

  /** `genesis` is one of the roots visited so far, if there are any. */
  ghost predicate RootBut(table: map<Hash, Block>, todo: set<Hash>, genesis: Hash, found: bool) {
    if found then IsRoot(table, genesis) else forall h :: h in table && h !in todo ==> !IsRoot(table, h)
  }

  /** The pointers set so far; the keys in `todo` are still to be visited. */
  ghost predicate LinkedBut(nodes: map<Hash, Node>, table: map<Hash, Block>, todo: set<Hash>)
    reads nodes.Values
  {
    && nodes.Keys == table.Keys
    && (forall h :: h in nodes ==> nodes[h].block == table[h])
    && Wires(nodes)
    && ParentMap(nodes) == ParentsBut(table, todo)
  }

  /** Link one node, unless it is a root or its parent is missing. */
  method LinkKey(nodes: map<Hash, Node>, key: Hash, ghost table: map<Hash, Block>, ghost todo: set<Hash>)
    returns (ok: bool)
    requires key in todo && todo <= nodes.Keys && LinkedBut(nodes, table, todo)
    modifies nodes.Values
    ensures ok <==> IsRoot(table, key) || HasParent(table, key)
    ensures ok ==> LinkedBut(nodes, table, todo - {key})
  {
    ParentsButOne(table, todo, key);
    if |nodes[key].block.previousHash| == 0 {
      return true;
    }
    if nodes[key].block.previousHash !in nodes {
      return false;
    }
    LinkChild(nodes, key);
    ok := true;
  }

  /** Link every node, visiting the keys in an arbitrary order. */
  method LinkAll(nodes: map<Hash, Node>, ghost table: map<Hash, Block>) returns (genesis: Hash, found: bool, ok: bool)
    requires Unlinked(nodes, table)
    modifies nodes.Values
    ensures ok <==> Closed(table)
    ensures ok ==> LinkedBut(nodes, table, {}) && RootBut(table, {}, genesis, found)
  {
    UnlinkedIsWired(nodes, table);
    genesis, found := [], false;
    var todo := nodes.Keys;
    assert ParentsBut(table, todo) == map[];
    while todo != {}
      invariant todo <= nodes.Keys
      invariant LinkedBut(nodes, table, todo)
      invariant ClosedBut(table, todo) && RootBut(table, todo, genesis, found)
      decreases todo
    {
      var key :| key in todo;
      var linked := LinkKey(nodes, key, table, todo);
      if !linked {
        return [], false, false;
      }
      if |nodes[key].block.previousHash| == 0 {
        genesis, found := key, true;
      }
      todo := todo - {key};
    }
    ok := true;
  }

  /** UnmarshallBlockchain: links any list whose table is closed and has a root. */
  method UnmarshallBlockchain(blocks: seq<Block>, md5: PowData -> Hash) returns (r: Unmarshalled)
    ensures r.NoParent? <==> !Closed(Table(blocks))
    ensures r.NoGenesis? <==> Closed(Table(blocks)) && forall h :: !IsRoot(Table(blocks), h)
    ensures r.Linked? ==> fresh(r.bc) && fresh(r.bc.m.Values) && r.bc.Wired() && r.bc.md5 == md5
    ensures r.Linked? ==> r.bc.View() == LinkedTree(Table(blocks), r.bc.genesis.block.hash)
                          && IsRoot(Table(blocks), r.bc.genesis.block.hash)
    ensures r.Linked? ==> IsTip(r.bc.View(), r.bc.lastNode.block.hash)
  {
    ghost var table := Table(blocks);
    var nodes := MakeNodes(blocks);
    var genesis, found, ok := LinkAll(nodes, table);
    if !ok {
      return NoParent;
    }
    if !found {
      return NoGenesis;
    }
    var bc := FromTable(nodes, genesis, table, md5);
    FindTips(bc, LinkedTree(table, genesis));
    r := Linked(bc);
  }

  /** The ledger over the linked nodes. */
  method FromTable(nodes: map<Hash, Node>, genesis: Hash, ghost table: map<Hash, Block>, md5: PowData -> Hash)
    returns (bc: Blockchain)
    requires LinkedBut(nodes, table, {}) && IsRoot(table, genesis)
    ensures fresh(bc) && bc.Wired() && bc.m == nodes && bc.md5 == md5
    ensures bc.View() == LinkedTree(table, genesis) && bc.genesis.block.hash == genesis
  {
    assert ParentsBut(table, {}) == LinkedParents(table);
    assert nodes[genesis].parent == null by {
      assert genesis !in ParentMap(nodes);
    }
    bc := new Blockchain.FromNodes(nodes[genesis], nodes, md5);
    SameTree(bc.View(), LinkedTree(table, genesis));
  }

  method FindTips(bc: Blockchain, ghost t: Tree)
    requires bc.Wired() && t == bc.View()
    modifies bc`lastNode
    ensures bc.Wired() && t == bc.View() && IsTip(t, bc.lastNode.block.hash)
  {
    var _ := bc.GetLastHash();
  }

  // ---------- round trips ----------

  lemma {:induction false} TableHolds(list: seq<Block>)
    ensures forall h :: h in Table(list) ==> Table(list)[h] in list && Table(list)[h].hash == h
    ensures forall b :: b in list ==> b.hash in Table(list)
  {
    if list != [] {
      TableHolds(list[..|list| - 1]);
      assert list == list[..|list| - 1] + [list[|list| - 1]];
    }
  }

  /** Of blocks with one hash the last one of the list counts. */
  lemma {:induction false} TableKeepsLast(list: seq<Block>, k: nat)
    requires k < |list| && forall j :: k < j < |list| ==> list[j].hash != list[k].hash
    ensures list[k].hash in Table(list) && Table(list)[list[k].hash] == list[k]
  {
    var n := |list| - 1;
    if k < n {
      assert list[n].hash != list[k].hash;
      TableKeepsLast(list[..n], k);
    }
  }

  // ---------- the same of the list ----------

  /** No later block of the list has its hash. */
  ghost predicate IsLast(list: seq<Block>, k: int) {
    0 <= k < |list| && forall j :: k < j < |list| ==> list[j].hash != list[k].hash
  }

  lemma {:induction false} LastOf(list: seq<Block>, h: Hash) returns (k: nat)
    requires HasHash(list, h)
    ensures IsLast(list, k) && list[k].hash == h
  {
    var n := |list| - 1;
    if list[n].hash == h {
      k := n;
    } else {
      assert list == list[..n] + [list[n]];
      k := LastOf(list[..n], h);
    }
  }

  /** A block that counts names a parent that the list does not have. */
  ghost predicate MissesParent(list: seq<Block>, k: int) {
    IsLast(list, k) && list[k].previousHash != [] && !HasHash(list, list[k].previousHash)
  }

  lemma {:induction false} InTable(list: seq<Block>, h: Hash)
    ensures h in Table(list) <==> HasHash(list, h)
  {
    TableHolds(list);
  }

  /** What the table says of a block that counts, the list says. */
  lemma {:induction false} EntryByList(list: seq<Block>, k: nat)
    requires IsLast(list, k)
    ensures list[k].hash in Table(list)
    ensures IsRoot(Table(list), list[k].hash) <==> list[k].previousHash == []
    ensures IsRoot(Table(list), list[k].hash) || HasParent(Table(list), list[k].hash) <==> !MissesParent(list, k)
  {
    TableKeepsLast(list, k);
    InTable(list, list[k].previousHash);
  }

  lemma {:induction false} ClosedByList(list: seq<Block>)
    ensures Closed(Table(list)) <==> forall k :: !MissesParent(list, k)
  {
    if k :| MissesParent(list, k) {
      EntryByList(list, k);
    }
    if h :| h in Table(list) && !IsRoot(Table(list), h) && !HasParent(Table(list), h) {
      InTable(list, h);
      var k := LastOf(list, h);
      EntryByList(list, k);
    }
  }

  lemma {:induction false} RootByList(list: seq<Block>)
    ensures (exists h :: IsRoot(Table(list), h)) <==> exists k :: IsLast(list, k) && list[k].previousHash == []
  {
    if k :| IsLast(list, k) && list[k].previousHash == [] {
      EntryByList(list, k);
    }
    if h :| IsRoot(Table(list), h) {
      InTable(list, h);
      var k := LastOf(list, h);
      EntryByList(list, k);
    }
  }

  /** When a list can be linked: every block that counts has its parent in the list or names none, and one names
      none. */
  lemma {:induction false} LinkableByList(list: seq<Block>)
    ensures Closed(Table(list)) <==> forall k :: !MissesParent(list, k)
    ensures Linkable(Table(list)) <==>
              && (forall k :: !MissesParent(list, k))
              && exists k :: IsLast(list, k) && list[k].previousHash == []
  {
    ClosedByList(list);
    RootByList(list);
  }

  /** And what it is linked to: each block that counts hangs below the block that it names. */
  lemma {:induction false} LinkedByList(list: seq<Block>, g: Hash, k: nat)
    requires IsLast(list, k)
    ensures var t, b := LinkedTree(Table(list), g), list[k];
            && b.hash in t.blocks && t.blocks[b.hash] == b
            && (b.hash in t.parent <==> b.previousHash != [])
            && (b.hash in t.parent ==> t.parent[b.hash] == b.previousHash)
  {
    TableKeepsLast(list, k);
  }

  /** Any listing of a ledger's blocks has the ledger's own table. */
  lemma TableOfListing(list: seq<Block>, table: map<Hash, Block>)
    requires ListsBlocks(list, table) && forall h :: h in table ==> table[h].hash == h
    ensures Table(list) == table
  {
    TableHolds(list);
    forall h
      ensures h in Table(list) <==> h in table
      ensures h in table ==> h in Table(list) && Table(list)[h] == table[h]
    {
      if h in table {
        assert table[h] in list;
      }
    }
  }

  /** The genesis block is the only one without a previous hash. */
  ghost predicate Portable(t: Tree) {
    && t.genesis in t.blocks && t.blocks[t.genesis].previousHash == []
    && forall h :: h in t.parent ==> t.parent[h] != []
  }

  /** Whatever root is found first, linking the table gives back the tree. */
  ghost predicate Rebuilds(t: Tree) {
    && Closed(t.blocks)
    && (exists g :: IsRoot(t.blocks, g))
    && (forall g :: IsRoot(t.blocks, g) ==> LinkedTree(t.blocks, g) == t)
  }

  /** A ledger survives being sent and linked again exactly when it is portable. */
  lemma RebuildsExactly(t: Tree)
    requires Rooted(t)
    ensures Rebuilds(t) <==> Portable(t)
  {
    forall h
      ensures h in t.parent <==> h in t.blocks && h != t.genesis
    {
      RootedParents(t, h);
    }
    if Portable(t) {
      assert IsRoot(t.blocks, t.genesis);
      assert forall h :: h in t.blocks && h != t.genesis ==> HasParent(t.blocks, h);
      assert forall g :: IsRoot(t.blocks, g) ==> g == t.genesis;
      SameTree(LinkedTree(t.blocks, t.genesis), t);
    }
    if Rebuilds(t) {
      var g :| IsRoot(t.blocks, g);
      assert LinkedTree(t.blocks, g) == t;
      assert LinkedParents(t.blocks) == t.parent;
    }
  }

  /** Every run from a named genesis block over blocks with hashes gives a portable ledger. */
  lemma {:induction false} RunsArePortable(rule: Rule, g: Block, bs: seq<Block>, n: nat)
    requires g.hash != [] && g.previousHash == [] && n <= |bs| && forall b :: b in bs ==> b.hash != []
    ensures Portable(OfferFirst(rule, Single(g), bs, n)) && [] !in OfferFirst(rule, Single(g), bs, n).blocks
  {
    if n > 0 {
      RunsArePortable(rule, g, bs, n - 1);
      assert bs[n - 1] in bs;
    }
  }

  // ---------- synchronisation ----------

  /** The sync step of manageBlockchain: replace the ledger if the received list can be linked. */
  method Synchronize(current: Blockchain, blocks: seq<Block>) returns (next: Blockchain, done: bool)
    ensures done <==> Linkable(Table(blocks))
    ensures !done ==> next == current
    ensures done ==> fresh(next) && fresh(next.m.Values) && next.Wired() && next.TheRules() == current.TheRules()
    ensures done ==> IsRoot(Table(blocks), next.genesis.block.hash)
                     && next.View() == LinkedTree(Table(blocks), next.genesis.block.hash)
  {
    var r := UnmarshallBlockchain(blocks, current.md5);
    match r {
      case Linked(bc) =>
        bc.SetConfig(current.config);
        next, done := bc, true;
      case NoParent =>
        next, done := current, false;
      case NoGenesis =>
        next, done := current, false;
    }
  }

  lemma {:induction false} HashCount(list: seq<Block>)
    requires forall i, j :: 0 <= i < j < |list| ==> list[i].hash != list[j].hash
    ensures |HashSet(list)| == |list|
  {
    if list != [] {
      var front, b := list[..|list| - 1], list[|list| - 1];
      HashCount(front);
      assert list == front + [b];
      assert HashSet(list) == HashSet(front) + {b.hash};
      assert b.hash !in HashSet(front);
    }
  }

  lemma ListingLength(list: seq<Block>, table: map<Hash, Block>)
    requires ListsBlocks(list, table) && forall h :: h in table ==> table[h].hash == h
    ensures |list| == |table|
  {
    HashCount(list);
    forall h | h in table
      ensures h in HashSet(list)
    {
      assert table[h] in list;
    }
    assert HashSet(list) == table.Keys;
  }

  /** Synchronising with a listing of a portable ledger reproduces that ledger. */
  method Adopt(current: Blockchain, blocks: seq<Block>, ghost t: Tree) returns (next: Blockchain)
    requires Rooted(t) && Portable(t) && ListsBlocks(blocks, t.blocks)
    ensures next.Wired() && next.View() == t && next.TheRules() == current.TheRules()
    ensures fresh(next) && fresh(next.m.Values)
  {
    TableOfListing(blocks, t.blocks);
    RebuildsExactly(t);
    var done;
    next, done := Synchronize(current, blocks);
  }

  /** The ledger that both sides have after a handshake: the caller's if it has more than genesis. */
  ghost function Agreed(caller: Tree, callee: Tree): Tree {
    if |caller.blocks| > 1 then caller else callee
  }

  /** The callee's side, DialPeer, for any list: a list of more than one block replaces the ledger if it can be linked,
      and there is no answer if it cannot; the answer is what is held then. */
  method DialPeer(callee: Blockchain, info: seq<Block>)
    returns (callee': Blockchain, response: seq<Block>, answered: bool)
    requires callee.Wired()
    ensures answered <==> |info| <= 1 || Linkable(Table(info))
    ensures callee'.Wired() && callee'.TheRules() == callee.TheRules()
    ensures !answered || |info| <= 1 ==> callee' == callee
    ensures answered && |info| > 1 ==>
              && IsRoot(Table(info), callee'.genesis.block.hash)
              && callee'.View() == LinkedTree(Table(info), callee'.genesis.block.hash)
    ensures answered ==> ListsBlocks(response, callee'.View().blocks)
  {
    callee', response := callee, [];
    if |info| > 1 {
      callee', answered := Synchronize(callee, info);
      if !answered {
        return;
      }
    }
    response := callee'.GetBlocks();
    answered := true;
  }

  /** The dial handshake, run without interruption: the caller sends its blocks and adopts the answer. */
  method DialHandshake(caller: Blockchain, callee: Blockchain) returns (caller': Blockchain, callee': Blockchain)
    requires caller.Wired() && Rooted(caller.View()) && Portable(caller.View())
    requires callee.Wired() && Rooted(callee.View()) && Portable(callee.View())
    ensures caller'.Wired() && callee'.Wired()
    ensures caller'.TheRules() == old(caller.TheRules()) && callee'.TheRules() == old(callee.TheRules())
    ensures caller'.View() == callee'.View() == old(Agreed(caller.View(), callee.View()))
    ensures caller'.View() == if |old(caller.View()).blocks| > 1 then old(caller.View()) else old(callee.View())
  {
    ghost var v := Agreed(caller.View(), callee.View());
    var response;
    callee', response := SendBlocks(caller, callee, v);
    caller' := Adopt(caller, response, v);
  }

  /** The caller's request and the callee's answer to it. */
  method SendBlocks(caller: Blockchain, callee: Blockchain, ghost v: Tree)
    returns (callee': Blockchain, response: seq<Block>)
    requires caller.Wired() && Rooted(caller.View()) && Portable(caller.View())
    requires callee.Wired() && Rooted(callee.View()) && Portable(callee.View())
    requires v == Agreed(caller.View(), callee.View())
    ensures callee'.Wired() && callee'.View() == v && callee'.TheRules() == callee.TheRules()
    ensures Rooted(v) && Portable(v) && ListsBlocks(response, v.blocks)
  {
    ghost var t := caller.View();
    var info := caller.GetBlocks();
    ListingLength(info, t.blocks);
    TableOfListing(info, t.blocks);
    RebuildsExactly(t);
    var answered;
    callee', response, answered := DialPeer(callee, info);
  }
}

/** The nodes of the block tree and the pointer chains that walks follow. */
module Nodes {
  import opened Types

  class Node {
    const block: Block
    var parent: Node?
    var children: seq<Node>

    constructor (block: Block, parent: Node?)
      ensures this.block == block && this.parent == parent && this.children == []
    {
      this.block, this.parent, this.children := block, parent, [];
    }
  }

  /** The map finds this very node under its hash. */
  predicate KnownIn(nodes: map<Hash, Node>, n: Node) {
    n.block.hash in nodes && nodes[n.block.hash] == n
  }

  /** A node's parent pointer is nil or names the node of its previous hash, which lists it. */
  predicate PointsUp(nodes: map<Hash, Node>, n: Node)
    requires KnownIn(nodes, n)
    reads nodes.Values
  {
    n.parent != null ==>
      && KnownIn(nodes, n.parent)
      && n.parent.block.hash == n.block.previousHash
      && n in n.parent.children
  }

  /** A node lists every child once, and each points back. */
  ghost predicate PointsDown(nodes: map<Hash, Node>, n: Node)
    requires KnownIn(nodes, n)
    reads nodes.Values
  {
    && (forall i :: 0 <= i < |n.children| ==> KnownIn(nodes, n.children[i]) && n.children[i].parent == n)
    && (forall i, j :: 0 <= i < j < |n.children| ==> n.children[i] != n.children[j])
  }

  /** Keys, parents and children agree with each other. */
  ghost predicate Wires(nodes: map<Hash, Node>)
    reads nodes.Values
  {
    && (forall h :: h in nodes ==> nodes[h].block.hash == h)
    && (forall h {:trigger PointsUp(nodes, nodes[h])} :: h in nodes ==> PointsUp(nodes, nodes[h]))
    && (forall h {:trigger PointsDown(nodes, nodes[h])} :: h in nodes ==> PointsDown(nodes, nodes[h]))
  }

  /** The parent pointers, as hashes. */
  ghost function ParentMap(nodes: map<Hash, Node>): map<Hash, Hash>
    reads nodes.Values
  {
    map h | h in nodes && nodes[h].parent != null :: nodes[h].parent.block.hash
  }

  /** Nodes from a root downwards, each pointing to the one before it. */
  ghost predicate IsNodePath(p: seq<Node>)
    reads p
  {
    && |p| > 0
    && p[0].parent == null
    && forall i {:trigger p[i].parent} :: 0 < i < |p| ==> p[i].parent == p[i - 1]
  }

  ghost function BlocksOf(p: seq<Node>): (c: seq<Block>)
    ensures |c| == |p|
    ensures forall i :: 0 <= i < |p| ==> c[i] == p[i].block
  {
    seq(|p|, i requires 0 <= i < |p| => p[i].block)
  }
}

/** The backward walks of bclib/blockchain.go and bclib/blockchain_rfs.go. Each starts at a node and
    follows parent pointers to the root; `p` names the nodes on the way, root first. */
module Walks {
  import opened Types
  import opened BlockTree
  import opened Accounting
  import opened Selection
  import opened FileViews
  import opened Nodes
  import Validation
  import Reversal

  /** Walk from `node` to the root, replaying each block on the tables of the operations under test. */
  method ReplayChain(cfg: Settings, node0: Node, ops: seq<Operation>, ghost p: seq<Node>)
    returns (balances: map<string, int>, opIds: map<string, Operation>)
    requires IsNodePath(p) && p[|p| - 1] == node0
    ensures balances == Validation.BalancesFrom(cfg, BlocksOf(p), 0, ops)
    ensures opIds == Survivors(OpsOn(BlocksOf(p)[0..]), ops)
  {
    var node: Node? := node0;
    ghost var c, i := BlocksOf(p), |p|;
    var files;
    balances, opIds, files := Validation.StartReplay(cfg, c, ops);
    while node != null
      invariant 0 <= i <= |p|
      invariant node == if i == 0 then null else p[i - 1]
      invariant balances == Validation.BalancesFrom(cfg, c, i, ops)
      invariant opIds == Survivors(OpsOn(c[i..]), ops)
      decreases i
    {
      balances, opIds := Validation.ReplayNext(cfg, c, i, ops, node.block, files, balances, opIds);
      node := node.parent;
      i := i - 1;
    }
  }

  /** Go back `n` blocks, if there are that many. */
  method StepBack(node0: Node, n: nat, ghost p: seq<Node>) returns (node: Node, ok: bool)
    requires IsNodePath(p) && p[|p| - 1] == node0
    ensures ok <==> n < |p|
    ensures ok ==> node == p[|p| - 1 - n]
  {
    var left := n;
    node := node0;
    while left > 0
      invariant 0 <= left <= n && n - left < |p|
      invariant node == p[|p| - 1 - (n - left)]
    {
      if node.parent == null {
        return node, false;
      }
      left := left - 1;
      node := node.parent;
    }
    ok := true;
  }

  // What is still to be met by a walk that has the first `i` blocks of the chain before it.

  ghost function NamesTo(c: seq<Block>, i: nat): set<string>
    requires i <= |c|
  {
    if i == 0 then {} else NamesTo(c, i - 1) + NamesIn(c[i - 1].operations)
  }

  ghost function DeletedTo(c: seq<Block>, i: nat): set<string>
    requires i <= |c|
  {
    if i == 0 then {} else DeletedTo(c, i - 1) + DeletedIn(c[i - 1].operations)
  }

  ghost function AppendsBack(c: seq<Block>, i: nat, fname: string): seq<Operation>
    requires i <= |c|
  {
    if i == 0 then [] else AppendsTo(c[i - 1].operations, fname) + AppendsBack(c, i - 1, fname)
  }

  ghost function ScanBack(c: seq<Block>, i: nat): seq<Operation>
    requires i <= |c|
  {
    if i == 0 then [] else c[i - 1].operations + ScanBack(c, i - 1)
  }

  lemma {:induction false} NamesToHolds(c: seq<Block>, i: nat)
    requires i <= |c|
    ensures NamesTo(c, i) == NamesIn(OpsOn(c[..i])) && DeletedTo(c, i) == DeletedIn(OpsOn(c[..i]))
  {
    if i > 0 {
      NamesToHolds(c, i - 1);
      assert c[..i][..i - 1] == c[..i - 1];
      ViewsConcat(OpsOn(c[..i - 1]), c[i - 1].operations);
    }
  }

  lemma {:induction false} AppendsBackReversed(c: seq<Block>, i: nat, fname: string)
    requires i <= |c|
    ensures Reversal.Reverse(AppendsBack(c, i, fname)) == Records(c[..i], fname)
  {
    if i > 0 {
      AppendsBackReversed(c, i - 1, fname);
      assert c[..i][..i - 1] == c[..i - 1];
      Reversal.ReverseConcat(AppendsTo(c[i - 1].operations, fname), AppendsBack(c, i - 1, fname));
    }
  }

  lemma {:induction false} ScanBackHolds(c: seq<Block>, i: nat)
    requires i <= |c|
    ensures ScanBack(c, i) == Scan(c[..i])
  {
    if i > 0 {
      ScanBackHolds(c, i - 1);
      assert c[..i][..i - 1] == c[..i - 1];
    }
  }

  /** The part of GetFile that looks at one block. */
  method CollectBlock(ops: seq<Operation>, fname: string) returns (appends: seq<Operation>, seen: bool, deleted: bool)
    ensures appends == AppendsTo(ops, fname)
    ensures seen <==> fname in NamesIn(ops)
    ensures deleted <==> fname in DeletedIn(ops)
  {
    appends, seen, deleted := [], false, false;
    for k := 0 to |ops|
      invariant appends == AppendsTo(ops[..k], fname)
      invariant seen <==> fname in NamesIn(ops[..k])
      invariant deleted <==> fname in DeletedIn(ops[..k])
    {
      var o := ops[k];
      ViewsSnoc(ops, k, fname);
      if o.filename == fname {
        seen := true;
        if o.op.Append? {
          appends := appends + [o];
        }
        if o.op.Delete? {
          deleted := true;
        }
      }
    }
    assert ops[..|ops|] == ops;
  }

  /** What has been collected, together with the blocks before position `i`, makes up the whole chain. */
  ghost predicate Collected(c: seq<Block>, i: nat, fname: string, ops: seq<Operation>, seen: bool, deleted: bool) {
    && i <= |c|
    && ops + AppendsBack(c, i, fname) == AppendsBack(c, |c|, fname)
    && (seen || fname in NamesTo(c, i) <==> fname in NamesTo(c, |c|))
    && (deleted || fname in DeletedTo(c, i) <==> fname in DeletedTo(c, |c|))
  }

  lemma {:induction false} CollectNext(c: seq<Block>, i: nat, fname: string, ops: seq<Operation>, seen: bool,
                                       deleted: bool)
    requires 0 < i && Collected(c, i, fname, ops, seen, deleted)
    ensures var here := c[i - 1].operations;
            Collected(c, i - 1, fname, ops + AppendsTo(here, fname), seen || fname in NamesIn(here),
                      deleted || fname in DeletedIn(here))
  {
    assert ops + (AppendsTo(c[i - 1].operations, fname) + AppendsBack(c, i - 1, fname))
        == ops + AppendsTo(c[i - 1].operations, fname) + AppendsBack(c, i - 1, fname);
  }

  /** The walk of GetFile. */
  method CollectFile(node0: Node, fname: string, ghost p: seq<Node>)
    returns (operations: seq<Operation>, seen: bool, deleted: bool)
    requires IsNodePath(p) && p[|p| - 1] == node0
    ensures operations == AppendsBack(BlocksOf(p), |p|, fname)
    ensures seen <==> fname in NamesTo(BlocksOf(p), |p|)
    ensures deleted <==> fname in DeletedTo(BlocksOf(p), |p|)
  {
    operations, seen, deleted := [], false, false;
    var node: Node? := node0;
    ghost var c, i := BlocksOf(p), |p|;
    while node != null
      invariant 0 <= i <= |p| && node == if i == 0 then null else p[i - 1]
      invariant Collected(c, i, fname, operations, seen, deleted)
      decreases i
    {
      CollectNext(c, i, fname, operations, seen, deleted);
      var appends, seenHere, deletedHere := CollectBlock(node.block.operations, fname);
      operations := operations + appends;
      seen := seen || seenHere;
      deleted := deleted || deletedHere;
      node := node.parent;
      i := i - 1;
    }
  }

  /** GetFile from the confirmed node on: collect, then reverse in place. */
  method ReadFile(node: Node, fname: string, ghost p: seq<Node>) returns (file: FileOps, seen: bool)
    requires IsNodePath(p) && p[|p| - 1] == node
    ensures file == FileOn(BlocksOf(p), fname)
    ensures seen <==> fname in NamesIn(OpsOn(BlocksOf(p)))
  {
    ghost var c := BlocksOf(p);
    var operations, deleted;
    operations, seen, deleted := CollectFile(node, fname, p);
    var list := new Operation[|operations|](i requires 0 <= i < |operations| => operations[i]);
    assert list[..] == operations;
    Reversal.ReverseInwards(list);
    AppendsBackReversed(c, |c|, fname);
    NamesToHolds(c, |c|);
    assert c[..|c|] == c;
    file := FileOps(fname, list[..], deleted);
  }

  /** NumRecs from the confirmed node on. */
  method CountFile(node: Node, fname: string, ghost p: seq<Node>) returns (numRecs: nat, seen: bool)
    requires IsNodePath(p) && p[|p| - 1] == node
    ensures numRecs == |Records(BlocksOf(p), fname)|
    ensures seen <==> fname in NamesIn(OpsOn(BlocksOf(p)))
  {
    ghost var c := BlocksOf(p);
    numRecs, seen := CountRecords(node, fname, p);
    AppendsBackReversed(c, |c|, fname);
    NamesToHolds(c, |c|);
    assert c[..|c|] == c;
  }

  /** ListFiles from the confirmed node on: each name once, in an arbitrary order. */
  method ListNames(node: Node, ghost p: seq<Node>) returns (list: seq<string>)
    requires IsNodePath(p) && p[|p| - 1] == node
    ensures forall f :: f in list <==> f in NamesIn(OpsOn(BlocksOf(p)))
    ensures forall i, j :: 0 <= i < j < |list| ==> list[i] != list[j]
  {
    ghost var c := BlocksOf(p);
    var names := CollectNames(node, p);
    NamesToHolds(c, |c|);
    assert c[..|c|] == c;
    list := [];
    ghost var all := names;
    while names != {}
      invariant names <= all
      invariant forall f :: f in list <==> f in all && f !in names
      invariant forall i, j :: 0 <= i < j < |list| ==> list[i] != list[j]
      decreases names
    {
      var f :| f in names;
      list := list + [f];
      names := names - {f};
    }
  }

  /** CheckOpConfirmed from the newest block on. */
  method CheckOperation(cfg: Settings, node: Node, o: Operation, ghost p: seq<Node>)
    returns (confirmed: bool, exists_: bool, otherMiner: bool)
    requires IsNodePath(p) && p[|p| - 1] == node
    ensures exists_ <==> o.operationID in IdsIn(OpsOn(BlocksOf(p)))
    ensures confirmed <==> IsConfirmed(cfg, BlocksOf(p), o)
    ensures otherMiner <==> ClashBeforeMatch(Scan(BlocksOf(p)), o)
  {
    ghost var c := BlocksOf(p);
    confirmed, exists_, otherMiner := FindOperation(cfg, node, o, p);
    OnChain(c, o.operationID);
    ScanBackHolds(c, |c|);
    assert c[..|c|] == c;
  }

  /** The walk of NumRecs. */
  method CountRecords(node0: Node, fname: string, ghost p: seq<Node>) returns (numRecs: nat, seen: bool)
    requires IsNodePath(p) && p[|p| - 1] == node0
    ensures numRecs == |AppendsBack(BlocksOf(p), |p|, fname)|
    ensures seen <==> fname in NamesTo(BlocksOf(p), |p|)
  {
    numRecs, seen := 0, false;
    var node: Node? := node0;
    ghost var c, i := BlocksOf(p), |p|;
    while node != null
      invariant 0 <= i <= |p| && node == if i == 0 then null else p[i - 1]
      invariant numRecs + |AppendsBack(c, i, fname)| == |AppendsBack(c, |p|, fname)|
      invariant seen || fname in NamesTo(c, i) <==> fname in NamesTo(c, |p|)
      decreases i
    {
      var n, seenHere := CountBlock(node.block.operations, fname);
      numRecs, seen := numRecs + n, seen || seenHere;
      node := node.parent;
      i := i - 1;
    }
  }

  method CountBlock(ops: seq<Operation>, fname: string) returns (n: nat, seen: bool)
    ensures n == |AppendsTo(ops, fname)|
    ensures seen <==> fname in NamesIn(ops)
  {
    n, seen := 0, false;
    for k := 0 to |ops|
      invariant n == |AppendsTo(ops[..k], fname)|
      invariant seen <==> fname in NamesIn(ops[..k])
    {
      ViewsSnoc(ops, k, fname);
      if ops[k].filename == fname {
        seen := true;
        if ops[k].op.Append? {
          n := n + 1;
        }
      }
    }
    assert ops[..|ops|] == ops;
  }

  /** The walk of ListFiles. */
  method CollectNames(node0: Node, ghost p: seq<Node>) returns (names: set<string>)
    requires IsNodePath(p) && p[|p| - 1] == node0
    ensures names == NamesTo(BlocksOf(p), |p|)
  {
    names := {};
    var node: Node? := node0;
    ghost var c, i := BlocksOf(p), |p|;
    while node != null
      invariant 0 <= i <= |p| && node == if i == 0 then null else p[i - 1]
      invariant names + NamesTo(c, i) == NamesTo(c, |p|)
      decreases i
    {
      var here := NamesOfBlock(node.block.operations);
      names := names + here;
      node := node.parent;
      i := i - 1;
    }
  }

  method NamesOfBlock(ops: seq<Operation>) returns (names: set<string>)
    ensures names == NamesIn(ops)
  {
    names := {};
    for k := 0 to |ops|
      invariant names == NamesIn(ops[..k])
    {
      names := names + {ops[k].filename};
      ViewsSnoc(ops, k, "");
    }
    assert ops[..|ops|] == ops;
  }

  /** Look through one block until the operation is met. */
  method ScanBlock(ops: seq<Operation>, o: Operation) returns (found: bool, other: bool)
    ensures found <==> o.operationID in IdsIn(ops)
    ensures other <==> ClashBeforeMatch(ops, o)
  {
    other := false;
    for k := 0 to |ops|
      invariant o.operationID !in IdsIn(ops[..k])
      invariant other <==> exists j :: 0 <= j < k && Clash(o, ops[j])
    {
      var blockOp := ops[k];
      assert forall j :: 0 <= j < k ==> ops[j].operationID != o.operationID by {
        assert forall j :: 0 <= j < k ==> ops[j] in ops[..k];
      }
      if o.op.Create? && o.filename == blockOp.filename && o.minerID != blockOp.minerID {
        other := true;
        assert Clash(o, ops[k]);
      }
      if blockOp.operationID == o.operationID {
        assert blockOp in ops;
        assert FirstMatch(ops, o.operationID) == k;
        return true, other;
      }
      assert ops[..k + 1] == ops[..k] + [blockOp];
    }
    assert ops[..|ops|] == ops;
    NoMatch(ops, o.operationID);
    found := false;
  }

  /** `done` was scanned without meeting `o`; the first `i` blocks are left. */
  ghost predicate NotMetYet(c: seq<Block>, i: nat, done: seq<Operation>, o: Operation) {
    && i <= |c|
    && done + ScanBack(c, i) == ScanBack(c, |c|)
    && o.operationID !in IdsIn(done)
    && (forall j {:trigger InBlock(c, j, o.operationID)} :: i <= j ==> !InBlock(c, j, o.operationID))
  }

  lemma {:induction false} PassBlock(c: seq<Block>, i: nat, done: seq<Operation>, o: Operation)
    requires 0 < i && NotMetYet(c, i, done, o) && !InBlock(c, i - 1, o.operationID)
    ensures NotMetYet(c, i - 1, done + c[i - 1].operations, o)
  {
    var ops := c[i - 1].operations;
    assert done + ScanBack(c, i) == (done + ops) + ScanBack(c, i - 1);
    ViewsConcat(done, ops);
  }

  lemma {:induction false} MeetInBlock(cfg: Settings, c: seq<Block>, i: nat, done: seq<Operation>, o: Operation)
    requires 0 < i && NotMetYet(c, i, done, o) && InBlock(c, i - 1, o.operationID)
    ensures IsConfirmed(cfg, c, o) <==> |c| - i > Threshold(cfg, o)
    ensures ClashBeforeMatch(ScanBack(c, |c|), o) <==> ClashBeforeMatch(done + c[i - 1].operations, o)
  {
    var ops := c[i - 1].operations;
    assert ScanBack(c, |c|) == (done + ops) + ScanBack(c, i - 1);
    ViewsConcat(done, ops);
    ClashStopsAtMatch(done + ops, ScanBack(c, i - 1), o);
    assert forall j :: InBlock(c, j, o.operationID) ==> j < i;
  }

  /** The walk of CheckOpConfirmed. */
  method FindOperation(cfg: Settings, node0: Node, o: Operation, ghost p: seq<Node>)
    returns (confirmed: bool, exists_: bool, otherMiner: bool)
    requires IsNodePath(p) && p[|p| - 1] == node0
    ensures exists_ <==> exists i :: InBlock(BlocksOf(p), i, o.operationID)
    ensures confirmed <==> IsConfirmed(cfg, BlocksOf(p), o)
    ensures otherMiner <==> ClashBeforeMatch(ScanBack(BlocksOf(p), |p|), o)
  {
    var numConfBlocks := cfg.confirmsPerFileCreate;
    if o.op.Append? {
      numConfBlocks := cfg.confirmsPerFileAppend;
    }
    otherMiner := false;
    var node: Node? := node0;
    var distance := 0;
    ghost var c, i := BlocksOf(p), |p|;
    ghost var done: seq<Operation> := [];
    while node != null
      invariant 0 <= i <= |p| && node == if i == 0 then null else p[i - 1]
      invariant distance == |p| - i
      invariant NotMetYet(c, i, done, o)
      invariant otherMiner <==> ClashBeforeMatch(done, o)
      decreases i
    {
      var found, other := ScanBlock(node.block.operations, o);
      otherMiner := otherMiner || other;
      ClashConcat(done, node.block.operations, o);
      if found {
        assert InBlock(c, i - 1, o.operationID);
        MeetInBlock(cfg, c, i, done, o);
        return distance > numConfBlocks, true, otherMiner;
      }
      PassBlock(c, i, done, o);
      done := done + node.block.operations;
      distance := distance + 1;
      node := node.parent;
      i := i - 1;
    }
    assert done == ScanBack(c, |p|);
    confirmed, exists_ := false, false;
  }

  /** The newest `n` blocks of a chain, or all of them. */
  function Newest(chain: seq<Block>, n: nat): seq<Block> {
    if n <= |chain| then chain[|chain| - n..] else chain
  }

  /** Walking up from a block of a chain visits the blocks before it, one by one. */
  lemma {:induction false} AncestorsOnChain(t: Tree, c: seq<Block>, k: nat, n: nat)
    requires Linked(t) && IsChain(t, c) && k < |c|
    ensures |Ancestors(t, c[k].hash, n)| == if n <= k then n else k + 1
    ensures forall i :: 0 <= i < |Ancestors(t, c[k].hash, n)| ==> Ancestors(t, c[k].hash, n)[i] == c[k - i]
    decreases n
  {
    if n > 0 && k > 0 {
      AncestorsOnChain(t, c, k - 1, n - 1);
    }
  }

  /** So where the chain ends, its newest part is collected, newest first. */
  lemma {:induction false} AncestorsAreNewest(t: Tree, h: Hash, n: nat)
    requires Linked(t) && Grounded(t, h) && h in t.blocks
    ensures Ancestors(t, h, n) == Reversal.Reverse(Newest(Chain(t, h), n))
  {
    var c := Chain(t, h);
    AncestorsOnChain(t, c, |c| - 1, n);
    NewestBackwards(c, n, Ancestors(t, h, n));
  }

  lemma {:induction false} NewestBackwards(c: seq<Block>, n: nat, back: seq<Block>)
    requires |back| == if n <= |c| then n else |c|
    requires forall i :: 0 <= i < |back| ==> back[i] == c[|c| - 1 - i]
    ensures back == Reversal.Reverse(Newest(c, n))
  {
    Reversal.SameSeq(back, Newest(c, n));
  }
}

/** The tree of blocks as a value: which block each hash names, which parent each node points to,
    and which node is the genesis. Nodes without a parent entry have a nil parent pointer. */
module BlockTree {
  import opened Types

  datatype Tree = Tree(blocks: map<Hash, Block>, parent: map<Hash, Hash>, genesis: Hash)

  /** Keys, blocks and parent pointers agree. This allows several roots and detached cycles. */
  ghost predicate Linked(t: Tree) {
    && t.genesis in t.blocks
    && t.genesis !in t.parent
    && (forall h :: h in t.blocks ==> t.blocks[h].hash == h)
    && (forall h :: h in t.parent ==>
                      && h in t.blocks
                      && t.parent[h] in t.blocks
                      && t.parent[h] == t.blocks[h].previousHash)
  }

  /** `c` lists the blocks from a root down to its last element, one parent pointer at a time. */
  ghost predicate IsChain(t: Tree, c: seq<Block>) {
    && |c| > 0
    && (forall i :: 0 <= i < |c| ==> c[i].hash in t.blocks && t.blocks[c[i].hash] == c[i])
    && c[0].hash !in t.parent
    && (forall i :: 0 < i < |c| ==> c[i].hash in t.parent && t.parent[c[i].hash] == c[i - 1].hash)
  }

  ghost predicate IsChainTo(t: Tree, c: seq<Block>, h: Hash) {
    IsChain(t, c) && c[|c| - 1].hash == h
  }

  /** Walking up from `h` ends at a root. */
  ghost predicate Grounded(t: Tree, h: Hash) {
    exists c :: IsChainTo(t, c, h)
  }

  ghost function Chain(t: Tree, h: Hash): (c: seq<Block>)
    requires Grounded(t, h)
    ensures IsChainTo(t, c, h)
  {
    var c :| IsChainTo(t, c, h);
    c
  }

  ghost predicate FromGenesis(t: Tree, h: Hash) {
    Grounded(t, h) && Chain(t, h)[0].hash == t.genesis
  }

  /** A proper tree: every block hangs below the genesis block. */
  ghost predicate Rooted(t: Tree) {
    Linked(t) && forall h {:trigger Grounded(t, h)} {:trigger FromGenesis(t, h)} :: h in t.blocks ==> FromGenesis(t, h)
  }

  /** A block of maximum depth among those below the genesis block. */
  ghost predicate IsTip(t: Tree, h: Hash) {
    && FromGenesis(t, h)
    && forall k {:trigger FromGenesis(t, k)} :: k in t.blocks && FromGenesis(t, k) ==> |Chain(t, k)| <= |Chain(t, h)|
  }

  /** `u` has every block of `t`, with the same parents. */
  ghost predicate Grows(t: Tree, u: Tree) {
    && t.genesis == u.genesis
    && (forall h :: h in t.blocks ==> h in u.blocks && u.blocks[h] == t.blocks[h])
    && (forall h :: h in t.parent ==> h in u.parent && u.parent[h] == t.parent[h])
    && (forall h {:trigger h in u.parent} :: h in t.blocks && h in u.parent ==> h in t.parent)
  }

  /** The block `h` is on the chain of the block `k`. */
  ghost predicate DescendsFrom(t: Tree, k: Hash, h: Hash) {
    Grounded(t, k) && Grounded(t, h) && Chain(t, h) <= Chain(t, k)
  }

  // ---------- chains ----------

  /** There is only one way up from a block. */
  lemma {:induction false} ChainUnique(t: Tree, c: seq<Block>, d: seq<Block>)
    requires IsChain(t, c) && IsChain(t, d) && c[|c| - 1].hash == d[|d| - 1].hash
    ensures c == d
    decreases |c|
  {
    if |c| > 1 && |d| > 1 {
      ChainUnique(t, c[..|c| - 1], d[..|d| - 1]);
      assert c == c[..|c| - 1] + [c[|c| - 1]];
      assert d == d[..|d| - 1] + [d[|d| - 1]];
    } else if |c| == 1 && |d| == 1 {
      assert c == [c[0]] && d == [d[0]];
    }
  }

  lemma ChainIs(t: Tree, c: seq<Block>)
    requires IsChain(t, c)
    ensures Grounded(t, c[|c| - 1].hash) && Chain(t, c[|c| - 1].hash) == c
  {
    assert IsChainTo(t, c, c[|c| - 1].hash);
    ChainUnique(t, Chain(t, c[|c| - 1].hash), c);
  }

  lemma ChainPrefix(t: Tree, c: seq<Block>, n: nat)
    requires IsChain(t, c) && 0 < n <= |c|
    ensures IsChain(t, c[..n])
    ensures Grounded(t, c[n - 1].hash) && Chain(t, c[n - 1].hash) == c[..n]
  {
    ChainIs(t, c[..n]);
  }

  lemma ChainOfRoot(t: Tree, h: Hash)
    requires Linked(t) && h in t.blocks && h !in t.parent
    ensures Grounded(t, h) && Chain(t, h) == [t.blocks[h]]
  {
    ChainIs(t, [t.blocks[h]]);
  }

  lemma ChainBelow(t: Tree, h: Hash)
    requires Linked(t) && h in t.parent && Grounded(t, t.parent[h])
    ensures Grounded(t, h) && Chain(t, h) == Chain(t, t.parent[h]) + [t.blocks[h]]
  {
    ChainIs(t, Chain(t, t.parent[h]) + [t.blocks[h]]);
  }

  lemma ChainAbove(t: Tree, h: Hash)
    requires Linked(t) && h in t.parent && Grounded(t, h)
    ensures Grounded(t, t.parent[h]) && Chain(t, h) == Chain(t, t.parent[h]) + [t.blocks[h]]
  {
    var c := Chain(t, h);
    ChainPrefix(t, c, |c| - 1);
    ChainBelow(t, h);
  }

  /** No block occurs twice on a chain. */
  lemma ChainDistinct(t: Tree, c: seq<Block>, i: nat, j: nat)
    requires IsChain(t, c) && i < j < |c|
    ensures c[i].hash != c[j].hash
  {
    ChainPrefix(t, c, i + 1);
    ChainPrefix(t, c, j + 1);
  }

  /** In a proper tree everything but the genesis block has a parent. */
  lemma RootedParents(t: Tree, h: Hash)
    requires Rooted(t)
    ensures h in t.parent <==> h in t.blocks && h != t.genesis
  {
    if h in t.blocks && h !in t.parent {
      ChainOfRoot(t, h);
      assert FromGenesis(t, h);
    }
  }

  // ---------- growth ----------

  lemma ChainGrows(t: Tree, u: Tree, h: Hash)
    requires Grows(t, u) && Grounded(t, h)
    ensures Grounded(u, h) && Chain(u, h) == Chain(t, h)
  {
    ChainIs(u, Chain(t, h));
  }

  lemma GrowsTransitive(t: Tree, u: Tree, v: Tree)
    requires Grows(t, u) && Grows(u, v)
    ensures Grows(t, v)
  {
  }

  /** The longest chain never gets shorter. */
  lemma TipsRise(t: Tree, u: Tree, h: Hash, k: Hash)
    requires Grows(t, u) && IsTip(t, h) && IsTip(u, k)
    ensures |Chain(t, h)| <= |Chain(u, k)|
  {
    ChainGrows(t, u, h);
    assert FromGenesis(u, h);
  }

  // ---------- walking up ----------

  /** The block of `h` and the blocks above it, newest first, `n` at most. On a detached cycle the walk goes round. */
  ghost function Ancestors(t: Tree, h: Hash, n: nat): (r: seq<Block>)
    requires Linked(t) && h in t.blocks
    ensures |r| <= n
    decreases n
  {
    if n == 0 then []
    else [t.blocks[h]] + if h in t.parent then Ancestors(t, t.parent[h], n - 1) else []
  }
}

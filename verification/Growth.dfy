/** How a block tree grows under a rule that decides, from the chain above it alone, whether a block
    may be attached. Nothing here depends on what the rule is. */
module Growth {
  import opened Types
  import opened BlockTree

  /** `rule(chain, b)`: may `b` follow the chain? */
  type Rule = (seq<Block>, Block) -> bool

  /** The block is new, its parent is known, and the rule lets it follow its parent's chain. */
  ghost predicate Fits(rule: Rule, t: Tree, b: Block)
    requires b.previousHash in t.blocks ==> Grounded(t, b.previousHash)
  {
    b.hash !in t.blocks && b.previousHash in t.blocks && rule(Chain(t, b.previousHash), b)
  }

  ghost function Attach(t: Tree, b: Block): Tree {
    Tree(t.blocks[b.hash := b], t.parent[b.hash := b.previousHash], t.genesis)
  }

  /** The tree after one block has been offered. */
  ghost function Offer(rule: Rule, t: Tree, b: Block): Tree
    requires b.previousHash in t.blocks ==> Grounded(t, b.previousHash)
  {
    if Fits(rule, t, b) then Attach(t, b) else t
  }

  /** The tree that holds only its genesis block. */
  ghost function Single(g: Block): (t: Tree)
    ensures Rooted(t)
  {
    var t := Tree(map[g.hash := g], map[], g.hash);
    ChainOfRoot(t, t.genesis);
    t
  }

  /** The tree after offering the first `n` of the blocks, one by one. */
  ghost function OfferFirst(rule: Rule, t: Tree, bs: seq<Block>, n: nat): (u: Tree)
    requires Rooted(t) && n <= |bs|
    ensures Rooted(u) && u.genesis == t.genesis && u.blocks[u.genesis] == t.blocks[t.genesis]
  {
    if n == 0 then t
    else
      OfferKeepsTree(rule, OfferFirst(rule, t, bs, n - 1), bs[n - 1]);
      Offer(rule, OfferFirst(rule, t, bs, n - 1), bs[n - 1])
  }

  ghost function OfferAll(rule: Rule, t: Tree, bs: seq<Block>): (u: Tree)
    requires Rooted(t)
    ensures Rooted(u) && u.genesis == t.genesis && u.blocks[u.genesis] == t.blocks[t.genesis]
  {
    OfferFirst(rule, t, bs, |bs|)
  }

  // ---------- the tree stays a tree ----------

  lemma AttachGrows(t: Tree, b: Block)
    requires Linked(t) && b.hash !in t.blocks && b.previousHash in t.blocks
    ensures Linked(Attach(t, b)) && Grows(t, Attach(t, b))
  {
  }

  lemma AttachChain(t: Tree, b: Block)
    requires Linked(t) && b.hash !in t.blocks && Grounded(t, b.previousHash)
    ensures Linked(Attach(t, b)) && Grounded(Attach(t, b), b.hash)
    ensures Chain(Attach(t, b), b.hash) == Chain(t, b.previousHash) + [b]
  {
    var u := Attach(t, b);
    AttachGrows(t, b);
    ChainGrows(t, u, b.previousHash);
    ChainBelow(u, b.hash);
  }

  lemma AttachFromGenesis(t: Tree, b: Block, h: Hash)
    requires Rooted(t) && b.hash !in t.blocks && b.previousHash in t.blocks && h in Attach(t, b).blocks
    ensures FromGenesis(Attach(t, b), h)
  {
    if h == b.hash {
      assert FromGenesis(t, b.previousHash);
      AttachChain(t, b);
    } else {
      assert FromGenesis(t, h);
      AttachGrows(t, b);
      ChainGrows(t, Attach(t, b), h);
    }
  }

  lemma OfferKeepsTree(rule: Rule, t: Tree, b: Block)
    requires Rooted(t)
    ensures Rooted(Offer(rule, t, b)) && Grows(t, Offer(rule, t, b))
  {
    if Fits(rule, t, b) {
      AttachGrows(t, b);
      forall h | h in Attach(t, b).blocks
        ensures FromGenesis(Attach(t, b), h)
      {
        AttachFromGenesis(t, b, h);
      }
    }
  }

  // ---------- every attached block stays justified ----------

  /** Every block with a parent satisfies the rule where it stands. */
  ghost predicate Honest(rule: Rule, t: Tree) {
    && Rooted(t)
    && forall h {:trigger h in t.parent} :: h in t.parent ==> rule(Chain(t, t.parent[h]), t.blocks[h])
  }

  lemma AttachObeys(rule: Rule, t: Tree, b: Block, h: Hash)
    requires Honest(rule, t) && Fits(rule, t, b) && h in Attach(t, b).parent
    ensures var u := Attach(t, b);
            Grounded(u, u.parent[h]) && rule(Chain(u, u.parent[h]), u.blocks[h])
  {
    var u := Attach(t, b);
    AttachGrows(t, b);
    if h == b.hash {
      ChainGrows(t, u, b.previousHash);
    } else {
      assert FromGenesis(t, t.parent[h]);
      ChainGrows(t, u, t.parent[h]);
    }
  }

  lemma OfferKeepsHonest(rule: Rule, t: Tree, b: Block)
    requires Honest(rule, t)
    ensures Honest(rule, Offer(rule, t, b))
  {
    OfferKeepsTree(rule, t, b);
    if Fits(rule, t, b) {
      forall h | h in Attach(t, b).parent
        ensures rule(Chain(Attach(t, b), Attach(t, b).parent[h]), Attach(t, b).blocks[h])
      {
        AttachObeys(rule, t, b, h);
      }
    }
  }

  ghost predicate OfferKeeps(rule: Rule, inv: Tree -> bool, t: Tree, b: Block) {
    Rooted(t) && inv(t) ==> inv(Offer(rule, t, b))
  }

  /** What every offer keeps, every stretch of a run keeps. */
  lemma {:induction false} RunKeeps(rule: Rule, t: Tree, bs: seq<Block>, inv: Tree -> bool, i: nat, j: nat)
    requires Rooted(t) && i <= j <= |bs| && inv(OfferFirst(rule, t, bs, i))
    requires forall u, b {:trigger OfferKeeps(rule, inv, u, b)} :: OfferKeeps(rule, inv, u, b)
    ensures inv(OfferFirst(rule, t, bs, j))
    decreases j - i
  {
    if i < j {
      RunKeeps(rule, t, bs, inv, i, j - 1);
      assert OfferKeeps(rule, inv, OfferFirst(rule, t, bs, j - 1), bs[j - 1]);
    }
  }

  lemma {:induction false} RunIsHonest(rule: Rule, t: Tree, bs: seq<Block>, n: nat)
    requires Honest(rule, t) && n <= |bs|
    ensures Honest(rule, OfferFirst(rule, t, bs, n))
  {
    var inv := (u: Tree) => Honest(rule, u);
    forall u, b
      ensures OfferKeeps(rule, inv, u, b)
    {
      if Honest(rule, u) { OfferKeepsHonest(rule, u, b); }
    }
    RunKeeps(rule, t, bs, inv, 0, n);
  }

  /** On an honest tree each block of a chain may follow the blocks before it. */
  lemma HonestChain(rule: Rule, t: Tree, c: seq<Block>, i: nat)
    requires Honest(rule, t) && IsChain(t, c) && 0 < i < |c|
    ensures rule(c[..i], c[i])
  {
    ChainPrefix(t, c, i);
  }

  lemma RootedChainStart(t: Tree, c: seq<Block>)
    requires Rooted(t) && IsChain(t, c)
    ensures c[0] == t.blocks[t.genesis]
  {
    ChainIs(t, c);
    assert FromGenesis(t, c[|c| - 1].hash);
  }

  // ---------- runs ----------

  lemma {:induction false} RunHoldsOnlyOffered(rule: Rule, t: Tree, bs: seq<Block>, n: nat, h: Hash)
    requires Rooted(t) && n <= |bs| && h in OfferFirst(rule, t, bs, n).blocks && h !in t.blocks
    ensures OfferFirst(rule, t, bs, n).blocks[h] in bs
  {
    if n > 0 && h in OfferFirst(rule, t, bs, n - 1).blocks {
      RunHoldsOnlyOffered(rule, t, bs, n - 1, h);
    }
  }

  lemma OfferExtends(rule: Rule, t: Tree, u: Tree, b: Block)
    requires Rooted(u) && Grows(t, u)
    ensures Grows(t, Offer(rule, u, b))
  {
    OfferKeepsTree(rule, u, b);
    GrowsTransitive(t, u, Offer(rule, u, b));
  }

  lemma {:induction false} RunGrows(rule: Rule, t: Tree, bs: seq<Block>, i: nat, j: nat)
    requires Rooted(t) && i <= j <= |bs|
    ensures Grows(OfferFirst(rule, t, bs, i), OfferFirst(rule, t, bs, j))
  {
    var v := OfferFirst(rule, t, bs, i);
    var inv := (u: Tree) => Grows(v, u);
    forall u, b
      ensures OfferKeeps(rule, inv, u, b)
    {
      if Rooted(u) && Grows(v, u) { OfferExtends(rule, v, u, b); }
    }
    RunKeeps(rule, t, bs, inv, i, j);
  }

  /** A chain of the tree stays in it. */
  lemma {:induction false} ChainPersists(rule: Rule, t: Tree, bs: seq<Block>, i: nat, j: nat, c: seq<Block>)
    requires Rooted(t) && i <= j <= |bs| && IsChain(OfferFirst(rule, t, bs, i), c)
    ensures IsChain(OfferFirst(rule, t, bs, j), c)
  {
    RunGrows(rule, t, bs, i, j);
    GrowsChain(OfferFirst(rule, t, bs, i), OfferFirst(rule, t, bs, j), c);
  }

  lemma GrowsChain(t: Tree, u: Tree, c: seq<Block>)
    requires Grows(t, u) && IsChain(t, c)
    ensures IsChain(u, c)
  {
  }

  /** Offering the next block of a chain to a tree that holds the rest completes it. */
  lemma OfferCompletes(rule: Rule, t: Tree, front: seq<Block>, b: Block)
    requires Rooted(t) && IsChain(t, front) && b.previousHash == front[|front| - 1].hash
    requires b.hash != t.genesis && rule(front, b)
    requires b.hash in t.blocks ==> t.blocks[b.hash] == b
    ensures IsChain(Offer(rule, t, b), front + [b])
  {
    ChainIs(t, front);
    if b.hash in t.blocks {
      assert FromGenesis(t, b.hash);
      if b.hash !in t.parent {
        ChainOfRoot(t, b.hash);
      }
    } else {
      AttachChain(t, b);
    }
  }

  /** Block number `i` may follow genesis and the blocks before it. */
  ghost predicate Follows(rule: Rule, c: seq<Block>, i: nat) {
    0 < i < |c| ==> c[i].previousHash == c[i - 1].hash && rule(c[..i], c[i])
  }

  /** A chain that is offered block by block is accepted block by block. */
  lemma {:induction false} RunOfChain(rule: Rule, c: seq<Block>, n: nat)
    requires n < |c| && (forall i {:trigger Follows(rule, c, i)} :: Follows(rule, c, i))
    requires forall i, j :: 0 <= i < j < |c| ==> c[i].hash != c[j].hash
    ensures IsChain(OfferFirst(rule, Single(c[0]), c[1..], n), c[..n + 1])
  {
    if n == 0 {
      assert c[..1] == [c[0]];
    } else {
      RunOfChain(rule, c, n - 1);
      assert Follows(rule, c, n) && c[..n + 1] == c[..n] + [c[n]];
      NextOfChain(rule, c, n);
    }
  }

  lemma {:induction false} NextOfChain(rule: Rule, c: seq<Block>, n: nat)
    requires 0 < n < |c| && Follows(rule, c, n) && forall i, j :: 0 <= i < j < |c| ==> c[i].hash != c[j].hash
    requires IsChain(OfferFirst(rule, Single(c[0]), c[1..], n - 1), c[..n])
    ensures IsChain(OfferFirst(rule, Single(c[0]), c[1..], n), c[..n] + [c[n]])
  {
    assert c[1..][n - 1] == c[n];
    assert forall x :: x in c[1..] && x.hash == c[n].hash ==> x == c[n];
    OfferNext(rule, c[0], c[1..], n - 1, n, c[..n]);
  }

  /** The `k`-th offer completes a chain that was there after `j` offers, if its hash identifies it among the offers. */
  lemma {:induction false} OfferNext(rule: Rule, g: Block, bs: seq<Block>, j: nat, k: nat, front: seq<Block>)
    requires j < k <= |bs| && IsChain(OfferFirst(rule, Single(g), bs, j), front)
    requires var b := bs[k - 1]; b.previousHash == front[|front| - 1].hash && b.hash != g.hash && rule(front, b)
    requires forall x :: x in bs && x.hash == bs[k - 1].hash ==> x == bs[k - 1]
    ensures IsChain(OfferFirst(rule, Single(g), bs, k), front + [bs[k - 1]])
  {
    ChainPersists(rule, Single(g), bs, j, k - 1, front);
    OfferLast(rule, g, bs, k, front);
  }

  lemma {:induction false} OfferLast(rule: Rule, g: Block, bs: seq<Block>, k: nat, front: seq<Block>)
    requires 0 < k <= |bs| && IsChain(OfferFirst(rule, Single(g), bs, k - 1), front)
    requires var b := bs[k - 1]; b.previousHash == front[|front| - 1].hash && b.hash != g.hash && rule(front, b)
    requires forall x :: x in bs && x.hash == bs[k - 1].hash ==> x == bs[k - 1]
    ensures IsChain(OfferFirst(rule, Single(g), bs, k), front + [bs[k - 1]])
  {
    var t, b := OfferFirst(rule, Single(g), bs, k - 1), bs[k - 1];
    if b.hash in t.blocks {
      RunHoldsOnlyOffered(rule, Single(g), bs, k - 1, b.hash);
    }
    OfferCompletes(rule, t, front, b);
  }
}

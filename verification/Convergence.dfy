/** Two miners that are offered the same blocks end up with the same tree, whatever the order. */
module Convergence {
  import opened Types
  import opened BlockTree
  import opened Growth
  import opened Accounting
  import opened Ledger
  import opened ProofOfWork

  /** A hash names one block. */
  ghost predicate HashIdentifies(bs: seq<Block>) {
    forall a, b :: a in bs && b in bs && a.hash == b.hash ==> a == b
  }

  /** The block carries the digest of its own fields, and no other block of the list has data with that digest. */
  ghost predicate HasOwnDigest(md5: PowData -> Hash, bs: seq<Block>, difficulty: Block -> nat, b: Block) {
    && CarriesDigest(md5, b, difficulty(b))
    && forall a :: a in bs ==> !Collides(md5, PrepareData(a, 4 * difficulty(a), a.nonce),
                                         PrepareData(b, 4 * difficulty(b), b.nonce))
  }

  /** Hashes of mined blocks name them, whatever their difficulties: it takes a collision of the digest for two blocks
      to have one hash. */
  lemma MinedHashesIdentify(md5: PowData -> Hash, bs: seq<Block>, difficulty: Block -> nat)
    requires forall b {:trigger HasOwnDigest(md5, bs, difficulty, b)} :: b in bs ==>
               HasOwnDigest(md5, bs, difficulty, b)
    ensures HashIdentifies(bs)
  {
    forall a, b | a in bs && b in bs && a.hash == b.hash
      ensures a == b
    {
      assert HasOwnDigest(md5, bs, difficulty, a) && HasOwnDigest(md5, bs, difficulty, b);
      SameHashSameBlock(md5, a, b, difficulty(a), difficulty(b));
    }
  }

  /** A block whose parent is offered at all is offered after its parent. */
  ghost predicate ParentsFirst(genesis: Hash, bs: seq<Block>) {
    forall i :: 0 <= i < |bs| && bs[i].previousHash != genesis && HasHash(bs, bs[i].previousHash) ==>
                  HasHash(bs[..i], bs[i].previousHash)
  }

  /** The first `n` blocks of `c` start at the genesis block, continue with offered blocks only, and
      each of those may follow the ones before it. This does not mention any order of offers. */
  ghost predicate Earned(rule: Rule, g: Block, offered: set<Block>, c: seq<Block>, n: nat) {
    && 0 < n <= |c|
    && if n == 1 then c[0] == g
       else
         && Earned(rule, g, offered, c, n - 1)
         && c[n - 1] in offered
         && c[n - 1].hash != g.hash
         && c[n - 1].previousHash == c[n - 2].hash
         && rule(c[..n - 1], c[n - 1])
  }

  ghost function Offered(bs: seq<Block>): set<Block> {
    set b | b in bs
  }

  // ---------- a tree holds exactly the earned chains ----------

  lemma {:induction false} PresentIsEarned(rule: Rule, g: Block, bs: seq<Block>, c: seq<Block>, n: nat)
    requires IsChain(OfferAll(rule, Single(g), bs), c) && 0 < n <= |c|
    ensures Earned(rule, g, Offered(bs), c, n)
  {
    var t := OfferAll(rule, Single(g), bs);
    RootedChainStart(t, c);
    if n > 1 {
      ChainDistinct(t, c, 0, n - 1);
      RunIsHonest(rule, Single(g), bs, |bs|);
      HonestChain(rule, t, c, n - 1);
      RunHoldsOnlyOffered(rule, Single(g), bs, |bs|, c[n - 1].hash);
      PresentIsEarned(rule, g, bs, c, n - 1);
    }
  }

  /** If the last of the first `n` blocks of `c` is the `k`-th offer, the tree then holds all of them. */
  lemma {:induction false} EarnedIsPresent(rule: Rule, g: Block, bs: seq<Block>, c: seq<Block>, n: nat, k: nat)
    requires HashIdentifies(bs) && ParentsFirst(g.hash, bs) && Earned(rule, g, Offered(bs), c, n)
    requires k <= |bs| && (n > 1 ==> k > 0 && bs[k - 1] == c[n - 1])
    ensures IsChain(OfferFirst(rule, Single(g), bs, k), c[..n])
    decreases n
  {
    if n == 1 {
      assert IsChain(Single(g), c[..1]);
      ChainPersists(rule, Single(g), bs, 0, k, c[..1]);
    } else {
      var j := ParentOffer(rule, g, bs, c, n, k);
      EarnedIsPresent(rule, g, bs, c, n - 1, j);
      EarnedLater(rule, g, bs, c, n, j, k);
    }
  }

  lemma {:induction false} EarnedLater(rule: Rule, g: Block, bs: seq<Block>, c: seq<Block>, n: nat, j: nat, k: nat)
    requires HashIdentifies(bs) && Earned(rule, g, Offered(bs), c, n)
    requires n > 1 && j < k <= |bs| && bs[k - 1] == c[n - 1]
    requires IsChain(OfferFirst(rule, Single(g), bs, j), c[..n - 1])
    ensures IsChain(OfferFirst(rule, Single(g), bs, k), c[..n])
  {
    assert c[..n] == c[..n - 1] + [c[n - 1]];
    OfferNext(rule, g, bs, j, k, c[..n - 1]);
  }

  /** Where the parent of the last block of an earned chain was offered. */
  lemma ParentOffer(rule: Rule, g: Block, bs: seq<Block>, c: seq<Block>, n: nat, k: nat) returns (j: nat)
    requires HashIdentifies(bs) && ParentsFirst(g.hash, bs) && Earned(rule, g, Offered(bs), c, n)
    requires n > 1 && 0 < k <= |bs| && bs[k - 1] == c[n - 1]
    ensures j < k && (n > 2 ==> j > 0 && bs[j - 1] == c[n - 2])
  {
    if n == 2 {
      j := 0;
    } else {
      var p := c[n - 2];
      assert Earned(rule, g, Offered(bs), c, n - 1);
      assert HasHash(bs, bs[k - 1].previousHash);
      assert HasHash(bs[..k - 1], p.hash);
      var q :| q in bs[..k - 1] && q.hash == p.hash;
      var i :| 0 <= i < k - 1 && bs[..k - 1][i] == q;
      assert bs[i] == q == p;
      j := i + 1;
    }
  }

  /** The tree of a run is determined by the set of blocks offered. */
  lemma RunIsEarned(rule: Rule, g: Block, bs: seq<Block>, c: seq<Block>)
    requires HashIdentifies(bs) && ParentsFirst(g.hash, bs)
    ensures IsChain(OfferAll(rule, Single(g), bs), c) <==> Earned(rule, g, Offered(bs), c, |c|)
  {
    if IsChain(OfferAll(rule, Single(g), bs), c) {
      PresentIsEarned(rule, g, bs, c, |c|);
    }
    if Earned(rule, g, Offered(bs), c, |c|) {
      var k := LastOffer(rule, g, bs, c);
      EarnedIsPresent(rule, g, bs, c, |c|, k);
      assert c[..|c|] == c;
      ChainPersists(rule, Single(g), bs, k, |bs|, c);
    }
  }

  lemma LastOffer(rule: Rule, g: Block, bs: seq<Block>, c: seq<Block>) returns (k: nat)
    requires Earned(rule, g, Offered(bs), c, |c|)
    ensures k <= |bs| && (|c| > 1 ==> k > 0 && bs[k - 1] == c[|c| - 1])
  {
    if |c| > 1 {
      var i :| 0 <= i < |bs| && bs[i] == c[|c| - 1];
      return i + 1;
    }
    return 0;
  }

  // ---------- genesis blocks differ in their timestamps ----------

  /** Same miners and operations, position by position. */
  ghost predicate SameEffects(c: seq<Block>, d: seq<Block>) {
    && |c| == |d|
    && forall i :: 0 <= i < |c| ==> c[i].minerID == d[i].minerID && c[i].operations == d[i].operations
  }

  /** The rule looks at miners and operations of a chain only. */
  ghost predicate EffectsDecide(rule: Rule) {
    forall c, d, b :: SameEffects(c, d) && rule(c, b) ==> rule(d, b)
  }

  lemma {:induction false} SameEffectsSameAccounts(cfg: Settings, c: seq<Block>, d: seq<Block>)
    requires SameEffects(c, d)
    ensures OpsOn(c) == OpsOn(d)
    ensures forall m :: Balance(cfg, c, m) == Balance(cfg, d, m)
  {
    if c != [] {
      SameEffectsSameAccounts(cfg, c[..|c| - 1], d[..|d| - 1]);
    }
  }

  lemma LedgerEffectsDecide(rules: Rules)
    ensures EffectsDecide(RuleOf(rules))
  {
    forall c, d, b | SameEffects(c, d) && RuleOf(rules)(c, b)
      ensures RuleOf(rules)(d, b)
    {
      SameEffectsSameAccounts(rules.cfg, c, d);
    }
  }

  lemma {:induction false} EarnedElsewhere(rule: Rule, g: Block, g': Block, offered: set<Block>, c: seq<Block>, n: nat)
    requires EffectsDecide(rule) && SameEffects([g], [g']) && g.hash == g'.hash
    requires Earned(rule, g, offered, c, n)
    ensures c[0] == g && Earned(rule, g', offered, c[0 := g'], n)
  {
    if n > 1 {
      EarnedElsewhere(rule, g, g', offered, c, n - 1);
      assert [g][0] == g && [g'][0] == g';
      assert SameEffects(c[..n - 1], c[0 := g'][..n - 1]);
    }
  }

  // ---------- convergence ----------

  /** `t` is the tree of a miner that was offered `bs`, parents first. */
  ghost predicate ReachedBy(rule: Rule, g: Block, bs: seq<Block>, t: Tree) {
    HashIdentifies(bs) && ParentsFirst(g.hash, bs) && t == OfferAll(rule, Single(g), bs)
  }

  /** Two miners under one rule, with genesis blocks that differ at most in their timestamps, were
      offered the same set of blocks. */
  ghost predicate SameOffers(rule: Rule, g: Block, g': Block, bs: seq<Block>, bs': seq<Block>, t: Tree, u: Tree) {
    && EffectsDecide(rule)
    && g.hash == g'.hash
    && SameEffects([g], [g'])
    && ReachedBy(rule, g, bs, t)
    && ReachedBy(rule, g', bs', u)
    && Offered(bs) == Offered(bs')
  }

  lemma ChainsCarryOver(rule: Rule, g: Block, g': Block, bs: seq<Block>, bs': seq<Block>, t: Tree, u: Tree, h: Hash)
    requires SameOffers(rule, g, g', bs, bs', t, u) && h in t.blocks
    ensures Grounded(t, h) && Grounded(u, h) && Chain(u, h) == Chain(t, h)[0 := g']
  {
    assert FromGenesis(t, h);
    var c := Chain(t, h);
    RunIsEarned(rule, g, bs, c);
    EarnedElsewhere(rule, g, g', Offered(bs), c, |c|);
    RunIsEarned(rule, g', bs', c[0 := g']);
    ChainIs(u, c[0 := g']);
  }

  /** Both trees hold the block, at the same depth and below the same parent. */
  ghost predicate SamePosition(t: Tree, u: Tree, h: Hash) {
    && h in t.blocks && h in u.blocks
    && Grounded(t, h) && Grounded(u, h) && |Chain(t, h)| == |Chain(u, h)|
    && (h != t.genesis ==> u.blocks[h] == t.blocks[h])
    && (h in t.parent <==> h in u.parent)
    && (h in t.parent ==> u.parent[h] == t.parent[h])
  }

  /** Where a block stands in a tree can be read off its chain. */
  lemma PositionFromChain(t: Tree, h: Hash)
    requires Rooted(t) && Grounded(t, h)
    ensures var c := Chain(t, h);
            && h in t.blocks && t.blocks[h] == c[|c| - 1]
            && (h == t.genesis <==> |c| == 1)
            && (h in t.parent <==> |c| > 1)
            && (|c| > 1 ==> t.parent[h] == c[|c| - 2].hash)
  {
    if h !in t.parent {
      ChainOfRoot(t, h);
      assert FromGenesis(t, h);
    }
  }

  lemma PositionsAgree(rule: Rule, g: Block, g': Block, bs: seq<Block>, bs': seq<Block>, t: Tree, u: Tree, h: Hash)
    requires SameOffers(rule, g, g', bs, bs', t, u) && h in t.blocks
    ensures SamePosition(t, u, h)
  {
    ChainsCarryOver(rule, g, g', bs, bs', t, u, h);
    PositionFromChain(t, h);
    PositionFromChain(u, h);
    RootedChainStart(t, Chain(t, h));
  }

  ghost predicate SamePositions(t: Tree, u: Tree) {
    && Rooted(t) && Rooted(u)
    && t.genesis == u.genesis
    && t.blocks.Keys == u.blocks.Keys
    && forall h {:trigger SamePosition(t, u, h)} :: h in t.blocks ==> SamePosition(t, u, h)
  }

  lemma AllPositionsAgree(rule: Rule, g: Block, g': Block, bs: seq<Block>, bs': seq<Block>, t: Tree, u: Tree)
    requires SameOffers(rule, g, g', bs, bs', t, u)
    ensures SamePositions(t, u)
  {
    assert SameOffers(rule, g', g, bs', bs, u, t) by {
      assert [g][0] == g && [g'][0] == g';
    }
    forall h {:trigger SamePosition(t, u, h)} | h in t.blocks
      ensures SamePosition(t, u, h)
    {
      PositionsAgree(rule, g, g', bs, bs', t, u, h);
    }
    forall h | h in u.blocks
      ensures h in t.blocks
    {
      PositionsAgree(rule, g', g, bs', bs, u, t, h);
    }
    forall h | h in t.blocks
      ensures h in u.blocks
    {
      assert SamePosition(t, u, h);
    }
  }

  lemma SamePositionsBackwards(t: Tree, u: Tree)
    requires SamePositions(t, u)
    ensures SamePositions(u, t)
  {
    forall h {:trigger SamePosition(u, t, h)} | h in u.blocks
      ensures SamePosition(u, t, h)
    {
      assert SamePosition(t, u, h);
    }
  }

  lemma TipCarriesOver(t: Tree, u: Tree, h: Hash)
    requires SamePositions(t, u) && IsTip(t, h)
    ensures IsTip(u, h)
  {
    assert SamePosition(t, u, h);
    assert FromGenesis(u, h);
    forall k | k in u.blocks && FromGenesis(u, k)
      ensures |Chain(u, k)| <= |Chain(u, h)|
    {
      assert SamePosition(t, u, k) && FromGenesis(t, k);
    }
  }

  lemma SameTips(t: Tree, u: Tree, h: Hash)
    requires SamePositions(t, u)
    ensures IsTip(t, h) <==> IsTip(u, h)
  {
    SamePositionsBackwards(t, u);
    if IsTip(t, h) { TipCarriesOver(t, u, h); }
    if IsTip(u, h) { TipCarriesOver(u, t, h); }
  }

  lemma SameTrees(t: Tree, u: Tree)
    requires SamePositions(t, u)
    ensures t.parent == u.parent
    ensures t.blocks - {t.genesis} == u.blocks - {u.genesis}
  {
    forall h
      ensures h in t.parent <==> h in u.parent
      ensures h in t.parent ==> u.parent[h] == t.parent[h]
    {
      if h in t.parent || h in u.parent { assert SamePosition(t, u, h); }
    }
    forall h | h in t.blocks && h != t.genesis
      ensures u.blocks[h] == t.blocks[h]
    {
      assert SamePosition(t, u, h);
    }
    assert (t.blocks - {t.genesis}).Keys == (u.blocks - {u.genesis}).Keys;
  }

  /** Same settings, same set of offered blocks, parents first: the two ledgers have the same blocks
      (up to the genesis timestamp), the same parents, the same depths and the same tips. */
  lemma Converge(rules: Rules, now: int, now': int, bs: seq<Block>, bs': seq<Block>)
    requires HashIdentifies(bs) && ParentsFirst(rules.cfg.genesisBlockHash, bs)
    requires ParentsFirst(rules.cfg.genesisBlockHash, bs') && Offered(bs) == Offered(bs')
    ensures var t, u := After(rules, now, bs), After(rules, now', bs');
            && t.blocks.Keys == u.blocks.Keys
            && t.blocks - {t.genesis} == u.blocks - {u.genesis}
            && t.parent == u.parent
            && (forall h {:trigger SamePosition(t, u, h)} :: h in t.blocks ==> SamePosition(t, u, h))
            && (forall h :: IsTip(t, h) <==> IsTip(u, h))
  {
    var t, u := After(rules, now, bs), After(rules, now', bs');
    LedgerEffectsDecide(rules);
    SameBlocksIdentified(bs, bs');
    AllPositionsAgree(RuleOf(rules), GenesisBlock(rules.cfg, now), GenesisBlock(rules.cfg, now'), bs, bs', t, u);
    SameTrees(t, u);
    forall h
      ensures IsTip(t, h) <==> IsTip(u, h)
    {
      SameTips(t, u, h);
    }
  }

  lemma SameBlocksIdentified(bs: seq<Block>, bs': seq<Block>)
    requires HashIdentifies(bs) && Offered(bs) == Offered(bs')
    ensures HashIdentifies(bs')
  {
    assert forall b :: b in bs' ==> b in Offered(bs');
  }
}

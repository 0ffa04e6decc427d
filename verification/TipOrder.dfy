/** Of several longest chains, getLastNodes lists the one whose branch was added last first. */
module TipOrder {
  import opened Types
  import opened BlockTree
  import opened Growth
  import opened Ledger
  import opened Search

  // ---------- the order of the visits, without the visits ----------

  /** Below `h`, `a` hangs under a later child than `b`. */
  ghost predicate BranchesAt(t: Tree, kids: Kids, a: Hash, b: Hash, h: Hash, i: int, j: int) {
    && h in kids && 0 <= j < i < |kids[h]|
    && DescendsFrom(t, a, kids[h][i]) && DescendsFrom(t, b, kids[h][j])
  }

  ghost predicate OnLaterBranch(t: Tree, kids: Kids, a: Hash, b: Hash) {
    exists h, i, j :: BranchesAt(t, kids, a, b, h, i, j)
  }

  /** `a` is above `b`, or on a later branch. */
  ghost predicate ComesBefore(t: Tree, kids: Kids, a: Hash, b: Hash) {
    DescendsFrom(t, b, a) || OnLaterBranch(t, kids, a, b)
  }

  /** Each of the list comes before the later ones. */
  ghost predicate Sorted(rel: (Hash, Hash) -> bool, s: seq<Hash>) {
    forall p, q :: 0 <= p < q < |s| ==> rel(s[p], s[q])
  }

  lemma SortedConcat(rel: (Hash, Hash) -> bool, a: seq<Hash>, b: seq<Hash>)
    requires Sorted(rel, a) && Sorted(rel, b) && forall x, y :: x in a && y in b ==> rel(x, y)
    ensures Sorted(rel, a + b)
  {
    var s := a + b;
    forall p, q | 0 <= p < q < |s|
      ensures rel(s[p], s[q])
    {
      if p < |a| <= q {
        assert s[p] in a && s[q] in b;
      }
    }
  }

  lemma {:induction false} DeepestAreSorted(rel: (Hash, Hash) -> bool, depth: map<Hash, nat>, d: nat, s: seq<Hash>)
    requires AllIn(s, depth) && Sorted(rel, s)
    ensures Sorted(rel, AtDepth(depth, d, s)) && forall x :: x in AtDepth(depth, d, s) ==> x in s
  {
    if s != [] {
      var n := |s| - 1;
      var front := AtDepth(depth, d, s[..n]);
      DeepestAreSorted(rel, depth, d, s[..n]);
      forall x | x in front
        ensures rel(x, s[n])
      {
        var p :| 0 <= p < n && s[..n][p] == x;
        assert s[p] == x;
      }
      assert s == s[..n] + [s[n]];
      SortedConcat(rel, front, [s[n]]);
    }
  }

  ghost function Before(t: Tree, kids: Kids): (Hash, Hash) -> bool {
    (a: Hash, b: Hash) => ComesBefore(t, kids, a, b)
  }

  /** The node hangs under one of the first `n` children of `h`. */
  ghost predicate UnderSome(t: Tree, kids: Kids, h: Hash, n: nat, x: Hash) {
    h in kids && exists i :: 0 <= i < n && i < |kids[h]| && DescendsFrom(t, x, kids[h][i])
  }

  ghost predicate AllUnder(t: Tree, kids: Kids, h: Hash, n: nat, s: seq<Hash>) {
    forall x :: x in s ==> UnderSome(t, kids, h, n, x)
  }

  lemma {:induction false} ChildDescends(t: Tree, kids: Kids, h: Hash, i: nat)
    requires Linked(t) && Orders(t, kids) && FromGenesis(t, h) && h in kids && i < |kids[h]|
    ensures FromGenesis(t, kids[h][i]) && DescendsFrom(t, kids[h][i], h) && DescendsFrom(t, kids[h][i], kids[h][i])
  {
    assert kids[h][i] in kids[h];
    assert IsKids(t.parent, h, kids[h]);
    ChainBelow(t, kids[h][i]);
  }

  lemma {:induction false} UnderItsChildren(t: Tree, kids: Kids, c: Hash, n: nat, x: Hash)
    requires Linked(t) && Orders(t, kids) && FromGenesis(t, c) && UnderSome(t, kids, c, n, x)
    ensures DescendsFrom(t, x, c)
  {
    var i :| 0 <= i < n && i < |kids[c]| && DescendsFrom(t, x, kids[c][i]);
    ChildDescends(t, kids, c, i);
  }

  lemma {:induction false} AllUnderIt(t: Tree, kids: Kids, c: Hash, n: nat, below: seq<Hash>)
    requires Linked(t) && Orders(t, kids) && FromGenesis(t, c) && AllUnder(t, kids, c, n, below)
    ensures forall x :: x in [c] + below ==> DescendsFrom(t, x, c)
  {
    forall x | x in below
      ensures DescendsFrom(t, x, c)
    {
      UnderItsChildren(t, kids, c, n, x);
    }
  }

  /** One child more: it, all below it, then what hangs under the children before it. */
  lemma {:induction false} OneChildMore(t: Tree, kids: Kids, h: Hash, n: nat, below: seq<Hash>, rest: seq<Hash>)
    requires Linked(t) && Orders(t, kids) && FromGenesis(t, h) && h in kids && n < |kids[h]|
    requires var c := kids[h][n]; c in kids && AllUnder(t, kids, c, |kids[c]|, below) && Sorted(Before(t, kids), below)
    requires AllUnder(t, kids, h, n, rest) && Sorted(Before(t, kids), rest)
    ensures AllUnder(t, kids, h, n + 1, [kids[h][n]] + below + rest)
    ensures Sorted(Before(t, kids), [kids[h][n]] + below + rest)
  {
    var c := kids[h][n];
    ChildDescends(t, kids, h, n);
    AllUnderIt(t, kids, c, |kids[c]|, below);
    SortedConcat(Before(t, kids), [c], below);
    forall x | x in [c] + below
      ensures UnderSome(t, kids, h, n + 1, x)
    {
    }
    forall x, y | x in [c] + below && y in rest
      ensures ComesBefore(t, kids, x, y)
    {
      assert UnderSome(t, kids, h, n, y);
      var i :| 0 <= i < n && DescendsFrom(t, y, kids[h][i]);
      assert BranchesAt(t, kids, x, y, h, n, i);
    }
    SortedConcat(Before(t, kids), [c] + below, rest);
  }

  ghost predicate AllFromGenesis(t: Tree, depth: map<Hash, nat>) {
    forall h {:trigger FromGenesis(t, h)} :: h in depth ==> FromGenesis(t, h)
  }

  lemma {:induction false} VisitsUnfold(kids: Kids, depth: map<Hash, nat>, top: nat, h: Hash, n: nat)
    requires Descends(kids, depth, top) && h in depth && n < |kids[h]|
    ensures var c := kids[h][n];
            && c in depth && depth[c] == depth[h] + 1
            && AllIn(kids[c], depth) && AllIn(kids[h][..n], depth) && AllIn(kids[h][..n + 1], depth)
            && Visits(kids, depth, top, kids[h][..n + 1])
               == [c] + Visits(kids, depth, top, kids[c]) + Visits(kids, depth, top, kids[h][..n])
  {
    var c, stack := kids[h][n], kids[h][..n + 1];
    assert forall i :: 0 <= i < |kids[h]| ==> kids[h][i] in kids[h];
    assert forall i :: 0 <= i < |kids[c]| ==> kids[c][i] in kids[c];
    assert stack[..n] == kids[h][..n] && stack[n] == c;
  }

  /** The property passes from the visits below one child, and those under the children before it, to all of them. */
  ghost predicate ChildKeeps(kids: Kids, depth: map<Hash, nat>, inv: (Hash, nat, seq<Hash>) -> bool, h: Hash, n: nat,
                             below: seq<Hash>, rest: seq<Hash>)
  {
    h in depth && h in kids && n < |kids[h]| && kids[h][n] in kids
    && inv(kids[h][n], |kids[kids[h][n]]|, below) && inv(h, n, rest) ==>
      inv(h, n + 1, [kids[h][n]] + below + rest)
  }

  lemma {:induction false} VisitsKeep(kids: Kids, depth: map<Hash, nat>, top: nat,
                                      inv: (Hash, nat, seq<Hash>) -> bool, h: Hash, n: nat)
    requires Descends(kids, depth, top) && h in depth && n <= |kids[h]|
    requires forall h :: inv(h, 0, [])
    requires forall h, n, below, rest {:trigger ChildKeeps(kids, depth, inv, h, n, below, rest)} ::
               ChildKeeps(kids, depth, inv, h, n, below, rest)
    ensures AllIn(kids[h][..n], depth) && inv(h, n, Visits(kids, depth, top, kids[h][..n]))
    decreases top - depth[h], n
  {
    if n > 0 {
      var c := kids[h][n - 1];
      VisitsUnfold(kids, depth, top, h, n - 1);
      VisitsKeep(kids, depth, top, inv, h, n - 1);
      VisitsKeep(kids, depth, top, inv, c, |kids[c]|);
      assert kids[c][..|kids[c]|] == kids[c];
      assert ChildKeeps(kids, depth, inv, h, n - 1, Visits(kids, depth, top, kids[c]),
                        Visits(kids, depth, top, kids[h][..n - 1]));
    }
  }

  /** What is visited below a node hangs under its children, and is visited in order. */
  lemma {:induction false} VisitsAreOrdered(t: Tree, kids: Kids, depth: map<Hash, nat>, top: nat, h: Hash)
    requires Linked(t) && Orders(t, kids) && AllFromGenesis(t, depth) && Descends(kids, depth, top) && h in depth
    ensures AllIn(kids[h], depth)
    ensures AllUnder(t, kids, h, |kids[h]|, Visits(kids, depth, top, kids[h]))
    ensures Sorted(Before(t, kids), Visits(kids, depth, top, kids[h]))
  {
    var inv := (h: Hash, n: nat, s: seq<Hash>) => AllUnder(t, kids, h, n, s) && Sorted(Before(t, kids), s);
    forall h, n: nat, below, rest
      ensures ChildKeeps(kids, depth, inv, h, n, below, rest)
    {
      if h in depth && h in kids && n < |kids[h]| && kids[h][n] in kids
         && inv(kids[h][n], |kids[kids[h][n]]|, below) && inv(h, n, rest) {
        assert FromGenesis(t, h);
        OneChildMore(t, kids, h, n, below, rest);
      }
    }
    forall h: Hash
      ensures inv(h, 0, [])
    {
      var none: seq<Hash> := [];
      assert AllUnder(t, kids, h, 0, none) && Sorted(Before(t, kids), none);
    }
    VisitsKeep(kids, depth, top, inv, h, |kids[h]|);
    assert kids[h][..|kids[h]|] == kids[h];
  }

  lemma {:induction false} VisitOrderIsOrdered(t: Tree, kids: Kids)
    requires Linked(t) && Orders(t, kids)
    ensures Sorted(Before(t, kids), [t.genesis] + VisitOrder(t, kids))
  {
    var g, depth := t.genesis, Depths(t);
    var top, none: seq<Hash> := Top(depth), [];
    OrderedDescends(t, kids);
    VisitsAreOrdered(t, kids, depth, top, g);
    var below := Visits(kids, depth, top, kids[g]);
    assert [g][..0] == none && Visits(kids, depth, top, none) == none;
    assert VisitOrder(t, kids) == [g] + below;
    AllUnderIt(t, kids, g, |kids[g]|, below);
    SortedConcat(Before(t, kids), [g], below);
    SortedConcat(Before(t, kids), [g], [g] + below);
  }

  lemma {:induction false} TipsAreSorted(t: Tree, kids: Kids)
    requires Linked(t) && Orders(t, kids)
    ensures Sorted(Before(t, kids), LastTips(t.genesis, kids))
  {
    var entered := [t.genesis] + VisitOrder(t, kids);
    TipsFollowTheVisits(t, kids);
    VisitOrderIsOrdered(t, kids);
    DeepestAreSorted(Before(t, kids), Depths(t), MaxDepth(Depths(t), entered), entered);
  }

  /** Two tips are listed in the order of their branches, the later one first. */
  lemma {:induction false} TipsByBranch(t: Tree, kids: Kids, i: nat, j: nat)
    requires Linked(t) && Orders(t, kids)
    requires var tips := LastTips(t.genesis, kids); i < j < |tips| && tips[i] != tips[j]
    ensures OnLaterBranch(t, kids, LastTips(t.genesis, kids)[i], LastTips(t.genesis, kids)[j])
  {
    var tips := LastTips(t.genesis, kids);
    TipsAreSorted(t, kids);
    LastTipsAreTips(t, kids);
    assert tips[i] in tips && tips[j] in tips;
    assert Before(t, kids)(tips[i], tips[j]);
    if DescendsFrom(t, tips[j], tips[i]) {
      SameLengthSameTip(t, tips[i], tips[j]);
    }
  }

  lemma {:induction false} SameLengthSameTip(t: Tree, a: Hash, b: Hash)
    requires IsTip(t, a) && IsTip(t, b) && DescendsFrom(t, b, a)
    ensures a == b
  {
    assert Chain(t, a) == Chain(t, b);
  }

  // ---------- runs ----------

  /** The child lists after offering the first `n` of the blocks to a new chain. */
  ghost function KidsFirst(rule: Rule, g: Block, bs: seq<Block>, n: nat): Kids
    requires n <= |bs|
  {
    if n == 0 then map[g.hash := []]
    else if Fits(rule, OfferFirst(rule, Single(g), bs, n - 1), bs[n - 1])
    then Hang(KidsFirst(rule, g, bs, n - 1), bs[n - 1])
    else KidsFirst(rule, g, bs, n - 1)
  }

  lemma {:induction false} HangIsKids(t: Tree, kids: Kids, b: Block, h: Hash)
    requires Linked(t) && Orders(t, kids) && b.hash !in t.blocks && b.previousHash in t.blocks
    requires h in Hang(kids, b)
    ensures IsKids(Attach(t, b).parent, h, Hang(kids, b)[h])
  {
    var parent, hung := Attach(t, b).parent, Hang(kids, b);
    assert h in kids ==> IsKids(t.parent, h, kids[h]);
    forall c
      ensures c in hung[h] <==> c in parent && parent[c] == h
    {
      assert c in t.parent ==> c in t.blocks && t.parent[c] in t.blocks;
    }
  }

  lemma {:induction false} HangOrders(t: Tree, kids: Kids, b: Block)
    requires Linked(t) && Orders(t, kids) && b.hash !in t.blocks && b.previousHash in t.blocks
    ensures Orders(Attach(t, b), Hang(kids, b))
  {
    forall h | h in Hang(kids, b)
      ensures IsKids(Attach(t, b).parent, h, Hang(kids, b)[h])
    {
      HangIsKids(t, kids, b, h);
    }
  }

  lemma {:induction false} RunOrders(rule: Rule, g: Block, bs: seq<Block>, n: nat)
    requires n <= |bs|
    ensures Orders(OfferFirst(rule, Single(g), bs, n), KidsFirst(rule, g, bs, n))
  {
    if n > 0 {
      RunOrders(rule, g, bs, n - 1);
      var t := OfferFirst(rule, Single(g), bs, n - 1);
      if Fits(rule, t, bs[n - 1]) {
        HangOrders(t, KidsFirst(rule, g, bs, n - 1), bs[n - 1]);
      }
    }
  }

  /** After `n` offers `x` was in the ledger and `y` was not. */
  ghost predicate OnlyFirstIn(rule: Rule, g: Block, bs: seq<Block>, n: nat, x: Hash, y: Hash) {
    && n <= |bs| && x in OfferFirst(rule, Single(g), bs, n).blocks && y !in OfferFirst(rule, Single(g), bs, n).blocks
  }

  /** Two entries of a child list once `b` hangs in it: the entries that were there, or the later one is `b`. */
  lemma {:induction false} HangEntries(kids: Kids, b: Block, h: Hash, i: nat, j: nat)
    requires b.hash !in kids && b.previousHash in kids && h in Hang(kids, b) && i < j < |Hang(kids, b)[h]|
    ensures h in kids && i < |kids[h]| && Hang(kids, b)[h][i] == kids[h][i]
    ensures if j < |kids[h]| then Hang(kids, b)[h][j] == kids[h][j] else Hang(kids, b)[h][j] == b.hash
  {
  }

  lemma {:induction false} ListedIsIn(t: Tree, kids: Kids, h: Hash, i: nat)
    requires Linked(t) && Orders(t, kids) && h in kids && i < |kids[h]|
    ensures kids[h][i] in t.blocks
  {
    assert IsKids(t.parent, h, kids[h]) && kids[h][i] in kids[h];
  }

  /** Child lists are in the order of acceptance. */
  lemma {:induction false} KidsFollowTheOffers(rule: Rule, g: Block, bs: seq<Block>, n: nat, h: Hash, i: nat, j: nat)
    returns (m: nat)
    requires n <= |bs| && h in KidsFirst(rule, g, bs, n) && i < j < |KidsFirst(rule, g, bs, n)[h]|
    ensures var list := KidsFirst(rule, g, bs, n)[h]; m < n && OnlyFirstIn(rule, g, bs, m, list[i], list[j])
  {
    var t, kids, b := OfferFirst(rule, Single(g), bs, n - 1), KidsFirst(rule, g, bs, n - 1), bs[n - 1];
    if Fits(rule, t, b) {
      RunOrders(rule, g, bs, n - 1);
      HangEntries(kids, b, h, i, j);
      ListedIsIn(t, kids, h, i);
    }
    if h in kids && j < |kids[h]| {
      m := KidsFollowTheOffers(rule, g, bs, n - 1, h, i, j);
    } else {
      m := n - 1;
    }
  }

  /** Two branches from one block: `x` on the way to `a`, `y` on the way to `b`, and `x` was added after `y`. */
  ghost predicate AddedLater(rules: Rules, now: int, bs: seq<Block>, a: Hash, b: Hash, x: Hash, y: Hash) {
    var t := After(rules, now, bs);
    && DescendsFrom(t, a, x) && DescendsFrom(t, b, y)
    && x in t.parent && y in t.parent && t.parent[x] == t.parent[y]
    && exists n :: OnlyFirstIn(RuleOf(rules), GenesisBlock(rules.cfg, now), bs, n, y, x)
  }

  /** The tips that getLastNodes lists after the given AddBlock calls on a new chain. */
  ghost function TipsAfter(rules: Rules, now: int, bs: seq<Block>): seq<Hash> {
    LastTips(rules.cfg.genesisBlockHash, KidsFirst(RuleOf(rules), GenesisBlock(rules.cfg, now), bs, |bs|))
  }

  lemma {:induction false} BranchAddedLater(rules: Rules, now: int, bs: seq<Block>, a: Hash, b: Hash, h: Hash, i: nat,
                                            j: nat)
    requires BranchesAt(After(rules, now, bs), KidsFirst(RuleOf(rules), GenesisBlock(rules.cfg, now), bs, |bs|), a, b,
                        h, i, j)
    ensures exists x, y :: AddedLater(rules, now, bs, a, b, x, y)
  {
    var rule, g, t := RuleOf(rules), GenesisBlock(rules.cfg, now), After(rules, now, bs);
    var kids := KidsFirst(rule, g, bs, |bs|);
    RunOrders(rule, g, bs, |bs|);
    assert IsKids(t.parent, h, kids[h]) && kids[h][i] in kids[h] && kids[h][j] in kids[h];
    var n := KidsFollowTheOffers(rule, g, bs, |bs|, h, j, i);
    assert AddedLater(rules, now, bs, a, b, kids[h][i], kids[h][j]);
  }

  /** After any AddBlock calls on a new chain: of two longest chains, the one whose branch was added later is listed
      first. */
  lemma {:induction false} LatestBranchFirst(rules: Rules, now: int, bs: seq<Block>, p: nat, q: nat)
    requires p < q < |TipsAfter(rules, now, bs)| && TipsAfter(rules, now, bs)[p] != TipsAfter(rules, now, bs)[q]
    ensures var tips := TipsAfter(rules, now, bs); exists x, y :: AddedLater(rules, now, bs, tips[p], tips[q], x, y)
  {
    var rule, g, t := RuleOf(rules), GenesisBlock(rules.cfg, now), After(rules, now, bs);
    var kids, tips := KidsFirst(rule, g, bs, |bs|), TipsAfter(rules, now, bs);
    RunOrders(rule, g, bs, |bs|);
    TipsByBranch(t, kids, p, q);
    var h, i, j :| BranchesAt(t, kids, tips[p], tips[q], h, i, j);
    BranchAddedLater(rules, now, bs, tips[p], tips[q], h, i, j);
  }
}

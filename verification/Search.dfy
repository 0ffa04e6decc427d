/** The depth-first search of getLastNodes, over hashes: what its two stacks and its best list hold. */
module Search {
  import opened Types
  import opened BlockTree

  ghost predicate Distinct(s: seq<Hash>) {
    forall i, j :: 0 <= i < j < |s| ==> s[i] != s[j]
  }

  /** `kids` lists the children of `h`, each once. */
  ghost predicate IsKids(parent: map<Hash, Hash>, h: Hash, kids: seq<Hash>) {
    && Distinct(kids)
    && forall c :: c in kids <==> c in parent && parent[c] == h
  }

  /** `depth` maps exactly the nodes below `genesis` to their depths. */
  ghost predicate IsDepths(parent: map<Hash, Hash>, genesis: Hash, depth: map<Hash, nat>) {
    && genesis !in parent
    && genesis in depth && depth[genesis] == 0
    && (forall h {:trigger depth[h]} :: h in depth && h != genesis ==>
                                          h in parent && parent[h] in depth && depth[h] == depth[parent[h]] + 1)
    && (forall c {:trigger parent[c]} :: c in parent && parent[c] in depth ==> c in depth)
  }

  /** `seen` nodes have been expanded, the stack holds the frontier with its depths. */
  ghost predicate Searching(parent: map<Hash, Hash>, genesis: Hash, depth: map<Hash, nat>,
                            seen: set<Hash>, stack: seq<Hash>, depths: seq<nat>)
  {
    && |stack| == |depths|
    && Distinct(stack)
    && (forall i {:trigger stack[i]} :: 0 <= i < |stack| ==>
                                          stack[i] in depth && depth[stack[i]] == depths[i] && stack[i] !in seen)
    && seen <= depth.Keys
    && (genesis in seen || genesis in stack)
    && (forall c {:trigger c in parent} :: c in parent ==> (parent[c] in seen <==> c in seen || c in stack))
  }

  /** Replacing the top of the stack by its children keeps the search going. */
  lemma ExpandTop(parent: map<Hash, Hash>, genesis: Hash, depth: map<Hash, nat>,
                  seen: set<Hash>, stack: seq<Hash>, depths: seq<nat>, kids: seq<Hash>, kidDepths: seq<nat>)
    requires IsDepths(parent, genesis, depth) && Searching(parent, genesis, depth, seen, stack, depths) && |stack| > 0
    requires IsKids(parent, stack[|stack| - 1], kids) && |kidDepths| == |kids|
    requires forall i :: 0 <= i < |kids| ==> kidDepths[i] == depths[|stack| - 1] + 1
    ensures Searching(parent, genesis, depth, seen + {stack[|stack| - 1]},
                      stack[..|stack| - 1] + kids, depths[..|stack| - 1] + kidDepths)
  {
    var h := stack[|stack| - 1];
    var rest, rest' := stack[..|stack| - 1] + kids, depths[..|stack| - 1] + kidDepths;
    assert stack == stack[..|stack| - 1] + [h];
    forall i | 0 <= i < |rest|
      ensures rest[i] in depth && depth[rest[i]] == rest'[i] && rest[i] !in seen + {h}
    {
      if i < |stack| - 1 {
        assert rest[i] == stack[i];
      } else {
        var c := rest[i];
        assert c in kids && parent[c] == h;
        assert c in depth && c !in stack;
      }
    }
    forall i, j | 0 <= i < j < |rest|
      ensures rest[i] != rest[j]
    {
      if i < |stack| - 1 <= j {
        assert rest[j] in kids;
        assert rest[i] in stack;
      }
    }
  }

  /** An empty stack means that everything below the genesis block has been expanded. */
  lemma {:induction false} SearchIsComplete(parent: map<Hash, Hash>, genesis: Hash, depth: map<Hash, nat>,
                                            seen: set<Hash>, h: Hash)
    requires IsDepths(parent, genesis, depth) && Searching(parent, genesis, depth, seen, [], []) && h in depth
    ensures h in seen
    decreases depth[h]
  {
    if h != genesis {
      SearchIsComplete(parent, genesis, depth, seen, parent[h]);
    }
  }

  // ---------- the best list ----------

  /** `last` lists the deepest nodes seen so far. While the best depth is 0 it is the initial entry for
      the genesis block, followed by the entry for its visit. */
  ghost predicate Best(genesis: Hash, depth: map<Hash, nat>, seen: set<Hash>, max: nat, last: seq<Hash>) {
    && |last| > 0
    && (forall h :: h in seen ==> h in depth && depth[h] <= max)
    && (forall h :: h in last ==> h in depth && depth[h] == max)
    && (forall h :: h in seen && h in depth && depth[h] == max ==> h in last)
    && (max > 0 ==> Distinct(last) && forall h :: h in last ==> h in seen)
    && (max == 0 ==> last == if genesis in seen then [genesis, genesis] else [genesis])
  }

  lemma Visit(parent: map<Hash, Hash>, genesis: Hash, depth: map<Hash, nat>, seen: set<Hash>,
              max0: nat, last0: seq<Hash>, h: Hash, max: nat, last: seq<Hash>)
    requires IsDepths(parent, genesis, depth) && Best(genesis, depth, seen, max0, last0) && h in depth && h !in seen
    requires max == if depth[h] > max0 then depth[h] else max0
    requires last == if depth[h] > max0 then [h] else if depth[h] == max0 then last0 + [h] else last0
    ensures Best(genesis, depth, seen + {h}, max, last)
  {
    if depth[h] == max0 {
      assert forall i :: 0 <= i < |last0| ==> last0[i] in last0;
    }
  }

  // ---------- depths in a block tree ----------

  ghost function Depths(t: Tree): map<Hash, nat> {
    map h | h in t.blocks && FromGenesis(t, h) :: |Chain(t, h)| - 1
  }

  lemma DepthsHold(t: Tree)
    requires Linked(t)
    ensures IsDepths(t.parent, t.genesis, Depths(t))
  {
    ChainOfRoot(t, t.genesis);
    forall h | h in Depths(t) && h != t.genesis
      ensures h in t.parent && t.parent[h] in Depths(t) && Depths(t)[h] == Depths(t)[t.parent[h]] + 1
    {
      if h !in t.parent {
        ChainOfRoot(t, h);
      } else {
        ChainAbove(t, h);
      }
    }
    forall c | c in t.parent && t.parent[c] in Depths(t)
      ensures c in Depths(t)
    {
      ChainBelow(t, c);
    }
  }

  /** When the search is over, the best list holds exactly the tips. */
  lemma BestAreTips(t: Tree, seen: set<Hash>, max: nat, last: seq<Hash>, h: Hash)
    requires Linked(t) && Searching(t.parent, t.genesis, Depths(t), seen, [], [])
    requires Best(t.genesis, Depths(t), seen, max, last)
    ensures h in last <==> IsTip(t, h)
  {
    DepthsHold(t);
    forall k | k in Depths(t)
      ensures k in seen
    {
      SearchIsComplete(t.parent, t.genesis, Depths(t), seen, k);
    }
    var best := last[0];
    assert best in Depths(t);
    if IsTip(t, h) {
      assert h in Depths(t);
      assert FromGenesis(t, best);
    }
    if h in last {
      forall k | k in t.blocks && FromGenesis(t, k)
        ensures |Chain(t, k)| <= |Chain(t, h)|
      {
        assert k in Depths(t);
      }
    }
  }

  // ---------- the order in which the search visits ----------

  type Kids = map<Hash, seq<Hash>>

  /** The child lists once `b` hangs below its parent. */
  ghost function Hang(kids: Kids, b: Block): Kids {
    var siblings := if b.previousHash in kids then kids[b.previousHash] else [];
    kids[b.hash := []][b.previousHash := siblings + [b.hash]]
  }

  ghost predicate NoDeeper(depth: map<Hash, nat>, top: nat) {
    forall h {:trigger depth[h]} :: h in depth ==> depth[h] <= top
  }

  /** Child lists lead one step down, and no node is deeper than `top`. */
  ghost predicate Descends(kids: Kids, depth: map<Hash, nat>, top: nat) {
    && depth.Keys <= kids.Keys && NoDeeper(depth, top)
    && (forall h, c {:trigger c in kids[h]} :: h in depth && c in kids[h] ==> c in depth && depth[c] == depth[h] + 1)
  }

  /** How far below the nodes of the stack the tree can reach. */
  ghost function Room(depth: map<Hash, nat>, top: nat, stack: seq<Hash>): nat {
    if stack == [] then 0
    else
      var h, rest := stack[|stack| - 1], Room(depth, top, stack[..|stack| - 1]);
      if h in depth && rest + depth[h] < top + 1 then top + 1 - depth[h] else rest
  }

  lemma {:induction false} RoomAtMost(depth: map<Hash, nat>, top: nat, stack: seq<Hash>, r: nat)
    requires forall h :: h in stack && h in depth ==> top + 1 <= r + depth[h]
    ensures Room(depth, top, stack) <= r
  {
    if stack != [] {
      RoomAtMost(depth, top, stack[..|stack| - 1], r);
    }
  }

  ghost predicate AllIn(stack: seq<Hash>, depth: map<Hash, nat>) {
    forall i {:trigger stack[i]} :: 0 <= i < |stack| ==> stack[i] in depth
  }

  /** The nodes at and below the stack, in the order in which they will be visited: the top of the stack, then all
      that is below it, its last child first, then the rest of the stack. */
  ghost function Visits(kids: Kids, depth: map<Hash, nat>, top: nat, stack: seq<Hash>): (order: seq<Hash>)
    requires Descends(kids, depth, top) && AllIn(stack, depth)
    ensures AllIn(order, depth)
    decreases Room(depth, top, stack), |stack|
  {
    if stack == [] then []
    else
      var h, rest := stack[|stack| - 1], stack[..|stack| - 1];
      assert forall i :: 0 <= i < |kids[h]| ==> kids[h][i] in kids[h];
      RoomAtMost(depth, top, kids[h], top - depth[h]);
      [h] + Visits(kids, depth, top, kids[h]) + Visits(kids, depth, top, rest)
  }

  lemma {:induction false} VisitsConcat(kids: Kids, depth: map<Hash, nat>, top: nat, a: seq<Hash>, b: seq<Hash>)
    requires Descends(kids, depth, top) && AllIn(a, depth) && AllIn(b, depth)
    ensures AllIn(a + b, depth)
    ensures Visits(kids, depth, top, a + b) == Visits(kids, depth, top, b) + Visits(kids, depth, top, a)
    decreases |b|
  {
    if b == [] {
      assert a + b == a;
    } else {
      var h, rest := b[|b| - 1], b[..|b| - 1];
      VisitsConcat(kids, depth, top, a, rest);
      assert (a + b)[..|a + b| - 1] == a + rest && (a + b)[|a + b| - 1] == h;
    }
  }

  /** Popping the top and pushing its children visits the top and leaves the rest of the order as it was. */
  lemma {:induction false} PopVisits(kids: Kids, depth: map<Hash, nat>, top: nat, stack: seq<Hash>)
    requires Descends(kids, depth, top) && AllIn(stack, depth) && stack != []
    ensures var h, rest := stack[|stack| - 1], stack[..|stack| - 1];
            && AllIn(rest + kids[h], depth)
            && Visits(kids, depth, top, stack) == [h] + Visits(kids, depth, top, rest + kids[h])
  {
    var h, rest := stack[|stack| - 1], stack[..|stack| - 1];
    assert forall i :: 0 <= i < |kids[h]| ==> kids[h][i] in kids[h];
    VisitsConcat(kids, depth, top, rest, kids[h]);
  }

  ghost function MaxDepth(depth: map<Hash, nat>, s: seq<Hash>): nat
    requires AllIn(s, depth)
  {
    if s == [] then 0
    else
      var d, rest := depth[s[|s| - 1]], MaxDepth(depth, s[..|s| - 1]);
      if d > rest then d else rest
  }

  /** The members of the list at depth `d`, in order. */
  ghost function AtDepth(depth: map<Hash, nat>, d: nat, s: seq<Hash>): seq<Hash>
    requires AllIn(s, depth)
  {
    if s == [] then []
    else AtDepth(depth, d, s[..|s| - 1]) + if depth[s[|s| - 1]] == d then [s[|s| - 1]] else []
  }

  ghost function DeepestOf(depth: map<Hash, nat>, s: seq<Hash>): seq<Hash>
    requires AllIn(s, depth)
  {
    AtDepth(depth, MaxDepth(depth, s), s)
  }

  lemma {:induction false} NoneDeeper(depth: map<Hash, nat>, d: nat, s: seq<Hash>)
    requires AllIn(s, depth) && d > MaxDepth(depth, s)
    ensures AtDepth(depth, d, s) == []
  {
    if s != [] {
      NoneDeeper(depth, d, s[..|s| - 1]);
    }
  }

  /** What one visit does to the best list. */
  lemma {:induction false} DeepestSnoc(depth: map<Hash, nat>, s: seq<Hash>, h: Hash)
    requires AllIn(s, depth) && h in depth && s != []
    ensures AllIn(s + [h], depth)
    ensures var max := MaxDepth(depth, s);
            && MaxDepth(depth, s + [h]) == (if depth[h] > max then depth[h] else max)
            && DeepestOf(depth, s + [h]) == if depth[h] > max then [h]
                                            else if depth[h] == max then DeepestOf(depth, s) + [h]
                                            else DeepestOf(depth, s)
  {
    assert (s + [h])[..|s|] == s;
    if depth[h] > MaxDepth(depth, s) {
      NoneDeeper(depth, depth[h], s);
    }
  }

  // ---------- the tips of an ordered tree ----------

  ghost predicate ListsAllKids(parent: map<Hash, Hash>, kids: Kids) {
    forall h {:trigger kids[h]} :: h in kids ==> IsKids(parent, h, kids[h])
  }

  /** `kids` gives the child list of every block of the tree. */
  ghost predicate Orders(t: Tree, kids: Kids) {
    kids.Keys == t.blocks.Keys && ListsAllKids(t.parent, kids)
  }

  lemma {:induction false} HasTop(depth: map<Hash, nat>)
    ensures exists top: nat :: NoDeeper(depth, top)
    decreases |depth.Keys|
  {
    if depth.Keys == {} {
      assert NoDeeper(depth, 0);
    } else {
      var k :| k in depth;
      var less := depth - {k};
      assert less.Keys == depth.Keys - {k};
      HasTop(less);
      var top: nat :| NoDeeper(less, top);
      var higher := if depth[k] > top then depth[k] else top;
      assert forall h :: h in depth && h != k ==> h in less && less[h] == depth[h];
      assert NoDeeper(depth, higher);
    }
  }

  ghost function Top(depth: map<Hash, nat>): (top: nat)
    ensures NoDeeper(depth, top)
  {
    HasTop(depth);
    var top: nat :| NoDeeper(depth, top);
    top
  }

  lemma OneDown(parent: map<Hash, Hash>, genesis: Hash, depth: map<Hash, nat>, h: Hash, c: Hash)
    requires IsDepths(parent, genesis, depth) && h in depth && c in parent && parent[c] == h
    ensures c in depth && depth[c] == depth[h] + 1
  {
  }

  lemma {:induction false} KidsDescend(parent: map<Hash, Hash>, genesis: Hash, depth: map<Hash, nat>, kids: Kids)
    requires IsDepths(parent, genesis, depth) && depth.Keys <= kids.Keys
    requires ListsAllKids(parent, kids)
    ensures Descends(kids, depth, Top(depth))
  {
    forall h, c | h in depth && c in kids[h]
      ensures c in depth && depth[c] == depth[h] + 1
    {
      OneDown(parent, genesis, depth, h, c);
    }
  }

  lemma {:induction false} OrderedDescends(t: Tree, kids: Kids)
    requires Linked(t) && Orders(t, kids)
    ensures Descends(kids, Depths(t), Top(Depths(t))) && t.genesis in Depths(t)
  {
    DepthsHold(t);
    KidsDescend(t.parent, t.genesis, Depths(t), kids);
  }

  /** What has been entered, followed by what the stack will visit, is the initial entry and the whole order. */
  ghost predicate InOrder(kids: Kids, depth: map<Hash, nat>, top: nat, g: Hash, entered: seq<Hash>, stack: seq<Hash>) {
    && Descends(kids, depth, top) && g in depth && AllIn(stack, depth)
    && entered + Visits(kids, depth, top, stack) == [g] + Visits(kids, depth, top, [g])
  }

  /** The best list is the deepest part of what has been entered. */
  ghost predicate HoldsDeepest(depth: map<Hash, nat>, entered: seq<Hash>, max: nat, last: seq<Hash>) {
    && entered != [] && AllIn(entered, depth)
    && max == MaxDepth(depth, entered) && last == DeepestOf(depth, entered)
  }

  lemma {:induction false} StartsDeepest(depth: map<Hash, nat>, g: Hash)
    requires g in depth && depth[g] == 0
    ensures HoldsDeepest(depth, [g], 0, [g])
  {
    var none: seq<Hash> := [];
    assert [g][..0] == none;
    assert MaxDepth(depth, [g]) == 0;
    assert AtDepth(depth, 0, [g]) == AtDepth(depth, 0, none) + [g];
  }

  /** One turn of the loop pops the top, enters it and pushes its children. */
  lemma {:induction false} StaysInOrder(kids: Kids, depth: map<Hash, nat>, top: nat, g: Hash, entered: seq<Hash>,
                                        stack: seq<Hash>)
    requires InOrder(kids, depth, top, g, entered, stack) && stack != []
    ensures var h := stack[|stack| - 1];
            InOrder(kids, depth, top, g, entered + [h], stack[..|stack| - 1] + kids[h])
  {
    var h := stack[|stack| - 1];
    PopVisits(kids, depth, top, stack);
    var after := Visits(kids, depth, top, stack[..|stack| - 1] + kids[h]);
    assert entered + ([h] + after) == entered + [h] + after;
  }

  lemma {:induction false} StaysDeepest(depth: map<Hash, nat>, entered: seq<Hash>, h: Hash,
                                        max0: nat, last0: seq<Hash>, max: nat, last: seq<Hash>)
    requires HoldsDeepest(depth, entered, max0, last0) && h in depth
    requires max == if depth[h] > max0 then depth[h] else max0
    requires last == if depth[h] > max0 then [h] else if depth[h] == max0 then last0 + [h] else last0
    ensures HoldsDeepest(depth, entered + [h], max, last)
  {
    DeepestSnoc(depth, entered, h);
  }

  ghost function DeepestVisited(kids: Kids, depth: map<Hash, nat>, top: nat, g: Hash): seq<Hash>
    requires Descends(kids, depth, top) && g in depth
  {
    DeepestOf(depth, [g] + Visits(kids, depth, top, [g]))
  }

  lemma {:induction false} EndsDeepest(kids: Kids, depth: map<Hash, nat>, top: nat, g: Hash,
                                       entered: seq<Hash>, max: nat, last: seq<Hash>)
    requires InOrder(kids, depth, top, g, entered, []) && HoldsDeepest(depth, entered, max, last)
    ensures last == DeepestVisited(kids, depth, top, g)
  {
    assert entered + [] == entered;
  }

  /** The order in which the search visits the tree. */
  ghost function VisitOrder(t: Tree, kids: Kids): (order: seq<Hash>)
    requires Linked(t) && Orders(t, kids)
    ensures AllIn(order, Depths(t)) && t.genesis in Depths(t)
  {
    OrderedDescends(t, kids);
    Visits(kids, Depths(t), Top(Depths(t)), [t.genesis])
  }

  /** The loop variables of the search, with what has been seen and entered. */
  datatype Hunt = Hunt(seen: set<Hash>, entered: seq<Hash>, stack: seq<Hash>, depths: seq<nat>, max: nat,
                       last: seq<Hash>)

  ghost predicate Hunting(parent: map<Hash, Hash>, g: Hash, kids: Kids, depth: map<Hash, nat>, top: nat, s: Hunt) {
    && Searching(parent, g, depth, s.seen, s.stack, s.depths) && Best(g, depth, s.seen, s.max, s.last)
    && InOrder(kids, depth, top, g, s.entered, s.stack) && HoldsDeepest(depth, s.entered, s.max, s.last)
  }

  ghost function Turn(kids: Kids, s: Hunt): Hunt
    requires s.stack != [] && |s.depths| == |s.stack| && s.stack[|s.stack| - 1] in kids
  {
    var n := |s.stack| - 1;
    var h, d := s.stack[n], s.depths[n];
    Hunt(s.seen + {h}, s.entered + [h], s.stack[..n] + kids[h], s.depths[..n] + seq(|kids[h]|, _ => d + 1),
         if d > s.max then d else s.max, if d > s.max then [h] else if d == s.max then s.last + [h] else s.last)
  }

  lemma {:induction false} TopOfStack(parent: map<Hash, Hash>, g: Hash, depth: map<Hash, nat>,
                                      seen: set<Hash>, stack: seq<Hash>, depths: seq<nat>)
    requires Searching(parent, g, depth, seen, stack, depths) && stack != []
    ensures |depths| == |stack|
    ensures var h := stack[|stack| - 1]; h in depth && depth[h] == depths[|stack| - 1] && h !in seen
  {
    assert stack[|stack| - 1] in depth;
  }

  lemma {:induction false} TurnSearches(parent: map<Hash, Hash>, g: Hash, kids: Kids, depth: map<Hash, nat>, s: Hunt)
    requires IsDepths(parent, g, depth) && ListsAllKids(parent, kids) && depth.Keys <= kids.Keys
    requires Searching(parent, g, depth, s.seen, s.stack, s.depths) && s.stack != []
    ensures |s.depths| == |s.stack| && s.stack[|s.stack| - 1] in depth.Keys - s.seen
    ensures var s' := Turn(kids, s); Searching(parent, g, depth, s'.seen, s'.stack, s'.depths)
  {
    TopOfStack(parent, g, depth, s.seen, s.stack, s.depths);
    var h, d := s.stack[|s.stack| - 1], s.depths[|s.stack| - 1];
    ExpandTop(parent, g, depth, s.seen, s.stack, s.depths, kids[h], seq(|kids[h]|, _ => d + 1));
  }

  lemma {:induction false} TurnKeepsBest(parent: map<Hash, Hash>, g: Hash, kids: Kids, depth: map<Hash, nat>, s: Hunt)
    requires IsDepths(parent, g, depth) && depth.Keys <= kids.Keys && Best(g, depth, s.seen, s.max, s.last)
    requires Searching(parent, g, depth, s.seen, s.stack, s.depths) && s.stack != []
    ensures s.stack[|s.stack| - 1] in kids
    ensures var s' := Turn(kids, s); Best(g, depth, s'.seen, s'.max, s'.last)
  {
    TopOfStack(parent, g, depth, s.seen, s.stack, s.depths);
    var s' := Turn(kids, s);
    Visit(parent, g, depth, s.seen, s.max, s.last, s.stack[|s.stack| - 1], s'.max, s'.last);
  }

  lemma {:induction false} TurnKeepsOrder(kids: Kids, depth: map<Hash, nat>, top: nat, g: Hash, s: Hunt)
    requires InOrder(kids, depth, top, g, s.entered, s.stack) && HoldsDeepest(depth, s.entered, s.max, s.last)
    requires s.stack != [] && |s.depths| == |s.stack| && depth[s.stack[|s.stack| - 1]] == s.depths[|s.stack| - 1]
    ensures var s' := Turn(kids, s);
            InOrder(kids, depth, top, g, s'.entered, s'.stack) && HoldsDeepest(depth, s'.entered, s'.max, s'.last)
  {
    var s' := Turn(kids, s);
    StaysInOrder(kids, depth, top, g, s.entered, s.stack);
    StaysDeepest(depth, s.entered, s.stack[|s.stack| - 1], s.max, s.last, s'.max, s'.last);
  }

  lemma {:induction false} TurnKeepsHunting(parent: map<Hash, Hash>, g: Hash, kids: Kids, depth: map<Hash, nat>,
                                            top: nat, s: Hunt)
    requires IsDepths(parent, g, depth) && ListsAllKids(parent, kids)
    requires Hunting(parent, g, kids, depth, top, s) && s.stack != []
    ensures |s.depths| == |s.stack| && s.stack[|s.stack| - 1] in depth.Keys - s.seen && s.stack[|s.stack| - 1] in kids
    ensures Hunting(parent, g, kids, depth, top, Turn(kids, s))
  {
    TopOfStack(parent, g, depth, s.seen, s.stack, s.depths);
    TurnSearches(parent, g, kids, depth, s);
    TurnKeepsBest(parent, g, kids, depth, s);
    TurnKeepsOrder(kids, depth, top, g, s);
  }

  ghost function Start(g: Hash): Hunt {
    Hunt({}, [g], [g], [0], 0, [g])
  }

  /** Up to `n` turns of the loop. */
  ghost function Seek(n: nat, kids: Kids, s: Hunt): Hunt {
    if n == 0 || s.stack == [] || |s.depths| != |s.stack| || s.stack[|s.stack| - 1] !in kids then s
    else Seek(n - 1, kids, Turn(kids, s))
  }

  /** What getLastNodes lists, as a function of the genesis hash and the child lists. */
  ghost function LastTips(g: Hash, kids: Kids): seq<Hash> {
    Seek(|kids|, kids, Start(g)).last
  }

  lemma {:induction false} StartHunts(parent: map<Hash, Hash>, g: Hash, kids: Kids, depth: map<Hash, nat>, top: nat)
    requires IsDepths(parent, g, depth) && Descends(kids, depth, top)
    ensures Hunting(parent, g, kids, depth, top, Start(g))
  {
    StartsDeepest(depth, g);
  }

  lemma {:induction false} Finish(parent: map<Hash, Hash>, g: Hash, kids: Kids, depth: map<Hash, nat>, top: nat,
                                  s: Hunt)
    requires Hunting(parent, g, kids, depth, top, s) && (s.stack == [] || s.depths == [])
    ensures Descends(kids, depth, top) && g in depth && s.last == DeepestVisited(kids, depth, top, g)
  {
    assert s.stack == [];
    EndsDeepest(kids, depth, top, g, s.entered, s.max, s.last);
  }

  lemma {:induction false} OneFewer(all: set<Hash>, seen: set<Hash>, h: Hash)
    requires h in all && h !in seen
    ensures |all - (seen + {h})| == |all - seen| - 1
  {
    assert all - (seen + {h}) == (all - seen) - {h};
  }

  /** A turn can be made, keeps the property and leaves less to do. */
  ghost predicate TurnWorks(kids: Kids, inv: Hunt -> bool, left: Hunt -> nat, s: Hunt) {
    inv(s) && s.stack != [] ==>
      && |s.depths| == |s.stack| && s.stack[|s.stack| - 1] in kids
      && inv(Turn(kids, s)) && left(Turn(kids, s)) < left(s)
  }

  lemma {:induction false} SeekKeeps(kids: Kids, inv: Hunt -> bool, left: Hunt -> nat, s: Hunt, n: nat)
    requires inv(s) && left(s) <= n && forall s {:trigger TurnWorks(kids, inv, left, s)} ::
            TurnWorks(kids, inv, left, s)
    ensures inv(Seek(n, kids, s)) && Seek(n, kids, s).stack == []
    decreases n
  {
    assert TurnWorks(kids, inv, left, s);
    if s.stack != [] {
      SeekKeeps(kids, inv, left, Turn(kids, s), n - 1);
    }
  }

  /** Every turn keeps the search going and leaves fewer nodes. */
  lemma {:induction false} TurnsWork(parent: map<Hash, Hash>, g: Hash, kids: Kids, depth: map<Hash, nat>, top: nat)
    returns (inv: Hunt -> bool, left: Hunt -> nat)
    requires IsDepths(parent, g, depth) && ListsAllKids(parent, kids) && Descends(kids, depth, top)
    ensures inv == ((s: Hunt) => Hunting(parent, g, kids, depth, top, s))
            && left == ((s: Hunt) => |depth.Keys - s.seen|)
    ensures inv(Start(g)) && forall s {:trigger TurnWorks(kids, inv, left, s)} :: TurnWorks(kids, inv, left, s)
  {
    inv, left := (s: Hunt) => Hunting(parent, g, kids, depth, top, s), (s: Hunt) => |depth.Keys - s.seen|;
    forall s: Hunt
      ensures TurnWorks(kids, inv, left, s)
    {
      if inv(s) && s.stack != [] {
        TurnKeepsHunting(parent, g, kids, depth, top, s);
        OneFewer(depth.Keys, s.seen, s.stack[|s.stack| - 1]);
      }
    }
    StartHunts(parent, g, kids, depth, top);
  }

  /** With a turn for every node left, the search comes to its end. */
  lemma {:induction false} SeekEnds(parent: map<Hash, Hash>, g: Hash, kids: Kids, depth: map<Hash, nat>, top: nat)
    returns (e: Hunt)
    requires IsDepths(parent, g, depth) && ListsAllKids(parent, kids) && Descends(kids, depth, top)
    ensures e == Seek(|kids|, kids, Start(g)) && e.stack == [] && Hunting(parent, g, kids, depth, top, e)
  {
    var inv, left := TurnsWork(parent, g, kids, depth, top);
    SubsetSize(depth.Keys - {}, kids.Keys);
    e := Seek(|kids|, kids, Start(g));
    SeekKeeps(kids, inv, left, Start(g), |kids|);
  }

  /** The tips are listed in the order of the visits: the deepest of the initial entry and all visits. */
  lemma {:induction false} LastTipsInOrder(parent: map<Hash, Hash>, g: Hash, kids: Kids, depth: map<Hash, nat>,
                                           top: nat)
    requires IsDepths(parent, g, depth) && ListsAllKids(parent, kids) && Descends(kids, depth, top)
    ensures g in depth && LastTips(g, kids) == DeepestVisited(kids, depth, top, g)
  {
    var e := SeekEnds(parent, g, kids, depth, top);
    Finish(parent, g, kids, depth, top, e);
  }

  /** The same for the depths of a tree. */
  lemma {:induction false} TipsFollowTheVisits(t: Tree, kids: Kids)
    requires Linked(t) && Orders(t, kids)
    ensures LastTips(t.genesis, kids) == DeepestOf(Depths(t), [t.genesis] + VisitOrder(t, kids))
  {
    DepthsHold(t);
    OrderedDescends(t, kids);
    LastTipsInOrder(t.parent, t.genesis, kids, Depths(t), Top(Depths(t)));
  }

  /** The listed tips are exactly the blocks of maximum depth, each once; only a lone genesis block is listed twice. */
  lemma {:induction false} LastTipsAreTips(t: Tree, kids: Kids)
    requires Linked(t) && Orders(t, kids)
    ensures LastTips(t.genesis, kids) != [] && forall h :: h in LastTips(t.genesis, kids) <==> IsTip(t, h)
    ensures if IsTip(t, t.genesis) then LastTips(t.genesis, kids) == [t.genesis, t.genesis]
            else Distinct(LastTips(t.genesis, kids))
  {
    var g, depth := t.genesis, Depths(t);
    DepthsHold(t);
    OrderedDescends(t, kids);
    var e := SeekEnds(t.parent, g, kids, depth, Top(depth));
    SearchIsOver(t, kids, e);
  }

  lemma {:induction false} SearchIsOver(t: Tree, kids: Kids, s: Hunt)
    requires Linked(t) && Searching(t.parent, t.genesis, Depths(t), s.seen, [], [])
    requires Best(t.genesis, Depths(t), s.seen, s.max, s.last)
    ensures s.last != [] && forall h :: h in s.last <==> IsTip(t, h)
    ensures if IsTip(t, t.genesis) then s.last == [t.genesis, t.genesis] else Distinct(s.last)
  {
    DepthsHold(t);
    forall h
      ensures h in s.last <==> IsTip(t, h)
    {
      BestAreTips(t, s.seen, s.max, s.last, h);
    }
    ListedOnce(t.parent, t.genesis, Depths(t), s.seen, s.max, s.last);
  }

  lemma {:induction false} ListedOnce(parent: map<Hash, Hash>, g: Hash, depth: map<Hash, nat>,
                                      all: set<Hash>, max: nat, last: seq<Hash>)
    requires IsDepths(parent, g, depth) && Searching(parent, g, depth, all, [], []) && Best(g, depth, all, max, last)
    ensures last != [] && if g in last then last == [g, g] else Distinct(last)
  {
    assert last[0] in last;
  }
}

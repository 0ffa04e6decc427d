/** bclib/operation.go: FilterInvalidOperations. */
module Filtering {
  import opened Types
  import opened Selection

  ghost predicate SortedByTime(ops: seq<Operation>) {
    forall i, j :: 0 <= i < j < |ops| ==> ops[i].timestamp <= ops[j].timestamp
  }

  /** sort.Slice may leave any order that is sorted by time. */
  ghost predicate Sorts(sort: seq<Operation> -> seq<Operation>) {
    forall ops {:trigger sort(ops)} :: SortedByTime(sort(ops)) && multiset(sort(ops)) == multiset(ops)
  }

  /** The two operations stand for the same thing: creates of one file, or one operation ID. */
  ghost predicate Rivals(a: Operation, b: Operation) {
    if a.op.Create? then b.op.Create? && a.filename == b.filename
    else !b.op.Create? && a.operationID == b.operationID
  }

  /** No earlier operation is a rival. */
  ghost predicate ComesFirst(ops: seq<Operation>, i: nat)
    requires i < |ops|
  {
    forall j :: 0 <= j < i ==> !Rivals(ops[j], ops[i])
  }

  /** Those of the first `n` operations that come first. */
  ghost function Firsts(ops: seq<Operation>, n: nat): seq<Operation>
    requires n <= |ops|
  {
    if n == 0 then [] else Firsts(ops, n - 1) + if ComesFirst(ops, n - 1) then [ops[n - 1]] else []
  }

  lemma {:induction false} FirstsAreFrom(ops: seq<Operation>, n: nat)
    requires n <= |ops|
    ensures multiset(Firsts(ops, n)) <= multiset(ops[..n])
    ensures forall o :: o in Firsts(ops, n) ==> exists i :: 0 <= i < n && ops[i] == o && ComesFirst(ops, i)
  {
    if n > 0 {
      FirstsAreFrom(ops, n - 1);
      assert ops[..n] == ops[..n - 1] + [ops[n - 1]];
    }
  }

  lemma {:induction false} FirstAt(ops: seq<Operation>, n: nat, k: nat) returns (i: nat)
    requires n <= |ops| && k < |Firsts(ops, n)|
    ensures i < n && ops[i] == Firsts(ops, n)[k] && ComesFirst(ops, i)
  {
    if k < |Firsts(ops, n - 1)| {
      i := FirstAt(ops, n - 1, k);
    } else {
      i := n - 1;
    }
  }

  lemma SortedSnoc(f: seq<Operation>, o: Operation)
    requires SortedByTime(f) && forall k :: 0 <= k < |f| ==> f[k].timestamp <= o.timestamp
    ensures SortedByTime(f + [o])
  {
  }

  lemma {:induction false} FirstsAreSorted(ops: seq<Operation>, n: nat)
    requires SortedByTime(ops) && n <= |ops|
    ensures SortedByTime(Firsts(ops, n))
  {
    if n > 0 {
      FirstsAreSorted(ops, n - 1);
      var f := Firsts(ops, n - 1);
      forall k | 0 <= k < |f|
        ensures f[k].timestamp <= ops[n - 1].timestamp
      {
        var i := FirstAt(ops, n - 1, k);
      }
      SortedSnoc(f, ops[n - 1]);
    }
  }

  ghost predicate NoRivals(ops: seq<Operation>) {
    forall i, j :: 0 <= i < j < |ops| ==> !Rivals(ops[i], ops[j])
  }

  lemma NoRivalsSnoc(f: seq<Operation>, o: Operation)
    requires NoRivals(f) && forall k :: 0 <= k < |f| ==> !Rivals(f[k], o)
    ensures NoRivals(f + [o])
  {
  }

  lemma {:induction false} FirstsHaveNoRivals(ops: seq<Operation>, n: nat)
    requires n <= |ops|
    ensures NoRivals(Firsts(ops, n))
  {
    if n > 0 {
      FirstsHaveNoRivals(ops, n - 1);
      var f := Firsts(ops, n - 1);
      if ComesFirst(ops, n - 1) {
        forall k | 0 <= k < |f|
          ensures !Rivals(f[k], ops[n - 1])
        {
          var i := FirstAt(ops, n - 1, k);
        }
        NoRivalsSnoc(f, ops[n - 1]);
      }
    }
  }

  /** Whatever is dropped has a rival among what is kept, and an earlier one. */
  lemma {:induction false} EarliestIsKept(ops: seq<Operation>, n: nat, i: nat)
    requires SortedByTime(ops) && i < n <= |ops|
    ensures exists o :: o in Firsts(ops, n) && Rivals(o, ops[i]) && o.timestamp <= ops[i].timestamp
    decreases n, i
  {
    if i < n - 1 {
      EarliestIsKept(ops, n - 1, i);
    } else if ComesFirst(ops, i) {
      assert Firsts(ops, n)[|Firsts(ops, n - 1)|] == ops[i];
      assert Rivals(ops[i], ops[i]);
    } else {
      var j :| 0 <= j < i && Rivals(ops[j], ops[i]);
      EarliestIsKept(ops, n - 1, j);
      var o :| o in Firsts(ops, n - 1) && Rivals(o, ops[j]) && o.timestamp <= ops[j].timestamp;
      assert o in Firsts(ops, n) && Rivals(o, ops[i]);
    }
  }

  /** What the filter promises of its result. */
  ghost predicate Filters(ops: seq<Operation>, kept: seq<Operation>) {
    && NoRivals(kept)
    && multiset(kept) <= multiset(ops)
    && (forall o :: o in ops ==> exists k :: k in kept && Rivals(k, o) && k.timestamp <= o.timestamp)
  }

  lemma {:induction false} FirstsFilter(ops: seq<Operation>, given: seq<Operation>)
    requires SortedByTime(ops) && multiset(ops) == multiset(given)
    ensures Filters(given, Firsts(ops, |ops|))
  {
    FirstsHaveNoRivals(ops, |ops|);
    FirstsAreFrom(ops, |ops|);
    assert ops[..|ops|] == ops;
    forall o | o in given
      ensures exists k :: k in Firsts(ops, |ops|) && Rivals(k, o) && k.timestamp <= o.timestamp
    {
      assert o in multiset(ops);
      var i :| 0 <= i < |ops| && ops[i] == o;
      EarliestIsKept(ops, |ops|, i);
    }
  }

  // ---------- the same by IDs and names ----------

  /** The IDs of appends and deletes. */
  function OtherIds(ops: seq<Operation>): set<string> {
    set o | o in ops && (o.op.Append? || o.op.Delete?) :: o.operationID
  }

  function CreateNames(ops: seq<Operation>): set<string> {
    set o | o in ops && o.op.Create? :: o.filename
  }

  /** Two creates of one file, or two appends or deletes with one ID. */
  predicate SameKey(a: Operation, b: Operation) {
    || (a.op.Create? && b.op.Create? && a.filename == b.filename)
    || (!a.op.Create? && !b.op.Create? && a.operationID == b.operationID)
  }

  /** Every ID of an append or delete and every name of a create is kept, each once, and from the earliest operation
      that has it. */
  ghost predicate KeepsEarliest(ops: seq<Operation>, kept: seq<Operation>) {
    && multiset(kept) <= multiset(ops)
    && OtherIds(kept) == OtherIds(ops) && CreateNames(kept) == CreateNames(ops)
    && (forall i, j :: 0 <= i < j < |kept| && kept[i].op.Create? && kept[j].op.Create? ==>
          kept[i].filename != kept[j].filename)
    && (forall i, j :: 0 <= i < j < |kept| && !kept[i].op.Create? && !kept[j].op.Create? ==>
          kept[i].operationID != kept[j].operationID)
    && (forall k, o :: k in kept && o in ops && SameKey(k, o) ==> k.timestamp <= o.timestamp)
  }

  lemma {:induction false} NoNewKeys(ops: seq<Operation>, kept: seq<Operation>)
    requires multiset(kept) <= multiset(ops)
    ensures OtherIds(kept) <= OtherIds(ops) && CreateNames(kept) <= CreateNames(ops)
  {
    forall k | k in kept
      ensures k in ops
    {
      assert k in multiset(kept);
    }
  }

  lemma {:induction false} KeyIsKept(kept: seq<Operation>, k: Operation, o: Operation)
    requires k in kept && Rivals(k, o)
    ensures o.op.Create? ==> o.filename in CreateNames(kept)
    ensures !o.op.Create? ==> o.operationID in OtherIds(kept)
  {
  }

  lemma {:induction false} FilterKeepsKeys(ops: seq<Operation>, kept: seq<Operation>)
    requires Filters(ops, kept)
    ensures OtherIds(kept) == OtherIds(ops) && CreateNames(kept) == CreateNames(ops)
  {
    NoNewKeys(ops, kept);
    forall o | o in ops
      ensures o.op.Create? ==> o.filename in CreateNames(kept)
      ensures !o.op.Create? ==> o.operationID in OtherIds(kept)
    {
      var k :| k in kept && Rivals(k, o) && k.timestamp <= o.timestamp;
      KeyIsKept(kept, k, o);
    }
  }

  lemma {:induction false} OneOfTwo(kept: seq<Operation>, i: nat, j: nat)
    requires NoRivals(kept) && i < |kept| && j < |kept| && SameKey(kept[i], kept[j])
    ensures i == j
  {
  }

  lemma {:induction false} FilterKeepsEarliest(ops: seq<Operation>, kept: seq<Operation>)
    requires Filters(ops, kept)
    ensures KeepsEarliest(ops, kept)
  {
    FilterKeepsKeys(ops, kept);
    forall i, j | 0 <= i < j < |kept|
      ensures !SameKey(kept[i], kept[j])
    {
      assert !Rivals(kept[i], kept[j]);
    }
    forall k, o | k in kept && o in ops && SameKey(k, o)
      ensures k.timestamp <= o.timestamp
    {
      var e :| e in kept && Rivals(e, o) && e.timestamp <= o.timestamp;
      var i :| 0 <= i < |kept| && kept[i] == k;
      var j :| 0 <= j < |kept| && kept[j] == e;
      OneOfTwo(kept, i, j);
    }
  }

  /** One Create per name is what validating a selection again needs. */
  lemma NoRivalsDistinctCreates(ops: seq<Operation>)
    requires NoRivals(ops)
    ensures DistinctCreates(ops)
  {
    forall i, j | 0 <= i < j < |ops| && ops[i].op.Create? && ops[j].op.Create?
      ensures ops[i].filename != ops[j].filename
    {
      assert !Rivals(ops[i], ops[j]);
    }
  }

  /** The slice is left sorted; the result has no rivals, and the earliest of rivals is kept. */
  method FilterInvalidOperations(ops: array<Operation>, sort: seq<Operation> -> seq<Operation>)
    returns (validOps: seq<Operation>)
    requires Sorts(sort)
    modifies ops
    ensures SortedByTime(ops[..]) && multiset(ops[..]) == multiset(old(ops[..]))
    ensures validOps == Firsts(ops[..], ops.Length) && Filters(old(ops[..]), validOps)
    ensures KeepsEarliest(old(ops[..]), validOps) && SortedByTime(validOps)
  {
    SortInPlace(ops, sort);
    var createFnames: set<string>, opIDs: set<string> := {}, {};
    validOps := [];
    ghost var s := ops[..];
    for i := 0 to ops.Length
      invariant ops[..] == s
      invariant validOps == Firsts(s, i)
      invariant forall f :: f in createFnames <==> exists j :: 0 <= j < i && s[j].op.Create? && s[j].filename == f
      invariant forall id :: id in opIDs <==> exists j :: 0 <= j < i && !s[j].op.Create? && s[j].operationID == id
    {
      var op := ops[i];
      assert op == s[i];
      if op.op.Create? {
        assert ComesFirst(s, i) <==> op.filename !in createFnames;
        if op.filename !in createFnames {
          validOps := validOps + [op];
          createFnames := createFnames + {op.filename};
        }
      } else {
        assert ComesFirst(s, i) <==> op.operationID !in opIDs;
        if op.operationID !in opIDs {
          validOps := validOps + [op];
          opIDs := opIDs + {op.operationID};
        }
      }
    }
    FirstsFilter(s, old(ops[..]));
    FilterKeepsEarliest(old(ops[..]), validOps);
    FirstsAreSorted(s, |s|);
  }

  method SortInPlace(ops: array<Operation>, sort: seq<Operation> -> seq<Operation>)
    requires Sorts(sort)
    modifies ops
    ensures SortedByTime(ops[..]) && multiset(ops[..]) == multiset(old(ops[..]))
  {
    var s := sort(ops[..]);
    assert |multiset(s)| == |multiset(ops[..])|;
    for i := 0 to ops.Length
      invariant ops[..i] == s[..i]
    {
      ops[i] := s[i];
    }
    assert ops[..] == s;
  }
}

/** mining/worker.go: the choice of operations and parent, and the block mined from it. */
module Choosing {
  import opened Types
  import Search
  import opened BlockTree
  import opened Growth
  import opened Accounting
  import opened Selection
  import opened ProofOfWork
  import opened Ledger

  /** What ValidateOperations may return on the tree. */
  ghost predicate Validated(cfg: Settings, t: Tree, ops: seq<Operation>, prev: Hash, sel: seq<Operation>) {
    if ops == [] || prev !in t.blocks then sel == []
    else Grounded(t, prev) && IsSelection(cfg, Chain(t, prev), ops, sel)
  }

  /** bestOps and prevHash. */
  datatype Choice = Choice(best: seq<Operation>, prev: Hash)

  function Better(c: Choice, tip: Hash, sel: seq<Operation>): Choice {
    if |sel| >= |c.best| then Choice(sel, tip) else c
  }

  /** Turn `i` of the loop: the operations are validated at the previous choice, not at the tip that is looked at. */
  ghost predicate TurnAt(cfg: Settings, t: Tree, ops: seq<Operation>, tips: seq<Hash>, cs: seq<Choice>, i: nat) {
    && i < |tips| && |cs| > i + 1
    && exists sel :: Validated(cfg, t, ops, cs[i].prev, sel) && cs[i + 1] == Better(cs[i], tips[i], sel)
  }

  lemma TurnWith(cfg: Settings, t: Tree, ops: seq<Operation>, tips: seq<Hash>, cs: seq<Choice>, i: nat,
                 sel: seq<Operation>)
    requires i < |tips| && |cs| > i + 1
    requires Validated(cfg, t, ops, cs[i].prev, sel) && cs[i + 1] == Better(cs[i], tips[i], sel)
    ensures TurnAt(cfg, t, ops, tips, cs, i)
  {
  }

  /** The choices made while looking at the tips, starting from the first of them. */
  ghost predicate IsLoop(cfg: Settings, t: Tree, ops: seq<Operation>, tips: seq<Hash>, cs: seq<Choice>) {
    && tips != [] && 0 < |cs| <= |tips| + 1 && cs[0] == Choice([], tips[0])
    && (forall i {:trigger TurnAt(cfg, t, ops, tips, cs, i)} :: 0 <= i < |cs| - 1 ==> TurnAt(cfg, t, ops, tips, cs, i))
  }

  /** The loop has looked at all tips, and `c` is its choice. */
  ghost predicate IsOutcome(cfg: Settings, t: Tree, ops: seq<Operation>, tips: seq<Hash>, c: Choice) {
    exists cs :: IsLoop(cfg, t, ops, tips, cs) && |cs| == |tips| + 1 && cs[|tips|] == c
  }

  ghost predicate AllIn(tips: seq<Hash>, t: Tree) {
    forall i {:trigger tips[i]} :: 0 <= i < |tips| ==> tips[i] in t.blocks
  }

  /** The operations are acceptable on the chain to `h`. */
  ghost predicate Fit(cfg: Settings, t: Tree, h: Hash, ops: seq<Operation>) {
    Grounded(t, h) && Acceptable(cfg, Chain(t, h), ops)
  }

  /** A block mined on a choice is accepted exactly when the chosen operations fit the chosen parent. */
  lemma {:induction false} FitIsAdded(rules: Rules, t: Tree, x: Block)
    requires Rooted(t) && x.previousHash in t.blocks && x.hash !in t.blocks && x.operations != []
    requires Mined(rules.md5, x, rules.cfg.powPerOpBlock)
    ensures Verdict(rules, t, x) == Added <==> Fit(rules.cfg, t, x.previousHash, x.operations)
  {
    assert FromGenesis(t, x.previousHash);
  }

  lemma {:induction false} ChoiceIsATip(cfg: Settings, t: Tree, ops: seq<Operation>, tips: seq<Hash>, cs: seq<Choice>,
                                        n: nat)
    requires IsLoop(cfg, t, ops, tips, cs) && n < |cs|
    ensures cs[n].prev in tips
  {
    if n > 0 {
      ChoiceIsATip(cfg, t, ops, tips, cs, n - 1);
      assert TurnAt(cfg, t, ops, tips, cs, n - 1);
    }
  }

  // ---------- tips that agree ----------

  /** Whatever can be selected at one of the tips fits all of them. */
  ghost predicate TipsAgree(cfg: Settings, t: Tree, ops: seq<Operation>, tips: seq<Hash>) {
    forall h, k, sel {:trigger Validated(cfg, t, ops, h, sel), Fit(cfg, t, k, sel)} ::
      h in tips && k in tips && sel != [] && Validated(cfg, t, ops, h, sel) ==> Fit(cfg, t, k, sel)
  }

  lemma {:induction false} AgreedChoiceFits(cfg: Settings, t: Tree, ops: seq<Operation>, tips: seq<Hash>,
                                            cs: seq<Choice>, n: nat)
    requires IsLoop(cfg, t, ops, tips, cs) && TipsAgree(cfg, t, ops, tips) && n < |cs|
    ensures cs[n].best == [] || Fit(cfg, t, cs[n].prev, cs[n].best)
  {
    if n > 0 {
      AgreedChoiceFits(cfg, t, ops, tips, cs, n - 1);
      ChoiceIsATip(cfg, t, ops, tips, cs, n - 1);
      assert TurnAt(cfg, t, ops, tips, cs, n - 1);
      var sel :| Validated(cfg, t, ops, cs[n - 1].prev, sel) && cs[n] == Better(cs[n - 1], tips[n - 1], sel);
      assert tips[n - 1] in tips;
    }
  }

  /** Any list and any number of tips: if the tips agree, the ledger accepts the mined block. */
  lemma {:induction false} AgreeingTipsAccept(rules: Rules, t: Tree, ops: seq<Operation>, tips: seq<Hash>, x: Block)
    requires Rooted(t) && AllIn(tips, t) && TipsAgree(rules.cfg, t, ops, tips)
    requires IsOutcome(rules.cfg, t, ops, tips, Choice(x.operations, x.previousHash)) && x.operations != []
    requires Mined(rules.md5, x, rules.cfg.powPerOpBlock) && x.hash !in t.blocks
    ensures Verdict(rules, t, x) == Added
  {
    var cs: seq<Choice> :| IsLoop(rules.cfg, t, ops, tips, cs) && |cs| == |tips| + 1
        && cs[|tips|] == Choice(x.operations, x.previousHash);
    AgreedChoiceFits(rules.cfg, t, ops, tips, cs, |tips|);
    ChoiceIsATip(rules.cfg, t, ops, tips, cs, |tips|);
    FitIsAdded(rules, t, x);
  }

  /** What is selected at a block fits that block, if the list creates no file twice. */
  lemma {:induction false} SelectedFits(cfg: Settings, t: Tree, ops: seq<Operation>, h: Hash, sel: seq<Operation>)
    requires DistinctCreates(ops) && sel != [] && Validated(cfg, t, ops, h, sel)
    ensures Fit(cfg, t, h, sel)
  {
    SelectionRevalidates(cfg, Chain(t, h), ops, sel);
  }

  /** With one tip, a filtered list and a nonce found in time, the ledger accepts the mined block. */
  lemma {:induction false} MinedBlockIsAccepted(rules: Rules, t: Tree, ops: seq<Operation>, tips: seq<Hash>, x: Block)
    requires Rooted(t) && AllIn(tips, t) && DistinctCreates(ops) && forall i :: 0 <= i < |tips| ==> tips[i] == tips[0]
    requires IsOutcome(rules.cfg, t, ops, tips, Choice(x.operations, x.previousHash)) && x.operations != []
    requires Mined(rules.md5, x, rules.cfg.powPerOpBlock) && x.hash !in t.blocks
    ensures Verdict(rules, t, x) == Added
  {
    forall h, k, sel | h in tips && k in tips && sel != [] && Validated(rules.cfg, t, ops, h, sel)
      ensures Fit(rules.cfg, t, k, sel)
    {
      SelectedFits(rules.cfg, t, ops, h, sel);
    }
    AgreeingTipsAccept(rules, t, ops, tips, x);
  }

  // ---------- two tips, any list ----------

  /** Every possible outcome of the loop fits its parent. */
  ghost predicate EveryOutcomeFits(cfg: Settings, t: Tree, ops: seq<Operation>, tips: seq<Hash>) {
    forall c {:trigger IsOutcome(cfg, t, ops, tips, c)} :: IsOutcome(cfg, t, ops, tips, c) && c.best != [] ==>
        Fit(cfg, t, c.prev, c.best)
  }

  /** Whatever can be selected at `a` fits `b`. */
  ghost predicate SelectionsCarryOver(cfg: Settings, t: Tree, ops: seq<Operation>, a: Hash, b: Hash) {
    forall sel {:trigger Validated(cfg, t, ops, a, sel)} :: Validated(cfg, t, ops, a, sel) && sel != [] ==>
        Fit(cfg, t, b, sel)
  }

  lemma {:induction false} TwoTipOutcome(cfg: Settings, t: Tree, ops: seq<Operation>, a: Hash, b: Hash, c: Choice)
    requires IsOutcome(cfg, t, ops, [a, b], c)
    ensures Validated(cfg, t, ops, a, c.best) && (c.prev == a || c.prev == b)
  {
    var tips := [a, b];
    var cs: seq<Choice> :| IsLoop(cfg, t, ops, tips, cs) && |cs| == |tips| + 1 && cs[|tips|] == c;
    assert TurnAt(cfg, t, ops, tips, cs, 0) && TurnAt(cfg, t, ops, tips, cs, 1);
    var sel0 :| Validated(cfg, t, ops, cs[0].prev, sel0) && cs[1] == Better(cs[0], tips[0], sel0);
    var sel1 :| Validated(cfg, t, ops, cs[1].prev, sel1) && cs[2] == Better(cs[1], tips[1], sel1);
    assert cs[1] == Choice(sel0, a);
  }

  lemma {:induction false} AnySelectionIsMinedOnSecond(cfg: Settings, t: Tree, ops: seq<Operation>, a: Hash, b: Hash,
                                                       sel: seq<Operation>)
    requires Validated(cfg, t, ops, a, sel)
    ensures IsOutcome(cfg, t, ops, [a, b], Choice(sel, b))
  {
    var cs := [Choice([], a), Choice(sel, a), Choice(sel, b)];
    TurnWith(cfg, t, ops, [a, b], cs, 0, sel);
    TurnWith(cfg, t, ops, [a, b], cs, 1, sel);
    assert IsLoop(cfg, t, ops, [a, b], cs);
  }

  /** Two tips and any list that creates no file twice: every map order leads to a block that the ledger accepts
      exactly when whatever can be selected at the first tip fits the second. */
  lemma {:induction false} TwoTipsExactly(cfg: Settings, t: Tree, ops: seq<Operation>, a: Hash, b: Hash)
    requires DistinctCreates(ops)
    ensures EveryOutcomeFits(cfg, t, ops, [a, b]) <==> SelectionsCarryOver(cfg, t, ops, a, b)
  {
    if EveryOutcomeFits(cfg, t, ops, [a, b]) {
      forall sel | Validated(cfg, t, ops, a, sel) && sel != []
        ensures Fit(cfg, t, b, sel)
      {
        AnySelectionIsMinedOnSecond(cfg, t, ops, a, b, sel);
      }
    }
    if SelectionsCarryOver(cfg, t, ops, a, b) {
      forall c | IsOutcome(cfg, t, ops, [a, b], c) && c.best != []
        ensures Fit(cfg, t, c.prev, c.best)
      {
        TwoTipOutcome(cfg, t, ops, a, b, c);
        SelectedFits(cfg, t, ops, a, c.best);
      }
    }
  }

  // ---------- when there is something to mine ----------

  /** Some operation of the list conflicts with nothing on the chain, and its miner can pay for it. */
  ghost predicate SomeAffordable(cfg: Settings, chain: seq<Block>, ops: seq<Operation>) {
    var s := Survivors(OpsOn(chain), ops);
    exists id :: id in s && Cost(cfg, s[id]) <= Balance(cfg, chain, s[id].minerID)
  }

  lemma {:induction false} SelectsSomething(cfg: Settings, chain: seq<Block>, ops: seq<Operation>, sel: seq<Operation>)
    requires IsSelection(cfg, chain, ops, sel)
    ensures sel != [] <==> SomeAffordable(cfg, chain, ops)
  {
    var s := Survivors(OpsOn(chain), ops);
    if sel != [] {
      var o := sel[0];
      assert o in sel && o.minerID in MinersOf(sel);
      assert [o][..0] == [];
      SpentPart(cfg, [o], sel, o.minerID) by {
        assert sel == [o] + sel[1..];
      }
      assert o.operationID in s;
    }
  }

  /** Once something has been chosen, something stays chosen; and all of it comes from the list. */
  lemma {:induction false} ChosenFromList(cfg: Settings, t: Tree, ops: seq<Operation>, tips: seq<Hash>,
                                          cs: seq<Choice>, n: nat)
    requires IsLoop(cfg, t, ops, tips, cs) && 0 < n < |cs|
    ensures |cs[n].best| >= |cs[1].best| && multiset(cs[n].best) <= multiset(ops)
  {
    assert TurnAt(cfg, t, ops, tips, cs, n - 1);
    var sel :| Validated(cfg, t, ops, cs[n - 1].prev, sel) && cs[n] == Better(cs[n - 1], tips[n - 1], sel);
    if sel != [] {
      SelectionFromList(cfg, Chain(t, cs[n - 1].prev), ops, sel);
    }
    if n > 1 {
      ChosenFromList(cfg, t, ops, tips, cs, n - 1);
    }
  }

  /** A block is mined if some operation is affordable at the first tip, and with one tip only then. */
  lemma {:induction false} MinesIfAffordable(cfg: Settings, t: Tree, ops: seq<Operation>, tips: seq<Hash>, c: Choice)
    requires Rooted(t) && AllIn(tips, t) && IsOutcome(cfg, t, ops, tips, c)
    ensures Grounded(t, tips[0]) && multiset(c.best) <= multiset(ops)
    ensures SomeAffordable(cfg, Chain(t, tips[0]), ops) ==> c.best != []
    ensures (forall i :: 0 <= i < |tips| ==> tips[i] == tips[0]) && c.best != [] ==>
            SomeAffordable(cfg, Chain(t, tips[0]), ops)
  {
    var cs: seq<Choice> :| IsLoop(cfg, t, ops, tips, cs) && |cs| == |tips| + 1 && cs[|tips|] == c;
    assert FromGenesis(t, tips[0]);
    ChosenFromList(cfg, t, ops, tips, cs, |tips|);
    assert TurnAt(cfg, t, ops, tips, cs, 0);
    var sel :| Validated(cfg, t, ops, cs[0].prev, sel) && cs[1] == Better(cs[0], tips[0], sel);
    if ops != [] {
      SelectsSomething(cfg, Chain(t, tips[0]), ops, sel);
    }
    if (forall i :: 0 <= i < |tips| ==> tips[i] == tips[0]) && c.best != [] {
      OneTipChoice(cfg, t, ops, tips, cs, |tips|);
      SelectsSomething(cfg, Chain(t, tips[0]), ops, c.best);
    }
  }

  /** With one tip, the chosen operations were validated there. */
  lemma {:induction false} OneTipChoice(cfg: Settings, t: Tree, ops: seq<Operation>, tips: seq<Hash>, cs: seq<Choice>,
                                        n: nat)
    requires IsLoop(cfg, t, ops, tips, cs) && n < |cs| && forall i :: 0 <= i < |tips| ==> tips[i] == tips[0]
    ensures cs[n].prev == tips[0] && (cs[n].best == [] || Validated(cfg, t, ops, tips[0], cs[n].best))
  {
    if n > 0 {
      OneTipChoice(cfg, t, ops, tips, cs, n - 1);
      assert TurnAt(cfg, t, ops, tips, cs, n - 1);
    }
  }

  // ---------- one operation, any number of tips ----------

  lemma {:induction false} OneOperation(cfg: Settings, t: Tree, o: Operation, prev: Hash, sel: seq<Operation>)
    requires Rooted(t) && prev in t.blocks && Validated(cfg, t, [o], prev, sel)
    ensures sel == if Fit(cfg, t, prev, [o]) then [o] else []
  {
    var chain := Chain(t, prev);
    SelectionFromList(cfg, chain, [o], sel);
    VerdictIsExact(cfg, chain, [o], sel);
    if sel != [] {
      assert sel[0] in sel;
      assert sel == [o];
    }
  }

  lemma {:induction false} OneOperationTurn(cfg: Settings, t: Tree, o: Operation, tips: seq<Hash>, cs: seq<Choice>,
                                            i: nat)
    requires Rooted(t) && TurnAt(cfg, t, [o], tips, cs, i) && cs[i].prev in t.blocks
    ensures cs[i + 1] == Better(cs[i], tips[i], if Fit(cfg, t, cs[i].prev, [o]) then [o] else [])
  {
    var sel :| Validated(cfg, t, [o], cs[i].prev, sel) && cs[i + 1] == Better(cs[i], tips[i], sel);
    OneOperation(cfg, t, o, cs[i].prev, sel);
  }

  /** At which of the tips the operation is acceptable. */
  ghost function OkTips(cfg: Settings, t: Tree, o: Operation, tips: seq<Hash>): seq<bool> {
    seq(|tips|, k requires 0 <= k < |tips| => Fit(cfg, t, tips[k], [o]))
  }

  /** Where the loop is after `n` tips, for one operation. Until it is found acceptable, at the tip number `i`, the
      choice moves on with every tip; then it moves on to tip number `p` as long as the operation stays acceptable. */
  ghost predicate Settled(ok: seq<bool>, o: Operation, tips: seq<Hash>, n: nat, c: Choice, i: nat, p: nat) {
    && |ok| == |tips| && p < n <= |tips| && c.prev == tips[p]
    && if c.best == [] then
         p == n - 1 && !(n == 1 && ok[0]) && (forall j :: 0 <= j < n - 1 ==> !ok[j])
       else
         && c.best == [o] && i <= p && (i == p ==> n == 1) && ok[i]
         && (forall j :: 0 <= j < i ==> !ok[j])
         && (forall j :: i <= j < p ==> ok[j])
         && (p == n - 1 || !ok[p])
  }

  lemma {:induction false} SettlesOn(ok: seq<bool>, o: Operation, tips: seq<Hash>, n: nat, c: Choice, i0: nat, p0: nat)
    returns (i: nat, p: nat)
    requires Settled(ok, o, tips, n, c, i0, p0) && n < |tips|
    ensures Settled(ok, o, tips, n + 1, Better(c, tips[n], if ok[p0] then [o] else []), i, p)
  {
    i, p := i0, p0;
    if c.best == [] {
      i, p := n - 1, n;
    } else if ok[p0] {
      p := n;
    }
  }

  lemma {:induction false} TurnSettles(cfg: Settings, t: Tree, o: Operation, tips: seq<Hash>, cs: seq<Choice>,
                                       n: nat, i0: nat, p0: nat)
    returns (i: nat, p: nat)
    requires Rooted(t) && TurnAt(cfg, t, [o], tips, cs, n) && cs[n].prev in t.blocks
    requires Settled(OkTips(cfg, t, o, tips), o, tips, n, cs[n], i0, p0)
    ensures Settled(OkTips(cfg, t, o, tips), o, tips, n + 1, cs[n + 1], i, p)
  {
    OneOperationTurn(cfg, t, o, tips, cs, n);
    i, p := SettlesOn(OkTips(cfg, t, o, tips), o, tips, n, cs[n], i0, p0);
  }

  lemma {:induction false} LoopSettles(cfg: Settings, t: Tree, o: Operation, tips: seq<Hash>, cs: seq<Choice>, n: nat)
    returns (i: nat, p: nat)
    requires Rooted(t) && AllIn(tips, t) && IsLoop(cfg, t, [o], tips, cs) && 0 < n < |cs|
    ensures Settled(OkTips(cfg, t, o, tips), o, tips, n, cs[n], i, p)
  {
    if n == 1 {
      OneOperationTurn(cfg, t, o, tips, cs, 0);
      i, p := 0, 0;
    } else {
      var i0, p0 := LoopSettles(cfg, t, o, tips, cs, n - 1);
      assert cs[n - 1].prev == tips[p0];
      i, p := TurnSettles(cfg, t, o, tips, cs, n - 1, i0, p0);
    }
  }

  /** Once acceptable, acceptable at all later tips. */
  ghost predicate StaysOk(ok: seq<bool>) {
    forall j, k :: 0 <= j < k < |ok| && ok[j] ==> ok[k]
  }

  lemma {:induction false} SettledVerdict(ok: seq<bool>, o: Operation, tips: seq<Hash>, c: Choice, i: nat, p: nat)
    requires Settled(ok, o, tips, |tips|, c, i, p)
    ensures c.best != [] <==> exists k :: 0 <= k < |ok| && (k < |ok| - 1 || k == 0) && ok[k]
    ensures c.best != [] ==> (ok[p] <==> StaysOk(ok))
  {
    if c.best != [] && ok[p] {
      assert p == |ok| - 1;
    }
    if c.best != [] && StaysOk(ok) && i < p {
      assert ok[i] && ok[p];
    }
  }

  /** One operation and any number of tips: a block is mined just when the operation is acceptable at one of the tips
      that are validated, all but the last; and the block is accepted just when the operation, once acceptable at a
      tip, is acceptable at all tips after it. */
  lemma {:induction false} SeveralTipsVerdict(rules: Rules, t: Tree, o: Operation, tips: seq<Hash>, x: Block)
    requires Rooted(t) && AllIn(tips, t)
    requires IsOutcome(rules.cfg, t, [o], tips, Choice(x.operations, x.previousHash))
    requires Mined(rules.md5, x, rules.cfg.powPerOpBlock) && x.hash !in t.blocks
    ensures var ok := OkTips(rules.cfg, t, o, tips);
            && (x.operations != [] <==> exists k :: 0 <= k < |ok| && (k < |ok| - 1 || k == 0) && ok[k])
            && x.previousHash in t.blocks
            && (x.operations != [] ==> (Verdict(rules, t, x) == Added <==> StaysOk(ok)))
  {
    var ok := OkTips(rules.cfg, t, o, tips);
    var cs: seq<Choice> :| IsLoop(rules.cfg, t, [o], tips, cs) && |cs| == |tips| + 1
        && cs[|tips|] == Choice(x.operations, x.previousHash);
    var i, p := LoopSettles(rules.cfg, t, o, tips, cs, |tips|);
    SettledVerdict(ok, o, tips, cs[|tips|], i, p);
    if x.operations != [] {
      FitIsAdded(rules, t, x);
    }
  }

  // ---------- ledgers on which the worker's block is refused ----------

  /** Two blocks without operations that compete for the place after the genesis block, mined by different miners, and
      an operation that the miner of the left one can pay from its reward. Settings and digests are arbitrary. */
  ghost predicate Competing(rules: Rules, left: Block, right: Block, o: Operation) {
    var g := rules.cfg.genesisBlockHash;
    && left.hash != right.hash && g !in {left.hash, right.hash}
    && left.previousHash == g && left.operations == [] && PowHolds(rules, left)
    && right.previousHash == g && right.operations == [] && PowHolds(rules, right)
    && o.minerID == left.minerID && o.minerID != right.minerID && o.minerID != ""
    && 0 < Cost(rules.cfg, o) <= rules.cfg.minedCoinsPerNoOpBlock
  }

  /** There are such blocks under every digest and every difficulty of blocks with operations. */
  lemma {:induction false} CompetingBlocks(md5: PowData -> Hash, powPerOpBlock: nat)
    returns (rules: Rules, left: Block, right: Block, o: Operation)
    ensures rules.md5 == md5 && rules.cfg.powPerOpBlock == powPerOpBlock && Competing(rules, left, right, o)
  {
    rules := Rules(Settings(1, 1, 1, powPerOpBlock, 0, 0, 0, [0]), md5);
    left, right := Block(0, [], [0], "left", [1], 1), Block(0, [], [0], "right", [2], 1);
    o := Operation(Append, [], "f", "left", "id", 0);
    assert [0][0] != [1][0] && [0][0] != [2][0] && [1][0] != [2][0];
    assert left.minerID[0] != right.minerID[0];
  }

  /** The child lists after the two blocks have been added, the right one first. */
  ghost function ForkKids(g: Hash, left: Block, right: Block): Search.Kids {
    Search.Hang(Search.Hang(map[g := []], right), left)
  }

  /** The two blocks are accepted one after the other. */
  ghost predicate ForkGrows(rules: Rules, now: int, left: Block, right: Block, t: Tree) {
    var rule, t0 := RuleOf(rules), Single(GenesisBlock(rules.cfg, now));
    && Fits(rule, t0, right) && Rooted(Attach(t0, right))
    && Fits(rule, Attach(t0, right), left) && t == Attach(Attach(t0, right), left)
  }

  lemma {:induction false} FirstFits(rules: Rules, now: int, b: Block)
    requires b.previousHash == rules.cfg.genesisBlockHash != b.hash && b.operations == [] && PowHolds(rules, b)
    ensures var t0, g := Single(GenesisBlock(rules.cfg, now)), GenesisBlock(rules.cfg, now);
            && Grounded(t0, g.hash) && Chain(t0, g.hash) == [g] && Fits(RuleOf(rules), t0, b)
            && Rooted(Attach(t0, b)) && Grows(t0, Attach(t0, b)) && Grounded(Attach(t0, b), b.hash)
            && Chain(Attach(t0, b), b.hash) == [g, b]
  {
    var t0, g := Single(GenesisBlock(rules.cfg, now)), GenesisBlock(rules.cfg, now);
    ChainOfRoot(t0, g.hash);
    OfferKeepsTree(RuleOf(rules), t0, b);
    AttachChain(t0, b);
  }

  lemma {:induction false} ForkTree(rules: Rules, now: int, left: Block, right: Block, o: Operation) returns (t: Tree)
    requires Competing(rules, left, right, o)
    ensures t == After(rules, now, [right, left]) && ForkGrows(rules, now, left, right, t)
    ensures Rooted(t) && t.genesis == rules.cfg.genesisBlockHash
    ensures t.blocks.Keys == {rules.cfg.genesisBlockHash, left.hash, right.hash}
    ensures Chain(t, left.hash) == [GenesisBlock(rules.cfg, now), left]
    ensures Chain(t, right.hash) == [GenesisBlock(rules.cfg, now), right]
  {
    var rule, g, t0 := RuleOf(rules), GenesisBlock(rules.cfg, now), Single(GenesisBlock(rules.cfg, now));
    FirstFits(rules, now, right);
    var t1 := Attach(t0, right);
    ChainGrows(t0, t1, g.hash);
    assert Fits(rule, t1, left);
    t := Attach(t1, left);
    OfferKeepsTree(rule, t1, left);
    AttachChain(t1, left);
    ChainGrows(t1, t, right.hash);
    var bs := [right, left];
    assert OfferFirst(rule, t0, bs, 0) == t0;
    assert OfferFirst(rule, t0, bs, 1) == t1;
    assert OfferFirst(rule, t0, bs, 2) == t;
  }

  /** Of two children without children, the search visits the one that was added last before the other. */
  lemma {:induction false} TwoLeaves(g: Hash, a: Hash, b: Hash, kids: Search.Kids)
    requires g != a && g != b && a != b && kids == map[g := [b, a], a := [], b := []]
    ensures Search.LastTips(g, kids) == [a, b]
  {
    ThreeKeys(g, a, b, kids);
    var s1 := Search.Turn(kids, Search.Start(g));
    assert s1.stack == [b, a] && s1.depths == [1, 1] && s1.max == 0;
    LastLeaves(a, b, kids, s1);
    assert Search.Seek(3, kids, Search.Start(g)) == Search.Seek(2, kids, s1);
  }

  lemma {:induction false} ThreeKeys(g: Hash, a: Hash, b: Hash, kids: Search.Kids)
    requires g != a && g != b && a != b && kids.Keys == {g, a, b}
    ensures |kids| == 3
  {
    assert |kids.Keys| == 3;
  }

  lemma {:induction false} LastLeaves(a: Hash, b: Hash, kids: Search.Kids, s1: Search.Hunt)
    requires a in kids && b in kids && kids[a] == [] && kids[b] == []
    requires s1.stack == [b, a] && s1.depths == [1, 1] && s1.max == 0
    ensures Search.Seek(2, kids, s1).last == [a, b]
  {
    var s2 := Search.Turn(kids, s1);
    assert s2.stack == [b] && s2.depths == [1] && s2.max == 1 && s2.last == [a];
    var s3 := Search.Turn(kids, s2);
    assert s3.stack == [] && s3.last == [a, b];
    assert Search.Seek(1, kids, s2) == Search.Seek(0, kids, s3) == s3;
    assert Search.Seek(2, kids, s1) == Search.Seek(1, kids, s2);
  }

  lemma {:induction false} ForkTips(g: Hash, left: Block, right: Block)
    requires left.previousHash == g && right.previousHash == g
    requires left.hash != right.hash && g !in {left.hash, right.hash}
    ensures Search.LastTips(g, ForkKids(g, left, right)) == [left.hash, right.hash]
  {
    var none: seq<Hash> := [];
    assert none + [right.hash] == [right.hash] && [right.hash] + [left.hash] == [right.hash, left.hash];
    TwoLeaves(g, left.hash, right.hash, ForkKids(g, left, right));
  }

  lemma {:induction false} TwoBlocks(cfg: Settings, g: Block, b: Block, m: string)
    requires g.operations == [] && b.operations == []
    ensures OpsOn([g, b]) == []
    ensures Balance(cfg, [g, b], m)
            == (if g.minerID == m then Reward(cfg, g) else 0) + if b.minerID == m then Reward(cfg, b) else 0
  {
    var none: seq<Block> := [];
    assert [g, b][..1] == [g] && [g][..0] == none;
    assert OpsOn(none) == [] && Balance(cfg, none, m) == 0 && Spent(cfg, [], m) == 0;
    assert OpsOn([g]) == OpsOn(none) + g.operations;
    assert OpsOn([g, b]) == OpsOn([g]) + b.operations;
  }

  lemma {:induction false} OneOperationSpent(cfg: Settings, o: Operation)
    ensures Spent(cfg, [o], o.minerID) == Cost(cfg, o) && MinersOf([o]) == {o.minerID}
  {
    var none: seq<Operation> := [];
    assert [o][..0] == none && Spent(cfg, none, o.minerID) == 0;
    assert o in [o];
  }

  lemma {:induction false} ForkBalances(rules: Rules, now: int, left: Block, right: Block, o: Operation)
    requires Competing(rules, left, right, o)
    ensures Acceptable(rules.cfg, [GenesisBlock(rules.cfg, now), left], [o])
    ensures !Acceptable(rules.cfg, [GenesisBlock(rules.cfg, now), right], [o])
  {
    var g := GenesisBlock(rules.cfg, now);
    TwoBlocks(rules.cfg, g, left, o.minerID);
    TwoBlocks(rules.cfg, g, right, o.minerID);
    OneOperationSpent(rules.cfg, o);
    assert o.minerID in MinersOf([o]);
  }

  lemma {:induction false} OneOperationSelects(cfg: Settings, chain: seq<Block>, o: Operation)
    requires Acceptable(cfg, chain, [o])
    ensures IsSelection(cfg, chain, [o], [o])
  {
    var s := Survivors(OpsOn(chain), [o]);
    ByIdHolds([o]);
    NothingStruckOut(cfg, chain, [o]);
    assert [o][..0] == [] && ById([]) == map[];
    assert ById([o]) == map[o.operationID := o];
  }

  /** What matters of the forked ledger. */
  ghost predicate IsFork(rules: Rules, now: int, left: Block, right: Block, t: Tree, tips: seq<Hash>) {
    && Rooted(t) && t.blocks.Keys == {rules.cfg.genesisBlockHash, left.hash, right.hash}
    && tips == [left.hash, right.hash]
    && Chain(t, left.hash) == [GenesisBlock(rules.cfg, now), left]
    && Chain(t, right.hash) == [GenesisBlock(rules.cfg, now), right]
  }

  /** A reachable ledger with two tips, listed in the order of the search, on which the worker mines. */
  lemma {:induction false} ForkMines(rules: Rules, now: int, left: Block, right: Block, o: Operation)
    returns (t: Tree, tips: seq<Hash>)
    requires Competing(rules, left, right, o)
    ensures t == After(rules, now, [right, left]) && tips == Search.LastTips(t.genesis, ForkKids(t.genesis, left,
            right))
    ensures IsFork(rules, now, left, right, t, tips) && IsOutcome(rules.cfg, t, [o], tips, Choice([o], right.hash))
  {
    t := ForkTree(rules, now, left, right, o);
    ForkTips(t.genesis, left, right);
    tips := [left.hash, right.hash];
    ForkBalances(rules, now, left, right, o);
    OneOperationSelects(rules.cfg, Chain(t, left.hash), o);
    AnySelectionIsMinedOnSecond(rules.cfg, t, [o], left.hash, right.hash, [o]);
  }

  /** And every block that it mines there, whatever the map orders, is refused. */
  lemma {:induction false} RefusedOnTwoTips(rules: Rules, now: int, left: Block, right: Block, o: Operation,
                                            t: Tree, tips: seq<Hash>, x: Block)
    requires Competing(rules, left, right, o) && IsFork(rules, now, left, right, t, tips)
    requires IsOutcome(rules.cfg, t, [o], tips, Choice(x.operations, x.previousHash))
    ensures x.operations == [o] && x.previousHash == right.hash && x.previousHash in t.blocks
    ensures Verdict(rules, t, x) != Added
    ensures Mined(rules.md5, x, rules.cfg.powPerOpBlock) && x.hash !in t.blocks ==>
              Verdict(rules, t, x) == OperationsInvalid
  {
    ForkOutcome(rules, now, left, right, o, t, tips, Choice(x.operations, x.previousHash));
    ForkBalances(rules, now, left, right, o);
  }

  lemma {:induction false} ForkOutcome(rules: Rules, now: int, left: Block, right: Block, o: Operation,
                                       t: Tree, tips: seq<Hash>, c: Choice)
    requires Competing(rules, left, right, o) && IsFork(rules, now, left, right, t, tips)
    requires IsOutcome(rules.cfg, t, [o], tips, c)
    ensures c == Choice([o], right.hash)
  {
    ForkBalances(rules, now, left, right, o);
    OneOperationTwoTips(rules.cfg, t, o, left.hash, right.hash, c);
  }

  /** An operation that fits the first of two tips is mined on the second. */
  lemma {:induction false} OneOperationTwoTips(cfg: Settings, t: Tree, o: Operation, a: Hash, b: Hash, c: Choice)
    requires Rooted(t) && a in t.blocks && b in t.blocks && Fit(cfg, t, a, [o])
    requires IsOutcome(cfg, t, [o], [a, b], c)
    ensures c == Choice([o], b)
  {
    var cs: seq<Choice> :| IsLoop(cfg, t, [o], [a, b], cs) && |cs| == |[a, b]| + 1 && cs[|[a, b]|] == c;
    OneOperationTurn(cfg, t, o, [a, b], cs, 0);
    OneOperationTurn(cfg, t, o, [a, b], cs, 1);
  }
}

module Workers {
  import opened Types
  import opened BlockTree
  import opened Growth
  import opened Ledger
  import opened ProofOfWork
  import opened Filtering
  import opened Choosing
  import opened Blockchains
  import Search

  datatype Option<T> = None | Some(value: T)

  /** The operations validated at `prev` by the ledger. */
  method ValidateAt(ledger: Blockchain, ghost t: Tree, ops: seq<Operation>, prev: Hash) returns (valid: seq<Operation>)
    requires ledger.Wired() && Rooted(t) && t == ledger.View()
    ensures Validated(ledger.config, t, ops, prev, valid)
  {
    assert prev in t.blocks ==> FromGenesis(t, prev);
    var ok;
    valid, ok := ledger.ValidateOperations(ops, prev);
  }

  lemma {:induction false} LoopGrows(cfg: Settings, t: Tree, ops: seq<Operation>, tips: seq<Hash>, cs: seq<Choice>,
                                     sel: seq<Operation>)
    requires IsLoop(cfg, t, ops, tips, cs) && |cs| <= |tips| && Validated(cfg, t, ops, cs[|cs| - 1].prev, sel)
    ensures IsLoop(cfg, t, ops, tips, cs + [Better(cs[|cs| - 1], tips[|cs| - 1], sel)])
  {
    var cs' := cs + [Better(cs[|cs| - 1], tips[|cs| - 1], sel)];
    forall i: nat | i < |cs'| - 1
      ensures TurnAt(cfg, t, ops, tips, cs', i)
    {
      if i < |cs| - 1 {
        assert TurnAt(cfg, t, ops, tips, cs, i);
        var sel0 :| Validated(cfg, t, ops, cs[i].prev, sel0) && cs[i + 1] == Better(cs[i], tips[i], sel0);
        TurnWith(cfg, t, ops, tips, cs', i, sel0);
      } else {
        TurnWith(cfg, t, ops, tips, cs', i, sel);
      }
    }
  }

  /** The loop over the last blocks. */
  method Choose(ledger: Blockchain, ghost t: Tree, ops: seq<Operation>, first: Hash, lastBlocks: seq<Block>)
    returns (bestOps: seq<Operation>, prevHash: Hash)
    requires ledger.Wired() && Rooted(t) && t == ledger.View() && |lastBlocks| > 0 && first == lastBlocks[0].hash
    ensures IsOutcome(ledger.config, t, ops, HashList(lastBlocks), Choice(bestOps, prevHash))
  {
    prevHash, bestOps := first, [];
    ghost var tips := HashList(lastBlocks);
    ghost var cs := [Choice([], first)];
    for i := 0 to |lastBlocks|
      invariant |cs| == i + 1 && cs[i] == Choice(bestOps, prevHash)
      invariant IsLoop(ledger.config, t, ops, tips, cs)
      invariant ledger.Wired() && t == ledger.View()
    {
      var validatedOperations := ValidateAt(ledger, t, ops, prevHash);
      LoopGrows(ledger.config, t, ops, tips, cs, validatedOperations);
      cs := cs + [Better(cs[i], tips[i], validatedOperations)];
      if |validatedOperations| >= |bestOps| {
        bestOps := validatedOperations;
        prevHash := lastBlocks[i].hash;
      }
    }
  }

  // ---------- the mined block ----------

  /** The worker ends with a choice of its loop: without operations it mines nothing, otherwise a block on that
      choice. */
  ghost predicate Mines(rules: Rules, t: Tree, ops: seq<Operation>, tips: seq<Hash>, minerID: string, now: int,
                        mined: Option<Block>)
  {
    match mined
    case None => exists prev :: IsOutcome(rules.cfg, t, ops, tips, Choice([], prev))
    case Some(b) =>
      && IsOutcome(rules.cfg, t, ops, tips, Choice(b.operations, b.previousHash)) && b.operations != []
      && b.minerID == minerID && b.timestamp == now && b.nonce >= 0
      && (b.nonce < MAX_NONCE ==> Mined(rules.md5, b, rules.cfg.powPerOpBlock))
  }

  /** The ledger has one longest chain. */
  ghost predicate OneTip(t: Tree) {
    forall h, k :: IsTip(t, h) && IsTip(t, k) ==> h == k
  }

  ghost predicate AreTips(t: Tree, tips: seq<Hash>) {
    tips != [] && AllIn(tips, t) && forall h :: h in tips <==> IsTip(t, h)
  }

  /** What follows for the miner. The block is mined on a tip, from operations of the list; something is mined if an
      operation is affordable at the first tip. With one tip that is exactly when something is mined, and the block is
      one that AddBlock accepts. */
  lemma {:induction false} MinedWell(rules: Rules, t: Tree, ops: seq<Operation>, tips: seq<Hash>, minerID: string,
                                     now: int,
                                     mined: Option<Block>)
    requires Rooted(t) && AreTips(t, tips) && NoRivals(ops) && Mines(rules, t, ops, tips, minerID, now, mined)
    ensures Grounded(t, tips[0])
    ensures SomeAffordable(rules.cfg, Chain(t, tips[0]), ops) ==> mined.Some?
    ensures OneTip(t) && mined.Some? ==> SomeAffordable(rules.cfg, Chain(t, tips[0]), ops)
    ensures mined.Some? ==> IsTip(t, mined.value.previousHash) && multiset(mined.value.operations) <= multiset(ops)
    ensures mined.Some? && OneTip(t) && mined.value.nonce < MAX_NONCE && mined.value.hash !in t.blocks ==>
              mined.value.previousHash in t.blocks && Verdict(rules, t, mined.value) == Added
  {
    var c :| IsOutcome(rules.cfg, t, ops, tips, c)
             && c.best == (if mined.Some? then mined.value.operations else [])
             && (mined.Some? ==> c.prev == mined.value.previousHash);
    MinesIfAffordable(rules.cfg, t, ops, tips, c);
    OutcomeIsATip(rules.cfg, t, ops, tips, c);
    if OneTip(t) {
      assert forall i :: 0 <= i < |tips| ==> tips[i] in tips && tips[0] in tips;
      if mined.Some? && mined.value.nonce < MAX_NONCE && mined.value.hash !in t.blocks {
        NoRivalsDistinctCreates(ops);
        MinedBlockIsAccepted(rules, t, ops, tips, mined.value);
      }
    }
  }

  lemma {:induction false} OutcomeIsATip(cfg: Settings, t: Tree, ops: seq<Operation>, tips: seq<Hash>, c: Choice)
    requires IsOutcome(cfg, t, ops, tips, c)
    ensures c.prev in tips
  {
    var cs: seq<Choice> :| IsLoop(cfg, t, ops, tips, cs) && |cs| == |tips| + 1 && cs[|tips|] == c;
    ChoiceIsATip(cfg, t, ops, tips, cs, |tips|);
  }

  /** A batch of operations has arrived: filter it, choose a parent and mine. */
  method MineOperations(ledger: Blockchain, ops: array<Operation>, sort: seq<Operation> -> seq<Operation>,
                        minerID: string, now: int) returns (mined: Option<Block>)
    requires ledger.Wired() && Rooted(ledger.View()) && Sorts(sort)
    modifies ops, ledger`lastNode
    ensures ledger.Wired()
    ensures multiset(ops[..]) == multiset(old(ops[..])) && SortedByTime(ops[..])
    ensures AreTips(old(ledger.View()), old(ledger.Tips()))
    ensures NoRivals(Firsts(ops[..], ops.Length)) && KeepsEarliest(old(ops[..]), Firsts(ops[..], ops.Length))
    ensures var t, tips := old(ledger.View()), old(ledger.Tips());
            Mines(ledger.TheRules(), t, Firsts(ops[..], ops.Length), tips, minerID, now, mined)
  {
    ghost var t, tips := ledger.View(), ledger.Tips();
    var filteredOperations := FilterInvalidOperations(ops, sort);
    mined := MineFiltered(ledger, t, tips, filteredOperations, minerID, now);
  }

  method MineFiltered(ledger: Blockchain, ghost t: Tree, ghost tips: seq<Hash>, ops: seq<Operation>,
                      minerID: string, now: int) returns (mined: Option<Block>)
    requires ledger.Wired() && t == ledger.View() && tips == ledger.Tips() && Rooted(t)
    modifies ledger`lastNode
    ensures ledger.Wired() && AreTips(t, tips)
    ensures Mines(ledger.TheRules(), t, ops, tips, minerID, now, mined)
  {
    var first, lastBlocks := LastHashAndBlocks(ledger, t, tips);
    var bestOps, prevHash := Choose(ledger, t, ops, first, lastBlocks);
    if |bestOps| == 0 {
      return None;
    }
    var block := NewBlock(ledger.md5, bestOps, prevHash, minerID, ledger.config.powPerOpBlock, now, k => false);
    mined := Some(block);
  }

  method LastHashAndBlocks(ledger: Blockchain, ghost t: Tree, ghost tips: seq<Hash>)
    returns (first: Hash, lastBlocks: seq<Block>)
    requires ledger.Wired() && t == ledger.View() && tips == ledger.Tips()
    modifies ledger`lastNode
    ensures ledger.Wired() && t == ledger.View()
    ensures AreTips(t, tips) && HashList(lastBlocks) == tips && |lastBlocks| > 0 && first == lastBlocks[0].hash
  {
    first := LastHash(ledger, t, tips);
    lastBlocks := LastBlocks(ledger, t, tips);
  }

  method LastHash(ledger: Blockchain, ghost t: Tree, ghost tips: seq<Hash>) returns (first: Hash)
    requires ledger.Wired() && t == ledger.View() && tips == ledger.Tips()
    modifies ledger`lastNode
    ensures ledger.Wired() && t == ledger.View() && tips == ledger.Tips() && tips != [] && first == tips[0]
  {
    first := ledger.GetLastHash();
  }

  method LastBlocks(ledger: Blockchain, ghost t: Tree, ghost tips: seq<Hash>) returns (lastBlocks: seq<Block>)
    requires ledger.Wired() && t == ledger.View() && tips == ledger.Tips()
    modifies ledger`lastNode
    ensures ledger.Wired() && t == ledger.View() && HashList(lastBlocks) == tips && AreTips(t, tips)
  {
    ledger.TipsAreTips();
    lastBlocks := ledger.GetLastBlocks();
    BlocksAreTips(t, tips, lastBlocks);
  }

  lemma BlocksAreTips(t: Tree, tips: seq<Hash>, blocks: seq<Block>)
    requires Blockchain.AreBlocksOf(t, tips, blocks)
    ensures HashList(blocks) == tips && AllIn(tips, t)
  {
    assert forall i :: 0 <= i < |tips| ==> blocks[i].hash == tips[i];
  }

  // ---------- blocks without operations ----------

  /** A well-mined block without operations is accepted on any known parent. */
  lemma NoOpIsAdded(rules: Rules, t: Tree, b: Block)
    requires Rooted(t) && b.previousHash in t.blocks && b.hash !in t.blocks && b.operations == []
    requires Works(rules.md5, [], b.previousHash, b.minerID, rules.cfg.powPerNoOpBlock, b.timestamp, b.nonce)
    ensures Verdict(rules, t, b) == Added
  {
    assert FromGenesis(t, b.previousHash);
  }

  method NoOpBlock(rules: Rules, prev: Hash, minerID: string, now: int, stop: int -> bool, ghost t: Tree)
    returns (b: Block)
    requires Rooted(t) && prev in t.blocks
    ensures b.operations == [] && b.minerID == minerID && b.timestamp == now && b.previousHash == prev
    ensures 0 <= b.nonce < MAX_NONCE && b.hash !in t.blocks ==> Verdict(rules, t, b) == Added
  {
    b := NewBlock(rules.md5, [], prev, minerID, rules.cfg.powPerNoOpBlock, now, stop);
    if 0 <= b.nonce < MAX_NONCE && b.hash !in t.blocks {
      NoOpIsAdded(rules, t, b);
    }
  }

  /** mineNoOp: a block without operations on the first tip. `stop` tells when the search is found to be stopped. */
  method MineNoOp(ledger: Blockchain, minerID: string, now: int, stop: int -> bool, ghost t: Tree,
                  ghost tips: seq<Hash>)
    returns (b: Block)
    requires ledger.Wired() && t == ledger.View() && tips == ledger.Tips() && Rooted(t)
    modifies ledger`lastNode
    ensures ledger.Wired() && t == ledger.View() && tips != []
    ensures b.operations == [] && b.minerID == minerID && b.timestamp == now
    ensures b.previousHash == tips[0] && b.previousHash in t.blocks
    ensures 0 <= b.nonce < MAX_NONCE && b.hash !in t.blocks ==> Verdict(ledger.TheRules(), t, b) == Added
  {
    ledger.FirstTip();
    var previousHash := LastHash(ledger, t, tips);
    b := NoOpBlock(Rules(ledger.config, ledger.md5), previousHash, minerID, now, stop, t);
  }

  // ---------- the fork, on the real ledger ----------

  method AddAccepted(ledger: Blockchain, b: Block, ghost t: Tree, ghost kids: Search.Kids)
    requires ledger.Wired() && t == ledger.View() && kids == ledger.Kids()
    requires Rooted(t) && Fits(RuleOf(ledger.TheRules()), t, b)
    modifies ledger`m, ledger.m.Values
    ensures ledger.Wired() && fresh(ledger.m.Values - old(ledger.m.Values))
    ensures ledger.View() == Attach(t, b) && ledger.Kids() == Search.Hang(kids, b)
  {
    var r := ledger.AddBlock(b);
  }

  method WithOneBlock(rules: Rules, now: int, b: Block, ghost t0: Tree) returns (ledger: Blockchain)
    requires t0 == Single(GenesisBlock(rules.cfg, now)) && Fits(RuleOf(rules), t0, b)
    ensures fresh(ledger) && fresh(ledger.m.Values) && ledger.Wired() && ledger.TheRules() == rules
    ensures ledger.View() == Attach(t0, b)
    ensures ledger.Kids() == Search.Hang(map[rules.cfg.genesisBlockHash := []], b)
  {
    ledger := new Blockchain(rules.cfg, rules.md5, now);
    AddAccepted(ledger, b, t0, map[rules.cfg.genesisBlockHash := []]);
  }

  /** A new chain to which two blocks have been added. */
  method WithTwoBlocks(rules: Rules, now: int, a: Block, b: Block, ghost t0: Tree, ghost t1: Tree,
                       ghost kids: Search.Kids)
    returns (ledger: Blockchain)
    requires t0 == Single(GenesisBlock(rules.cfg, now)) && Fits(RuleOf(rules), t0, a) && t1 == Attach(t0, a)
    requires Rooted(t1) && Fits(RuleOf(rules), t1, b) && kids == Search.Hang(map[rules.cfg.genesisBlockHash := []], a)
    ensures fresh(ledger) && ledger.Wired() && ledger.TheRules() == rules
    ensures ledger.View() == Attach(t1, b) && ledger.Kids() == Search.Hang(kids, b)
  {
    ledger := WithOneBlock(rules, now, a, t0);
    AddAccepted(ledger, b, t1, kids);
  }

  /** The filter lets a batch of one through. */
  lemma OnlyOne(ops: seq<Operation>, o: Operation)
    requires multiset(ops) == multiset{o}
    ensures |ops| == 1 && Firsts(ops, |ops|) == [o]
  {
    assert |ops| == |multiset(ops)| == 1;
    assert ops == [ops[0]] && ops[0] in multiset(ops);
  }

  /** One operation, as it comes out of the filter. */
  method FilterOne(o: Operation, sort: seq<Operation> -> seq<Operation>) returns (filtered: seq<Operation>)
    requires Sorts(sort)
    ensures filtered == [o]
  {
    var ops := new Operation[1](_ => o);
    assert ops[..] == [o];
    filtered := FilterInvalidOperations(ops, sort);
    OnlyOne(ops[..], o);
  }

  /** The block carries the one operation and is refused: because of it, if the nonce was found and the hash is new. */
  ghost predicate RefusedFork(rules: Rules, t: Tree, o: Operation, b: Block) {
    && b.operations == [o] && Rooted(t) && b.previousHash in t.blocks && Verdict(rules, t, b) != Added
    && (b.nonce < MAX_NONCE && b.hash !in t.blocks ==> Verdict(rules, t, b) == OperationsInvalid)
  }

  /** Two calls of AddBlock build the fork. */
  method BuildFork(rules: Rules, now: int, left: Block, right: Block, ghost o: Operation) returns (ledger: Blockchain)
    requires Competing(rules, left, right, o)
    ensures fresh(ledger) && ledger.Wired() && ledger.TheRules() == rules
    ensures ledger.View() == After(rules, now, [right, left])
    ensures ledger.Kids() == ForkKids(rules.cfg.genesisBlockHash, left, right)
  {
    ghost var t := ForkTree(rules, now, left, right, o);
    ghost var t0 := Single(GenesisBlock(rules.cfg, now));
    ledger := WithTwoBlocks(rules, now, right, left, t0, Attach(t0, right),
                            Search.Hang(map[rules.cfg.genesisBlockHash := []], right));
  }

  /** On that ledger, searched by GetLastNodes, the worker mines from the one operation that the filter lets through a
      block that AddBlock refuses: it is never added, and if its nonce was found and its hash is new it is its operation
      that fails. */
  method MineOnFork(ledger: Blockchain, ghost now: int, ghost left: Block, ghost right: Block, o: Operation,
                    sort: seq<Operation> -> seq<Operation>, minerID: string, later: int, ghost t: Tree)
    returns (mined: Option<Block>, r: AddResult)
    requires ledger.Wired() && Competing(ledger.TheRules(), left, right, o) && Sorts(sort)
    requires t == ledger.View() == After(ledger.TheRules(), now, [right, left])
    requires ledger.Kids() == ForkKids(t.genesis, left, right)
    modifies ledger`lastNode, ledger`m, ledger.m.Values
    ensures mined.Some? && mined.value.operations == [o]
    ensures ledger.Wired() && ledger.View() == t && r != Added
    ensures mined.value.nonce < MAX_NONCE && mined.value.hash !in t.blocks ==> r == OperationsInvalid
  {
    mined := MineFork(ledger, t, ledger.TheRules(), now, left, right, o, sort, minerID, later);
    r := AddRefused(ledger, mined.value, t, o);
  }

  method MineFork(ledger: Blockchain, ghost t: Tree, ghost rules: Rules, ghost now: int, ghost left: Block,
                  ghost right: Block, o: Operation, sort: seq<Operation> -> seq<Operation>, minerID: string,
                  later: int)
    returns (mined: Option<Block>)
    requires ledger.Wired() && t == ledger.View() && ledger.TheRules() == rules && Competing(rules, left, right, o)
    requires t == After(rules, now, [right, left]) && ledger.Kids() == ForkKids(t.genesis, left, right)
    requires Sorts(sort)
    modifies ledger`lastNode
    ensures ledger.Wired() && mined.Some? && RefusedFork(rules, t, o, mined.value)
  {
    ghost var tips := Search.LastTips(t.genesis, ForkKids(t.genesis, left, right));
    var filteredOperations := FilterOne(o, sort);
    mined := MineFiltered(ledger, t, tips, filteredOperations, minerID, later);
    MinedOnFork(rules, now, left, right, o, t, tips, minerID, later, mined);
  }

  method AddRefused(ledger: Blockchain, b: Block, ghost t: Tree, ghost o: Operation) returns (r: AddResult)
    requires ledger.Wired() && t == ledger.View() && RefusedFork(ledger.TheRules(), t, o, b)
    modifies ledger`m, ledger.m.Values
    ensures ledger.Wired() && ledger.View() == t && r != Added
    ensures b.nonce < MAX_NONCE && b.hash !in t.blocks ==> r == OperationsInvalid
  {
    r := ledger.AddBlock(b);
  }

  lemma {:induction false} MinedOnFork(rules: Rules, now: int, left: Block, right: Block, o: Operation, t: Tree,
                                       tips: seq<Hash>, minerID: string, later: int, mined: Option<Block>)
    requires Competing(rules, left, right, o) && t == After(rules, now, [right, left])
    requires tips == Search.LastTips(t.genesis, ForkKids(t.genesis, left, right))
    requires Mines(rules, t, [o], tips, minerID, later, mined)
    ensures mined.Some? && RefusedFork(rules, t, o, mined.value)
  {
    var fork, forkTips := ForkMines(rules, now, left, right, o);
    match mined
    case None =>
      var prev :| IsOutcome(rules.cfg, t, [o], tips, Choice([], prev));
      ForkOutcome(rules, now, left, right, o, t, tips, Choice([], prev));
    case Some(b) =>
      RefusedOnTwoTips(rules, now, left, right, o, t, tips, b);
  }
}

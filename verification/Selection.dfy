/** What ValidateOperations may return. The source visits Go maps in an arbitrary order, so several
    answers are possible; the verdict that goes with them is always the same. */
module Selection {
  import opened Types
  import opened Accounting

  /** The last operation of the list with each ID. */
  function ById(ops: seq<Operation>): (r: map<string, Operation>)
  {
    if ops == [] then map[]
    else ById(ops[..|ops| - 1])[ops[|ops| - 1].operationID := ops[|ops| - 1]]
  }

  /** The last Create of the list for each file name. */
  function CreateByName(ops: seq<Operation>): (r: map<string, Operation>)
  {
    if ops == [] then map[]
    else
      var o := ops[|ops| - 1];
      if o.op.Create? then CreateByName(ops[..|ops| - 1])[o.filename := o] else CreateByName(ops[..|ops| - 1])
  }

  /** IDs struck out because of the operations `past` that are already on the chain. */
  ghost function StruckOut(past: seq<Operation>, creates: map<string, Operation>, miners: set<string>): set<string> {
    IdsIn(past)
    + set f | f in creates && f in CreatesIn(past, miners) :: creates[f].operationID
  }

  ghost function Survivors(past: seq<Operation>, ops: seq<Operation>): map<string, Operation> {
    ById(ops) - StruckOut(past, CreateByName(ops), MinersOf(ops))
  }

  lemma StruckOutConcat(a: seq<Operation>, b: seq<Operation>, creates: map<string, Operation>, miners: set<string>)
    ensures StruckOut(a + b, creates, miners) == StruckOut(a, creates, miners) + StruckOut(b, creates, miners)
  {
    assert CreatesIn(a + b, miners) == CreatesIn(a, miners) + CreatesIn(b, miners);
  }

  /** `sel` is a largest affordable choice among the survivors: it cannot be extended. */
  ghost predicate IsSelection(cfg: Settings, chain: seq<Block>, ops: seq<Operation>, sel: seq<Operation>) {
    var s := Survivors(OpsOn(chain), ops);
    && DistinctIds(sel)
    && (forall o :: o in sel ==> o.operationID in s && s[o.operationID] == o)
    && (forall m :: m in MinersOf(sel) ==> Spent(cfg, sel, m) <= Balance(cfg, chain, m))
    && (forall id :: id in s && s[id] !in sel ==>
                       Spent(cfg, sel, s[id].minerID) + Cost(cfg, s[id]) > Balance(cfg, chain, s[id].minerID))
  }

  // ---------- the two tables ----------

  lemma {:induction false} ByIdHolds(ops: seq<Operation>)
    ensures ById(ops).Keys == IdsIn(ops)
    ensures forall id :: id in ById(ops) ==> ById(ops)[id] in ops && ById(ops)[id].operationID == id
  {
    if ops != [] {
      ByIdHolds(ops[..|ops| - 1]);
      assert ops == ops[..|ops| - 1] + [ops[|ops| - 1]];
    }
  }

  lemma {:induction false} CreateByNameHolds(ops: seq<Operation>)
    ensures forall f :: f in CreateByName(ops) <==> exists o :: o in ops && o.op.Create? && o.filename == f
    ensures forall f :: f in CreateByName(ops) ==>
                          && CreateByName(ops)[f] in ops
                          && CreateByName(ops)[f].op.Create?
                          && CreateByName(ops)[f].filename == f
  {
    if ops != [] {
      CreateByNameHolds(ops[..|ops| - 1]);
      assert ops == ops[..|ops| - 1] + [ops[|ops| - 1]];
    }
  }

  lemma DistinctById(ops: seq<Operation>, o: Operation)
    requires DistinctIds(ops) && o in ops
    ensures o.operationID in ById(ops) && ById(ops)[o.operationID] == o
  {
    ByIdHolds(ops);
    assert o.operationID in IdsIn(ops);
    SameIdSame(ops, o, ById(ops)[o.operationID]);
  }

  lemma SameIdSame(ops: seq<Operation>, a: Operation, b: Operation)
    requires DistinctIds(ops) && a in ops && b in ops && a.operationID == b.operationID
    ensures a == b
  {
    var i :| 0 <= i < |ops| && ops[i] == a;
    var j :| 0 <= j < |ops| && ops[j] == b;
    assert i == j;
  }

  // ---------- the verdict ----------

  lemma SelectionFromList(cfg: Settings, chain: seq<Block>, ops: seq<Operation>, sel: seq<Operation>)
    requires IsSelection(cfg, chain, ops, sel)
    ensures forall o :: o in sel ==> o in ops
    ensures IdsIn(sel) <= IdsIn(ops)
    ensures multiset(sel) <= multiset(ops)
    ensures |sel| == |IdsIn(sel)| <= |IdsIn(ops)| <= |ops|
  {
    ByIdHolds(ops);
    IdCount(sel);
    IdCount(ops);
    DistinctIsPart(sel, ops);
    SubsetSize(IdsIn(sel), IdsIn(ops));
  }

  /** Acceptable lists come back whole. */
  lemma AcceptableIsKept(cfg: Settings, chain: seq<Block>, ops: seq<Operation>, sel: seq<Operation>)
    requires IsSelection(cfg, chain, ops, sel) && Acceptable(cfg, chain, ops)
    ensures |sel| == |ops|
  {
    SelectionFromList(cfg, chain, ops, sel);
    NothingStruckOut(cfg, chain, ops);
    forall o | o in ops
      ensures o in sel
    {
      if o !in sel {
        DistinctById(ops, o);
        CanStillPay(cfg, chain, ops, sel, o);
      }
    }
    assert IdsIn(sel) == IdsIn(ops);
    IdCount(ops);
  }

  lemma NothingStruckOut(cfg: Settings, chain: seq<Block>, ops: seq<Operation>)
    requires Acceptable(cfg, chain, ops)
    ensures Survivors(OpsOn(chain), ops) == ById(ops)
  {
    var past, creates := OpsOn(chain), CreateByName(ops);
    ByIdHolds(ops);
    CreateByNameHolds(ops);
    forall f | f in creates
      ensures f !in CreatesIn(past, MinersOf(ops))
    {
      assert creates[f] in ops;
      assert f in CreatesIn(ops, MinersOf(ops));
    }
  }

  lemma CanStillPay(cfg: Settings, chain: seq<Block>, ops: seq<Operation>, sel: seq<Operation>, o: Operation)
    requires DistinctIds(sel) && (forall x :: x in sel ==> x in ops)
    requires DistinctIds(ops) && o in ops && o !in sel
    requires forall m :: m in MinersOf(ops) ==> Spent(cfg, ops, m) <= Balance(cfg, chain, m)
    ensures Spent(cfg, sel, o.minerID) + Cost(cfg, o) <= Balance(cfg, chain, o.minerID)
  {
    var more := sel + [o];
    forall i, j | 0 <= i < j < |more|
      ensures more[i].operationID != more[j].operationID
    {
      if j == |sel| && more[i].operationID == o.operationID {
        SameIdSame(ops, more[i], o);
      }
    }
    DistinctIsPart(more, ops);
    SpentPart(cfg, more, ops, o.minerID);
    SpentAppend(cfg, sel, o, o.minerID);
  }

  /** Only acceptable lists come back whole. */
  lemma KeptIsAcceptable(cfg: Settings, chain: seq<Block>, ops: seq<Operation>, sel: seq<Operation>)
    requires IsSelection(cfg, chain, ops, sel) && |sel| == |ops|
    ensures Acceptable(cfg, chain, ops)
  {
    var past := OpsOn(chain);
    SelectionFromList(cfg, chain, ops, sel);
    IdCount(ops);
    SubsetSize(IdsIn(sel), IdsIn(ops));
    assert DistinctIds(ops) && IdsIn(sel) == IdsIn(ops);
    assert IdsIn(ops) !! StruckOut(past, CreateByName(ops), MinersOf(ops)) by {
      forall o | o in sel ensures o.operationID !in StruckOut(past, CreateByName(ops), MinersOf(ops)) {}
    }
    CreatesAreNew(past, ops);
    forall o | o in ops
      ensures o in sel
    {
      assert o.operationID in IdsIn(sel);
      var x :| x in sel && x.operationID == o.operationID;
      SameIdSame(ops, x, o);
    }
    DistinctIsPart(ops, sel);
    forall m | m in MinersOf(ops)
      ensures Spent(cfg, ops, m) <= Balance(cfg, chain, m)
    {
      SpentPart(cfg, ops, sel, m);
      var o :| o in ops && o.minerID == m;
      assert o in sel;
    }
  }

  lemma CreatesAreNew(past: seq<Operation>, ops: seq<Operation>)
    requires IdsIn(ops) !! StruckOut(past, CreateByName(ops), MinersOf(ops))
    ensures CreatesIn(ops, MinersOf(ops)) !! CreatesIn(past, MinersOf(ops))
  {
    var creates := CreateByName(ops);
    CreateByNameHolds(ops);
    forall f | f in CreatesIn(ops, MinersOf(ops))
      ensures f !in CreatesIn(past, MinersOf(ops))
    {
      assert f in creates;
      assert creates[f].operationID in IdsIn(ops);
    }
  }

  /** The verdict does not depend on the order in which the maps are visited. */
  lemma VerdictIsExact(cfg: Settings, chain: seq<Block>, ops: seq<Operation>, sel: seq<Operation>)
    requires IsSelection(cfg, chain, ops, sel)
    ensures |sel| == |ops| <==> Acceptable(cfg, chain, ops)
  {
    if |sel| == |ops| {
      KeptIsAcceptable(cfg, chain, ops, sel);
    }
    if Acceptable(cfg, chain, ops) {
      AcceptableIsKept(cfg, chain, ops, sel);
    }
  }

  // ---------- validating a selection again ----------

  ghost predicate DistinctCreates(ops: seq<Operation>) {
    forall i, j :: 0 <= i < j < |ops| && ops[i].op.Create? && ops[j].op.Create? ==> ops[i].filename != ops[j].filename
  }

  /** With one Create per file name, whatever was selected is acceptable as a whole. */
  lemma SelectionRevalidates(cfg: Settings, chain: seq<Block>, ops: seq<Operation>, sel: seq<Operation>)
    requires DistinctCreates(ops) && IsSelection(cfg, chain, ops, sel)
    ensures Acceptable(cfg, chain, sel)
  {
    var past, creates := OpsOn(chain), CreateByName(ops);
    SelectionFromList(cfg, chain, ops, sel);
    CreateByNameHolds(ops);
    assert MinersOf(sel) <= MinersOf(ops);
    forall id | id in IdsIn(sel)
      ensures id !in IdsIn(past)
    {
      var o :| o in sel && o.operationID == id;
    }
    forall f | f in CreatesIn(sel, MinersOf(sel))
      ensures f !in CreatesIn(past, MinersOf(sel))
    {
      var o :| o in sel && o.op.Create? && o.filename == f;
      assert o in ops && f in creates;
      SameCreate(ops, o, creates[f]);
      assert o.operationID !in StruckOut(past, CreateByName(ops), MinersOf(ops));
      assert CreatesIn(past, MinersOf(sel)) <= CreatesIn(past, MinersOf(ops));
    }
  }

  lemma SameCreate(ops: seq<Operation>, a: Operation, b: Operation)
    requires DistinctCreates(ops) && a in ops && b in ops && a.op.Create? && b.op.Create? && a.filename == b.filename
    ensures a == b
  {
    var i :| 0 <= i < |ops| && ops[i] == a;
    var j :| 0 <= j < |ops| && ops[j] == b;
    assert i == j;
  }

  // ---------- the selection, operation by operation ----------

  /** No later operation of the list has its ID. */
  ghost predicate LastWithId(ops: seq<Operation>, o: Operation) {
    exists k :: 0 <= k < |ops| && ops[k] == o && forall j :: k < j < |ops| ==> ops[j].operationID != o.operationID
  }

  /** A create, and no later create of the list has its name. */
  ghost predicate LastCreate(ops: seq<Operation>, o: Operation) {
    exists k :: 0 <= k < |ops| && ops[k] == o && o.op.Create? && forall j :: k < j < |ops| && ops[j].op.Create? ==>
        ops[j].filename != o.filename
  }

  /** The last create `c` of its name repeats the create `p` of a miner of the list. */
  ghost predicate Repeats(past: seq<Operation>, ops: seq<Operation>, c: Operation, p: Operation) {
    && LastCreate(ops, c) && p in past && p.op.Create? && p.filename == c.filename
    && exists q :: q in ops && q.minerID == p.minerID
  }

  /** The ID is on the chain already, or it is that of a create which is repeated. */
  ghost predicate Struck(past: seq<Operation>, ops: seq<Operation>, id: string) {
    (exists p :: p in past && p.operationID == id) || (exists c, p :: Repeats(past, ops, c, p) && c.operationID == id)
  }

  /** What is listed is the last operation with its ID, not struck out, and can be paid together with the rest; what
      is left out of the others could not be paid in addition. */
  ghost predicate SelectsMost(cfg: Settings, chain: seq<Block>, ops: seq<Operation>, sel: seq<Operation>) {
    var past := OpsOn(chain);
    && (forall i, j :: 0 <= i < j < |sel| ==> sel[i].operationID != sel[j].operationID)
    && (forall o :: o in sel ==> LastWithId(ops, o) && !Struck(past, ops, o.operationID))
    && (forall o :: o in sel ==> CanPay(cfg, chain, sel, o.minerID))
    && (forall o :: o !in sel && LastWithId(ops, o) && !Struck(past, ops, o.operationID) ==>
          !CanPay(cfg, chain, sel + [o], o.minerID))
  }

  lemma {:induction false} ByIdIsLast(ops: seq<Operation>, o: Operation)
    ensures LastWithId(ops, o) <==> o.operationID in ById(ops) && ById(ops)[o.operationID] == o
  {
    if ops != [] {
      var front, last := ops[..|ops| - 1], ops[|ops| - 1];
      ByIdIsLast(front, o);
      if LastWithId(ops, o) {
        var k :| 0 <= k < |ops| && ops[k] == o && forall j :: k < j < |ops| ==> ops[j].operationID != o.operationID;
        assert k < |front| ==> front[k] == o && last.operationID != o.operationID;
      }
      if last.operationID != o.operationID && LastWithId(front, o) {
        var k :| 0 <= k < |front| && front[k] == o
                 && forall j :: k < j < |front| ==> front[j].operationID != o.operationID;
        assert ops[k] == o;
      }
      if last == o {
        assert ops[|ops| - 1] == o;
      }
    }
  }

  lemma {:induction false} LastCreateSnoc(front: seq<Operation>, last: Operation, o: Operation)
    ensures LastCreate(front + [last], o)
       <==> (last.op.Create? && last == o)
            || (LastCreate(front, o) && (last.op.Create? ==> last.filename != o.filename))
  {
    var ops := front + [last];
    if LastCreate(ops, o) {
      var k :| 0 <= k < |ops| && ops[k] == o && o.op.Create? && forall j :: k < j < |ops| && ops[j].op.Create? ==>
          ops[j].filename != o.filename;
      if k < |front| {
        assert front[k] == o && ops[|front|] == last;
        assert forall j :: k < j < |front| ==> front[j] == ops[j];
      }
    }
    if (last.op.Create? ==> last.filename != o.filename) && LastCreate(front, o) {
      var k :| 0 <= k < |front| && front[k] == o && forall j :: k < j < |front| && front[j].op.Create? ==>
          front[j].filename != o.filename;
      assert ops[k] == o;
    }
    if last == o && o.op.Create? {
      assert ops[|front|] == o;
    }
  }

  lemma {:induction false} CreateByNameIsLast(ops: seq<Operation>, o: Operation)
    ensures LastCreate(ops, o) <==> o.filename in CreateByName(ops) && CreateByName(ops)[o.filename] == o
  {
    if ops != [] {
      var front, last := ops[..|ops| - 1], ops[|ops| - 1];
      CreateByNameIsLast(front, o);
      assert ops == front + [last];
      LastCreateSnoc(front, last, o);
    }
  }

  lemma {:induction false} StruckOutIsStruck(past: seq<Operation>, ops: seq<Operation>, id: string)
    ensures id in StruckOut(past, CreateByName(ops), MinersOf(ops)) <==> Struck(past, ops, id)
  {
    var creates, miners := CreateByName(ops), MinersOf(ops);
    CreateByNameHolds(ops);
    if f :| f in creates && f in CreatesIn(past, miners) && creates[f].operationID == id {
      var p :| p in past && p.op.Create? && p.minerID in miners && p.filename == f;
      var q :| q in ops && q.minerID == p.minerID;
      CreateByNameIsLast(ops, creates[f]);
      assert Repeats(past, ops, creates[f], p);
    }
    if c, p :| Repeats(past, ops, c, p) && c.operationID == id {
      CreateByNameIsLast(ops, c);
      assert p.minerID in miners;
      assert p.filename in CreatesIn(past, miners);
    }
  }

  lemma {:induction false} SurvivesExactly(past: seq<Operation>, ops: seq<Operation>, o: Operation)
    ensures o.operationID in Survivors(past, ops) && Survivors(past, ops)[o.operationID] == o
       <==> LastWithId(ops, o) && !Struck(past, ops, o.operationID)
  {
    ByIdIsLast(ops, o);
    StruckOutIsStruck(past, ops, o.operationID);
  }

  lemma {:induction false} NotInAddition(cfg: Settings, chain: seq<Block>, sel: seq<Operation>, o: Operation)
    ensures Spent(cfg, sel, o.minerID) + Cost(cfg, o) > Balance(cfg, chain, o.minerID)
       <==> !CanPay(cfg, chain, sel + [o], o.minerID)
  {
    SpentAppend(cfg, sel, o, o.minerID);
    PayingByCounting(cfg, chain, sel + [o], o.minerID);
  }

  lemma {:induction false} SelectionSelectsMost(cfg: Settings, chain: seq<Block>, ops: seq<Operation>,
                                                sel: seq<Operation>)
    requires IsSelection(cfg, chain, ops, sel)
    ensures SelectsMost(cfg, chain, ops, sel)
  {
    var past := OpsOn(chain);
    AllPayByCounting(cfg, chain, sel);
    forall o | o in sel
      ensures LastWithId(ops, o) && !Struck(past, ops, o.operationID)
    {
      SurvivesExactly(past, ops, o);
    }
    forall o | o !in sel && LastWithId(ops, o) && !Struck(past, ops, o.operationID)
      ensures !CanPay(cfg, chain, sel + [o], o.minerID)
    {
      SurvivesExactly(past, ops, o);
      NotInAddition(cfg, chain, sel, o);
    }
  }

  lemma {:induction false} SelectsMostIsSelection(cfg: Settings, chain: seq<Block>, ops: seq<Operation>,
                                                  sel: seq<Operation>)
    requires SelectsMost(cfg, chain, ops, sel)
    ensures IsSelection(cfg, chain, ops, sel)
  {
    var past := OpsOn(chain);
    var s := Survivors(past, ops);
    AllPayByCounting(cfg, chain, sel);
    ByIdHolds(ops);
    forall o | o in sel
      ensures o.operationID in s && s[o.operationID] == o
    {
      SurvivesExactly(past, ops, o);
    }
    forall id | id in s && s[id] !in sel
      ensures Spent(cfg, sel, s[id].minerID) + Cost(cfg, s[id]) > Balance(cfg, chain, s[id].minerID)
    {
      SurvivesExactly(past, ops, s[id]);
      NotInAddition(cfg, chain, sel, s[id]);
    }
  }

  /** What ValidateOperations may return, said without its tables. */
  lemma {:induction false} SelectionByCounting(cfg: Settings, chain: seq<Block>, ops: seq<Operation>,
                                               sel: seq<Operation>)
    ensures IsSelection(cfg, chain, ops, sel) <==> SelectsMost(cfg, chain, ops, sel)
  {
    if IsSelection(cfg, chain, ops, sel) {
      SelectionSelectsMost(cfg, chain, ops, sel);
    }
    if SelectsMost(cfg, chain, ops, sel) {
      SelectsMostIsSelection(cfg, chain, ops, sel);
    }
  }
}

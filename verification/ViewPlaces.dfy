/** The file views once more, place by place: which operation of which block they show, and in what order. */
module ViewPlaces {
  import opened Types
  import opened Accounting
  import opened Reversal
  import opened FileViews

  /** Operation number `k` of block number `i`. */
  ghost predicate IsPlace(c: seq<Block>, i: int, k: int) {
    0 <= i < |c| && 0 <= k < |c[i].operations|
  }

  ghost predicate AppendAt(c: seq<Block>, fname: string, p: (int, int)) {
    IsPlace(c, p.0, p.1) && c[p.0].operations[p.1].op.Append? && c[p.0].operations[p.1].filename == fname
  }

  /** The order of records: older blocks first, and later operations of one block first. */
  predicate Precedes(p: (int, int), q: (int, int)) {
    p.0 < q.0 || (p.0 == q.0 && p.1 > q.1)
  }

  /** The places are those of the appends to the file, all of them, in the order of records. */
  ghost predicate AreRecordPlaces(c: seq<Block>, fname: string, places: seq<(int, int)>) {
    && (forall p :: p in places <==> AppendAt(c, fname, p))
    && (forall i, j :: 0 <= i < j < |places| ==> Precedes(places[i], places[j]))
  }

  ghost predicate HasRecordsAt(c: seq<Block>, places: seq<(int, int)>, records: seq<Operation>) {
    && |records| == |places|
    && (forall i :: 0 <= i < |places| ==>
          IsPlace(c, places[i].0, places[i].1) && records[i] == c[places[i].0].operations[places[i].1])
  }

  /** Where the appends of one block are, in order. */
  ghost predicate AreAppendPlaces(ops: seq<Operation>, fname: string, ks: seq<int>) {
    && (forall i, j :: 0 <= i < j < |ks| ==> ks[i] < ks[j])
    && (forall k :: k in ks <==> 0 <= k < |ops| && ops[k].op.Append? && ops[k].filename == fname)
  }

  ghost predicate HasAppendsAt(ops: seq<Operation>, ks: seq<int>, appends: seq<Operation>) {
    && |appends| == |ks|
    && (forall i :: 0 <= i < |ks| ==> 0 <= ks[i] < |ops| && appends[i] == ops[ks[i]])
  }

  lemma {:induction false} AppendPlacesSnoc(front: seq<Operation>, o: Operation, fname: string, ks: seq<int>)
    requires AreAppendPlaces(front, fname, ks)
    ensures AreAppendPlaces(front + [o], fname, if o.op.Append? && o.filename == fname then ks + [|front|] else ks)
  {
    var n, hit := |front|, o.op.Append? && o.filename == fname;
    var ops, more := front + [o], if hit then ks + [n] else ks;
    forall k
      ensures k in more <==> 0 <= k < |ops| && ops[k].op.Append? && ops[k].filename == fname
    {
      assert k in more <==> k in ks || (hit && k == n);
      assert 0 <= k < n ==> ops[k] == front[k];
    }
    forall i, j | 0 <= i < j < |more|
      ensures more[i] < more[j]
    {
      assert ks[i] in ks;
    }
  }

  lemma {:induction false} AppendPlaces(ops: seq<Operation>, fname: string) returns (ks: seq<int>)
    ensures AreAppendPlaces(ops, fname, ks) && HasAppendsAt(ops, ks, AppendsTo(ops, fname))
  {
    if ops == [] {
      ks := [];
    } else {
      var n := |ops| - 1;
      var front := AppendPlaces(ops[..n], fname);
      AppendPlacesSnoc(ops[..n], ops[n], fname, front);
      assert ops == ops[..n] + [ops[n]];
      ks := if ops[n].op.Append? && ops[n].filename == fname then front + [n] else front;
    }
  }

  /** The places of the records of the last block. */
  ghost function PlacesBack(ks: seq<int>, n: int): (places: seq<(int, int)>)
    ensures |places| == |ks|
    ensures forall i :: 0 <= i < |ks| ==> places[i] == (n, ks[|ks| - 1 - i])
  {
    seq(|ks|, i requires 0 <= i < |ks| => (n, ks[|ks| - 1 - i]))
  }

  lemma {:induction false} InPlacesBack(ks: seq<int>, n: int, p: (int, int))
    ensures p in PlacesBack(ks, n) <==> p.0 == n && p.1 in ks
  {
    var back := PlacesBack(ks, n);
    if p.0 == n && p.1 in ks {
      var i :| 0 <= i < |ks| && ks[i] == p.1;
      assert back[|ks| - 1 - i] == p;
    }
  }

  lemma {:induction false} PlacesSnoc(c: seq<Block>, fname: string, front: seq<(int, int)>, ks: seq<int>)
    requires c != [] && AreRecordPlaces(c[..|c| - 1], fname, front)
    requires AreAppendPlaces(c[|c| - 1].operations, fname, ks)
    ensures AreRecordPlaces(c, fname, front + PlacesBack(ks, |c| - 1))
  {
    var n, back := |c| - 1, PlacesBack(ks, |c| - 1);
    forall p
      ensures p in front + back <==> AppendAt(c, fname, p)
    {
      InPlacesBack(ks, n, p);
      assert AppendAt(c[..n], fname, p) <==> AppendAt(c, fname, p) && p.0 < n;
    }
    forall i, j | 0 <= i < j < |front + back|
      ensures Precedes((front + back)[i], (front + back)[j])
    {
      if i < |front| <= j {
        assert front[i] in front && AppendAt(c[..n], fname, front[i]);
      }
    }
  }

  lemma {:induction false} RecordsBack(c: seq<Block>, ks: seq<int>, appends: seq<Operation>)
    requires c != [] && HasAppendsAt(c[|c| - 1].operations, ks, appends)
    ensures HasRecordsAt(c, PlacesBack(ks, |c| - 1), Reverse(appends))
  {
  }

  lemma {:induction false} RecordsConcat(c: seq<Block>, p: seq<(int, int)>, a: seq<Operation>, q: seq<(int, int)>,
                                         b: seq<Operation>)
    requires c != [] && HasRecordsAt(c[..|c| - 1], p, a) && HasRecordsAt(c, q, b)
    ensures HasRecordsAt(c, p + q, a + b)
  {
    forall i | 0 <= i < |p + q|
      ensures var r := (p + q)[i]; IsPlace(c, r.0, r.1) && (a + b)[i] == c[r.0].operations[r.1]
    {
      if i < |p| {
        assert IsPlace(c[..|c| - 1], p[i].0, p[i].1);
      } else {
        assert IsPlace(c, q[i - |p|].0, q[i - |p|].1);
      }
    }
  }

  /** The records of a file are its appends on the chain, every one of them, block by block and within a block
      backwards. */
  lemma {:induction false} RecordsByPlace(c: seq<Block>, fname: string) returns (places: seq<(int, int)>)
    ensures AreRecordPlaces(c, fname, places) && HasRecordsAt(c, places, Records(c, fname))
  {
    if c == [] {
      places := [];
    } else {
      var front := RecordsByPlace(c[..|c| - 1], fname);
      var ks := AppendPlaces(c[|c| - 1].operations, fname);
      var back, appends := PlacesBack(ks, |c| - 1), AppendsTo(c[|c| - 1].operations, fname);
      PlacesSnoc(c, fname, front, ks);
      RecordsBack(c, ks, appends);
      RecordsConcat(c, front, Records(c[..|c| - 1], fname), back, Reverse(appends));
      places := front + back;
    }
  }

  /** A file is named, or deleted, on a chain when some operation there names it, or deletes it. */
  lemma {:induction false} FlagsByPlace(c: seq<Block>, fname: string)
    ensures fname in NamesIn(OpsOn(c)) <==> exists i, k :: IsPlace(c, i, k) && c[i].operations[k].filename == fname
    ensures fname in DeletedIn(OpsOn(c)) <==>
              exists i, k :: IsPlace(c, i, k) && c[i].operations[k].filename == fname && c[i].operations[k].op.Delete?
  {
    forall i, k | IsPlace(c, i, k)
      ensures c[i].operations[k] in OpsOn(c)
    {
      OpsOnHas(c, i, c[i].operations[k]);
    }
    forall o | o in OpsOn(c)
      ensures exists i, k :: IsPlace(c, i, k) && c[i].operations[k] == o
    {
      var i := OpsOnFrom(c, o);
      var k :| 0 <= k < |c[i].operations| && c[i].operations[k] == o;
      assert IsPlace(c, i, k);
    }
  }

  /** What GetFile shows: the appends to the file in blocks that are followed by at least `n` others, in the order of
      records, and whether an operation of such a block names or deletes the file. */
  lemma {:induction false} FileByPlace(c: seq<Block>, n: nat, fname: string, file: FileOps, ok: bool)
    returns (places: seq<(int, int)>)
    requires ShowsFile(c, n, fname, file, ok)
    ensures HasRecordsAt(c, places, file.operations)
    ensures forall i, j :: 0 <= i < j < |places| ==> Precedes(places[i], places[j])
    ensures forall p :: p in places <==> AppendAt(c, fname, p) && p.0 + n < |c|
    ensures ok <==> exists i, k :: IsPlace(c, i, k) && i + n < |c| && c[i].operations[k].filename == fname
    ensures file.deleted <==>
              exists i, k :: IsPlace(c, i, k) && i + n < |c| && c[i].operations[k].filename == fname
                && c[i].operations[k].op.Delete?
  {
    if n < |c| {
      var part := c[..|c| - n];
      places := RecordsByPlace(part, fname);
      FlagsByPlace(part, fname);
      forall i, k
        ensures IsPlace(part, i, k) <==> IsPlace(c, i, k) && i + n < |c|
      {
      }
      forall p
        ensures p in places <==> AppendAt(c, fname, p) && p.0 + n < |c|
      {
        assert p in places <==> AppendAt(part, fname, p);
      }
    } else {
      places := [];
    }
  }

  /** ListFiles lists the names that occur in such blocks. */
  lemma {:induction false} NamesByPlace(c: seq<Block>, n: nat, list: seq<string>, fname: string)
    requires ShowsNames(c, n, list)
    ensures fname in list <==> exists i, k :: IsPlace(c, i, k) && i + n < |c| && c[i].operations[k].filename == fname
  {
    if n < |c| {
      var part := c[..|c| - n];
      FlagsByPlace(part, fname);
      forall i, k
        ensures IsPlace(part, i, k) <==> IsPlace(c, i, k) && i + n < |c|
      {
      }
    }
  }

  /** Another miner's operation on the file to be created, with no operation of that ID met before it by a walk that
      takes newer blocks first. */
  ghost predicate ClashAt(c: seq<Block>, o: Operation, i: int, k: int) {
    && IsPlace(c, i, k)
    && o.op.Create? && c[i].operations[k].filename == o.filename && c[i].operations[k].minerID != o.minerID
    && (forall j, l :: IsPlace(c, j, l) && c[j].operations[l].operationID == o.operationID ==>
          j < i || (j == i && k <= l))
  }

  lemma {:induction false} ClashInBlock(c: seq<Block>, o: Operation, n: nat)
    requires |c| == n + 1
    ensures ClashBeforeMatch(c[n].operations, o) <==> exists k :: ClashAt(c, o, n, k)
  {
    var ops := c[n].operations;
    var m := FirstMatch(ops, o.operationID);
    if j :| 0 <= j < |ops| && j <= m && Clash(o, ops[j]) {
      assert ClashAt(c, o, n, j);
    }
    if k :| ClashAt(c, o, n, k) {
      assert m < |ops| ==> IsPlace(c, n, m);
      assert Clash(o, ops[k]);
    }
  }

  lemma {:induction false} ClashBefore(c: seq<Block>, o: Operation, i: int, k: int)
    requires c != [] && i < |c| - 1
    ensures ClashAt(c, o, i, k)
       <==> ClashAt(c[..|c| - 1], o, i, k) && o.operationID !in IdsIn(c[|c| - 1].operations)
  {
    var n, ops := |c| - 1, c[|c| - 1].operations;
    assert forall j, l :: IsPlace(c[..n], j, l) <==> IsPlace(c, j, l) && j < n;
    if o.operationID in IdsIn(ops) {
      var x :| x in ops && x.operationID == o.operationID;
      var l :| 0 <= l < |ops| && ops[l] == x;
      assert IsPlace(c, n, l);
    }
  }

  /** What CheckOpConfirmed reports about other miners. */
  lemma {:induction false} ClashByPlace(c: seq<Block>, o: Operation)
    ensures ClashBeforeMatch(Scan(c), o) <==> exists i, k :: ClashAt(c, o, i, k)
  {
    if c != [] {
      var n, front, ops := |c| - 1, c[..|c| - 1], c[|c| - 1].operations;
      ClashByPlace(front, o);
      ClashInBlock(c, o, n);
      forall i, k | i < n
        ensures ClashAt(c, o, i, k) <==> ClashAt(front, o, i, k) && o.operationID !in IdsIn(ops)
      {
        ClashBefore(c, o, i, k);
      }
      if o.operationID in IdsIn(ops) {
        ClashStopsAtMatch(ops, Scan(front), o);
      } else {
        ClashConcat(ops, Scan(front), o);
      }
    }
  }
}

/** Flooding of accepted blocks over fixed peer links: the receivedBlocks and sendBlock cases of managePeers
    together with the manager's steps, for all miners at once. */
module BlockFlooding {
  import opened Types
  import opened BlockTree
  import opened Growth
  import opened ManagerSteps
  import opened PeerLinks

  /** A FloodBlockReq on its way to a peer. */
  datatype Message = Message(block: Block, from: Id, to: Id)

  /** `heard` is blocksToPeers: who has sent us which block. */
  datatype Miner = Miner(state: State, heard: map<Hash, seq<Id>>)

  /** `log` remembers which miner has flooded which hash. */
  datatype Network = Network(miners: map<Id, Miner>, wire: seq<Message>, log: seq<(Id, Hash)>)

  function Heard(m: Miner, h: Hash): seq<Id> {
    if h in m.heard then m.heard[h] else []
  }

  /** A block has been flooded to this miner. */
  function HearBlock(m: Miner, b: Block, from: Id): Miner {
    Miner(m.state.(received := m.state.received + [b]), m.heard[b.hash := Heard(m, b.hash) + [from]])
  }

  function ToSeq(ids: seq<Id>, b: Block, from: Id): seq<Message> {
    seq(|ids|, i requires 0 <= i < |ids| => Message(b, from, ids[i]))
  }

  /** `ids` lists the peers that a flood of `b` goes to, each once: all but those that have sent it to us. */
  ghost predicate Targets(m: Miner, peers: set<Id>, b: Block, ids: seq<Id>) {
    Lists(ids, set p | p in peers && p !in Heard(m, b.hash))
  }

  datatype Move =
    | Deliver(k: nat)                   // the k-th message arrives
    | Local(i: Id, e: Event)            // the manager of miner i takes a step
    | Flood(i: Id, targets: seq<Id>)    // miner i sends its next accepted block on

  ghost predicate Enabled(links: Links, n: Network, mv: Move) {
    match mv
    case Deliver(k) => k < |n.wire| && n.wire[k].to in n.miners
    case Local(i, e) => i in n.miners && !e.Arrive? && CanStep(n.miners[i].state, e)
    case Flood(i, targets) =>
      && i in n.miners && i in links
      && n.miners[i].state.sending != []
      && Targets(n.miners[i], links[i], n.miners[i].state.sending[0], targets)
  }

  ghost predicate AllRooted(n: Network) {
    forall i {:trigger n.miners[i]} :: i in n.miners ==> Rooted(n.miners[i].state.tree)
  }

  ghost function Next(rule: Rule, links: Links, n: Network, mv: Move): Network
    requires AllRooted(n) && Enabled(links, n, mv)
  {
    match mv
    case Deliver(k) =>
      var msg := n.wire[k];
      n.(miners := n.miners[msg.to := HearBlock(n.miners[msg.to], msg.block, msg.from)],
         wire := n.wire[..k] + n.wire[k + 1..])
    case Local(i, e) =>
      var m := n.miners[i];
      n.(miners := n.miners[i := m.(state := Step(rule, m.state, e))])
    case Flood(i, targets) =>
      var m := n.miners[i];
      var b := m.state.sending[0];
      Network(n.miners[i := m.(state := m.state.(sending := m.state.sending[1..]))],
              n.wire + ToSeq(targets, b, i),
              n.log + [(i, b.hash)])
  }

  // ---------- what is said about one block ----------

  ghost predicate Has(n: Network, i: Id, h: Hash) {
    i in n.miners && h in n.miners[i].state.tree.blocks
  }

  ghost predicate OnTheWire(n: Network, j: Id, b: Block) {
    exists k :: 0 <= k < |n.wire| && n.wire[k].to == j && n.wire[k].block == b
  }

  /** The miner has the block, or has it in a queue, or a message with it is under way. */
  ghost predicate Coming(n: Network, j: Id, b: Block) {
    || Has(n, j, b.hash)
    || (j in n.miners && (b in n.miners[j].state.received || b in n.miners[j].state.adding))
    || OnTheWire(n, j, b)
  }

  /** All blocks of the list with the hash of `b` are `b`. */
  ghost predicate Only(b: Block, bs: seq<Block>) {
    forall x :: x in bs && x.hash == b.hash ==> x == b
  }

  /** What holds of one miner about `b`: only true copies, the parent in place, and what it sends it has. */
  ghost predicate MinerOk(rule: Rule, s: State, b: Block) {
    && Rooted(s.tree)
    && Only(b, s.received) && Only(b, s.adding) && Only(b, s.sending) && Only(b, s.replayQueue)
    && b.previousHash in s.tree.blocks && rule(Chain(s.tree, b.previousHash), b)
    && (forall x :: x in s.sending ==> x.hash in s.tree.blocks)
  }

  /** A message is addressed to a miner; if it brings the hash of `b` it brings `b`, from a miner that has it. */
  ghost predicate MessageOk(n: Network, msg: Message, b: Block) {
    && msg.to in n.miners
    && (msg.block.hash == b.hash ==> msg.block == b && Has(n, msg.from, b.hash))
  }

  /** A miner that has the block and has flooded it leaves no peer without it. */
  ghost predicate NotLeftOut(n: Network, i: Id, j: Id, b: Block) {
    Has(n, i, b.hash) && b !in n.miners[i].state.sending ==> Coming(n, j, b)
  }

  /** The move brings in no false copy of `b`. */
  ghost predicate FairMove(b: Block, mv: Move) {
    mv.Local? ==> Only(b, Brings(mv.e))
  }

  // ---------- one miner's steps ----------

  lemma {:induction false} ReceiveOk(rule: Rule, s: State, b: Block)
    requires MinerOk(rule, s, b) && s.received != []
    ensures MinerOk(rule, Receive(s), b)
    ensures Holds(s, b) ==> Holds(Receive(s), b)
    ensures Receive(s).tree == s.tree && Receive(s).sending == s.sending
  {
    var x, s' := s.received[0], Receive(s);
    assert s.received == [x] + s.received[1..];
    assert x in s.received;
    assert forall y :: y in s'.received || y in s'.adding || y in s'.replayQueue ==>
                         y in s.received || y in s.adding || y in s.replayQueue;
  }

  lemma {:induction false} AddOk(rule: Rule, s: State, b: Block)
    requires MinerOk(rule, s, b) && s.adding != []
    ensures MinerOk(rule, AddNext(rule, s), b)
    ensures Holds(s, b) ==> Holds(AddNext(rule, s), b)
    ensures b.hash in AddNext(rule, s).tree.blocks && b.hash !in s.tree.blocks ==>
              b in AddNext(rule, s).sending
  {
    var x, s' := s.adding[0], AddNext(rule, s);
    assert s.adding == [x] + s.adding[1..];
    assert x in s.adding;
    OfferKeepsTree(rule, s.tree, x);
    assert FromGenesis(s.tree, b.previousHash);
    ChainGrows(s.tree, s'.tree, b.previousHash);
    assert forall y :: y in s'.adding ==> y in s.adding;
    assert forall y :: y in s'.sending ==> y in s.sending || y == x;
  }

  lemma {:induction false} StepOk(rule: Rule, s: State, b: Block, e: Event)
    requires MinerOk(rule, s, b) && CanStep(s, e) && Only(b, Brings(e))
    ensures MinerOk(rule, Step(rule, s, e), b)
    ensures Holds(s, b) ==> Holds(Step(rule, s, e), b)
    ensures b.hash in s.tree.blocks ==> b.hash in Step(rule, s, e).tree.blocks
    ensures b in s.sending ==> b in Step(rule, s, e).sending
    ensures b.hash in Step(rule, s, e).tree.blocks && b.hash !in s.tree.blocks ==> b in Step(rule, s, e).sending
  {
    match e
    case Arrive(x) =>
      assert x in Brings(e);
    case Mined(x) =>
      assert x in Brings(e);
    case DownloadDone(blocks) =>
    case ReceiveNext =>
      if s.received != [] { ReceiveOk(rule, s, b); }
    case AddNextBlock =>
      if s.adding != [] { AddOk(rule, s, b); }
  }

  // ---------- the network ----------

  lemma {:induction false} HasPersists(rule: Rule, links: Links, n: Network, h: Hash, mv: Move, i: Id)
    requires AllRooted(n) && Enabled(links, n, mv) && Has(n, i, h)
    ensures Has(Next(rule, links, n, mv), i, h)
  {
    if mv.Local? && mv.i == i {
      var s := n.miners[i].state;
      assert Grows(s.tree, Step(rule, s, mv.e).tree);
    }
  }

  lemma {:induction false} WirePersists(n: Network, w: seq<Message>, k: nat, j: Id, b: Block)
    requires k < |n.wire| && w == n.wire[..k] + n.wire[k + 1..] && OnTheWire(n, j, b)
    requires !(n.wire[k].to == j && n.wire[k].block == b)
    ensures exists x :: 0 <= x < |w| && w[x].to == j && w[x].block == b
  {
    var x :| 0 <= x < |n.wire| && n.wire[x].to == j && n.wire[x].block == b;
    var y := if x < k then x else x - 1;
    assert w[y] == n.wire[x];
  }

  lemma {:induction false} ComingAfterDelivery(rule: Rule, links: Links, n: Network, b: Block, k: nat, j: Id)
    requires AllRooted(n) && Enabled(links, n, Deliver(k)) && Coming(n, j, b)
    ensures Coming(Next(rule, links, n, Deliver(k)), j, b)
  {
    if OnTheWire(n, j, b) && !(n.wire[k].to == j && n.wire[k].block == b) {
      WirePersists(n, Next(rule, links, n, Deliver(k)).wire, k, j, b);
    }
  }

  lemma {:induction false} ComingAfterFlood(rule: Rule, links: Links, n: Network, b: Block, i: Id, targets: seq<Id>,
                                            j: Id)
    requires AllRooted(n) && Enabled(links, n, Flood(i, targets)) && Coming(n, j, b)
    ensures Coming(Next(rule, links, n, Flood(i, targets)), j, b)
  {
    if OnTheWire(n, j, b) {
      var x :| 0 <= x < |n.wire| && n.wire[x].to == j && n.wire[x].block == b;
      assert Next(rule, links, n, Flood(i, targets)).wire[x] == n.wire[x];
    }
  }

  lemma {:induction false} ComingAfterStep(rule: Rule, links: Links, n: Network, b: Block, i: Id, e: Event, j: Id)
    requires AllRooted(n) && Enabled(links, n, Local(i, e)) && Only(b, Brings(e)) && Coming(n, j, b)
    requires i == j ==> MinerOk(rule, n.miners[j].state, b)
    ensures Coming(Next(rule, links, n, Local(i, e)), j, b)
  {
    if i == j {
      StepOk(rule, n.miners[i].state, b, e);
    }
  }

  lemma {:induction false} ComingPersists(rule: Rule, links: Links, n: Network, b: Block, mv: Move, j: Id)
    requires AllRooted(n) && Enabled(links, n, mv) && FairMove(b, mv) && Coming(n, j, b)
    requires j in n.miners ==> MinerOk(rule, n.miners[j].state, b)
    ensures Coming(Next(rule, links, n, mv), j, b)
  {
    match mv
    case Deliver(k) =>
      ComingAfterDelivery(rule, links, n, b, k, j);
    case Local(i, e) =>
      ComingAfterStep(rule, links, n, b, i, e, j);
    case Flood(i, targets) =>
      ComingAfterFlood(rule, links, n, b, i, targets, j);
  }

  lemma {:induction false} OkAfterDelivery(rule: Rule, s: State, b: Block, x: Block)
    requires MinerOk(rule, s, b) && Only(b, [x])
    ensures MinerOk(rule, s.(received := s.received + [x]), b)
  {
    assert x in [x];
  }

  lemma {:induction false} OkAfterFlood(rule: Rule, s: State, b: Block)
    requires MinerOk(rule, s, b) && s.sending != []
    ensures MinerOk(rule, s.(sending := s.sending[1..]), b)
  {
    assert forall x :: x in s.sending[1..] ==> x in s.sending;
  }

  lemma {:induction false} MinersStayOk(rule: Rule, links: Links, n: Network, b: Block, mv: Move, i: Id)
    requires AllRooted(n) && Enabled(links, n, mv) && FairMove(b, mv)
    requires i in n.miners && MinerOk(rule, n.miners[i].state, b)
    requires mv.Deliver? ==> Only(b, [n.wire[mv.k].block])
    ensures MinerOk(rule, Next(rule, links, n, mv).miners[i].state, b)
  {
    var s, s' := n.miners[i].state, Next(rule, links, n, mv).miners[i].state;
    match mv
    case Deliver(k) =>
      OkAfterDelivery(rule, s, b, n.wire[k].block);
      assert s' == if n.wire[k].to == i then s.(received := s.received + [n.wire[k].block]) else s;
    case Local(j, e) =>
      if i == j { StepOk(rule, s, b, e); }
      assert s' == if i == j then Step(rule, s, e) else s;
    case Flood(j, targets) =>
      if i == j { OkAfterFlood(rule, s, b); }
      assert s' == if i == j then s.(sending := s.sending[1..]) else s;
  }

  /** A message of a flood carries a block that the sender has, to one of its peers. */
  lemma {:induction false} FloodedMessageOk(rule: Rule, links: Links, n: Network, b: Block, i: Id, targets: seq<Id>,
                                            k: nat)
    requires AllRooted(n) && Enabled(links, n, Flood(i, targets)) && links[i] <= n.miners.Keys
    requires MinerOk(rule, n.miners[i].state, b) && k < |targets|
    ensures MessageOk(n, Message(n.miners[i].state.sending[0], i, targets[k]), b)
  {
    assert n.miners[i].state.sending[0] in n.miners[i].state.sending;
    assert targets[k] in targets;
  }

  lemma {:induction false} MessageStaysOk(rule: Rule, links: Links, n: Network, b: Block, mv: Move, msg: Message)
    requires AllRooted(n) && Enabled(links, n, mv) && MessageOk(n, msg, b)
    ensures MessageOk(Next(rule, links, n, mv), msg, b)
  {
    if msg.block.hash == b.hash {
      HasPersists(rule, links, n, b.hash, mv, msg.from);
    }
  }

  /** Every message after a move was under way before it, or belongs to the flood just made. */
  lemma {:induction false} WhereFrom(rule: Rule, links: Links, n: Network, mv: Move, k: nat)
    requires AllRooted(n) && Enabled(links, n, mv) && k < |Next(rule, links, n, mv).wire|
    ensures var msg := Next(rule, links, n, mv).wire[k];
            || (mv.Flood? && exists x ::
                0 <= x < |mv.targets| && msg == Message(n.miners[mv.i].state.sending[0], mv.i, mv.targets[x]))
            || exists x :: 0 <= x < |n.wire| && msg == n.wire[x]
  {
    var msg := Next(rule, links, n, mv).wire[k];
    if mv.Flood? && |n.wire| <= k {
      var x := k - |n.wire|;
      assert msg == Message(n.miners[mv.i].state.sending[0], mv.i, mv.targets[x]);
    } else {
      var x := if mv.Deliver? && mv.k <= k then k + 1 else k;
      assert msg == n.wire[x];
    }
  }

  lemma {:induction false} MessagesStayOk(rule: Rule, links: Links, n: Network, b: Block, mv: Move, k: nat)
    requires AllRooted(n) && Enabled(links, n, mv) && Over(links, n)
    requires AllMessagesOk(n, b)
    requires mv.Flood? ==> MinerOk(rule, n.miners[mv.i].state, b)
    requires k < |Next(rule, links, n, mv).wire|
    ensures MessageOk(Next(rule, links, n, mv), Next(rule, links, n, mv).wire[k], b)
  {
    var msg := Next(rule, links, n, mv).wire[k];
    WhereFrom(rule, links, n, mv, k);
    if x :| 0 <= x < |n.wire| && msg == n.wire[x] {
      assert MessageOk(n, n.wire[x], b);
    } else {
      var x :| 0 <= x < |mv.targets| && msg == Message(n.miners[mv.i].state.sending[0], mv.i, mv.targets[x]);
      FloodedMessageOk(rule, links, n, b, mv.i, mv.targets, x);
    }
    MessageStaysOk(rule, links, n, b, mv, msg);
  }

  lemma {:induction false} HeardStaysOk(rule: Rule, links: Links, n: Network, b: Block, mv: Move, i: Id, p: Id)
    requires AllRooted(n) && Enabled(links, n, mv) && i in n.miners
    requires p in Heard(n.miners[i], b.hash) ==> Has(n, p, b.hash)
    requires mv.Deliver? ==> MessageOk(n, n.wire[mv.k], b)
    requires p in Heard(Next(rule, links, n, mv).miners[i], b.hash)
    ensures Has(Next(rule, links, n, mv), p, b.hash)
  {
    assert p in Heard(n.miners[i], b.hash) || (mv.Deliver? && n.wire[mv.k].from == p
        && n.wire[mv.k].block.hash == b.hash);
    HasPersists(rule, links, n, b.hash, mv, p);
  }

  /** Sending `b` on: a peer not sent to has sent it to us. */
  lemma {:induction false} FloodReaches(rule: Rule, links: Links, n: Network, b: Block, mv: Move, j: Id)
    requires AllRooted(n) && Enabled(links, n, mv) && mv.Flood?
    requires n.miners[mv.i].state.sending[0] == b && j in links[mv.i]
    requires j in Heard(n.miners[mv.i], b.hash) ==> Has(n, j, b.hash)
    ensures Coming(Next(rule, links, n, mv), j, b)
  {
    var n' := Next(rule, links, n, mv);
    if j in mv.targets {
      var x :| 0 <= x < |mv.targets| && mv.targets[x] == j;
      assert n'.wire[|n.wire| + x] == Message(b, mv.i, j);
    } else {
      HasPersists(rule, links, n, b.hash, mv, j);
    }
  }

  /** A miner that has the block with nothing left to send had it before, and flooded it now if it was to be sent. */
  lemma {:induction false} FloodedByNow(rule: Rule, links: Links, n: Network, b: Block, mv: Move, i: Id)
    requires AllRooted(n) && Enabled(links, n, mv) && FairMove(b, mv)
    requires i in n.miners && MinerOk(rule, n.miners[i].state, b)
    requires Has(Next(rule, links, n, mv), i, b.hash) && b !in Next(rule, links, n, mv).miners[i].state.sending
    ensures Has(n, i, b.hash)
    ensures b in n.miners[i].state.sending ==> mv.Flood? && mv.i == i && n.miners[i].state.sending[0] == b
  {
    var s := n.miners[i].state;
    match mv
    case Deliver(k) =>
    case Local(j, e) =>
      if i == j { StepOk(rule, s, b, e); }
    case Flood(j, targets) =>
      if i == j { assert s.sending == [s.sending[0]] + s.sending[1..]; }
  }

  lemma {:induction false} StillNotLeftOut(rule: Rule, links: Links, n: Network, b: Block, mv: Move, i: Id, j: Id)
    requires AllRooted(n) && Enabled(links, n, mv) && FairMove(b, mv)
    requires i in n.miners && i in links && j in links[i] && j in n.miners
    requires NotLeftOut(n, i, j, b) && MinerOk(rule, n.miners[i].state, b) && MinerOk(rule, n.miners[j].state, b)
    requires j in Heard(n.miners[i], b.hash) ==> Has(n, j, b.hash)
    ensures NotLeftOut(Next(rule, links, n, mv), i, j, b)
  {
    var n' := Next(rule, links, n, mv);
    if Has(n', i, b.hash) && b !in n'.miners[i].state.sending {
      FloodedByNow(rule, links, n, b, mv, i);
      if b in n.miners[i].state.sending {
        FloodReaches(rule, links, n, b, mv, j);
      } else {
        ComingPersists(rule, links, n, b, mv, j);
      }
    }
  }

  ghost predicate AllMinersOk(rule: Rule, n: Network, b: Block) {
    forall i {:trigger MinerOk(rule, n.miners[i].state, b)} :: i in n.miners ==> MinerOk(rule, n.miners[i].state, b)
  }

  ghost predicate AllMessagesOk(n: Network, b: Block) {
    forall k {:trigger MessageOk(n, n.wire[k], b)} :: 0 <= k < |n.wire| ==> MessageOk(n, n.wire[k], b)
  }

  ghost predicate AllHeardHave(n: Network, b: Block) {
    forall i, p {:trigger p in Heard(n.miners[i], b.hash)} ::
      i in n.miners && p in Heard(n.miners[i], b.hash) ==> Has(n, p, b.hash)
  }

  ghost predicate NoneLeftOut(links: Links, n: Network, b: Block) {
    forall i, j {:trigger NotLeftOut(n, i, j, b)} :: i in links && j in links[i] ==> NotLeftOut(n, i, j, b)
  }

  ghost predicate Over(links: Links, n: Network) {
    n.miners.Keys == links.Keys && Joined(links)
  }

  /** The invariant of every run, for the block `b`. */
  ghost predicate Flooding(rule: Rule, links: Links, n: Network, b: Block) {
    AllMinersOk(rule, n, b) && AllMessagesOk(n, b) && AllHeardHave(n, b) && NoneLeftOut(links, n, b)
  }

  lemma {:induction false} KeepsMinersOk(rule: Rule, links: Links, n: Network, b: Block, mv: Move)
    requires AllRooted(n) && Enabled(links, n, mv) && FairMove(b, mv)
    requires AllMinersOk(rule, n, b)
    requires mv.Deliver? ==> MessageOk(n, n.wire[mv.k], b)
    ensures AllMinersOk(rule, Next(rule, links, n, mv), b)
    ensures Next(rule, links, n, mv).miners.Keys == n.miners.Keys
  {
    var n' := Next(rule, links, n, mv);
    assert n'.miners.Keys == n.miners.Keys;
    forall i | i in n'.miners
      ensures MinerOk(rule, n'.miners[i].state, b)
    {
      assert MinerOk(rule, n.miners[i].state, b);
      MinersStayOk(rule, links, n, b, mv, i);
    }
  }

  lemma {:induction false} KeepsMessagesOk(rule: Rule, links: Links, n: Network, b: Block, mv: Move)
    requires AllRooted(n) && Enabled(links, n, mv) && Over(links, n)
    requires AllMinersOk(rule, n, b) && AllMessagesOk(n, b)
    ensures AllMessagesOk(Next(rule, links, n, mv), b)
  {
    var n' := Next(rule, links, n, mv);
    if mv.Flood? {
      assert MinerOk(rule, n.miners[mv.i].state, b);
    }
    forall k | 0 <= k < |n'.wire|
      ensures MessageOk(n', n'.wire[k], b)
    {
      MessagesStayOk(rule, links, n, b, mv, k);
    }
  }

  lemma {:induction false} KeepsHeard(rule: Rule, links: Links, n: Network, b: Block, mv: Move)
    requires AllRooted(n) && Enabled(links, n, mv) && AllHeardHave(n, b)
    requires mv.Deliver? ==> MessageOk(n, n.wire[mv.k], b)
    ensures AllHeardHave(Next(rule, links, n, mv), b)
  {
    var n' := Next(rule, links, n, mv);
    forall i, p | i in n'.miners && p in Heard(n'.miners[i], b.hash)
      ensures Has(n', p, b.hash)
    {
      HeardStaysOk(rule, links, n, b, mv, i, p);
    }
  }

  lemma {:induction false} KeepsNoneLeftOut(rule: Rule, links: Links, n: Network, b: Block, mv: Move)
    requires AllRooted(n) && Enabled(links, n, mv) && FairMove(b, mv) && Over(links, n)
    requires AllMinersOk(rule, n, b) && AllHeardHave(n, b) && NoneLeftOut(links, n, b)
    ensures NoneLeftOut(links, Next(rule, links, n, mv), b)
  {
    forall i, j | i in links && j in links[i]
      ensures NotLeftOut(Next(rule, links, n, mv), i, j, b)
    {
      assert NotLeftOut(n, i, j, b);
      StillNotLeftOut(rule, links, n, b, mv, i, j);
    }
  }

  lemma {:induction false} MoveKeepsFlooding(rule: Rule, links: Links, n: Network, b: Block, mv: Move)
    requires Flooding(rule, links, n, b) && AllRooted(n) && Enabled(links, n, mv) && FairMove(b, mv) && Over(links, n)
    ensures Flooding(rule, links, Next(rule, links, n, mv), b)
    ensures Over(links, Next(rule, links, n, mv))
  {
    if mv.Deliver? {
      assert MessageOk(n, n.wire[mv.k], b);
    }
    KeepsMinersOk(rule, links, n, b, mv);
    KeepsMessagesOk(rule, links, n, b, mv);
    KeepsHeard(rule, links, n, b, mv);
    KeepsNoneLeftOut(rule, links, n, b, mv);
  }

  // ---------- runs ----------

  /** The i-th move of the run is possible and leads to the next state. */
  ghost predicate MoveAt(rule: Rule, links: Links, ns: seq<Network>, mvs: seq<Move>, i: int) {
    && 0 <= i < |mvs| && |ns| == |mvs| + 1
    && AllRooted(ns[i]) && Enabled(links, ns[i], mvs[i]) && ns[i + 1] == Next(rule, links, ns[i], mvs[i])
  }

  ghost predicate IsRun(rule: Rule, links: Links, ns: seq<Network>, mvs: seq<Move>) {
    && |ns| == |mvs| + 1
    && (forall i {:trigger MoveAt(rule, links, ns, mvs, i)} :: 0 <= i < |mvs| ==> MoveAt(rule, links, ns, mvs, i))
  }

  ghost predicate FairRun(b: Block, mvs: seq<Move>) {
    forall i {:trigger FairMove(b, mvs[i])} :: 0 <= i < |mvs| ==> FairMove(b, mvs[i])
  }

  lemma {:induction false} MoveAtKeepsFlooding(rule: Rule, links: Links, ns: seq<Network>, mvs: seq<Move>, b: Block,
                                               k: nat)
    requires MoveAt(rule, links, ns, mvs, k) && FairMove(b, mvs[k])
    requires Flooding(rule, links, ns[k], b) && Over(links, ns[k])
    ensures Flooding(rule, links, ns[k + 1], b) && Over(links, ns[k + 1])
  {
    MoveKeepsFlooding(rule, links, ns[k], b, mvs[k]);
  }

  lemma {:induction false} RunKeepsFlooding(rule: Rule, links: Links, ns: seq<Network>, mvs: seq<Move>, b: Block,
                                            k: nat)
    requires IsRun(rule, links, ns, mvs) && FairRun(b, mvs) && k < |ns|
    requires Flooding(rule, links, ns[0], b) && Over(links, ns[0])
    ensures Flooding(rule, links, ns[k], b) && Over(links, ns[k])
  {
    if k > 0 {
      RunKeepsFlooding(rule, links, ns, mvs, b, k - 1);
      assert FairMove(b, mvs[k - 1]);
      MoveAtKeepsFlooding(rule, links, ns, mvs, b, k - 1);
    }
  }

  /** The block is still to come: nobody has it, sends it or has heard of it; some miner may have it queued. */
  ghost predicate StillToCome(rule: Rule, n: Network, b: Block) {
    && AllMinersOk(rule, n, b)
    && (forall i :: !Has(n, i, b.hash))
    && (forall k :: 0 <= k < |n.wire| ==> n.wire[k].to in n.miners && n.wire[k].block.hash != b.hash)
    && (forall i :: i in n.miners ==> Heard(n.miners[i], b.hash) == [])
  }

  /** No copy of the block is waiting anywhere. */
  ghost predicate Quiet(n: Network, b: Block) {
    && (forall k :: 0 <= k < |n.wire| ==> n.wire[k].block != b)
    && (forall i {:trigger n.miners[i]} :: i in n.miners ==>
          b !in n.miners[i].state.received && b !in n.miners[i].state.adding && b !in n.miners[i].state.sending)
  }

  lemma {:induction false} QuietCoversPath(rule: Rule, links: Links, n: Network, b: Block, path: seq<Id>, k: nat)
    requires Flooding(rule, links, n, b) && Over(links, n) && Quiet(n, b)
    requires IsPath(links, path) && k < |path| && Has(n, path[0], b.hash)
    ensures Has(n, path[k], b.hash)
  {
    if k > 0 {
      QuietCoversPath(rule, links, n, b, path, k - 1);
      assert LinkAt(links, path, k);
      assert NotLeftOut(n, path[k - 1], path[k], b);
    }
  }

  /** A block that every miner would accept, once it is flooded and nothing of it is left to handle, is with every
      miner that is linked, by any number of links, to one that has it; and whoever was skipped has it too. */
  lemma {:induction false} EveryLinkedMinerGetsIt(rule: Rule, links: Links, ns: seq<Network>, mvs: seq<Move>,
                                                  b: Block, path: seq<Id>)
    requires IsRun(rule, links, ns, mvs) && FairRun(b, mvs)
    requires Over(links, ns[0]) && StillToCome(rule, ns[0], b)
    requires IsPath(links, path)
    ensures Quiet(ns[|mvs|], b) && Has(ns[|mvs|], path[0], b.hash) ==> Has(ns[|mvs|], path[|path| - 1], b.hash)
    ensures forall k, i, p :: 0 <= k < |ns| && i in ns[k].miners && p in Heard(ns[k].miners[i], b.hash) ==>
            Has(ns[k], p, b.hash)
  {
    assert Flooding(rule, links, ns[0], b);
    RunKeepsFlooding(rule, links, ns, mvs, b, |mvs|);
    if Quiet(ns[|mvs|], b) && Has(ns[|mvs|], path[0], b.hash) {
      QuietCoversPath(rule, links, ns[|mvs|], b, path, |path| - 1);
    }
    forall k, i, p | 0 <= k < |ns| && i in ns[k].miners && p in Heard(ns[k].miners[i], b.hash)
      ensures Has(ns[k], p, b.hash)
    {
      RunKeepsFlooding(rule, links, ns, mvs, b, k);
    }
  }

  // ---------- how often a miner floods a block ----------

  ghost function Occurs(bs: seq<Block>, h: Hash): nat {
    if bs == [] then 0 else (if bs[0].hash == h then 1 else 0) + Occurs(bs[1..], h)
  }

  lemma {:induction false} OccursSnoc(bs: seq<Block>, b: Block, h: Hash)
    ensures Occurs(bs + [b], h) == Occurs(bs, h) + if b.hash == h then 1 else 0
  {
    if bs == [] {
      assert bs + [b] == [b];
    } else {
      assert (bs + [b])[1..] == bs[1..] + [b];
      OccursSnoc(bs[1..], b, h);
    }
  }

  /** The floods of `h` that miner `i` has made or has queued. */
  ghost function Floods(n: Network, i: Id, h: Hash): nat
    requires i in n.miners
  {
    multiset(n.log)[(i, h)] + Occurs(n.miners[i].state.sending, h)
  }

  ghost function Held(n: Network, i: Id, h: Hash): nat {
    if Has(n, i, h) then 1 else 0
  }

  lemma {:induction false} StepConservesFloods(rule: Rule, s: State, e: Event, h: Hash)
    requires Rooted(s.tree) && CanStep(s, e)
    ensures Occurs(Step(rule, s, e).sending, h) + (if h in s.tree.blocks then 1 else 0)
         == Occurs(s.sending, h) + (if h in Step(rule, s, e).tree.blocks then 1 else 0)
  {
    if e.AddNextBlock? && s.adding != [] {
      OccursSnoc(s.sending, s.adding[0], h);
    }
  }

  lemma {:induction false} FloodConservesFloods(rule: Rule, links: Links, n: Network, j: Id, targets: seq<Id>, i: Id,
                                                h: Hash)
    requires AllRooted(n) && Enabled(links, n, Flood(j, targets)) && i in n.miners
    ensures i in Next(rule, links, n, Flood(j, targets)).miners
    ensures Floods(Next(rule, links, n, Flood(j, targets)), i, h) == Floods(n, i, h)
  {
    var x := n.miners[j].state.sending[0];
    assert multiset(n.log + [(j, x.hash)]) == multiset(n.log) + multiset{(j, x.hash)};
  }

  lemma {:induction false} LocalConservesFloods(rule: Rule, links: Links, n: Network, j: Id, e: Event, i: Id, h: Hash)
    requires AllRooted(n) && Enabled(links, n, Local(j, e)) && i in n.miners
    ensures var n' := Next(rule, links, n, Local(j, e));
            i in n'.miners && Floods(n', i, h) + Held(n, i, h) == Floods(n, i, h) + Held(n', i, h)
  {
    if i == j { StepConservesFloods(rule, n.miners[j].state, e, h); }
  }

  /** Every acceptance is flooded, and nothing else is. */
  lemma {:induction false} MoveConservesFloods(rule: Rule, links: Links, n: Network, mv: Move, i: Id, h: Hash)
    requires AllRooted(n) && Enabled(links, n, mv) && i in n.miners
    ensures i in Next(rule, links, n, mv).miners
    ensures var n' := Next(rule, links, n, mv);
            Floods(n', i, h) + Held(n, i, h) == Floods(n, i, h) + Held(n', i, h)
  {
    match mv
    case Deliver(k) =>
    case Local(j, e) =>
      LocalConservesFloods(rule, links, n, j, e, i, h);
    case Flood(j, targets) =>
      FloodConservesFloods(rule, links, n, j, targets, i, h);
  }

  lemma RunMove(rule: Rule, links: Links, ns: seq<Network>, mvs: seq<Move>, k: nat)
    requires IsRun(rule, links, ns, mvs) && k < |mvs|
    ensures MoveAt(rule, links, ns, mvs, k)
  {
  }

  lemma {:induction false} MoveAtConservesFloods(rule: Rule, links: Links, ns: seq<Network>, mvs: seq<Move>, i: Id,
                                                 h: Hash, k: nat)
    requires MoveAt(rule, links, ns, mvs, k) && i in ns[k].miners
    ensures i in ns[k + 1].miners
    ensures Floods(ns[k + 1], i, h) + Held(ns[k], i, h) == Floods(ns[k], i, h) + Held(ns[k + 1], i, h)
  {
    MoveConservesFloods(rule, links, ns[k], mvs[k], i, h);
  }

  lemma {:induction false} FloodsNext(rule: Rule, links: Links, ns: seq<Network>, mvs: seq<Move>, i: Id, h: Hash,
                                      k: nat)
    requires IsRun(rule, links, ns, mvs) && k < |mvs| && i in ns[k].miners
    ensures i in ns[k + 1].miners
    ensures Floods(ns[k + 1], i, h) + Held(ns[k], i, h) == Floods(ns[k], i, h) + Held(ns[k + 1], i, h)
  {
    RunMove(rule, links, ns, mvs, k);
    MoveAtConservesFloods(rule, links, ns, mvs, i, h, k);
  }

  /** Over a whole run that starts with nothing flooded: a miner floods a block exactly when it has accepted it
      since the start, and never twice. */
  lemma {:induction false} FloodsEachBlockOnce(rule: Rule, links: Links, ns: seq<Network>, mvs: seq<Move>, i: Id,
                                               h: Hash, k: nat)
    requires IsRun(rule, links, ns, mvs) && k < |ns| && i in ns[0].miners
    requires ns[0].log == [] && ns[0].miners[i].state.sending == []
    ensures i in ns[k].miners && Floods(ns[k], i, h) == Held(ns[k], i, h) - Held(ns[0], i, h)
    ensures multiset(ns[k].log)[(i, h)] <= 1
  {
    if k > 0 {
      FloodsEachBlockOnce(rule, links, ns, mvs, i, h, k - 1);
      FloodsNext(rule, links, ns, mvs, i, h, k - 1);
    }
  }

  // ---------- how many copies of a block are sent ----------

  /** The number of peers, summed over the given miners. */
  ghost function PeerSum(links: Links, miners: set<Id>): nat
    requires miners <= links.Keys
  {
    if miners == {} then 0
    else
      var i :| i in miners;
      |links[i]| + PeerSum(links, miners - {i})
  }

  lemma {:induction false} PeerSumTakes(links: Links, miners: set<Id>, j: Id)
    requires miners <= links.Keys && j in miners
    ensures PeerSum(links, miners) == |links[j]| + PeerSum(links, miners - {j})
    decreases |miners|
  {
    var i :| i in miners && PeerSum(links, miners) == |links[i]| + PeerSum(links, miners - {i});
    if i != j {
      PeerSumTakes(links, miners - {i}, j);
      PeerSumTakes(links, miners - {j}, i);
      assert miners - {i} - {j} == miners - {j} - {i};
    }
  }

  lemma {:induction false} PeerSumRises(links: Links, few: set<Id>, many: set<Id>)
    requires few <= many <= links.Keys
    ensures PeerSum(links, few) <= PeerSum(links, many)
    decreases |few|
  {
    if few != {} {
      var j :| j in few;
      PeerSumTakes(links, few, j);
      PeerSumTakes(links, many, j);
      PeerSumRises(links, few - {j}, many - {j});
    }
  }

  /** The move sends `h` on. */
  ghost predicate Sends(n: Network, mv: Move, h: Hash) {
    mv.Flood? && mv.i in n.miners && n.miners[mv.i].state.sending != [] && n.miners[mv.i].state.sending[0].hash == h
  }

  /** The copies of `h` put on the wire by the first `k` moves. */
  ghost function Copies(ns: seq<Network>, mvs: seq<Move>, h: Hash, k: nat): nat
    requires |ns| == |mvs| + 1 && k <= |mvs|
  {
    if k == 0 then 0
    else Copies(ns, mvs, h, k - 1) + if Sends(ns[k - 1], mvs[k - 1], h) then |mvs[k - 1].targets| else 0
  }

  /** The miners that have flooded `h`. */
  ghost function Flooders(n: Network, h: Hash): set<Id> {
    set x | x in n.log && x.1 == h :: x.0
  }

  lemma {:induction false} FloodCopies(links: Links, n: Network, i: Id, targets: seq<Id>)
    requires Enabled(links, n, Flood(i, targets))
    ensures |targets| <= |links[i]|
  {
    var s := set p | p in links[i] && p !in Heard(n.miners[i], n.miners[i].state.sending[0].hash);
    ListLength(targets, s);
    SubsetSize(s, links[i]);
  }

  lemma {:induction false} FloodersGrow(rule: Rule, links: Links, n: Network, mv: Move, h: Hash)
    requires AllRooted(n) && Enabled(links, n, mv)
    ensures Flooders(Next(rule, links, n, mv), h) == Flooders(n, h) + if Sends(n, mv, h) then {mv.i} else {}
  {
    var log := Next(rule, links, n, mv).log;
    if mv.Flood? {
      var x := (mv.i, n.miners[mv.i].state.sending[0].hash);
      assert log == n.log + [x] && x in log;
    }
  }

  lemma {:induction false} LoggedTwice(log: seq<(Id, Hash)>, x: (Id, Hash))
    requires x in log
    ensures multiset(log + [x])[x] >= 2
  {
    assert multiset(log + [x]) == multiset(log) + multiset{x};
  }

  /** Who floods a block now has not flooded it before. */
  lemma {:induction false} FloodIsNew(rule: Rule, links: Links, ns: seq<Network>, mvs: seq<Move>, h: Hash, k: nat)
    requires IsRun(rule, links, ns, mvs) && k < |mvs| && Sends(ns[k], mvs[k], h)
    requires mvs[k].i in ns[0].miners && ns[0].log == [] && ns[0].miners[mvs[k].i].state.sending == []
    ensures mvs[k].i !in Flooders(ns[k], h)
  {
    var i := mvs[k].i;
    assert MoveAt(rule, links, ns, mvs, k);
    FloodsEachBlockOnce(rule, links, ns, mvs, i, h, k + 1);
    assert ns[k + 1].log == ns[k].log + [(i, h)];
    if (i, h) in ns[k].log {
      LoggedTwice(ns[k].log, (i, h));
    }
  }

  ghost predicate NothingFlooded(links: Links, n: Network) {
    n.miners.Keys == links.Keys && n.log == [] && forall i {:trigger n.miners[i]} :: i in n.miners ==>
        n.miners[i].state.sending == []
  }

  /** What one move adds to the copies is covered by the peers of the miner that it adds to the flooders. */
  lemma {:induction false} CopiesCovered(links: Links, n: Network, n': Network, mv: Move, h: Hash, copies: nat)
    requires Enabled(links, n, mv) && Flooders(n, h) <= links.Keys && copies <= PeerSum(links, Flooders(n, h))
    requires Flooders(n', h) == Flooders(n, h) + if Sends(n, mv, h) then {mv.i} else {}
    requires Sends(n, mv, h) ==> mv.i !in Flooders(n, h)
    ensures Flooders(n', h) <= links.Keys
    ensures copies + (if Sends(n, mv, h) then |mv.targets| else 0) <= PeerSum(links, Flooders(n', h))
  {
    if Sends(n, mv, h) {
      FloodCopies(links, n, mv.i, mv.targets);
      PeerSumTakes(links, Flooders(n', h), mv.i);
      assert Flooders(n', h) - {mv.i} == Flooders(n, h);
    } else {
      assert Flooders(n', h) == Flooders(n, h);
    }
  }

  lemma {:induction false} MinersStay(rule: Rule, links: Links, n: Network, mv: Move)
    requires AllRooted(n) && Enabled(links, n, mv)
    ensures Next(rule, links, n, mv).miners.Keys == n.miners.Keys
  {
  }

  /** The copies sent so far are covered by the peers of those that have flooded. */
  ghost predicate Covered(links: Links, n: Network, h: Hash, copies: nat) {
    n.miners.Keys == links.Keys && Flooders(n, h) <= links.Keys && copies <= PeerSum(links, Flooders(n, h))
  }

  lemma {:induction false} MoveAtCovers(rule: Rule, links: Links, ns: seq<Network>, mvs: seq<Move>, h: Hash, k: nat,
                                        copies: nat)
    requires MoveAt(rule, links, ns, mvs, k) && Covered(links, ns[k], h, copies)
    requires Sends(ns[k], mvs[k], h) ==> mvs[k].i !in Flooders(ns[k], h)
    ensures Covered(links, ns[k + 1], h, copies + if Sends(ns[k], mvs[k], h) then |mvs[k].targets| else 0)
  {
    MinersStay(rule, links, ns[k], mvs[k]);
    FloodersGrow(rule, links, ns[k], mvs[k], h);
    CopiesCovered(links, ns[k], ns[k + 1], mvs[k], h, copies);
  }

  lemma {:induction false} CoveredNext(rule: Rule, links: Links, ns: seq<Network>, mvs: seq<Move>, h: Hash, k: nat,
                                       copies: nat)
    requires IsRun(rule, links, ns, mvs) && NothingFlooded(links, ns[0]) && k < |mvs|
            && Covered(links, ns[k], h, copies)
    ensures Covered(links, ns[k + 1], h, copies + if Sends(ns[k], mvs[k], h) then |mvs[k].targets| else 0)
  {
    RunMove(rule, links, ns, mvs, k);
    if Sends(ns[k], mvs[k], h) {
      FloodIsNew(rule, links, ns, mvs, h, k);
    }
    MoveAtCovers(rule, links, ns, mvs, h, k, copies);
  }

  lemma {:induction false} CopiesByFlooders(rule: Rule, links: Links, ns: seq<Network>, mvs: seq<Move>, h: Hash, k: nat)
    requires IsRun(rule, links, ns, mvs) && NothingFlooded(links, ns[0]) && k <= |mvs|
    ensures Covered(links, ns[k], h, Copies(ns, mvs, h, k))
  {
    if k > 0 {
      CopiesByFlooders(rule, links, ns, mvs, h, k - 1);
      CoveredNext(rule, links, ns, mvs, h, k - 1, Copies(ns, mvs, h, k - 1));
    }
  }

  /** In any run that starts with nothing flooded, no more copies of a block are sent than the miners have peers. */
  lemma {:induction false} CopiesAreBounded(rule: Rule, links: Links, ns: seq<Network>, mvs: seq<Move>, h: Hash)
    requires IsRun(rule, links, ns, mvs) && NothingFlooded(links, ns[0])
    ensures Copies(ns, mvs, h, |mvs|) <= PeerSum(links, links.Keys)
  {
    CopiesByFlooders(rule, links, ns, mvs, h, |mvs|);
    PeerSumRises(links, Flooders(ns[|mvs|], h), links.Keys);
  }

  // ---------- whom a block is not sent to ----------

  /** Miner `i` remembers that `p` has sent it the hash. */
  ghost predicate Remembers(n: Network, i: Id, h: Hash, p: Id) {
    i in n.miners && p in Heard(n.miners[i], h)
  }

  lemma {:induction false} RemembersOn(rule: Rule, links: Links, n: Network, mv: Move, i: Id, h: Hash, p: Id)
    requires AllRooted(n) && Enabled(links, n, mv) && Remembers(n, i, h, p)
    ensures Remembers(Next(rule, links, n, mv), i, h, p)
  {
  }

  lemma {:induction false} RemembersNext(rule: Rule, links: Links, ns: seq<Network>, mvs: seq<Move>, k: nat, i: Id,
                                         h: Hash, p: Id)
    requires IsRun(rule, links, ns, mvs) && k < |mvs| && Remembers(ns[k], i, h, p)
    ensures Remembers(ns[k + 1], i, h, p)
  {
    RunMove(rule, links, ns, mvs, k);
    RemembersOn(rule, links, ns[k], mvs[k], i, h, p);
  }

  lemma {:induction false} RemembersFromThenOn(rule: Rule, links: Links, ns: seq<Network>, mvs: seq<Move>, x: nat,
                                               y: nat, i: Id, h: Hash, p: Id)
    requires IsRun(rule, links, ns, mvs) && x <= y < |ns| && Remembers(ns[x], i, h, p)
    ensures Remembers(ns[y], i, h, p)
    decreases y
  {
    if x < y {
      RemembersFromThenOn(rule, links, ns, mvs, x, y - 1, i, h, p);
      RemembersNext(rule, links, ns, mvs, y - 1, i, h, p);
    }
  }

  lemma {:induction false} RemembersDelivery(rule: Rule, links: Links, ns: seq<Network>, mvs: seq<Move>, k: nat)
    requires MoveAt(rule, links, ns, mvs, k) && mvs[k].Deliver?
    ensures mvs[k].k < |ns[k].wire|
    ensures var msg := ns[k].wire[mvs[k].k]; Remembers(ns[k + 1], msg.to, msg.block.hash, msg.from)
  {
  }

  lemma {:induction false} NotAmongTargets(links: Links, n: Network, mv: Move, h: Hash, p: Id)
    requires Enabled(links, n, mv) && Sends(n, mv, h) && Remembers(n, mv.i, h, p)
    ensures p !in mv.targets
  {
  }

  /** In any run a block is never sent back: whoever floods it sends no copy to a peer that a copy has come from. */
  lemma {:induction false} NeverSentBack(rule: Rule, links: Links, ns: seq<Network>, mvs: seq<Move>, x: nat, y: nat)
    requires IsRun(rule, links, ns, mvs) && x < y < |mvs| && mvs[x].Deliver? && mvs[x].k < |ns[x].wire|
    requires var msg := ns[x].wire[mvs[x].k]; Sends(ns[y], mvs[y], msg.block.hash) && mvs[y].i == msg.to
    ensures ns[x].wire[mvs[x].k].from !in mvs[y].targets
  {
    var msg := ns[x].wire[mvs[x].k];
    RunMove(rule, links, ns, mvs, x);
    RemembersDelivery(rule, links, ns, mvs, x);
    RemembersFromThenOn(rule, links, ns, mvs, x + 1, y, msg.to, msg.block.hash, msg.from);
    RunMove(rule, links, ns, mvs, y);
    NotAmongTargets(links, ns[y], mvs[y], msg.block.hash, msg.from);
  }
}

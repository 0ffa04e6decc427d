/** The fixed links between miners. */
module PeerLinks {
  type Id = string
  type Links = map<Id, set<Id>>

  /** The links join miners of the network. */
  ghost predicate Joined(links: Links) {
    forall i {:trigger links[i]} :: i in links ==> links[i] <= links.Keys
  }

  ghost predicate LinkAt(links: Links, path: seq<Id>, k: int) {
    0 < k < |path| && path[k - 1] in links && path[k] in links[path[k - 1]]
  }

  ghost predicate IsPath(links: Links, path: seq<Id>) {
    && path != []
    && (forall k {:trigger LinkAt(links, path, k)} :: 0 < k < |path| ==> LinkAt(links, path, k))
  }

  /** `ids` lists the set, each member once. */
  ghost predicate Lists(ids: seq<Id>, s: set<Id>) {
    && (forall p :: p in ids <==> p in s)
    && (forall i, j :: 0 <= i < j < |ids| ==> ids[i] != ids[j])
  }

  lemma {:induction false} ListLength(ids: seq<Id>, s: set<Id>)
    requires Lists(ids, s)
    ensures |ids| == |s|
  {
    if ids == [] {
      assert s == {};
    } else {
      var x, rest := ids[0], ids[1..];
      forall p | p in rest
        ensures p in s - {x}
      {
        var i :| 0 <= i < |rest| && rest[i] == p;
        assert ids[i + 1] == p && p in ids;
      }
      forall p | p in s - {x}
        ensures p in rest
      {
        var i :| 0 <= i < |ids| && ids[i] == p;
        assert rest[i - 1] == p;
      }
      ListLength(rest, s - {x});
    }
  }
}

/** p2p/p2p_rpc.go: the cases of managePeers that handle blocks and operations. */
module PeerManagers {
  import opened Types
  import opened PeerLinks
  import opened ManagerSteps
  import BlockFlooding
  import OperationFlooding

  /** `peers` are the peers we are connected to; `blocksToPeers` says which peers have sent us which blocks. */
  class PeerManager {
    const minerID: Id
    var peers: set<Id>
    var blocksToPeers: map<Hash, seq<Id>>

    constructor (minerID: Id)
      ensures this.minerID == minerID && peers == {} && blocksToPeers == map[]
    {
      this.minerID := minerID;
      peers, blocksToPeers := {}, map[];
    }

    /** A peer has connected: the miner is told to mine, and the clients' server that there are peers. */
    method NewPeer(id: Id) returns (mine: bool, havePeers: bool)
      modifies this`peers
      ensures peers == old(peers) + {id} && mine && havePeers
    {
      peers := peers + {id};
      mine, havePeers := true, |peers| > 0;
    }

    /** A block has been flooded to us; `toManager` is the block handed to the ledger's manager. */
    method ReceivedBlock(block: Block, fromID: Id) returns (toManager: Block)
      modifies this`blocksToPeers
      ensures forall s: State ::
                BlockFlooding.Miner(s.(received := s.received + [toManager]), blocksToPeers)
                == BlockFlooding.HearBlock(BlockFlooding.Miner(s, old(blocksToPeers)), block, fromID)
      ensures toManager == block && blocksToPeers == old(blocksToPeers)[block.hash :=
              (if block.hash in old(blocksToPeers) then old(blocksToPeers)[block.hash] else []) + [fromID]]
    {
      if block.hash !in blocksToPeers {
        assert [] + [fromID] == [fromID];
        blocksToPeers := blocksToPeers[block.hash := [fromID]];
      } else {
        var miners := blocksToPeers[block.hash];
        blocksToPeers := blocksToPeers[block.hash := miners + [fromID]];
      }
      toManager := block;
    }

    /** The peers that are not to be ignored, in the order in which the map is walked. */
    method PeersBut(ignorePeers: set<Id>) returns (targets: seq<Id>)
      ensures Lists(targets, peers - ignorePeers)
    {
      targets := [];
      var todo := peers;
      while todo != {}
        invariant todo <= peers
        invariant Lists(targets, peers - todo - ignorePeers)
        decreases |todo|
      {
        var id :| id in todo;
        todo := todo - {id};
        assert id !in targets;
        if id !in ignorePeers {
          targets := targets + [id];
        }
      }
    }

    method SetOf(ids: seq<Id>) returns (s: set<Id>)
      ensures forall p :: p in s <==> p in ids
    {
      s := {};
      for i := 0 to |ids|
        invariant forall p :: p in s <==> p in ids[..i]
      {
        s := s + {ids[i]};
      }
    }

    /** The manager has accepted a block; `targets` are the peers that the request goes to. */
    method SendBlock(block: Block) returns (targets: seq<Id>)
      ensures forall s: State :: BlockFlooding.Targets(BlockFlooding.Miner(s, blocksToPeers), peers, block, targets)
      ensures forall p :: p in targets <==>
                p in peers && !(block.hash in blocksToPeers && p in blocksToPeers[block.hash])
      ensures forall i, j :: 0 <= i < j < |targets| ==> targets[i] != targets[j]
    {
      var ignorePeers := {};
      if block.hash in blocksToPeers {
        ignorePeers := SetOf(blocksToPeers[block.hash]);
      }
      targets := PeersBut(ignorePeers);
    }

    /** StringSetToList */
    method ListOf(s: set<Id>) returns (ids: seq<Id>)
      ensures Lists(ids, s)
    {
      ids := [];
      var todo := s;
      while todo != {}
        invariant todo <= s
        invariant Lists(ids, s - todo)
        decreases |todo|
      {
        var id :| id in todo;
        todo := todo - {id};
        ids := ids + [id];
      }
    }

    /** An operation is to be flooded: the peers that the operation goes to, and the list that goes with it. */
    method FloodOperation(ignoreMiners: seq<Id>) returns (targets: seq<Id>, newIgnore: seq<Id>)
      ensures var links, msg := map[minerID := peers], OperationFlooding.Message(minerID, set p | p in ignoreMiners);
              var before, move := OperationFlooding.Gossip({}, [msg]), OperationFlooding.Move(0, targets);
              && OperationFlooding.Enabled(links, before, move)
              && Lists(newIgnore, OperationFlooding.NewIgnore(links, msg))
      ensures forall p :: p in targets <==> p in peers && p !in ignoreMiners
      ensures forall p :: p in newIgnore <==> p in ignoreMiners || p in peers || p == minerID
    {
      var ignorePeers := SetOf(ignoreMiners);
      ghost var ignored := ignorePeers;
      targets := PeersBut(ignorePeers);
      var todo := peers;
      while todo != {}
        invariant todo <= peers && ignorePeers == ignored + (peers - todo)
        decreases |todo|
      {
        var id :| id in todo;
        todo := todo - {id};
        ignorePeers := ignorePeers + {id};
      }
      ignorePeers := ignorePeers + {minerID};
      newIgnore := ListOf(ignorePeers);
      assert ignored == set p | p in ignoreMiners;
      assert ignorePeers == ignored + peers + {minerID};
    }
  }
}

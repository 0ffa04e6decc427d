/** Blocks, operations and settings, as they travel between miners.

    The digest MD5(prepareData(..)) is library code. It enters the model as a value `md5` of
    function type, so every statement holds for each deterministic digest. */
module Types {
  newtype byte = x: int | 0 <= x < 256

  type Hash = seq<byte>

  datatype OpType = Create | Append | Delete

  datatype Operation = Operation(
    op: OpType,
    data: seq<byte>,
    filename: string,
    minerID: string,
    operationID: string,
    timestamp: int)

  datatype Block = Block(
    timestamp: int,
    operations: seq<Operation>,
    previousHash: Hash,
    minerID: string,
    hash: Hash,
    nonce: int)

  /** The fields that all miners share. The source stores each number in a byte; nothing below
      depends on that bound. */
  datatype Settings = Settings(
    minedCoinsPerOpBlock: nat,
    minedCoinsPerNoOpBlock: nat,
    numCoinsPerFileCreate: nat,
    powPerOpBlock: nat,
    powPerNoOpBlock: nat,
    confirmsPerFileCreate: nat,
    confirmsPerFileAppend: nat,
    genesisBlockHash: Hash)

  /** What prepareData joins into one byte string before hashing. */
  datatype PowData = PowData(
    previousHash: Hash,
    operations: seq<Operation>,
    minerID: string,
    timestamp: int,
    difficulty: nat,
    nonce: int)

  /** Everything that decides whether a block is acceptable on a given chain. */
  datatype Rules = Rules(cfg: Settings, md5: PowData -> Hash)

  predicate HasHash(blocks: seq<Block>, h: Hash) {
    exists b :: b in blocks && b.hash == h
  }

  function HashSet(blocks: seq<Block>): set<Hash> {
    set b | b in blocks :: b.hash
  }

  function HashList(blocks: seq<Block>): seq<Hash> {
    seq(|blocks|, i requires 0 <= i < |blocks| => blocks[i].hash)
  }

  lemma SubsetSize<T>(a: set<T>, b: set<T>)
    requires a <= b
    ensures |a| <= |b|
    ensures |a| == |b| ==> a == b
  {
    assert b == a + (b - a);
  }
}

/** bclib/pow.go: the nonce search and its check. */
module ProofOfWork {
  import opened Types

  const MAX_NONCE: int := 0x7fff_ffff_ffff_ffff

  function Pow2(k: nat): (r: nat)
    ensures r > 0
  {
    if k == 0 then 1 else 2 * Pow2(k - 1)
  }

  /** big.Int.SetBytes: the bytes read as one big-endian number. */
  function BigEndian(h: Hash): (r: nat)
  {
    if h == [] then 0 else 256 * BigEndian(h[..|h| - 1]) + h[|h| - 1] as nat
  }

  function PrepareData(b: Block, bits: nat, nonce: int): PowData {
    PowData(b.previousHash, b.operations, b.minerID, b.timestamp, bits, nonce)
  }

  /** The digest of `b` with the given nonce, at the given difficulty. */
  function Digest(md5: PowData -> Hash, b: Block, difficulty: nat, nonce: int): Hash {
    md5(PrepareData(b, difficulty * 4, nonce))
  }

  /** The hashed data covers the whole block: what is hashed is the same only for the same parent, operations, miner,
      time, difficulty and nonce. */
  lemma DataCoversTheBlock(a: Block, b: Block, bits: nat, bits': nat, nonce: int, nonce': int)
    ensures PrepareData(a, bits, nonce) == PrepareData(b, bits', nonce')
       <==> && a.previousHash == b.previousHash && a.operations == b.operations && a.minerID == b.minerID
            && a.timestamp == b.timestamp && bits == bits' && nonce == nonce'
  {
  }

  /** The hash of the block is the digest of its own fields at the difficulty. */
  predicate CarriesDigest(md5: PowData -> Hash, b: Block, difficulty: nat) {
    b.hash == md5(PowData(b.previousHash, b.operations, b.minerID, b.timestamp, 4 * difficulty, b.nonce))
  }

  predicate Collides(md5: PowData -> Hash, x: PowData, y: PowData) {
    x != y && md5(x) == md5(y)
  }

  /** Unless the digest has a collision on them, two mined blocks with one hash are the same block. */
  lemma SameHashSameBlock(md5: PowData -> Hash, a: Block, b: Block, d: nat, e: nat)
    requires CarriesDigest(md5, a, d) && CarriesDigest(md5, b, e) && a.hash == b.hash
    requires !Collides(md5, PrepareData(a, 4 * d, a.nonce), PrepareData(b, 4 * e, b.nonce))
    ensures a == b && d == e
  {
    DataCoversTheBlock(a, b, 4 * d, 4 * e, a.nonce, b.nonce);
  }

  /** Shifting right and then left again by `bits` gives the number back. */
  predicate SurvivesShift(h: Hash, bits: nat) {
    var n := BigEndian(h);
    n / Pow2(bits) * Pow2(bits) == n
  }

  /** The digits whose zeroes the settings speak of: two hexadecimal ones for each byte of the hash, in order. */
  function HexDigits(h: Hash): (r: seq<nat>)
    ensures |r| == 2 * |h|
    ensures forall i :: 0 <= i < |r| ==> r[i] < 16
    ensures forall i :: 0 <= i < |h| ==> r[2 * i] == h[i] as nat / 16 && r[2 * i + 1] == h[i] as nat % 16
  {
    if h == [] then []
    else HexDigits(h[..|h| - 1]) + [h[|h| - 1] as nat / 16, h[|h| - 1] as nat % 16]
  }

  predicate EndsInZeroes(digits: seq<nat>, count: nat) {
    forall i :: 0 <= i < |digits| && |digits| - count <= i ==> digits[i] == 0
  }

  ghost function HexValue(digits: seq<nat>): nat {
    if digits == [] then 0 else 16 * HexValue(digits[..|digits| - 1]) + digits[|digits| - 1]
  }

  lemma {:induction false} HexDigitsValue(h: Hash)
    ensures HexValue(HexDigits(h)) == BigEndian(h)
  {
    if h != [] {
      HexDigitsValue(h[..|h| - 1]);
      var front, x := HexDigits(h[..|h| - 1]), h[|h| - 1] as nat;
      var d := HexDigits(h);
      assert d[..|d| - 1] == front + [x / 16];
      assert (front + [x / 16])[..|front|] == front;
    }
  }

  /** The number can be divided by sixteen `d` times without a remainder. */
  ghost predicate DividesOut(n: nat, d: nat) {
    d == 0 || (n % 16 == 0 && DividesOut(n / 16, d - 1))
  }

  lemma Remainder(d: nat, q: nat, r: nat)
    requires r < d
    ensures (d * q + r) % d == r
  {
    var n := d * q + r;
    var q', r' := n / d, n % d;
    assert n == d * q' + r';
    assert d * (q - q') == r' - r;
    if q > q' {
      Scale(d, q - q');
    } else if q < q' {
      Scale(d, q' - q);
    }
  }

  lemma DivisibleSplit(n: nat, p: nat)
    requires p > 0
    ensures n % (16 * p) == 0 <==> n % 16 == 0 && n / 16 % p == 0
  {
    var a, b := n / 16, n % 16;
    var q, r := a / p, a % p;
    assert a == p * q + r;
    assert n == 16 * p * q + (16 * r + b);
    Remainder(16 * p, q, 16 * r + b);
  }

  lemma Scale(d: nat, k: nat)
    requires k >= 1
    ensures d * k >= d
  {
  }

  lemma {:induction false} Pow16(d: nat)
    requires d > 0
    ensures Pow2(4 * d) == 16 * Pow2(4 * (d - 1))
  {
    var k: nat := 4 * d;
    assert Pow2(k) == 2 * Pow2(k - 1);
    assert Pow2(k - 1) == 2 * Pow2(k - 2);
    assert Pow2(k - 2) == 2 * Pow2(k - 3);
    assert Pow2(k - 3) == 2 * Pow2(k - 4);
  }

  lemma {:induction false} DivisibleByPower(n: nat, d: nat)
    ensures n % Pow2(4 * d) == 0 <==> DividesOut(n, d)
  {
    if d == 0 {
      assert Pow2(4 * d) == 1;
    } else {
      var p := Pow2(4 * (d - 1));
      DivisibleByPower(n / 16, d - 1);
      DivisibleSplit(n, p);
      Pow16(d);
    }
  }

  lemma {:induction false} DividesOutIsZeroes(digits: seq<nat>, d: nat)
    requires forall i :: 0 <= i < |digits| ==> digits[i] < 16
    ensures DividesOut(HexValue(digits), d) <==> EndsInZeroes(digits, d)
    decreases d
  {
    if d == 0 {
    } else if digits == [] {
      DividesOutIsZeroes([], d - 1);
    } else {
      var front, x := digits[..|digits| - 1], digits[|digits| - 1];
      assert HexValue(digits) % 16 == x && HexValue(digits) / 16 == HexValue(front);
      DividesOutIsZeroes(front, d - 1);
      assert forall i :: 0 <= i < |front| ==> front[i] == digits[i];
    }
  }

  lemma ShiftIsDivisible(n: nat, p: nat)
    requires p > 0
    ensures n / p * p == n <==> n % p == 0
  {
    assert n == n / p * p + n % p;
  }

  /** The shift test at a difficulty of `d` asks for `d` trailing hexadecimal zeroes. */
  lemma ShiftTestCountsZeroes(h: Hash, d: nat)
    ensures SurvivesShift(h, d * 4) <==> EndsInZeroes(HexDigits(h), d)
  {
    ShiftIsDivisible(BigEndian(h), Pow2(4 * d));
    DivisibleByPower(BigEndian(h), d);
    HexDigitsValue(h);
    DividesOutIsZeroes(HexDigits(h), d);
  }

  /** A block is mined at a difficulty when its own nonce gives a digest with enough zeroes. */
  predicate Mined(md5: PowData -> Hash, b: Block, difficulty: nat) {
    EndsInZeroes(HexDigits(Digest(md5, b, difficulty, b.nonce)), difficulty)
  }

  method Validate(md5: PowData -> Hash, b: Block, difficulty: nat) returns (ok: bool)
    ensures ok <==> Mined(md5, b, difficulty)
  {
    var hash := md5(PrepareData(b, difficulty * 4, b.nonce));
    var hashInt, rshHashInt := BigEndian(hash), BigEndian(hash);
    rshHashInt := rshHashInt / Pow2(difficulty * 4);
    rshHashInt := rshHashInt * Pow2(difficulty * 4);
    ShiftTestCountsZeroes(hash, difficulty);
    ok := hashInt == rshHashInt;
  }

  /** At nonce `j` the search neither stops nor succeeds. */
  predicate KeepsTrying(md5: PowData -> Hash, b: Block, difficulty: nat, stop: int -> bool, j: int) {
    !stop(j) && !EndsInZeroes(HexDigits(Digest(md5, b, difficulty, j)), difficulty)
  }

  /** The nonce search. `stop(n)` tells whether the stop channel is found closed when nonce `n`
      is about to be tried. */
  method Run(md5: PowData -> Hash, b: Block, difficulty: nat, stop: int -> bool) returns (nonce: int, hash: Hash)
    // an interrupt is the only way to get a negative nonce
    ensures nonce == -1 <==>
              (exists k :: 0 <= k < MAX_NONCE && stop(k) && forall j :: 0 <= j < k ==>
                  KeepsTrying(md5, b, difficulty, stop, j))
    ensures nonce == -1 || 0 <= nonce <= MAX_NONCE
    // a nonce below the limit is the least one that works, and the hash is its digest
    ensures 0 <= nonce < MAX_NONCE ==>
              && hash == Digest(md5, b, difficulty, nonce)
              && EndsInZeroes(HexDigits(hash), difficulty)
    ensures forall j :: 0 <= j < nonce ==> KeepsTrying(md5, b, difficulty, stop, j)
  {
    nonce, hash := 0, [];
    while nonce < MAX_NONCE
      invariant 0 <= nonce <= MAX_NONCE
      invariant forall j :: 0 <= j < nonce ==> !stop(j)
      invariant forall j :: 0 <= j < nonce ==> KeepsTrying(md5, b, difficulty, stop, j)
    {
      if stop(nonce) {
        return -1, [];
      }
      hash := md5(PrepareData(b, difficulty * 4, nonce));
      var hashInt, rshHashInt := BigEndian(hash), BigEndian(hash);
      rshHashInt := rshHashInt / Pow2(difficulty * 4);
      rshHashInt := rshHashInt * Pow2(difficulty * 4);
      ShiftTestCountsZeroes(hash, difficulty);
      if hashInt == rshHashInt {
        assert !KeepsTrying(md5, b, difficulty, stop, nonce);
        return nonce, hash;
      }
      nonce := nonce + 1;
    }
  }

  /** The digest of these fields at this nonce ends in as many zeroes as the difficulty asks for. */
  predicate Works(md5: PowData -> Hash, ops: seq<Operation>, prevHash: Hash, minerID: string, difficulty: nat, now: int,
                  nonce: int)
  {
    EndsInZeroes(HexDigits(md5(PowData(prevHash, ops, minerID, now, 4 * difficulty, nonce))), difficulty)
  }

  /** NewBlock, with the clock reading passed in. */
  method NewBlock(md5: PowData -> Hash, ops: seq<Operation>, prevHash: Hash, minerID: string, difficulty: nat,
                  now: int, stop: int -> bool) returns (b: Block)
    ensures b.operations == ops && b.previousHash == prevHash && b.minerID == minerID && b.timestamp == now
    ensures 0 <= b.nonce < MAX_NONCE ==>
              Mined(md5, b, difficulty) && b.hash == Digest(md5, b, difficulty, b.nonce)
    ensures (forall k :: !stop(k)) ==> b.nonce >= 0
    // the same with the hashed fields written out; the nonce is the least one that works, if nothing stops the search
    ensures 0 <= b.nonce < 0x7fff_ffff_ffff_ffff ==>
              CarriesDigest(md5, b, difficulty) && Works(md5, ops, prevHash, minerID, difficulty, now, b.nonce)
    ensures (forall k :: !stop(k)) ==>
              forall n :: 0 <= n < 0x7fff_ffff_ffff_ffff && Works(md5, ops, prevHash, minerID, difficulty, now, n) ==>
                0 <= b.nonce <= n
  {
    var draft := Block(now, ops, prevHash, minerID, [], 0);
    var nonce, hash := Run(md5, draft, difficulty, stop);
    b := draft.(hash := hash, nonce := nonce);
    assert PrepareData(draft, difficulty * 4, nonce) == PrepareData(b, difficulty * 4, nonce);
    forall n | Works(md5, ops, prevHash, minerID, difficulty, now, n)
      ensures !KeepsTrying(md5, draft, difficulty, stop, n)
    {
    }
  }
}

/** The Mine instruction of the older program crate: it checks the clock
    against the start time and the treasury's epoch, pays the treasury's
    reward rate from the chosen bus into the miner's proof account, and
    replaces the proof's challenge with the hash of the first 40 bytes of the
    slot-hashes sysvar's data.
    Keccak (`hashv`) is a parameter: any function from bytes to 32-byte
    hashes. `hashv` over several slices hashes their concatenation. */
module Mine {
  import opened Arith

  const HASH_BYTES: int := 32
  /** `size_of::<SlotHash>()` (an 8-byte slot number and a 32-byte hash): the
      number of leading bytes of the slot-hashes data that are hashed. */
  const SLOT_HASH_BYTES: int := 40

  type Hash = s: seq<u8> | |s| == HASH_BYTES witness seq(32, _ => 0)
  type Pubkey = s: seq<u8> | |s| == 32 witness seq(32, _ => 0)

  /** The all-0x00 and the all-0xFF hash, the least and the greatest hash. */
  const ZERO_HASH: Hash := seq(HASH_BYTES, _ => 0)
  const MAX_HASH: Hash := seq(HASH_BYTES, _ => 0xFF)

  // ---------------------------------------------------------------------
  // Little-endian encoding (`u64::to_le_bytes`).
  // ---------------------------------------------------------------------

  function Pow256(k: nat): (r: nat)
    ensures r >= 1
  {
    if k == 0 then 1 else 256 * Pow256(k - 1)
  }

  /** The low `len` bytes of `n`, least significant first. */
  function LeBytes(n: nat, len: nat): (r: seq<u8>)
    ensures |r| == len
  {
    if len == 0 then [] else [n % 256] + LeBytes(n / 256, len - 1)
  }

  /** The number whose little-endian bytes are `bs`. */
  function FromLeBytes(bs: seq<u8>): (n: nat)
    ensures n < Pow256(|bs|)
  {
    if bs == [] then 0 else bs[0] + 256 * FromLeBytes(bs[1..])
  }

  /** Decoding the encoding of a number that fits gives the number back. */
  lemma {:induction false} LeBytesRoundTrip(n: nat, len: nat)
    requires n < Pow256(len)
    ensures FromLeBytes(LeBytes(n, len)) == n
  {
    if len > 0 {
      assert n / 256 < Pow256(len - 1) by {
        DivLe(n, Pow256(len) - 1, 256);
        DivUnique(Pow256(len) - 1, 256, Pow256(len - 1) - 1);
      }
      LeBytesRoundTrip(n / 256, len - 1);
      assert LeBytes(n, len)[1..] == LeBytes(n / 256, len - 1);
    }
  }

  /** Encoding the value of a byte string gives the byte string back. */
  lemma {:induction false} FromLeBytesRoundTrip(bs: seq<u8>)
    ensures LeBytes(FromLeBytes(bs), |bs|) == bs
  {
    if bs != [] {
      var n := FromLeBytes(bs);
      var rest := FromLeBytes(bs[1..]);
      DivUnique(n, 256, rest);
      FromLeBytesRoundTrip(bs[1..]);
    }
  }

  /** Every u64 fits in 8 bytes. */
  lemma U64FitsEightBytes(n: u64)
    ensures n < Pow256(8)
  {
    assert Pow256(8) == 256 * 256 * 256 * 256 * 256 * 256 * 256 * 256 by {
      assert Pow256(4) == 256 * 256 * 256 * 256;
      assert Pow256(8) == 256 * 256 * 256 * 256 * Pow256(4);
    }
  }

  /** `u64::to_le_bytes`, which `from_le_bytes` inverts. */
  function ToLeBytes(n: u64): (r: seq<u8>)
    ensures |r| == 8
    ensures FromLeBytes(r) == n
  {
    U64FitsEightBytes(n);
    LeBytesRoundTrip(n, 8);
    LeBytes(n, 8)
  }

  // ---------------------------------------------------------------------
  // Hash order: the derived order on `[u8; 32]` is lexicographic.
  // ---------------------------------------------------------------------

  predicate LexLe(a: seq<u8>, b: seq<u8>)
    requires |a| == |b|
  {
    if a == [] then true
    else if a[0] != b[0] then a[0] < b[0]
    else LexLe(a[1..], b[1..])
  }

  lemma {:induction false} LexLeTotal(a: seq<u8>, b: seq<u8>)
    requires |a| == |b|
    ensures LexLe(a, b) || LexLe(b, a)
  {
    if a != [] && a[0] == b[0] {
      LexLeTotal(a[1..], b[1..]);
    }
  }

  lemma {:induction false} LexLeAntisymmetric(a: seq<u8>, b: seq<u8>)
    requires |a| == |b|
    requires LexLe(a, b) && LexLe(b, a)
    ensures a == b
  {
    if a != [] {
      LexLeAntisymmetric(a[1..], b[1..]);
      assert a == [a[0]] + a[1..] && b == [b[0]] + b[1..];
    }
  }

  /** Nothing is above the all-0xFF string. */
  lemma {:induction false} LexLeAllFF(h: seq<u8>)
    ensures LexLe(h, seq(|h|, _ => 0xFF))
  {
    if h != [] {
      var top: seq<u8> := seq(|h|, _ => 0xFF);
      assert top[1..] == seq(|h| - 1, _ => 0xFF);
      LexLeAllFF(h[1..]);
    }
  }

  /** Only the all-zero string is at or below the all-zero string. */
  lemma {:induction false} LexLeAllZero(h: seq<u8>)
    ensures LexLe(h, seq(|h|, _ => 0)) <==> h == seq(|h|, _ => 0)
  {
    if h != [] {
      var zero: seq<u8> := seq(|h|, _ => 0);
      assert zero[1..] == seq(|h| - 1, _ => 0);
      LexLeAllZero(h[1..]);
      if h[0] == 0 && h[1..] == zero[1..] {
        assert h == [h[0]] + h[1..];
      }
    }
  }

  // ---------------------------------------------------------------------
  // validate_hash
  // ---------------------------------------------------------------------

  /** What a miner hashes: the nonce's little-endian bytes, the current
      challenge and the signer's key. */
  function Preimage(nonce: u64, currentHash: Hash, signer: Pubkey): (bs: seq<u8>)
    ensures |bs| == 8 + HASH_BYTES + 32
    ensures FromLeBytes(bs[..8]) == nonce && bs[8..8 + HASH_BYTES] == currentHash && bs[8 + HASH_BYTES..] == signer
  {
    var bs := ToLeBytes(nonce) + currentHash + signer;
    assert bs[..8] == ToLeBytes(nonce) && bs[8..8 + HASH_BYTES] == currentHash;
    bs
  }

  /** `validate_hash`: the hash of the preimage when it does not exceed the
      difficulty in hash order, HashInvalid otherwise. */
  function ValidateHash(currentHash: Hash, signer: Pubkey, nonce: u64, difficulty: Hash,
                        hashv: seq<u8> -> Hash): (r: Result<Hash>)
    ensures r.Ok? <==> LexLe(hashv(Preimage(nonce, currentHash, signer)), difficulty)
    ensures r.Ok? ==> r.value == hashv(Preimage(nonce, currentHash, signer))
    ensures r.Err? ==> r.error == HashInvalid
  {
    var hash := hashv(Preimage(nonce, currentHash, signer));
    if !LexLe(hash, difficulty) then Err(HashInvalid) else Ok(hash)
  }

  /** With the all-0xFF difficulty every submission passes. */
  lemma ValidateHashEasiest(currentHash: Hash, signer: Pubkey, nonce: u64, hashv: seq<u8> -> Hash)
    ensures ValidateHash(currentHash, signer, nonce, MAX_HASH, hashv).Ok?
  {
    LexLeAllFF(hashv(Preimage(nonce, currentHash, signer)));
  }

  /** With the all-zero difficulty only a zero hash passes. */
  lemma ValidateHashHardest(currentHash: Hash, signer: Pubkey, nonce: u64, hashv: seq<u8> -> Hash)
    ensures ValidateHash(currentHash, signer, nonce, ZERO_HASH, hashv).Ok?
        <==> hashv(Preimage(nonce, currentHash, signer)) == ZERO_HASH
  {
    LexLeAllZero(hashv(Preimage(nonce, currentHash, signer)));
  }

  // ---------------------------------------------------------------------
  // Accounts and process_mine
  // ---------------------------------------------------------------------

  /** The constants START_AT and EPOCH_DURATION, whose values are not part of this model. */
  datatype MineParams = MineParams(startAt: i64, epochDuration: i64)

  /** The treasury account, which Mine only reads. */
  datatype Treasury = Treasury(lastResetAt: i64, rewardRate: u64)

  /** A bus account of the older crate. */
  class Bus {
    var id: u64
    var rewards: u64
  }

  datatype ProofState = ProofState(
    authority: Pubkey,
    balance: u64,
    difficulty: Hash,
    hash: Hash,
    totalHashes: u64,
    totalRewards: u64)

  /** A miner's proof account. */
  class Proof {
    var authority: Pubkey
    var balance: u64
    var difficulty: Hash
    var hash: Hash
    var totalHashes: u64
    var totalRewards: u64

    function State(): ProofState
      reads this
    {
      ProofState(authority, balance, difficulty, hash, totalHashes, totalRewards)
    }
  }

  /** The epoch in which Mine may pay out: started, and not yet due for a reset. */
  predicate EpochActive(now: i64, treasury: Treasury, p: MineParams)
  {
    p.startAt <= now < SatAddI64(treasury.lastResetAt, p.epochDuration)
  }

  /** `process_mine`. `nonce` is the instruction's argument, which the
      instruction does not read: hash validation is disabled in this version.
      `slotHashes` is the slot-hashes sysvar's data. On success the result is
      the return data: the reward paid, as 8 little-endian bytes. */
  method ProcessMine(bus: Bus, proof: Proof, treasury: Treasury, nonce: u64, now: i64,
                     slotHashes: seq<u8>, p: MineParams, hashv: seq<u8> -> Hash)
    returns (r: Result<seq<u8>>)
    requires |slotHashes| >= SLOT_HASH_BYTES
    modifies bus, proof
    ensures r == Err(NotStarted) <==> now < p.startAt
    ensures r == Err(NeedsReset) <==> p.startAt <= now && now >= SatAddI64(treasury.lastResetAt, p.epochDuration)
    ensures r == Err(BusRewardsInsufficient) <==>
      EpochActive(now, treasury, p) && old(bus.rewards) < treasury.rewardRate
    ensures r.Ok? <==> EpochActive(now, treasury, p) && treasury.rewardRate <= old(bus.rewards)
    ensures bus.id == old(bus.id)
    ensures r.Err? ==> bus.rewards == old(bus.rewards) && proof.State() == old(proof.State())
    ensures r.Ok? ==>
      && bus.rewards == old(bus.rewards) - treasury.rewardRate
      && proof.State() == old(proof.State()).(
           balance := SatAdd(old(proof.balance), treasury.rewardRate),
           hash := hashv(slotHashes[..SLOT_HASH_BYTES]),
           totalHashes := SatAdd(old(proof.totalHashes), 1),
           totalRewards := SatAdd(old(proof.totalRewards), treasury.rewardRate))
      && FromLeBytes(r.value) == treasury.rewardRate && |r.value| == 8
    ensures r.Ok? && old(proof.balance) + treasury.rewardRate <= U64_MAX ==>
      bus.rewards + proof.balance == old(bus.rewards) + old(proof.balance)
  {
    if now < p.startAt {
      return Err(NotStarted);
    }

    var threshold := SatAddI64(treasury.lastResetAt, p.epochDuration);
    if now >= threshold {
      return Err(NeedsReset);
    }

    var remaining := CheckedSub(bus.rewards, treasury.rewardRate);
    if remaining.None? {
      return Err(BusRewardsInsufficient);
    }
    bus.rewards := remaining.value;
    proof.balance := SatAdd(proof.balance, treasury.rewardRate);

    proof.hash := hashv(slotHashes[..SLOT_HASH_BYTES]);

    proof.totalHashes := SatAdd(proof.totalHashes, 1);
    proof.totalRewards := SatAdd(proof.totalRewards, treasury.rewardRate);

    r := Ok(ToLeBytes(treasury.rewardRate));
  }
}

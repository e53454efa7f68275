/** The one-way key chain: keys are made from the tail back to the commitment K0, and a disclosed key is accepted
    by hashing it forward to K0. The shape is the one-way chain of section 3.2 of RFC 4082. */
module KeyChain {
  import opened Bytes

  type Hash = seq<Byte> -> Block

  datatype KeyChainError = EmptySeed | NoIntervals | IndexOutOfRange

  function Iterate(hash: Hash, key: Block, n: nat): Block {
    if n == 0 then key else hash(Iterate(hash, key, n - 1))
  }

  lemma {:induction false} IterateAdds(hash: Hash, key: Block, m: nat, n: nat)
    ensures Iterate(hash, Iterate(hash, key, m), n) == Iterate(hash, key, m + n)
  {
    if n > 0 { IterateAdds(hash, key, m, n - 1); }
  }

  /** Each key is the hash of its successor, and the last is the hash of the seed. */
  ghost predicate IsChain(hash: Hash, seed: seq<Byte>, keys: seq<Block>) {
    && keys != [] && keys[|keys| - 1] == hash(seed)
    && forall i :: 0 <= i < |keys| - 1 ==> keys[i] == hash(keys[i + 1])
  }

  /** The array is filled from the tail down to index 0. */
  method Create(hash: Hash, seed: seq<Byte>, intervals: nat) returns (r: Result<seq<Block>, KeyChainError>)
    ensures seed == [] ==> r == Err(EmptySeed)
    ensures seed != [] && intervals == 0 ==> r == Err(NoIntervals)
    ensures seed != [] && intervals > 0 ==> r.Ok? && |r.value| == intervals + 1 && IsChain(hash, seed, r.value)
  {
    if seed == [] { return Err(EmptySeed); }
    if intervals == 0 { return Err(NoIntervals); }
    var blank: Block := seq(32, _ => 0);
    var keys := new Block[intervals + 1](_ => blank);
    keys[intervals] := hash(seed);
    var i: nat := intervals;
    while i > 0
      invariant i <= intervals && keys[intervals] == hash(seed)
      invariant forall j :: i <= j < intervals ==> keys[j] == hash(keys[j + 1])
    {
      keys[i - 1] := hash(keys[i]);
      i := i - 1;
    }
    r := Ok(keys[..]);
  }

  /** The key of a data interval; index 0 is the commitment and is not a data key. */
  function DataKey(keys: seq<Block>, index: nat): (r: Result<Block, KeyChainError>)
    ensures r.Ok? <==> 0 < index < |keys|
  {
    if index == 0 || index >= |keys| then Err(IndexOutOfRange) else Ok(keys[index])
  }

  method VerifyDisclosedKey(hash: Hash, key: Block, index: nat, commitment: Block) returns (ok: bool)
    ensures ok <==> Iterate(hash, key, index) == commitment
  {
    var current := key;
    for i := 0 to index
      invariant current == Iterate(hash, key, i)
    {
      current := hash(current);
    }
    ok := current == commitment;
  }

  lemma {:induction false} KeysVerify(hash: Hash, seed: seq<Byte>, keys: seq<Block>, i: nat)
    requires IsChain(hash, seed, keys) && i < |keys|
    ensures Iterate(hash, keys[i], i) == keys[0]
  {
    if i > 0 {
      IterateAdds(hash, keys[i], 1, i - 1);
      assert Iterate(hash, keys[i], 1) == hash(Iterate(hash, keys[i], 0));
      KeysVerify(hash, seed, keys, i - 1);
    }
  }

  /** A disclosed key determines every earlier key of the chain. */
  lemma {:induction false} EarlierKeys(hash: Hash, seed: seq<Byte>, keys: seq<Block>, i: nat, j: nat)
    requires IsChain(hash, seed, keys) && j <= i < |keys|
    ensures Iterate(hash, keys[i], i - j) == keys[j]
    decreases i - j
  {
    if j < i { EarlierKeys(hash, seed, keys, i, j + 1); }
  }

  /** Two different blocks that reach the same block after n hashes contain a hash collision on the way. */
  lemma {:induction false} MeetingChains(hash: Hash, a: Block, b: Block, n: nat) returns (x: Block, y: Block)
    requires a != b && Iterate(hash, a, n) == Iterate(hash, b, n)
    ensures x != y && hash(x) == hash(y)
  {
    x, y := Iterate(hash, a, n - 1), Iterate(hash, b, n - 1);
    if x == y { x, y := MeetingChains(hash, a, b, n - 1); }
  }

  /** A key other than the genuine one that verifies at its index gives a hash collision. */
  lemma ForgeryIsCollision(hash: Hash, seed: seq<Byte>, keys: seq<Block>, i: nat, forged: Block)
      returns (x: Block, y: Block)
    requires IsChain(hash, seed, keys) && 0 < i < |keys|
    requires forged != keys[i] && Iterate(hash, forged, i) == keys[0]
    ensures x != y && hash(x) == hash(y)
  {
    KeysVerify(hash, seed, keys, i);
    x, y := MeetingChains(hash, forged, keys[i], i);
  }

  /** Under an injective hash a key verifies at index i exactly when it is the key of interval i. */
  lemma VerifiesIff(hash: Hash, seed: seq<Byte>, keys: seq<Block>, i: nat, key: Block)
    requires IsChain(hash, seed, keys) && 0 < i < |keys|
    requires forall x: Block, y: Block :: hash(x) == hash(y) ==> x == y
    ensures Iterate(hash, key, i) == keys[0] <==> key == keys[i]
  {
    if key == keys[i] {
      KeysVerify(hash, seed, keys, i);
    } else if Iterate(hash, key, i) == keys[0] {
      var x, y := ForgeryIsCollision(hash, seed, keys, i, key);
    }
  }
}

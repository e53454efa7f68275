/** The certificate authority's issue step: every issued chain identifier, seed and commitment is new. */
module Authority {
  import opened Bytes
  import KeyChain

  const MAX_ATTEMPTS := 128
  const CHAIN_ID_SIZE := 8
  const SEED_SIZE := 32

  datatype IssueError = InvalidChainIdSize | InvalidSeedSize | NoUniqueMaterial | NoIntervals

  datatype Material = Material(senderId: nat, chainId: nat, seed: seq<Byte>, commitment: Block)

  /** Successive outputs of the random source, by attempt. */
  datatype RandomSource = RandomSource(chainBytes: nat -> seq<Byte>, seeds: nat -> seq<Byte>)

  /** What an attempt would issue. */
  function Candidate(hash: KeyChain.Hash, r: RandomSource, attempt: nat, senderId: nat, intervals: nat): Material {
    Material(senderId, FromBigEndian(r.chainBytes(attempt)), r.seeds(attempt),
             KeyChain.Iterate(hash, hash(r.seeds(attempt)), intervals))
  }

  /** The material of an attempt names its sender, its chain identifier is the big-endian value of the random bytes, and
      its commitment is the head of the key chain of its seed: every key of that chain verifies against it. */
  lemma CandidateCommits(hash: KeyChain.Hash, r: RandomSource, attempt: nat, senderId: nat, intervals: nat,
      keys: seq<Block>, i: nat)
    requires KeyChain.IsChain(hash, r.seeds(attempt), keys) && |keys| == intervals + 1 && i < |keys|
    ensures var m := Candidate(hash, r, attempt, senderId, intervals);
            && m.senderId == senderId && m.seed == r.seeds(attempt)
            && BigEndian(m.chainId, |r.chainBytes(attempt)|) == r.chainBytes(attempt)
            && m.commitment == keys[0] && KeyChain.Iterate(hash, keys[i], i) == m.commitment
  {
    WrittenRead(r.chainBytes(attempt));
    KeyChain.EarlierKeys(hash, r.seeds(attempt), keys, intervals, 0);
    KeyChain.KeysVerify(hash, r.seeds(attempt), keys, i);
  }

  /** Nothing of it was issued before, and the chain identifier is not zero. */
  ghost predicate Unused(issued: seq<Material>, m: Material) {
    && m.chainId != 0
    && forall i :: 0 <= i < |issued| ==>
         issued[i].chainId != m.chainId && issued[i].seed != m.seed && issued[i].commitment != m.commitment
  }

  ghost predicate AllDistinct(issued: seq<Material>) {
    && (forall i :: 0 <= i < |issued| ==> issued[i].chainId != 0)
    && forall i, j :: 0 <= i < j < |issued| ==>
         issued[i].chainId != issued[j].chainId && issued[i].seed != issued[j].seed
           && issued[i].commitment != issued[j].commitment
  }

  class CertificateAuthority {
    var chainIds: set<nat>
    var seeds: set<seq<Byte>>
    var commitments: set<Block>
    ghost var issued: seq<Material>

    /** The three sets are exactly what the issued materials used up. */
    ghost predicate Valid()
      reads this
    {
      && AllDistinct(issued)
      && (forall x :: x in chainIds <==> exists i :: 0 <= i < |issued| && issued[i].chainId == x)
      && (forall x :: x in seeds <==> exists i :: 0 <= i < |issued| && issued[i].seed == x)
      && (forall x :: x in commitments <==> exists i :: 0 <= i < |issued| && issued[i].commitment == x)
    }

    constructor ()
      ensures Valid() && issued == []
    {
      chainIds, seeds, commitments, issued := {}, {}, {}, [];
    }

    /** Tries random material until everything about it is new, at most 128 times. */
    method IssueSenderMaterial(hash: KeyChain.Hash, r: RandomSource, senderId: nat, intervals: nat)
      returns (result: Result<Material, IssueError>)
      requires Valid()
      modifies this
      ensures Valid()
      ensures result.Ok? ==> Unused(old(issued), result.value) && issued == old(issued) + [result.value]
      ensures result.Ok? ==> result.value.senderId == senderId
      ensures result.Ok? ==>
                exists k: nat :: k < MAX_ATTEMPTS && result.value == Candidate(hash, r, k, senderId, intervals) &&
                  forall j: nat :: j < k ==> !Unused(old(issued), Candidate(hash, r, j, senderId, intervals))
      ensures result.Err? ==> issued == old(issued)
      ensures result == Err(NoUniqueMaterial) ==>
                forall k: nat :: k < MAX_ATTEMPTS ==> !Unused(issued, Candidate(hash, r, k, senderId, intervals))
    {
      hide Candidate, Unused, CertificateAuthority.Valid;
      for k := 0 to MAX_ATTEMPTS
        invariant Valid() && issued == old(issued)
        invariant forall j: nat :: j < k ==> !Unused(issued, Candidate(hash, r, j, senderId, intervals))
      {
        var attempt := TryAttempt(hash, r, k, senderId, intervals);
        if attempt.Some? { return attempt.value; }
      }
      result := Err(NoUniqueMaterial);
    }

    /** One attempt: None when something about it was used before. */
    method TryAttempt(hash: KeyChain.Hash, r: RandomSource, k: nat, senderId: nat, intervals: nat)
      returns (attempt: Option<Result<Material, IssueError>>)
      requires Valid()
      modifies this
      ensures Valid()
      ensures attempt == None ==> issued == old(issued) && !Unused(issued, Candidate(hash, r, k, senderId, intervals))
      ensures attempt.Some? && attempt.value.Ok? ==>
                attempt.value.value == Candidate(hash, r, k, senderId, intervals)
                  && Unused(old(issued), attempt.value.value)
                && issued == old(issued) + [attempt.value.value]
      ensures attempt.Some? && attempt.value.Ok? ==> attempt.value.value.senderId == senderId
      ensures attempt.Some? && attempt.value.Err? ==> issued == old(issued) && attempt.value.error != NoUniqueMaterial
    {
      var bytes := r.chainBytes(k);
      if |bytes| != CHAIN_ID_SIZE { return Some(Err(InvalidChainIdSize)); }
      var chainId := DecodeChainId(bytes);
      if chainId == 0 || chainId in chainIds { return None; }
      var seed := r.seeds(k);
      if |seed| != SEED_SIZE { return Some(Err(InvalidSeedSize)); }
      if seed in seeds { return None; }
      var chain := KeyChain.Create(hash, seed, intervals);
      if chain.Err? { return Some(Err(NoIntervals)); }
      var commitment := chain.value[0];
      CommitmentOf(hash, seed, chain.value);
      if commitment in commitments { return None; }
      var m := Material(senderId, chainId, seed, commitment);
      hide KeyChain.IsChain, KeyChain.Iterate, FromBigEndian;
      FreshIsUnused(m);
      Record(m);
      attempt := Some(Ok(m));
    }

    lemma FreshIsUnused(m: Material)
      requires Valid() && m.chainId != 0 && m.chainId !in chainIds && m.seed !in seeds && m.commitment !in commitments
      ensures Unused(issued, m)
    {
    }

    method Record(m: Material)
      requires Valid() && Unused(issued, m)
      modifies this
      ensures Valid() && issued == old(issued) + [m]
    {
      hide Unused;
      StillDistinct(issued, m);
      chainIds := chainIds + {m.chainId};
      seeds := seeds + {m.seed};
      commitments := commitments + {m.commitment};
      issued := issued + [m];
      forall x ensures x in chainIds <==> exists i :: 0 <= i < |issued| && issued[i].chainId == x {
        OneMoreChainId(old(issued), m, x);
      }
      forall x ensures x in seeds <==> exists i :: 0 <= i < |issued| && issued[i].seed == x {
        OneMoreSeed(old(issued), m, x);
      }
      forall x ensures x in commitments <==> exists i :: 0 <= i < |issued| && issued[i].commitment == x {
        OneMoreCommitment(old(issued), m, x);
      }
    }
  }

  lemma StillDistinct(issued: seq<Material>, m: Material)
    requires AllDistinct(issued) && Unused(issued, m)
    ensures AllDistinct(issued + [m])
  {
  }

  lemma OneMoreChainId(issued: seq<Material>, m: Material, x: nat)
    ensures (exists i :: 0 <= i < |issued + [m]| && (issued + [m])[i].chainId == x) <==>
            (exists i :: 0 <= i < |issued| && issued[i].chainId == x) || m.chainId == x
  {
    var more := issued + [m];
    assert more[|issued|] == m && forall i :: 0 <= i < |issued| ==> more[i] == issued[i];
  }

  lemma OneMoreSeed(issued: seq<Material>, m: Material, x: seq<Byte>)
    ensures (exists i :: 0 <= i < |issued + [m]| && (issued + [m])[i].seed == x) <==>
            (exists i :: 0 <= i < |issued| && issued[i].seed == x) || m.seed == x
  {
    var more := issued + [m];
    assert more[|issued|] == m && forall i :: 0 <= i < |issued| ==> more[i] == issued[i];
  }

  lemma OneMoreCommitment(issued: seq<Material>, m: Material, x: Block)
    ensures (exists i :: 0 <= i < |issued + [m]| && (issued + [m])[i].commitment == x) <==>
            (exists i :: 0 <= i < |issued| && issued[i].commitment == x) || m.commitment == x
  {
    var more := issued + [m];
    assert more[|issued|] == m && forall i :: 0 <= i < |issued| ==> more[i] == issued[i];
  }

  method DecodeChainId(bytes: seq<Byte>) returns (id: nat)
    ensures id == FromBigEndian(bytes)
  {
    id := 0;
    for i := 0 to |bytes|
      invariant id == FromBigEndian(bytes[..i])
    {
      assert bytes[..i + 1][..i] == bytes[..i];
      id := id * 256 + bytes[i];
    }
    assert bytes[..|bytes|] == bytes;
  }

  /** The first key of a chain is the seed's hash, hashed once for each interval. */
  lemma CommitmentOf(hash: KeyChain.Hash, seed: seq<Byte>, keys: seq<Block>)
    requires KeyChain.IsChain(hash, seed, keys)
    ensures keys[0] == KeyChain.Iterate(hash, hash(seed), |keys| - 1)
  {
    KeyChain.KeysVerify(hash, seed, keys, |keys| - 1);
  }
}

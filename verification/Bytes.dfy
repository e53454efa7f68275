/** Byte buffers, big-endian integers and the bounds-checked reader that every binary codec shares. */
module Bytes {
  import opened Arithmetic

  datatype Option<+T> = None | Some(value: T)

  datatype Result<+T, +E> = Ok(value: T) | Err(error: E)

  type Byte = x: int | 0 <= x < 256

  /** The fixed 32-byte block used for messages, keys, MACs and tags. */
  type Block = b: seq<Byte> | |b| == 32 witness seq(32, _ => 0)

  const UINT32_MAX := 0xFFFF_FFFF
  const UINT64_MAX := 0xFFFF_FFFF_FFFF_FFFF

  function Pow256(n: nat): (p: nat)
    ensures p > 0
  {
    if n == 0 then 1 else 256 * Pow256(n - 1)
  }

  lemma Pow256Values()
    ensures Pow256(2) == 0x1_0000 && Pow256(4) == UINT32_MAX + 1 && Pow256(8) == UINT64_MAX + 1
  {
    assert Pow256(2) == 0x1_0000;
    assert Pow256(4) == 0x1_0000_0000 by { assert Pow256(3) == 0x100_0000; }
    assert Pow256(6) == 0x1_0000_0000_0000 by { assert Pow256(5) == 0x100_0000_0000; }
    assert Pow256(8) == 0x1_0000_0000_0000_0000 by { assert Pow256(7) == 0x100_0000_0000_0000; }
  }

  /** The n-byte network-order representation of v. */
  function BigEndian(v: nat, n: nat): (s: seq<Byte>)
    ensures |s| == n
  {
    if n == 0 then [] else BigEndian(v / 256, n - 1) + [v % 256]
  }

  function FromBigEndian(s: seq<Byte>): nat {
    if s == [] then 0 else FromBigEndian(s[..|s| - 1]) * 256 + s[|s| - 1]
  }

  lemma {:induction false} FromBigEndianBound(s: seq<Byte>)
    ensures FromBigEndian(s) < Pow256(|s|)
  {
    if s != [] { FromBigEndianBound(s[..|s| - 1]); }
  }

  lemma {:induction false} ReadWritten(v: nat, n: nat)
    requires v < Pow256(n)
    ensures FromBigEndian(BigEndian(v, n)) == v
  {
    if n > 0 {
      ReadWritten(v / 256, n - 1);
      var s := BigEndian(v, n);
      assert s[..|s| - 1] == BigEndian(v / 256, n - 1);
    }
  }

  lemma {:induction false} WrittenRead(s: seq<Byte>)
    ensures BigEndian(FromBigEndian(s), |s|) == s
  {
    if s != [] { WrittenRead(s[..|s| - 1]); }
  }

  /** Network order: the most significant byte comes first, so byte i counts 256^(n-1-i). */
  lemma {:induction false} BigEndianAt(v: nat, n: nat, i: nat)
    requires i < n
    ensures BigEndian(v, n)[i] == v / Pow256(n - 1 - i) % 256
  {
    if i < n - 1 {
      BigEndianAt(v / 256, n - 1, i);
      DivideByProduct(v, 256, Pow256(n - 2 - i));
    } else {
      assert Pow256(0) == 1;
    }
  }

  lemma BigEndianInjective(a: nat, b: nat, n: nat)
    requires a < Pow256(n) && b < Pow256(n)
    requires BigEndian(a, n) == BigEndian(b, n)
    ensures a == b
  {
    ReadWritten(a, n);
    ReadWritten(b, n);
  }

  // ----- Runs of blocks -----

  /** Blocks one after another, without separators. */
  function Join(blocks: seq<Block>): (s: seq<Byte>)
    ensures |s| == 32 * |blocks|
  {
    if blocks == [] then [] else Join(blocks[..|blocks| - 1]) + blocks[|blocks| - 1]
  }

  lemma {:induction false} JoinAt(blocks: seq<Block>, k: nat)
    requires k < |blocks|
    ensures Join(blocks)[32 * k..32 * k + 32] == blocks[k]
  {
    var n := |blocks| - 1;
    assert Join(blocks)[..32 * n] == Join(blocks[..n]);
    if k < n {
      JoinAt(blocks[..n], k);
      assert Join(blocks)[32 * k..32 * k + 32] == Join(blocks)[..32 * n][32 * k..32 * k + 32];
    }
  }

  function Split(s: seq<Byte>, n: nat): (blocks: seq<Block>)
    requires |s| == 32 * n
    ensures |blocks| == n
  {
    if n == 0 then [] else Split(s[..32 * (n - 1)], n - 1) + [s[32 * (n - 1)..]]
  }

  lemma {:induction false} SplitJoin(blocks: seq<Block>)
    ensures Split(Join(blocks), |blocks|) == blocks
  {
    if blocks != [] {
      var n := |blocks| - 1;
      var s := Join(blocks);
      SplitJoin(blocks[..n]);
      assert s[..32 * n] == Join(blocks[..n]) && s[32 * n..] == blocks[n];
      assert blocks == blocks[..n] + [blocks[n]];
    }
  }

  lemma {:induction false} JoinSplit(s: seq<Byte>, n: nat)
    requires |s| == 32 * n
    ensures Join(Split(s, n)) == s
  {
    if n > 0 {
      JoinSplit(s[..32 * (n - 1)], n - 1);
      var blocks := Split(s, n);
      assert blocks[..n - 1] == Split(s[..32 * (n - 1)], n - 1);
      assert s == s[..32 * (n - 1)] + s[32 * (n - 1)..];
    }
  }

  /** A sequence with the element at position i taken out. */
  function Without<T>(s: seq<T>, i: nat): (r: seq<T>)
    requires i < |s|
    ensures |r| == |s| - 1
  {
    s[..i] + s[i + 1..]
  }

  /** The byte buffer that encoders append to in place. */
  class ByteBuffer {
    var data: seq<Byte>

    constructor ()
      ensures data == []
    {
      data := [];
    }

    method AppendUint32(v: nat)
      requires v <= UINT32_MAX
      modifies this
      ensures data == old(data) + BigEndian(v, 4)
    {
      data := data + [v / 0x100_0000 % 256];
      data := data + [v / 0x1_0000 % 256];
      data := data + [v / 0x100 % 256];
      data := data + [v % 256];
      var a := v / 256;
      var b := a / 256;
      assert v / 0x1_0000 == b && v / 0x100_0000 == b / 256;
      assert BigEndian(v, 4) == BigEndian(a, 3) + [v % 256];
      assert BigEndian(a, 3) == BigEndian(b, 2) + [a % 256];
      assert BigEndian(b, 2) == BigEndian(b / 256, 1) + [b % 256];
      assert BigEndian(b / 256, 1) == BigEndian(b / 256 / 256, 0) + [b / 256 % 256];
    }

    /** Writes the most significant byte first, one shift per byte. */
    method AppendUint(v: nat, width: nat)
      requires v < Pow256(width)
      modifies this
      ensures data == old(data) + BigEndian(v, width)
    {
      var left: nat := width;
      var high: nat := 0;
      QuotientNat(v, Pow256(width));
      while left > 0
        invariant left <= width
        invariant high == v / Pow256(left)
        invariant data == old(data) + BigEndian(high, width - left)
      {
        var p := Pow256(left - 1);
        QuotientNat(v, p);
        DivideTwice(v, p);
        var shifted: nat := v / p;
        assert BigEndian(shifted, width - left + 1) == BigEndian(high, width - left) + [shifted % 256];
        data := data + [shifted % 256];
        high := shifted;
        left := left - 1;
      }
      assert v / Pow256(0) == v;
    }

    method AppendBytes(s: seq<Byte>)
      modifies this
      ensures data == old(data) + s
    {
      data := data + s;
    }
  }

  /** A cursor over immutable input; a read past the end changes nothing and reports None. */
  class BinaryReader {
    const input: seq<Byte>
    var offset: nat

    ghost predicate Valid()
      reads this
    {
      offset <= |input|
    }

    constructor (input: seq<Byte>)
      ensures Valid() && this.input == input && offset == 0
    {
      this.input := input;
      offset := 0;
    }

    function Remaining(): (n: nat)
      reads this
      requires Valid()
    {
      |input| - offset
    }

    method ReadBytes(n: nat) returns (r: Option<seq<Byte>>)
      requires Valid()
      modifies this
      ensures Valid()
      ensures n <= old(Remaining()) ==> r == Some(input[old(offset)..old(offset) + n]) && offset == old(offset) + n
      ensures n > old(Remaining()) ==> r == None && offset == old(offset)
    {
      if n > Remaining() { return None; }
      r := Some(input[offset..offset + n]);
      offset := offset + n;
    }

    /** Reads a width-byte unsigned integer, shifting one byte in at a time. */
    method ReadUint(width: nat) returns (r: Option<nat>)
      requires Valid()
      modifies this
      ensures Valid()
      ensures width <= old(Remaining()) ==>
                r == Some(FromBigEndian(input[old(offset)..old(offset) + width])) && offset == old(offset) + width
      ensures width > old(Remaining()) ==> r == None && offset == old(offset)
    {
      if width > Remaining() { return None; }
      var v: nat := 0;
      for i := 0 to width
        invariant v == FromBigEndian(input[offset..offset + i])
      {
        var s := input[offset..offset + i + 1];
        assert s[..|s| - 1] == input[offset..offset + i];
        v := v * 256 + input[offset + i];
      }
      r := Some(v);
      offset := offset + width;
    }
  }
}

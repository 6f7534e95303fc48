/** SSZ hash tree roots of the relay's own types (Ethereum consensus-specs, ssz/simple-serialize.md,
    sections "Merkleization" and "Summaries and expansions"; crates/entity/src/types.rs). */
module Ssz {
  import opened Entities
  import opened MerkleTree

  type Hash = (B256, B256) -> B256

  function Zeros(n: nat): (s: seq<Byte>)
    ensures |s| == n
  {
    seq(n, i => 0)
  }

  const ZERO: B256 := Zeros(32)

  lemma Capacities()
    ensures Pow2(2) == 4 && Pow2(3) == 8 && Pow2(4) == 16 && Pow2(5) == 32 && Pow2(20) == 0x10_0000
            && Pow2(25) == 0x200_0000
  {
    assert Pow2(1) == 2 && Pow2(2) == 4 && Pow2(3) == 8 && Pow2(4) == 16 && Pow2(5) == 32;
    Pow2Add(5, 5);
    Pow2Add(10, 10);
    Pow2Add(20, 5);
  }

  /** Little-endian bytes of a number, as many as asked for. */
  function LittleEndian(n: nat, width: nat): (s: seq<Byte>)
    ensures |s| == width
  {
    if width == 0 then [] else [(n % 256) as Byte] + LittleEndian(n / 256, width - 1)
  }

  function Pow256(n: nat): nat {
    if n == 0 then 1 else 256 * Pow256(n - 1)
  }

  /** The fixed-width layout determines the number. */
  lemma {:induction false} LittleEndianInjective(a: nat, b: nat, width: nat)
    requires a < Pow256(width) && b < Pow256(width)
    requires LittleEndian(a, width) == LittleEndian(b, width)
    ensures a == b
    decreases width
  {
    if width > 0 {
      var la, lb := LittleEndian(a, width), LittleEndian(b, width);
      assert la[0] == lb[0] && la[1..] == lb[1..];
      LittleEndianInjective(a / 256, b / 256, width - 1);
      assert a == 256 * (a / 256) + a % 256 && b == 256 * (b / 256) + b % 256;
    }
  }

  lemma {:induction false} Pow256Add(a: nat, b: nat)
    ensures Pow256(a + b) == Pow256(a) * Pow256(b)
  {
    if a > 0 {
      Pow256Add(a - 1, b);
      assert Pow256(a + b) == 256 * Pow256(a - 1 + b);
      assert 256 * (Pow256(a - 1) * Pow256(b)) == (256 * Pow256(a - 1)) * Pow256(b);
    }
  }

  lemma Widths()
    ensures Pow256(8) == 0x1_0000_0000_0000_0000
    ensures Pow256(32) == U256_LIMIT
  {
    assert Pow256(2) == 0x1_0000 && Pow256(4) == 0x1_0000_0000 && Pow256(6) == 0x1_0000_0000_0000;
    assert Pow256(8) == 0x1_0000_0000_0000_0000;
    Pow256Add(8, 8);
    Pow256Add(8, 16);
    Pow256Add(8, 24);
  }

  /** The number some little-endian bytes stand for: byte i counts for 256 to the i. */
  function Sum(bytes: seq<Byte>, k: nat): nat
    requires k <= |bytes|
  {
    if k == 0 then 0 else Sum(bytes, k - 1) + bytes[k - 1] as nat * Pow256(k - 1)
  }

  lemma {:induction false} SumShifts(first: Byte, rest: seq<Byte>, k: nat)
    requires k <= |rest|
    ensures Sum([first] + rest, k + 1) == first as nat + 256 * Sum(rest, k)
  {
    if k > 0 {
      SumShifts(first, rest, k - 1);
      var b, p := rest[k - 1] as nat, Pow256(k - 1);
      assert ([first] + rest)[k] == rest[k - 1];
      assert b * (256 * p) == 256 * (b * p);
    } else {
      assert Sum([first] + rest, 0) == 0 && Pow256(0) == 1;
    }
  }

  /** The bytes written stand for the number. */
  lemma {:induction false} LittleEndianValue(n: nat, width: nat)
    requires n < Pow256(width)
    ensures Sum(LittleEndian(n, width), width) == n
    decreases width
  {
    if width > 0 {
      var rest := LittleEndian(n / 256, width - 1);
      assert n / 256 < Pow256(width - 1);
      LittleEndianValue(n / 256, width - 1);
      SumShifts((n % 256) as Byte, rest, width - 1);
    }
  }

  /** A chunk holding some bytes, zeros after them. */
  function Pad(bytes: seq<Byte>): B256
    requires |bytes| <= 32
  {
    bytes + Zeros(32 - |bytes|)
  }

  lemma PadInjective(a: seq<Byte>, b: seq<Byte>)
    requires |a| == |b| <= 32 && Pad(a) == Pad(b)
    ensures a == b
  {
    assert Pad(a)[..|a|] == a && Pad(b)[..|b|] == b;
  }

  function U64Root(n: U64): B256 {
    Pad(LittleEndian(n, 8))
  }

  function U256Root(n: U256): B256 {
    LittleEndian(n, 32)
  }

  function AddressRoot(a: Address): B256 {
    Pad(a)
  }

  /** `TreeHash for Address`: the address is copied into a zeroed buffer. */
  method AddressTreeHashRoot(a: Address) returns (root: B256)
    ensures root == AddressRoot(a)
  {
    var buf := new Byte[32](i => 0);
    forall i | 0 <= i < 20 { buf[i] := a[i]; }
    assert buf[..] == AddressRoot(a);
    root := buf[..];
  }

  lemma U64RootInjective(a: U64, b: U64)
    requires U64Root(a) == U64Root(b)
    ensures a == b
  {
    Widths();
    PadInjective(LittleEndian(a, 8), LittleEndian(b, 8));
    LittleEndianInjective(a, b, 8);
  }

  lemma U256RootInjective(a: U256, b: U256)
    requires U256Root(a) == U256Root(b)
    ensures a == b
  {
    Widths();
    LittleEndianInjective(a, b, 32);
  }

  /** Bytes packed into chunks, the last one padded. */
  function Pack(bytes: seq<Byte>): (chunks: seq<B256>)
    ensures |chunks| == (|bytes| + 31) / 32
  {
    if bytes == [] then []
    else if |bytes| <= 32 then [Pad(bytes)]
    else [bytes[..32]] + Pack(bytes[32..])
  }

  /** Byte i is in chunk i / 32, at i % 32; what is beyond the last byte is zero. */
  lemma {:induction false} PackedAt(bytes: seq<Byte>, i: nat)
    requires i < 32 * |Pack(bytes)|
    ensures Pack(bytes)[i / 32][i % 32] == if i < |bytes| then bytes[i] else 0
    decreases |bytes|
  {
    if |bytes| > 32 && i >= 32 {
      PackedAt(bytes[32..], i - 32);
      assert Pack(bytes)[1..] == Pack(bytes[32..]);
      assert i / 32 == (i - 32) / 32 + 1 && i % 32 == (i - 32) % 32;
    }
  }

  lemma {:induction false} PackInjective(a: seq<Byte>, b: seq<Byte>)
    requires |a| == |b| && Pack(a) == Pack(b)
    ensures a == b
    decreases |a|
  {
    if 0 < |a| <= 32 {
      assert Pack(a)[0] == Pack(b)[0];
      PadInjective(a, b);
    } else if |a| > 32 {
      assert Pack(a)[0] == Pack(b)[0] && Pack(a)[1..] == Pack(b)[1..];
      PackInjective(a[32..], b[32..]);
      assert a == a[..32] + a[32..] && b == b[..32] + b[32..];
    }
  }

  /** Root of a byte vector of a fixed length, of up to 32 * 2^depth bytes. */
  function VectorRoot(hash: Hash, bytes: seq<Byte>, depth: nat): B256
    requires |bytes| <= 32 * Pow2(depth)
  {
    Root(hash, ZERO, Pack(bytes), depth)
  }

  function VectorClash(hash: Hash, a: seq<Byte>, b: seq<Byte>, depth: nat): Option<Clash<B256>>
    requires |a| == |b| <= 32 * Pow2(depth)
  {
    FindClash(hash, ZERO, Pack(a), Pack(b), depth)
  }

  lemma VectorBinds(hash: Hash, a: seq<Byte>, b: seq<Byte>, depth: nat)
    requires |a| == |b| <= 32 * Pow2(depth)
    requires VectorRoot(hash, a, depth) == VectorRoot(hash, b, depth)
    ensures Bound(hash, a == b, VectorClash(hash, a, b, depth))
  {
    RootBinds(hash, ZERO, Pack(a), Pack(b), depth);
    if Pack(a) == Pack(b) { PackInjective(a, b); }
  }

  /** A length, as the chunk that is mixed into a list's root. */
  function LengthChunk(n: nat): B256 {
    LittleEndian(n, 32)
  }

  lemma LengthChunkInjective(a: nat, b: nat)
    requires a <= 0x4000_0000 && b <= 0x4000_0000 && LengthChunk(a) == LengthChunk(b)
    ensures a == b
  {
    Widths();
    LittleEndianInjective(a, b, 32);
  }

  /** Root of a byte list, of up to 32 * 2^depth bytes. */
  function BytesRoot(hash: Hash, bytes: seq<Byte>, depth: nat): B256
    requires |bytes| <= 32 * Pow2(depth)
  {
    ListRoot(hash, ZERO, Pack(bytes), depth, LengthChunk(|bytes|))
  }

  predicate ShortEnough(bytes: seq<Byte>, depth: nat) {
    |bytes| <= 32 * Pow2(depth) && |bytes| <= 0x4000_0000
  }

  function BytesClash(hash: Hash, a: seq<Byte>, b: seq<Byte>, depth: nat): Option<Clash<B256>>
    requires ShortEnough(a, depth) && ShortEnough(b, depth)
  {
    assert LengthChunk(|a|) == LengthChunk(|b|) ==> |a| == |b| by {
      if LengthChunk(|a|) == LengthChunk(|b|) { LengthChunkInjective(|a|, |b|); }
    }
    FindListClash(hash, ZERO, Pack(a), LengthChunk(|a|), Pack(b), LengthChunk(|b|), depth)
  }

  lemma BytesBind(hash: Hash, a: seq<Byte>, b: seq<Byte>, depth: nat)
    requires ShortEnough(a, depth) && ShortEnough(b, depth)
    requires BytesRoot(hash, a, depth) == BytesRoot(hash, b, depth)
    ensures Bound(hash, a == b, BytesClash(hash, a, b, depth))
  {
    if LengthChunk(|a|) == LengthChunk(|b|) { LengthChunkInjective(|a|, |b|); }
    ListRootBinds(hash, ZERO, Pack(a), LengthChunk(|a|), Pack(b), LengthChunk(|b|), depth);
    if |a| == |b| && Pack(a) == Pack(b) { PackInjective(a, b); }
  }
}

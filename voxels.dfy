/** `VoxelCollisionDetector`: a voxel signature carries, after its first `0x`,
    hexadecimal text whose low 27 bits say which cells of the 3x3x3 cube
    around the agent are occupied. */
module Voxels {
  import opened Options
  import opened Text
  import opened Numerals

  /** 2^27: one bit per cell of the cube (`& 0x7FFFFFF` keeps the bits below it). */
  const CubeCells: nat := 0x800_0000

  /** `decode_voxel_signature` before the cache: the piece after the first
      `0x` read as a base-16 integer and masked to 27 bits; `None` for the
      `IndexError` (no `0x`) or `ValueError` (not an integer) it catches.
      For every integer v, `v & 0x7FFFFFF` is v's remainder modulo 2^27
      (negative v in two's complement), which is Dafny's `%`. */
  function ParseSignature(signature: string): Option<nat> {
    var pieces := Split(signature, "0x");
    if |pieces| < 2 then None
    else
      match ParseInteger(pieces[1], 16)
      case None => None
      case Some(v) => Some(v % CubeCells)
  }

  /** The bits `decode_voxel_signature` returns: 0 on failure. */
  function DecodeSignature(signature: string): (bits: nat)
    ensures bits < CubeCells
  {
    ParseSignature(signature).GetOr(0)
  }

  /** A signature without `0x`, or whose piece after it is not hexadecimal,
      decodes to 0 and is marked as a failure. */
  lemma DecodeFailure(signature: string)
    ensures !Contains(signature, "0x") ==> ParseSignature(signature).None?
    ensures var pieces := Split(signature, "0x");
            |pieces| >= 2 && ParseInteger(pieces[1], 16).None? ==> ParseSignature(signature).None?
    ensures ParseSignature(signature).None? ==> DecodeSignature(signature) == 0
  {
  }

  /** A signature `prefix + "0x" + hex` (no `0x` in the prefix, hex digits
      after) decodes to the value of the digits, masked to 27 bits. */
  lemma DecodeHex(prefix: string, hex: string)
    requires !Contains(prefix, "0x")
    requires |hex| > 0 && AllDigits(hex, 16)
    ensures ParseSignature(prefix + "0x" + hex) == Some(DigitsValue(hex, 16) % CubeCells)
    ensures DecodeSignature(prefix + "0x" + hex) == DigitsValue(hex, 16) % CubeCells
  {
    SplitAtMarker(prefix, hex);
    ParseDigits(hex, 16);
  }

  /** Splitting `prefix + "0x" + hex` on `0x` gives exactly the two parts. */
  lemma SplitAtMarker(prefix: string, hex: string)
    requires !Contains(prefix, "0x")
    requires AllDigits(hex, 16)
    ensures Split(prefix + "0x" + hex, "0x") == [prefix, hex]
  {
    FirstMarker(prefix, hex);
    SplitAfter(prefix, "0x", hex);
    assert 'x' !in hex by {
      forall k | 0 <= k < |hex| ensures hex[k] != 'x' {
        assert IsHexDigit(hex[k]);
      }
    }
    MissingChar(hex, "0x", 1);
    SplitWithout(hex, "0x");
  }

  /** No `0x` starts inside the prefix, even at its last character. */
  lemma FirstMarker(prefix: string, rest: string)
    requires !Contains(prefix, "0x")
    ensures forall j: nat :: j < |prefix| ==> !OccursAt(prefix + "0x" + rest, "0x", j)
  {
    var s := prefix + "0x" + rest;
    forall j: nat | j < |prefix|
      ensures !OccursAt(s, "0x", j)
    {
      if j + 2 <= |prefix| {
        assert s[j..j + 2] == prefix[j..j + 2];
        assert !OccursAt(prefix, "0x", j);
      } else {
        assert s[j + 1] == '0';
        assert s[j..j + 2][1] == '0';
      }
    }
  }

  /** Bit `p` of `v` in two's complement, as Python's `v & (1 << p) != 0`:
      `v` shifted right `p` times (rounding down) is odd. */
  predicate BitSet(v: int, p: nat)
    decreases p
  {
    if p == 0 then v % 2 == 1 else BitSet(v / 2, p - 1)
  }

  /** The bit positions `is_collision_ahead` tests for each direction; any
      other direction has none. */
  function FaceBits(direction: string): seq<nat> {
    if direction == "forward" then [2, 5, 8, 11, 14, 17, 20, 23, 26]
    else if direction == "backward" then [0, 3, 6, 9, 12, 15, 18, 21, 24]
    else if direction == "left" then [0, 1, 2, 9, 10, 11, 18, 19, 20]
    else if direction == "right" then [6, 7, 8, 15, 16, 17, 24, 25, 26]
    else []
  }

  /** Some cell of the direction's face is occupied. */
  predicate CollisionAhead(voxelBits: int, direction: string) {
    exists k :: 0 <= k < |FaceBits(direction)| && BitSet(voxelBits, FaceBits(direction)[k])
  }

  /** Cell p of the cube sits at x = p % 3, y = (p / 3) % 3, z = p / 9: the
      forward face is x = 2, backward x = 0, left y = 0 and right y = 2. */
  lemma FaceGeometry(p: nat)
    ensures p in FaceBits("forward") <==> p < 27 && p % 3 == 2
    ensures p in FaceBits("backward") <==> p < 27 && p % 3 == 0
    ensures p in FaceBits("left") <==> p < 27 && (p / 3) % 3 == 0
    ensures p in FaceBits("right") <==> p < 27 && (p / 3) % 3 == 2
  {
    if p < 27 {
      var x, y, z := p % 3, (p / 3) % 3, p / 9;
      assert p == 9 * z + 3 * y + x;
      assert 0 <= z < 3;
    }
  }

  /** A direction other than the four faces never reports a collision. */
  lemma UnknownDirection(voxelBits: int, direction: string)
    requires direction !in {"forward", "backward", "left", "right"}
    ensures !CollisionAhead(voxelBits, direction)
  {
  }

  /** The detector object: its only state is the cache of decoded signatures. */
  class VoxelCollisionDetector {
    var voxelCache: map<string, nat>

    /** Every cached entry is the decode of its key, and only successful
        decodes are cached. */
    ghost predicate Valid()
      reads this
    {
      forall signature :: signature in voxelCache ==> ParseSignature(signature) == Some(voxelCache[signature])
    }

    constructor ()
      ensures Valid() && voxelCache == map[]
    {
      voxelCache := map[];
    }

    /** `decode_voxel_signature`: answer from the cache when the signature is
        there, otherwise decode it and cache the result unless decoding failed. */
    method DecodeVoxelSignature(signature: string) returns (bits: nat)
      requires Valid()
      modifies this
      ensures Valid()
      ensures bits == DecodeSignature(signature)
      ensures voxelCache == match ParseSignature(signature)
                            case Some(v) => old(voxelCache)[signature := v]
                            case None => old(voxelCache)
    {
      if signature in voxelCache {
        bits := voxelCache[signature];
        assert voxelCache[signature := bits] == voxelCache;
        return;
      }
      var parsed := ParseSignature(signature);
      if parsed.Some? {
        bits := parsed.value;
        voxelCache := voxelCache[signature := bits];
      } else {
        bits := 0;
      }
    }

    /** `is_collision_ahead`: scans the direction's face bits and stops at the
        first occupied one. */
    method IsCollisionAhead(voxelBits: int, direction: string) returns (hit: bool)
      ensures hit <==> CollisionAhead(voxelBits, direction)
    {
      var bitsToCheck := FaceBits(direction);
      var i := 0;
      while i < |bitsToCheck|
        invariant 0 <= i <= |bitsToCheck|
        invariant forall k :: 0 <= k < i ==> !BitSet(voxelBits, bitsToCheck[k])
      {
        if BitSet(voxelBits, bitsToCheck[i]) {
          return true;
        }
        i := i + 1;
      }
      return false;
    }
  }
}

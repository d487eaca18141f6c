/** The compact ("bits") encoding of proof-of-work targets: one exponent byte
    and a 24-bit mantissa. Shifts by whole bytes are written as repeated
    multiplication or division by 256. */
module Compact {
  import opened Basics

  const DEFAULT_BITS: nat := 0x1d00ffff
  const MAX_EXPONENT: nat := 80
  const SIGN_BIT: nat := 0x80_0000
  const MANTISSA_BOUND: nat := 0x100_0000

  /** `m << (8 * k)`. */
  function ShiftLeft(m: nat, k: nat): nat {
    if k == 0 then m else 256 * ShiftLeft(m, k - 1)
  }

  /** `t >> (8 * k)`. */
  function ShiftRight(t: nat, k: nat): nat {
    if k == 0 then t else ShiftRight(t / 256, k - 1)
  }

  function Pow256(n: nat): nat {
    ShiftLeft(1, n)
  }

  /** `BigUint::bits`. */
  function BitLength(t: nat): nat {
    if t == 0 then 0 else 1 + BitLength(t / 2)
  }

  function ByteLength(t: nat): nat {
    (BitLength(t) + 7) / 8
  }

  /** What the pair (mantissa, exponent) denotes. */
  function Scale(mantissa: nat, exponent: nat): nat {
    if exponent >= 3 then ShiftLeft(mantissa, exponent - 3)
    else ShiftRight(mantissa, 3 - exponent)
  }

  function Decode(bits: nat): Result<nat> {
    if bits == 0 then Ok(0)
    else if bits / MANTISSA_BOUND > MAX_EXPONENT then Err(ExponentTooLarge)
    else Ok(Scale(bits % MANTISSA_BOUND, bits / MANTISSA_BOUND))
  }

  /** The mantissa and exponent fields of an encoding, put together. */
  function Pack(mantissa: nat, exponent: nat): nat {
    mantissa + exponent * MANTISSA_BOUND
  }

  function Encode(target: nat): nat {
    var size := ByteLength(target);
    if target == 0 || size > MAX_EXPONENT then DEFAULT_BITS
    else
      var mantissa :=
        if size <= 3 then ShiftLeft(Min(target, SIGN_BIT - 1), 3 - size)
        else Min(ShiftRight(target, size - 3), SIGN_BIT - 1);
      if mantissa / SIGN_BIT % 2 == 1 then Pack(mantissa / 256, size + 1) else Pack(mantissa, size)
  }

  /** What is left of a target after one trip through the encoding: its three
      leading bytes, capped below the sign bit. One- and two-byte targets are
      exact. */
  function Truncate(target: nat): nat {
    var size := ByteLength(target);
    if size <= 2 then target
    else ShiftLeft(Min(ShiftRight(target, size - 3), SIGN_BIT - 1), size - 3)
  }

  /** The encodings that survive decoding and re-encoding. */
  predicate Canonical(bits: nat) {
    var exponent, mantissa := bits / MANTISSA_BOUND, bits % MANTISSA_BOUND;
    if exponent == 0 then false
    else if exponent == 1 then mantissa % 0x1_0000 == 0 && 0x1_0000 <= mantissa < SIGN_BIT
    else if exponent == 2 then mantissa % 0x100 == 0 && 0x8000 <= mantissa < SIGN_BIT
    else if exponent == 3 then 0x8000 <= mantissa < SIGN_BIT
    else exponent <= MAX_EXPONENT && 0x1_0000 <= mantissa < SIGN_BIT
  }

  // ----- the two conversions, as they run

  method CompactToTarget(bits: nat) returns (r: Result<nat>)
    ensures r == Decode(bits)
  {
    if bits == 0 {
      return Ok(0);
    }
    var exp := bits / MANTISSA_BOUND;
    if exp > MAX_EXPONENT {
      return Err(ExponentTooLarge);
    }
    var mant := bits % SIGN_BIT;
    if bits / SIGN_BIT % 2 != 0 {
      mant := mant + SIGN_BIT;
    }
    assert mant == bits % MANTISSA_BOUND;
    if exp > 3 {
      mant := ShiftLeft(mant, exp - 3);
    } else if exp < 3 {
      mant := ShiftRight(mant, 3 - exp);
    }
    return Ok(mant);
  }

  /** The result always fits 32 bits, and for every target the encoding can
      hold it decodes to the truncated target. */
  method TargetToCompact(target: nat) returns (compact: nat)
    ensures compact == Encode(target) < U32_BOUND
    ensures 0 < target && ByteLength(target) <= MAX_EXPONENT ==> Decode(compact) == Ok(Truncate(target))
  {
    if target == 0 {
      return DEFAULT_BITS;
    }
    var size := ByteLength(target);
    if size > MAX_EXPONENT {
      return DEFAULT_BITS;
    }
    compact := Mantissa(target, size);
    var exp := size;
    if compact / SIGN_BIT % 2 != 0 {
      compact := compact / 256;
      exp := size + 1;
    }
    compact := Pack(compact, exp);
    DecodeEncode(target);
  }

  /** The mantissa before the sign-bit test. */
  method Mantissa(target: nat, size: nat) returns (mant: nat)
    requires target > 0 && size == ByteLength(target)
    ensures mant == if size <= 3 then ShiftLeft(Min(target, SIGN_BIT - 1), 3 - size)
                    else Min(ShiftRight(target, size - 3), SIGN_BIT - 1)
  {
    ThreeBytes(target);
    if size <= 3 {
      var low := Min(target % U32_BOUND, SIGN_BIT - 1);
      mant := ShiftLeft(low, 3 - size);
    } else {
      LeadingBytes(target);
      var shifted := ShiftRight(target, size - 3);
      mant := Min(shifted % U32_BOUND, SIGN_BIT - 1);
    }
  }

  // ----- shifts

  lemma {:induction false} ShiftLeftMonotone(a: nat, b: nat, k: nat)
    ensures a <= b ==> ShiftLeft(a, k) <= ShiftLeft(b, k)
    ensures a < b ==> ShiftLeft(a, k) < ShiftLeft(b, k)
  {
    if k > 0 {
      ShiftLeftMonotone(a, b, k - 1);
    }
  }

  lemma {:induction false} ShiftRightMonotone(a: nat, b: nat, k: nat)
    requires a <= b
    ensures ShiftRight(a, k) <= ShiftRight(b, k)
  {
    if k > 0 {
      ShiftRightMonotone(a / 256, b / 256, k - 1);
    }
  }

  lemma {:induction false} ShiftLeftInner(m: nat, k: nat)
    requires k > 0
    ensures ShiftLeft(m, k) == ShiftLeft(256 * m, k - 1)
  {
    if k > 1 {
      ShiftLeftInner(m, k - 1);
    }
  }

  lemma {:induction false} ShiftBack(m: nat, k: nat)
    ensures ShiftRight(ShiftLeft(m, k), k) == m
  {
    if k > 0 {
      ShiftBack(m, k - 1);
    }
  }

  /** Shifting out and back drops less than one unit of the last kept byte. */
  lemma {:induction false} ShiftFloor(t: nat, k: nat)
    ensures ShiftLeft(ShiftRight(t, k), k) <= t < ShiftLeft(ShiftRight(t, k) + 1, k)
  {
    if k > 0 {
      ShiftFloor(t / 256, k - 1);
    }
  }

  lemma {:induction false} ShiftRatio(kept: nat, lead: nat, k: nat)
    requires 0x1_0000 * kept >= 32767 * (lead + 1)
    ensures 0x1_0000 * ShiftLeft(kept, k) >= 32767 * ShiftLeft(lead + 1, k)
  {
    if k > 0 {
      ShiftRatio(kept, lead, k - 1);
    }
  }

  lemma SmallShifts(t: nat)
    ensures ShiftLeft(t, 1) == t * 0x100 && ShiftLeft(t, 2) == t * 0x1_0000
    ensures ShiftRight(t, 1) == t / 0x100 && ShiftRight(t, 2) == t / 0x1_0000
    ensures ShiftRight(t, 3) == t / MANTISSA_BOUND
  {
    assert ShiftLeft(t, 2) == 256 * ShiftLeft(t, 1);
    assert ShiftRight(t / 256, 1) == t / 256 / 256;
    assert ShiftRight(t / 256, 2) == ShiftRight(t / 256 / 256, 1) == t / 256 / 256 / 256;
  }

  // ----- lengths

  lemma BitLengthQuarter(t: nat)
    ensures t >= 2 ==> BitLength(t) == 2 + BitLength(t / 4)
    ensures t < 4 ==> BitLength(t) <= 2
  {
    assert t >= 2 ==> t / 2 / 2 == t / 4;
    assert BitLength(1) == 1 + BitLength(0);
    if t >= 2 {
      assert BitLength(t) == 1 + BitLength(t / 2);
    }
  }

  lemma BitLengthOfByte(t: nat)
    requires 0 < t < 256
    ensures 1 <= BitLength(t) <= 8
  {
    hide BitLength;
    BitLengthQuarter(t);
    BitLengthQuarter(t / 4);
    BitLengthQuarter(t / 16);
    BitLengthQuarter(t / 64);
    BitLengthPositive(t);
  }

  lemma BitLengthPositive(t: nat)
    requires t > 0
    ensures BitLength(t) >= 1
  {
  }

  lemma ByteLengthStep(t: nat)
    ensures 0 < t < 256 ==> ByteLength(t) == 1
    ensures t >= 256 ==> ByteLength(t) == 1 + ByteLength(t / 256)
  {
    hide BitLength;
    if 0 < t < 256 {
      BitLengthOfByte(t);
    } else if t >= 256 {
      BitLengthQuarter(t);
      BitLengthQuarter(t / 4);
      BitLengthQuarter(t / 16);
      BitLengthQuarter(t / 64);
    }
  }

  /** The byte length is the number of base-256 digits. */
  lemma {:induction false} ByteLengthBound(t: nat, n: nat)
    ensures ByteLength(t) <= n <==> t < Pow256(n)
  {
    ByteLengthStep(t);
    if t == 0 {
      ShiftLeftMonotone(0, 1, n);
      ShiftLeftZero(n);
    } else if n > 0 {
      if t < 256 {
        ShiftLeftPositive(n - 1);
      } else {
        ByteLengthBound(t / 256, n - 1);
      }
    }
  }

  lemma {:induction false} ShiftLeftZero(k: nat)
    ensures ShiftLeft(0, k) == 0
  {
    if k > 0 {
      ShiftLeftZero(k - 1);
    }
  }

  lemma ShiftLeftPositive(k: nat)
    ensures Pow256(k) >= 1
  {
    ShiftLeftMonotone(0, 1, k);
  }

  lemma SmallPowers()
    ensures Pow256(0) == 1 && Pow256(1) == 0x100 && Pow256(2) == 0x1_0000 && Pow256(3) == MANTISSA_BOUND
  {
    assert ShiftLeft(1, 3) == 256 * ShiftLeft(1, 2);
  }

  lemma {:induction false} ShiftLeftLength(m: nat, k: nat)
    requires m > 0
    ensures ShiftLeft(m, k) > 0
    ensures ByteLength(ShiftLeft(m, k)) == ByteLength(m) + k
  {
    if k > 0 {
      ShiftLeftLength(m, k - 1);
      ByteLengthStep(ShiftLeft(m, k));
    }
  }

  lemma {:induction false} ShiftRightLength(t: nat, k: nat)
    requires k < ByteLength(t)
    ensures ShiftRight(t, k) > 0
    ensures ByteLength(ShiftRight(t, k)) == ByteLength(t) - k
  {
    if k > 0 {
      ByteLengthStep(t);
      ShiftRightLength(t / 256, k - 1);
    }
  }

  lemma ByteLengthMonotone(s: nat, t: nat)
    requires s <= t
    ensures ByteLength(s) <= ByteLength(t)
  {
    ByteLengthBound(s, ByteLength(t));
    ByteLengthBound(t, ByteLength(t));
  }

  lemma ThreeBytes(t: nat)
    ensures ByteLength(t) == 0 <==> t == 0
    ensures ByteLength(t) == 1 <==> 0 < t < 0x100
    ensures ByteLength(t) == 2 <==> 0x100 <= t < 0x1_0000
    ensures ByteLength(t) == 3 <==> 0x1_0000 <= t < MANTISSA_BOUND
  {
    SmallPowers();
    ByteLengthBound(t, 0);
    ByteLengthBound(t, 1);
    ByteLengthBound(t, 2);
    ByteLengthBound(t, 3);
  }

  /** The part of a long target that is kept has exactly three bytes. */
  lemma LeadingBytes(t: nat)
    requires ByteLength(t) >= 3
    ensures 0x1_0000 <= ShiftRight(t, ByteLength(t) - 3) < MANTISSA_BOUND
  {
    ShiftRightLength(t, ByteLength(t) - 3);
    ThreeBytes(ShiftRight(t, ByteLength(t) - 3));
  }

  // ----- encode, then decode

  lemma EncodeLong(t: nat)
    requires 0x1_0000 <= t && ByteLength(t) <= MAX_EXPONENT
    ensures ByteLength(t) >= 3
    ensures Encode(t) == Pack(Min(ShiftRight(t, ByteLength(t) - 3), SIGN_BIT - 1), ByteLength(t))
  {
    ThreeBytes(t);
    LeadingBytes(t);
    if ByteLength(t) == 3 {
      assert ShiftRight(t, 0) == t == ShiftLeft(t, 0);
      assert ShiftLeft(Min(t, SIGN_BIT - 1), 0) == Min(t, SIGN_BIT - 1);
    }
  }

  /** `Encode` of one- and two-byte targets, without the sign-bit detour. */
  lemma EncodeShort(t: nat)
    requires 0 < t < 0x1_0000
    ensures t < 0x80 ==> Encode(t) == Pack(t * 0x1_0000, 1)
    ensures 0x80 <= t < 0x8000 ==> Encode(t) == Pack(t * 0x100, 2)
    ensures 0x8000 <= t ==> Encode(t) == Pack(t, 3)
  {
    ThreeBytes(t);
    SmallShifts(t);
    var size := ByteLength(t);
    var mantissa := if size == 1 then t * 0x1_0000 else t * 0x100;
    assert Min(t, SIGN_BIT - 1) == t;
    assert ShiftLeft(t, 3 - size) == mantissa;
    assert mantissa / SIGN_BIT % 2 == 1 <==> mantissa >= SIGN_BIT;
  }

  lemma DecodePack(mantissa: nat, exponent: nat)
    requires mantissa < MANTISSA_BOUND && 0 < exponent <= MAX_EXPONENT
    ensures Decode(Pack(mantissa, exponent)) == Ok(Scale(mantissa, exponent))
    ensures Pack(mantissa, exponent) < U32_BOUND
  {
  }

  lemma DecodeEncode(t: nat)
    requires 0 < t && ByteLength(t) <= MAX_EXPONENT
    ensures Encode(t) < U32_BOUND
    ensures Decode(Encode(t)) == Ok(Truncate(t))
  {
    ThreeBytes(t);
    if t >= 0x1_0000 {
      EncodeLong(t);
      LeadingBytes(t);
      DecodePack(Min(ShiftRight(t, ByteLength(t) - 3), SIGN_BIT - 1), ByteLength(t));
    } else {
      EncodeShort(t);
      if t < 0x80 {
        DecodePack(t * 0x1_0000, 1);
        SmallShifts(t * 0x1_0000);
      } else if t < 0x8000 {
        DecodePack(t * 0x100, 2);
        SmallShifts(t * 0x100);
      } else {
        DecodePack(t, 3);
      }
    }
  }

  lemma TruncateLoss(t: nat)
    requires t > 0
    ensures 0 < Truncate(t) <= t
    ensures 0x1_0000 * Truncate(t) > 32767 * t
  {
    if ByteLength(t) >= 3 {
      LeadingBytes(t);
      var k := ByteLength(t) - 3;
      var lead := ShiftRight(t, k);
      var kept := Min(lead, SIGN_BIT - 1);
      ShiftFloor(t, k);
      ShiftLeftMonotone(kept, lead, k);
      ShiftRatio(kept, lead, k);
    }
  }

  /** Truncation stays inside the byte length it started from. */
  lemma TruncateLength(t: nat)
    requires t > 0
    ensures Truncate(t) > 0 && ByteLength(Truncate(t)) == ByteLength(t)
  {
    if ByteLength(t) >= 3 {
      LeadingBytes(t);
      var kept := Min(ShiftRight(t, ByteLength(t) - 3), SIGN_BIT - 1);
      ThreeBytes(kept);
      ShiftLeftLength(kept, ByteLength(t) - 3);
    }
  }

  lemma TruncateIdempotent(t: nat)
    requires t > 0
    ensures Truncate(Truncate(t)) == Truncate(t)
  {
    TruncateLength(t);
    if ByteLength(t) >= 3 {
      var k := ByteLength(t) - 3;
      ShiftBack(Min(ShiftRight(t, k), SIGN_BIT - 1), k);
    }
  }

  lemma TruncateMonotone(s: nat, t: nat)
    requires 0 < s <= t
    ensures Truncate(s) <= Truncate(t)
  {
    ByteLengthMonotone(s, t);
    if ByteLength(s) < ByteLength(t) {
      TruncateLength(s);
      TruncateLength(t);
      if Truncate(t) < Truncate(s) {
        ByteLengthMonotone(Truncate(t), Truncate(s));
      }
    } else if ByteLength(s) >= 3 {
      var k := ByteLength(s) - 3;
      ShiftRightMonotone(s, t, k);
      ShiftLeftMonotone(Min(ShiftRight(s, k), SIGN_BIT - 1), Min(ShiftRight(t, k), SIGN_BIT - 1), k);
    }
  }

  /** One round trip never raises a target, keeps more than 32767/65536 of it
      and changes nothing the second time. */
  lemma RoundTripLoss(t: nat)
    requires 0 < t < Pow256(MAX_EXPONENT)
    ensures Decode(Encode(t)).Ok?
    ensures var d := Decode(Encode(t)).value;
            && 0 < d <= t
            && 0x1_0000 * d > 32767 * t
            && Decode(Encode(d)) == Ok(d)
  {
    ByteLengthBound(t, MAX_EXPONENT);
    DecodeEncode(t);
    TruncateLoss(t);
    TruncateLength(t);
    TruncateIdempotent(t);
    DecodeEncode(Truncate(t));
  }

  lemma RoundTripMonotone(s: nat, t: nat)
    requires 0 < s <= t < Pow256(MAX_EXPONENT)
    ensures Decode(Encode(s)).Ok? && Decode(Encode(t)).Ok?
    ensures Decode(Encode(s)).value <= Decode(Encode(t)).value
  {
    ByteLengthBound(s, MAX_EXPONENT);
    ByteLengthBound(t, MAX_EXPONENT);
    DecodeEncode(s);
    DecodeEncode(t);
    TruncateMonotone(s, t);
  }

  /** A target and its truncation have the same encoding. */
  lemma EncodeTruncate(t: nat)
    requires 0 < t && ByteLength(t) <= MAX_EXPONENT
    ensures Encode(Truncate(t)) == Encode(t)
  {
    TruncateLength(t);
    if ByteLength(t) >= 3 {
      var k := ByteLength(t) - 3;
      LeadingBytes(t);
      ShiftBack(Min(ShiftRight(t, k), SIGN_BIT - 1), k);
      ThreeBytes(t);
      ThreeBytes(Truncate(t));
      EncodeLong(t);
      EncodeLong(Truncate(t));
    }
  }

  // ----- decode, then encode

  lemma PackInjective(m: nat, e: nat, m': nat, e': nat)
    requires m < MANTISSA_BOUND && m' < MANTISSA_BOUND
    ensures Pack(m, e) == Pack(m', e') <==> m == m' && e == e'
  {
  }

  lemma ReencodeLong(mantissa: nat, exponent: nat)
    requires mantissa < MANTISSA_BOUND && 4 <= exponent <= MAX_EXPONENT
    ensures Encode(Scale(mantissa, exponent)) == Pack(mantissa, exponent) <==> 0x1_0000 <= mantissa < SIGN_BIT
  {
    var t := Scale(mantissa, exponent);
    var k := exponent - 3;
    if mantissa == 0 {
      ShiftLeftZero(k);
    } else {
      ThreeBytes(mantissa);
      ShiftLeftLength(mantissa, k);
      ThreeBytes(t);
      if mantissa < 0x1_0000 {
        assert Encode(t) / MANTISSA_BOUND < exponent by {
          if t >= 0x1_0000 {
            EncodeLong(t);
            LeadingBytes(t);
          } else {
            EncodeShort(t);
          }
        }
      } else {
        EncodeLong(t);
        ShiftBack(mantissa, k);
        PackInjective(Min(mantissa, SIGN_BIT - 1), exponent, mantissa, exponent);
      }
    }
  }

  lemma ReencodeShort(mantissa: nat, exponent: nat)
    requires mantissa < MANTISSA_BOUND && exponent <= 3
    ensures Encode(Scale(mantissa, exponent)) == Pack(mantissa, exponent) <==> Canonical(Pack(mantissa, exponent))
  {
    var t := Scale(mantissa, exponent);
    assert t == if exponent == 3 then mantissa else if exponent == 2 then mantissa / 256
                else if exponent == 1 then mantissa / 0x1_0000 else 0
    by {
      SmallShifts(mantissa);
    }
    if t > 0 {
      ThreeBytes(t);
      if t >= 0x1_0000 {
        EncodeLong(t);
        assert ShiftRight(t, 0) == t;
      } else {
        EncodeShort(t);
      }
    }
  }

  /** Exactly the canonical encodings survive decoding and re-encoding. */
  lemma ReencodeIffCanonical(bits: nat)
    requires bits < U32_BOUND
    ensures Decode(bits).Ok? ==> (Encode(Decode(bits).value) == bits <==> Canonical(bits))
    ensures Decode(bits).Err? ==> !Canonical(bits)
  {
    var mantissa, exponent := bits % MANTISSA_BOUND, bits / MANTISSA_BOUND;
    if bits == 0 {
    } else if exponent <= 3 {
      ReencodeShort(mantissa, exponent);
    } else if exponent <= MAX_EXPONENT {
      ReencodeLong(mantissa, exponent);
    }
  }

  /** Every encoding that is produced is canonical, except for the fallback. */
  lemma EncodeCanonical(t: nat)
    requires 0 < t < Pow256(MAX_EXPONENT)
    ensures Canonical(Encode(t))
  {
    ByteLengthBound(t, MAX_EXPONENT);
    DecodeEncode(t);
    TruncateIdempotent(t);
    EncodeTruncate(t);
    ReencodeIffCanonical(Encode(t));
  }

  /** A two-byte mantissa with its top bit set loses a byte and its low bits:
      the mantissa is capped before the sign bit is looked at. */
  lemma CappedMantissa(k: nat)
    requires 2 <= k && k + 2 <= MAX_EXPONENT
    ensures ByteLength(ShiftLeft(0xffff, k)) == k + 2
    ensures Encode(ShiftLeft(0xffff, k)) == Pack(SIGN_BIT - 1, k + 2)
  {
    var t := ShiftLeft(0xffff, k);
    ThreeBytes(0xffff);
    ShiftLeftLength(0xffff, k);
    ShiftLeftInner(0xffff, k);
    ShiftBack(0xff_ff00, k - 1);
    ThreeBytes(t);
    EncodeLong(t);
  }

  /** A power of 256 has a canonical encoding. */
  lemma PowerEncodes(k: nat)
    requires 2 <= k && k + 1 <= MAX_EXPONENT
    ensures ByteLength(ShiftLeft(1, k)) == k + 1
    ensures Encode(ShiftLeft(1, k)) == Pack(0x1_0000, k + 1)
  {
    var t := ShiftLeft(1, k);
    ThreeBytes(1);
    ShiftLeftLength(1, k);
    ShiftLeftInner(1, k);
    ShiftLeftInner(0x100, k - 1);
    ShiftBack(0x1_0000, k - 2);
    ThreeBytes(t);
    EncodeLong(t);
  }

  /** So does 2^256: it is not replaced by the genesis encoding. */
  lemma MaxTargetEncodes()
    ensures Encode(Pow256(32)) == 0x2101_0000 != DEFAULT_BITS
  {
    PowerEncodes(32);
    hide ShiftLeft, Encode;
  }

  /** So the genesis encoding is not canonical: it comes back as 0x1c7fffff. */
  lemma GenesisBitsNotCanonical()
    ensures Decode(DEFAULT_BITS) == Ok(ShiftLeft(0xffff, 26))
    ensures Encode(ShiftLeft(0xffff, 26)) == 0x1c7fffff != DEFAULT_BITS
  {
    CappedMantissa(26);
  }
}

/**
 Permission masks as sets of bit positions.
 */
module PermissionBits {

  predicate Odd(v: bv64) {
    v & 1 == 1
  }

  function Half(v: bv64): bv64 {
    v >> 1
  }

  function And(a: bv64, b: bv64): bv64 {
    a & b
  }

  /** The bit of v at position i, counted from the lowest. */
  predicate Bit(v: bv64, i: nat)
    decreases i
  {
    if i == 0 then Odd(v) else Bit(Half(v), i - 1)
  }

  /** Some position is set in both. */
  ghost predicate Shares(mask: bv64, perm: bv64) {
    exists i | 0 <= i < 64 :: Bit(mask, i) && Bit(perm, i)
  }

  lemma AndLow(a: bv64, b: bv64)
    ensures Odd(And(a, b)) <==> Odd(a) && Odd(b)
  {
  }

  lemma AndShift(a: bv64, b: bv64)
    ensures Half(And(a, b)) == And(Half(a), Half(b))
  {
  }

  lemma {:induction false} AndBit(a: bv64, b: bv64, i: nat)
    ensures Bit(And(a, b), i) <==> Bit(a, i) && Bit(b, i)
    decreases i
  {
    if i == 0 {
      AndLow(a, b);
    } else {
      AndShift(a, b);
      AndBit(Half(a), Half(b), i - 1);
    }
  }

  predicate IsZero(v: bv64) {
    v == 0
  }

  /** v is below 2 to the power of n. */
  predicate Fits(v: bv64, n: nat)
    decreases n
  {
    if n == 0 then IsZero(v) else Fits(Half(v), n - 1)
  }

  function Byte(v: bv64): bv64 {
    v >> 8
  }

  lemma EightHalves(v: bv64)
    ensures Half(Half(Half(Half(Half(Half(Half(Half(v)))))))) == Byte(v)
  {
  }

  lemma EightBytes(v: bv64)
    ensures IsZero(Byte(Byte(Byte(Byte(Byte(Byte(Byte(Byte(v)))))))))
  {
  }

  lemma FitsByte(v: bv64, n: nat)
    requires Fits(Byte(v), n)
    ensures Fits(v, n + 8)
  {
    EightHalves(v);
    var quarter := Half(Half(v));
    var half := Half(Half(quarter));
    assert Fits(Half(Half(half)), n + 2);
    assert Fits(half, n + 4);
    assert Fits(quarter, n + 6);
  }

  lemma AllFit(v: bv64)
    ensures Fits(v, 64)
  {
    EightBytes(v);
    var b1 := Byte(v);
    var b2 := Byte(b1);
    var b3 := Byte(b2);
    var b4 := Byte(b3);
    var b5 := Byte(b4);
    var b6 := Byte(b5);
    var b7 := Byte(b6);
    FitsByte(b7, 0);
    FitsByte(b6, 8);
    FitsByte(b5, 16);
    FitsByte(b4, 24);
    FitsByte(b3, 32);
    FitsByte(b2, 40);
    FitsByte(b1, 48);
    FitsByte(v, 56);
  }

  lemma LowOrHigh(v: bv64)
    requires !IsZero(v)
    ensures Odd(v) || !IsZero(Half(v))
  {
  }

  lemma {:induction false} SomeBit(v: bv64, n: nat) returns (i: nat)
    requires Fits(v, n) && !IsZero(v)
    ensures i < n && Bit(v, i)
    decreases n
  {
    if Odd(v) {
      i := 0;
    } else {
      LowOrHigh(v);
      i := SomeBit(Half(v), n - 1);
      i := i + 1;
    }
  }

  lemma {:induction false} ZeroHasNoBit(i: nat)
    ensures !Bit(0, i)
    decreases i
  {
    if i > 0 {
      ZeroHasNoBit(i - 1);
    }
  }

  /** HasPerm. */
  predicate HasPerm(mask: bv64, perm: bv64) {
    And(mask, perm) != 0
  }

  /** A permission is held if and only if some bit is set in both; the zero mask holds none. */
  lemma HasPermExactlyWhen(mask: bv64, perm: bv64)
    ensures HasPerm(mask, perm) <==> Shares(mask, perm)
    ensures !Shares(0, perm)
  {
    if HasPerm(mask, perm) {
      AllFit(And(mask, perm));
      var i := SomeBit(And(mask, perm), 64);
      AndBit(mask, perm, i);
    }
    if i :| 0 <= i < 64 && Bit(mask, i) && Bit(perm, i) {
      AndBit(mask, perm, i);
      ZeroHasNoBit(i);
    }
    forall i: nat ensures !Bit(0, i) {
      ZeroHasNoBit(i);
    }
  }

  const ALL_PERMISSIONS: bv64 := 0xFFFF_FFFF_FFFF_FFFF

  lemma OnesHaveAll(perm: bv64)
    requires perm != 0
    ensures HasPerm(ALL_PERMISSIONS, perm)
  {
    assert And(ALL_PERMISSIONS, perm) == perm;
  }
}

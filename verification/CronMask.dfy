/**
 The 64-bit words a schedule keeps its fields in, seen as sets of small numbers.
 */
module CronMask {

  /** The word with bit `v` alone; past the width of the word the bit falls off. */
  function One(v: nat): bv64 {
    if v == 0 then 1 else One(v - 1) << 1
  }

  predicate Meets(x: bv64, y: bv64) { x & y != 0 }

  predicate Has(m: bv64, v: nat) { Meets(m, One(v)) }

  lemma {:induction false} Later(v: nat, k: nat)
    ensures One(v) == 0 ==> One(v + k) == 0
    decreases k
  {
    if k > 0 { Later(v, k - 1); }
  }

  /** The top bit is there, and the next one is not. */
  lemma TopBit()
    ensures One(63) == 0x8000_0000_0000_0000 && One(64) == 0
  {
    assert One(2) == 0x4 && One(4) == 0x10 && One(6) == 0x40 && One(8) == 0x100;
    assert One(10) == 0x400 && One(12) == 0x1000 && One(14) == 0x4000 && One(16) == 0x10000;
    assert One(18) == 0x40000 && One(20) == 0x100000 && One(22) == 0x400000 && One(24) == 0x1000000;
    assert One(26) == 0x4000000 && One(28) == 0x10000000 && One(30) == 0x40000000 && One(32) == 0x100000000;
    assert One(34) == 0x400000000 && One(36) == 0x1000000000 && One(38) == 0x4000000000 && One(40) == 0x10000000000;
    assert One(42) == 0x40000000000 && One(44) == 0x100000000000 && One(46) == 0x400000000000;
    assert One(48) == 0x1000000000000 && One(50) == 0x4000000000000 && One(52) == 0x10000000000000;
    assert One(54) == 0x40000000000000 && One(56) == 0x100000000000000;
    assert One(58) == 0x400000000000000 && One(60) == 0x1000000000000000 && One(62) == 0x4000000000000000;
  }

  /** No bit of the word is lost. */
  lemma OneNonZero(v: nat)
    requires v < 64
    ensures One(v) != 0
  {
    TopBit();
    Later(v, 63 - v);
  }

  /** Different bits do not meet. */
  lemma {:induction false} OnesApart(i: nat, j: nat)
    requires i < j
    ensures One(i) & One(j) == 0
    decreases i
  {
    if i == 0 {
      LowBitOfShift(One(j - 1));
    } else {
      OnesApart(i - 1, j - 1);
      ShiftOfAnd(One(i - 1), One(j - 1));
    }
  }

  lemma LowBitOfShift(x: bv64)
    ensures 1 & (x << 1) == 0
  {
  }

  lemma ShiftOfAnd(x: bv64, y: bv64)
    ensures (x << 1) & (y << 1) == (x & y) << 1
  {
  }

  lemma EmptyWord(v: nat)
    ensures !Has(0, v)
  {
    ZeroAnd(One(v));
  }

  lemma ZeroAnd(x: bv64)
    ensures 0 & x == 0
  {
  }

  lemma Distribute(m: bv64, x: bv64, y: bv64)
    ensures (m | x) & y == (m & y) | (x & y)
  {
  }

  lemma OrZero(x: bv64)
    ensures x | 0 == x
  {
  }

  lemma OrAside(m: bv64, x: bv64, y: bv64)
    requires !Meets(x, y)
    ensures Meets(m | x, y) <==> Meets(m, y)
  {
    Distribute(m, x, y);
    OrZero(m & y);
  }

  lemma OrWithin(m: bv64, x: bv64)
    requires x != 0
    ensures Meets(m | x, x)
  {
  }

  lemma AndCommutes(x: bv64, y: bv64)
    ensures x & y == y & x
  {
  }

  lemma SetSame(m: bv64, b: nat)
    requires b < 64
    ensures Has(m | One(b), b)
  {
    OneNonZero(b);
    OrWithin(m, One(b));
  }

  lemma Apart(b: nat, v: nat)
    requires b != v
    ensures !Meets(One(b), One(v))
  {
    if v < b {
      OnesApart(v, b);
      AndCommutes(One(v), One(b));
    } else {
      OnesApart(b, v);
    }
  }

  lemma SetOther(m: bv64, x: bv64, v: nat)
    requires !Meets(x, One(v))
    ensures Has(m | x, v) <==> Has(m, v)
  {
    OrAside(m, x, One(v));
  }

  lemma SetApart(m: bv64, b: nat, v: nat)
    requires v != b
    ensures Has(m | One(b), v) <==> Has(m, v)
  {
    Apart(b, v);
    SetOther(m, One(b), v);
  }

  /** Setting a bit adds exactly that number. */
  lemma SetBit(m: bv64, b: nat, v: nat)
    requires b < 64
    ensures Has(m | One(b), v) <==> Has(m, v) || v == b
  {
    if v == b { SetSame(m, b); } else { SetApart(m, b, v); }
  }

  /** The word has exactly the bits in `s`. */
  ghost predicate IsMask(m: bv64, s: iset<nat>) { forall v :: Has(m, v) <==> v in s }

  function With(m: bv64, x: bv64): bv64 { m | x }

  lemma EmptyMask()
    ensures IsMask(0, iset{})
  {
    forall v ensures !Has(0, v) { EmptyWord(v); }
  }

  lemma GrowMaskAt(m: bv64, s: iset<nat>, b: nat, m': bv64, s': iset<nat>, v: nat)
    requires (Has(m, v) <==> v in s) && b < 64
    requires m' == m | One(b) && s' == s + iset{b}
    ensures Has(m', v) <==> v in s'
  {
    SetBit(m, b, v);
  }

  lemma GrowMask(m: bv64, s: iset<nat>, b: nat)
    requires IsMask(m, s) && b < 64
    ensures IsMask(With(m, One(b)), s + iset{b})
  {
    var m', s' := With(m, One(b)), s + iset{b};
    forall v ensures Has(m', v) <==> v in s' { GrowMaskAt(m, s, b, m', s', v); }
  }

  lemma SameMask(m: bv64, s: iset<nat>)
    requires IsMask(m, s)
    ensures IsMask(With(m, 0), s)
  {
    OrZero(m);
  }
}

/** Native integers and bit sets: little-endian bytes, and bits of natural numbers. */
module Integers {
  import opened Text

  function Pow256(w: nat): (p: nat)
    ensures p > 0
  {
    if w == 0 then 1 else 256 * Pow256(w - 1)
  }

  /** The low `w` bytes, lowest first. */
  function Little(n: nat, w: nat): (b: Text)
    ensures |b| == w
  {
    if w == 0 then [] else [(n % 256) as byte] + Little(n / 256, w - 1)
  }

  function FromLittle(b: Text): nat { if b == [] then 0 else b[0] as nat + 256 * FromLittle(b[1..]) }

  lemma {:induction false} FromLittleBound(b: Text)
    ensures FromLittle(b) < Pow256(|b|)
  {
    if b != [] {
      FromLittleBound(b[1..]);
    }
  }

  lemma {:induction false} LittleThenBack(n: nat, w: nat)
    requires n < Pow256(w)
    ensures FromLittle(Little(n, w)) == n
  {
    if w > 0 {
      LittleThenBack(n / 256, w - 1);
      assert Little(n, w)[1..] == Little(n / 256, w - 1);
    }
  }

  lemma {:induction false} BackThenLittle(b: Text)
    ensures Little(FromLittle(b), |b|) == b
  {
    if b != [] {
      BackThenLittle(b[1..]);
    }
  }

  /** Two's complement in `w` bytes. */
  function Wrap(n: int, w: nat): nat
    requires 0 <= n + Pow256(w) && n < Pow256(w)
  {
    if n < 0 then n + Pow256(w) else n
  }

  function Unwrap(u: nat, w: nat, signed: bool): int { if signed && 2 * u >= Pow256(w) then u - Pow256(w) else u }

  predicate InRange(n: int, w: nat, signed: bool) {
    if signed then 0 <= 2 * n + Pow256(w) && 2 * n < Pow256(w) else 0 <= n < Pow256(w)
  }

  function WriteInt(n: int, w: nat, signed: bool): (b: Text)
    requires InRange(n, w, signed)
    ensures |b| == w
  {
    Little(Wrap(n, w), w)
  }

  function ReadInt(b: Text, signed: bool): int { Unwrap(FromLittle(b), |b|, signed) }

  /** Every number in range is read back, and only such numbers are ever read. */
  lemma WriteThenRead(n: int, w: nat, signed: bool)
    requires InRange(n, w, signed)
    ensures ReadInt(WriteInt(n, w, signed), signed) == n
  {
    LittleThenBack(Wrap(n, w), w);
  }

  lemma ReadInRange(b: Text, signed: bool)
    ensures InRange(ReadInt(b, signed), |b|, signed)
  {
    FromLittleBound(b);
  }

  // ---- Bits ----

  predicate Bit(n: nat, k: nat) { if k == 0 then n % 2 == 1 else Bit(n / 2, k - 1) }

  function Or(a: nat, b: nat): nat {
    if a == 0 then b else if b == 0 then a else (if a % 2 == 1 || b % 2 == 1 then 1 else 0) + 2 * Or(a / 2, b / 2)
  }

  /** The bits of `a` that `b` does not have. */
  function Without(a: nat, b: nat): nat {
    if a == 0 || b == 0 then a else (if a % 2 == 1 && b % 2 == 0 then 1 else 0) + 2 * Without(a / 2, b / 2)
  }

  function Meet(a: nat, b: nat): nat {
    if a == 0 || b == 0 then 0 else (if a % 2 == 1 && b % 2 == 1 then 1 else 0) + 2 * Meet(a / 2, b / 2)
  }

  function Pow2(k: nat): (p: nat)
    ensures p > 0
  {
    if k == 0 then 1 else 2 * Pow2(k - 1)
  }

  /** Exactly one bit is set. */
  predicate Single(n: nat) { n > 0 && (n == 1 || (n % 2 == 0 && Single(n / 2))) }

  lemma {:induction false} NoBits(k: nat)
    ensures !Bit(0, k)
  {
    if k > 0 {
      NoBits(k - 1);
    }
  }

  lemma {:induction false} OrBits(a: nat, b: nat, k: nat)
    ensures Bit(Or(a, b), k) <==> Bit(a, k) || Bit(b, k)
  {
    NoBits(k);
    if a != 0 && b != 0 {
      Halves(if a % 2 == 1 || b % 2 == 1 then 1 else 0, Or(a / 2, b / 2));
      if k > 0 {
        OrBits(a / 2, b / 2, k - 1);
      }
    }
  }

  lemma {:induction false} WithoutBits(a: nat, b: nat, k: nat)
    ensures Bit(Without(a, b), k) <==> Bit(a, k) && !Bit(b, k)
  {
    NoBits(k);
    if a != 0 && b != 0 {
      Halves(if a % 2 == 1 && b % 2 == 0 then 1 else 0, Without(a / 2, b / 2));
      if k > 0 {
        WithoutBits(a / 2, b / 2, k - 1);
      }
    }
  }

  lemma {:induction false} MeetBits(a: nat, b: nat, k: nat)
    ensures Bit(Meet(a, b), k) <==> Bit(a, k) && Bit(b, k)
  {
    NoBits(k);
    if a != 0 && b != 0 {
      Halves(if a % 2 == 1 && b % 2 == 1 then 1 else 0, Meet(a / 2, b / 2));
      if k > 0 {
        MeetBits(a / 2, b / 2, k - 1);
      }
    }
  }

  lemma Halves(low: nat, high: nat)
    requires low <= 1
    ensures (low + 2 * high) / 2 == high && (low + 2 * high) % 2 == low
  {
  }

  /** A number is zero exactly when it has no bits; the lowest one is where it is odd. */
  lemma {:induction false} SomeBit(n: nat) returns (k: nat)
    requires n > 0
    ensures Bit(n, k)
  {
    if n % 2 == 1 {
      k := 0;
    } else {
      var j := SomeBit(n / 2);
      k := j + 1;
    }
  }

  lemma {:induction false} SameBits(a: nat, b: nat)
    requires forall k: nat :: Bit(a, k) <==> Bit(b, k)
    ensures a == b
    decreases a + b
  {
    if a != 0 || b != 0 {
      assert Bit(a, 0) <==> Bit(b, 0);
      forall k: nat ensures Bit(a / 2, k) <==> Bit(b / 2, k) {
        assert Bit(a, k + 1) <==> Bit(b, k + 1);
      }
      SameBits(a / 2, b / 2);
    }
  }

  lemma {:induction false} SingleBit(n: nat) returns (k: nat)
    requires Single(n)
    ensures forall j: nat :: Bit(n, j) <==> j == k
  {
    if n == 1 {
      k := 0;
      forall j: nat ensures Bit(n, j) <==> j == k {
        if j > 0 {
          NoBits(j - 1);
        }
      }
    } else {
      var h := SingleBit(n / 2);
      k := h + 1;
      forall j: nat ensures Bit(n, j) <==> j == k {
        if j > 0 {
          assert Bit(n / 2, j - 1) <==> j - 1 == h;
        }
      }
    }
  }
}

/** Bytes as numbers, and the bit operations the program uses on them. */
module Bytes {
  type byte = x: int | 0 <= x < 256

  function Pow2(k: nat): (r: nat)
    ensures r > 0
  {
    if k == 0 then 1 else 2 * Pow2(k - 1)
  }

  lemma AtLeastOne(x: nat, d: nat)
    requires x >= 1
    ensures x * d >= d
  {
  }

  /** Quotient and remainder are determined. */
  lemma Divide(a: nat, d: nat, q: nat, r: nat)
    requires d > 0 && a == q * d + r && r < d
    ensures a / d == q && a % d == r
  {
    var p, t := a / d, a % d;
    assert p * d - q * d == r - t;
    if p < q {
      AtLeastOne(q - p, d);
    } else if p > q {
      AtLeastOne(p - q, d);
    }
  }

  lemma Grows(a: nat, x: nat, y: nat)
    requires x <= y
    ensures a * x <= a * y
  {
  }

  lemma Products(a: nat, m: nat, q: nat, s: nat)
    ensures (q * m + s) * a == q * (a * m) + a * s
  {
  }

  lemma Below(a: nat, m: nat, s: nat, r: nat)
    requires s < m && r < a
    ensures a * s + r < a * m
  {
    Grows(a, s + 1, m);
    assert a * (s + 1) == a * s + a;
  }

  lemma Quotient(n: nat, d: nat) returns (q: nat, r: nat)
    requires d > 0
    ensures q == n / d && n == q * d + r && r < d
  {
    q, r := n / d, n % d;
  }

  lemma Recomposed(n: nat, a: nat, m: nat, x: nat, r: nat, q: nat, s: nat)
    requires n == x * a + r && r < a && x == q * m + s && s < m
    ensures n == q * (a * m) + (a * s + r) && a * s + r < a * m
  {
    Products(a, m, q, s);
    Below(a, m, s, r);
  }

  /** Dividing twice is dividing by the product. */
  lemma DivideTwice(n: nat, a: nat, m: nat)
    requires a > 0 && m > 0 && a * m > 0
    ensures n / a / m == n / (a * m)
  {
    var x, r := Quotient(n, a);
    var q, s := Quotient(x, m);
    Recomposed(n, a, m, x, r, q, s);
    Divide(n, a * m, q, a * s + r);
  }

  /** Bitwise exclusive or. */
  function Xor(a: nat, b: nat): nat
    decreases a + b
  {
    if a == 0 && b == 0 then 0 else (a % 2 + b % 2) % 2 + 2 * Xor(a / 2, b / 2)
  }

  /** Bitwise or. */
  function Or(a: nat, b: nat): nat
    decreases a + b
  {
    if a == 0 && b == 0 then 0 else (if a % 2 == 1 || b % 2 == 1 then 1 else 0) + 2 * Or(a / 2, b / 2)
  }

  lemma {:induction false} XorZero(a: nat)
    ensures Xor(a, 0) == a
  {
    if a != 0 { XorZero(a / 2); }
  }

  lemma XorParts(a: nat, b: nat)
    ensures Xor(a, b) % 2 == (a % 2 + b % 2) % 2 && Xor(a, b) / 2 == Xor(a / 2, b / 2)
  {
  }

  lemma ParityUndo(x: nat, a: nat, k: nat)
    requires x % 2 == (a % 2 + k % 2) % 2
    ensures (x % 2 + k % 2) % 2 == a % 2
  {
  }

  lemma {:induction false} XorUndo(a: nat, k: nat)
    ensures Xor(Xor(a, k), k) == a
    decreases a + k
  {
    if a != 0 || k != 0 {
      var x := Xor(a, k);
      XorUndo(a / 2, k / 2);
      XorParts(a, k);
      XorParts(x, k);
      ParityUndo(x, a, k);
      assert Xor(x, k) % 2 == a % 2 && Xor(x, k) / 2 == a / 2;
    }
  }

  lemma {:induction false} XorBound(a: nat, b: nat, k: nat)
    requires a < Pow2(k) && b < Pow2(k)
    ensures Xor(a, b) < Pow2(k)
    decreases k
  {
    if k != 0 { XorBound(a / 2, b / 2, k - 1); }
  }

  lemma {:induction false} XorZeroIff(a: nat, b: nat)
    ensures Xor(a, b) == 0 <==> a == b
    decreases a + b
  {
    if a != 0 || b != 0 { XorZeroIff(a / 2, b / 2); }
  }

  lemma {:induction false} OrZeroIff(a: nat, b: nat)
    ensures Or(a, b) == 0 <==> a == 0 && b == 0
    decreases a + b
  {
    if a != 0 || b != 0 { OrZeroIff(a / 2, b / 2); }
  }

  /** `n` without its low `j` bits. */
  function Shifted(n: nat, j: nat): nat { if j == 0 then n else Shifted(n / 2, j - 1) }

  lemma {:induction false} ShiftedIs(n: nat, j: nat)
    ensures Shifted(n, j) == n / Pow2(j)
  {
    if j > 0 {
      ShiftedIs(n / 2, j - 1);
      DivideTwice(n, 2, Pow2(j - 1));
    }
  }

  lemma {:induction false} XorShifted(a: nat, b: nat, j: nat)
    ensures Shifted(Xor(a, b), j) == Xor(Shifted(a, j), Shifted(b, j))
    decreases j
  {
    if j > 0 {
      XorParts(a, b);
      XorShifted(a / 2, b / 2, j - 1);
    }
  }

  lemma ParityOfSum(x: nat, a: nat, b: nat)
    requires x % 2 == (a % 2 + b % 2) % 2
    ensures x % 2 == (a + b) % 2
  {
  }

  /** The exclusive or from its lowest bit up. */
  lemma XorStep(a: nat, b: nat, c: nat)
    requires Xor(a / 2, b / 2) == c / 2 && c % 2 == (a % 2 + b % 2) % 2
    ensures Xor(a, b) == c
  {
    XorParts(a, b);
  }

  /** Bit `j` of the exclusive or is the parity of the two bits. */
  lemma XorBit(a: nat, b: nat, j: nat)
    ensures Xor(a, b) / Pow2(j) % 2 == (a / Pow2(j) + b / Pow2(j)) % 2
  {
    ShiftedIs(a, j);
    ShiftedIs(b, j);
    ShiftedIs(Xor(a, b), j);
    XorShifted(a, b, j);
    XorParts(Shifted(a, j), Shifted(b, j));
    ParityOfSum(Xor(Shifted(a, j), Shifted(b, j)), Shifted(a, j), Shifted(b, j));
  }

  function XorByte(a: byte, b: byte): byte
  {
    assert Pow2(8) == 256;
    XorBound(a, b, 8);
    Xor(a, b)
  }

  /** `n` in `k` bytes, most significant first, higher bytes cut off. */
  function BigEndian(n: nat, k: nat): (s: seq<byte>)
    ensures |s| == k
  {
    if k == 0 then [] else BigEndian(n / 256, k - 1) + [n % 256]
  }

  function FromBigEndian(s: seq<byte>): nat {
    if s == [] then 0 else 256 * FromBigEndian(s[..|s| - 1]) + s[|s| - 1]
  }

  function Pow256(k: nat): (r: nat)
    ensures r > 0
  {
    if k == 0 then 1 else 256 * Pow256(k - 1)
  }

  lemma FromBigEndianSnoc(s: seq<byte>, b: byte)
    ensures FromBigEndian(s + [b]) == 256 * FromBigEndian(s) + b as nat
  {
    assert (s + [b])[..|s|] == s;
  }

  lemma HighPart(n: nat, p: nat)
    requires n < 256 * p
    ensures n / 256 < p && n == 256 * (n / 256) + n % 256
  {
  }

  lemma {:induction false} BigEndianInverse(n: nat, k: nat)
    requires n < Pow256(k)
    ensures FromBigEndian(BigEndian(n, k)) == n
  {
    if k != 0 {
      assert Pow256(k) == 256 * Pow256(k - 1);
      HighPart(n, Pow256(k - 1));
      BigEndianInverse(n / 256, k - 1);
      FromBigEndianSnoc(BigEndian(n / 256, k - 1), n % 256);
    }
  }

  /** Most significant first: byte `i` of `k` counts 256 to the power `k - 1 - i`. */
  lemma {:induction false} BigEndianAt(n: nat, k: nat, i: nat)
    requires i < k
    ensures BigEndian(n, k)[i] == n / Pow256(k - 1 - i) % 256
  {
    if i < k - 1 {
      BigEndianAt(n / 256, k - 1, i);
      DivideTwice(n, 256, Pow256(k - 2 - i));
    }
  }

  lemma FromBigEndianTwo(s: seq<byte>)
    requires |s| == 2
    ensures FromBigEndian(s) == 256 * s[0] as nat + s[1] as nat
  {
    FromBigEndianSnoc([], s[0]);
    FromBigEndianSnoc([s[0]], s[1]);
    assert [] + [s[0]] == [s[0]] && [s[0]] + [s[1]] == s;
  }

  lemma FromBigEndianFour(s: seq<byte>)
    requires |s| == 4
    ensures FromBigEndian(s) == 0x100_0000 * s[0] as nat + 0x1_0000 * s[1] as nat + 0x100 * s[2] as nat + s[3] as nat
  {
    FromBigEndianTwo(s[..2]);
    FromBigEndianSnoc(s[..2], s[2]);
    FromBigEndianSnoc(s[..3], s[3]);
    assert s[..2] + [s[2]] == s[..3] && s[..3] + [s[3]] == s;
  }

  lemma FromBigEndianEight(s: seq<byte>)
    requires |s| == 8
    ensures FromBigEndian(s) ==
              0x100_0000_0000_0000 * s[0] as nat + 0x1_0000_0000_0000 * s[1] as nat + 0x100_0000_0000 * s[2] as nat
              + 0x1_0000_0000 * s[3] as nat + 0x100_0000 * s[4] as nat + 0x1_0000 * s[5] as nat
              + 0x100 * s[6] as nat + s[7] as nat
  {
    FromBigEndianFour(s[..4]);
    FromBigEndianSnoc(s[..4], s[4]);
    FromBigEndianSnoc(s[..5], s[5]);
    FromBigEndianSnoc(s[..6], s[6]);
    FromBigEndianSnoc(s[..7], s[7]);
    assert s[..4] + [s[4]] == s[..5] && s[..5] + [s[5]] == s[..6];
    assert s[..6] + [s[6]] == s[..7] && s[..7] + [s[7]] == s;
  }
}

/** Powers of two and ten: natural powers for word arithmetic, and real powers
    with integer exponents for what the words stand for. */
module Powers {

  function Pow2(n: nat): (p: nat)
    ensures p > 0
  {
    if n == 0 then 1 else 2 * Pow2(n - 1)
  }

  function Pow10(n: nat): (p: nat)
    ensures p > 0
  {
    if n == 0 then 1 else 10 * Pow10(n - 1)
  }

  lemma {:induction false} Pow2Add(m: nat, n: nat)
    ensures Pow2(m + n) == Pow2(m) * Pow2(n)
  {
    if m == 0 {
    } else {
      Pow2Add(m - 1, n);
      assert Pow2(m + n) == 2 * (Pow2(m - 1) * Pow2(n));
    }
  }

  lemma {:induction false} Pow10Add(m: nat, n: nat)
    ensures Pow10(m + n) == Pow10(m) * Pow10(n)
  {
    if m == 0 {
    } else {
      Pow10Add(m - 1, n);
      assert Pow10(m + n) == 10 * (Pow10(m - 1) * Pow10(n));
    }
  }

  lemma {:induction false} Pow10Monotone(m: nat, n: nat)
    requires m <= n
    ensures Pow10(m) <= Pow10(n)
  {
    if m == n {
    } else {
      Pow10Monotone(m, n - 1);
    }
  }

  lemma {:induction false} Pow2Monotone(m: nat, n: nat)
    requires m <= n
    ensures Pow2(m) <= Pow2(n)
  {
    if m == n {
    } else {
      Pow2Monotone(m, n - 1);
    }
  }

  /** The exponents order powers of ten strictly. */
  lemma Pow10Order(m: nat, n: nat)
    requires Pow10(m) < Pow10(n)
    ensures m < n
  {
    if n <= m {
      Pow10Monotone(n, m);
    }
  }

  lemma Pow2Step(n: nat)
    ensures Pow2(n + 1) == 2 * Pow2(n)
  {
  }

  lemma Pow10Step(n: nat)
    ensures Pow10(n + 1) == 10 * Pow10(n)
  {
  }

  lemma Pow2Values()
    ensures Pow2(8) == 0x100
    ensures Pow2(9) == 0x200
    ensures Pow2(10) == 0x400
    ensures Pow2(11) == 0x800
    ensures Pow2(26) == 0x400_0000
    ensures Pow2(27) == 0x800_0000
    ensures Pow2(32) == 0x1_0000_0000
    ensures Pow2(52) == 0x10_0000_0000_0000
    ensures Pow2(53) == 0x20_0000_0000_0000
    ensures Pow2(60) == 0x1000_0000_0000_0000
    ensures Pow2(64) == 0x1_0000_0000_0000_0000
  {
    assert Pow2(5) == 32;
    Pow2Add(5, 3);
    Pow2Add(8, 1);
    Pow2Add(9, 1);
    Pow2Add(10, 1);
    Pow2Add(16, 10);
    Pow2Add(8, 8);
    Pow2Add(26, 1);
    Pow2Add(16, 16);
    Pow2Add(26, 26);
    Pow2Add(52, 1);
    Pow2Add(52, 8);
    Pow2Add(32, 32);
  }

  lemma Pow10Values()
    ensures Pow10(1) == 10
    ensures Pow10(2) == 100
    ensures Pow10(3) == 1000
    ensures Pow10(4) == 10000
    ensures Pow10(5) == 100000
    ensures Pow10(6) == 1000000
    ensures Pow10(7) == 10000000
    ensures Pow10(8) == 100000000
    ensures Pow10(9) == 1000000000
    ensures Pow10(10) == 10000000000
    ensures Pow10(16) == 10000000000000000
    ensures Pow10(17) == 100000000000000000
  {
    assert Pow10(3) == 1000;
    Pow10Add(4, 1);
    Pow10Add(4, 2);
    Pow10Add(4, 3);
    Pow10Add(4, 4);
    Pow10Add(8, 1);
    Pow10Add(8, 2);
    Pow10Add(8, 8);
    Pow10Add(16, 1);
  }

  lemma ScaleUp(c: real, x: real, y: real, z: real, cx: real, cz: real)
    requires cx == c * x && cz == c * z && z == x * y
    ensures cz == cx * y
  {
  }

  lemma ScaleDown(c: real, x: real, y: real, z: real, cx: real, cz: real)
    requires c > 0.0 && cx == c * x && cz == c * z && cz == cx * y
    ensures z == x * y
  {
    assert cx * y == c * (x * y);
    assert c * (z - x * y) == 0.0;
  }

  /** 2^n for any integer n. */
  function Two(n: int): (p: real)
    ensures p > 0.0
    decreases if n < 0 then -n else n
  {
    if n == 0 then 1.0
    else if n > 0 then 2.0 * Two(n - 1)
    else Two(n + 1) / 2.0
  }

  lemma TwoStep(n: int)
    ensures Two(n + 1) == 2.0 * Two(n)
  {
  }

  lemma {:induction false} TwoAdd(m: int, n: int)
    ensures Two(m + n) == Two(m) * Two(n)
    decreases if m < 0 then -m else m
  {
    hide Two;
    if m == 0 {
      TwoZero();
    } else if m > 0 {
      TwoAdd(m - 1, n);
      TwoStep(m - 1 + n);
      TwoStep(m - 1);
      ScaleUp(2.0, Two(m - 1), Two(n), Two(m - 1 + n), Two(m), Two(m + n));
    } else {
      TwoAdd(m + 1, n);
      TwoStep(m + n);
      TwoStep(m);
      ScaleDown(2.0, Two(m), Two(n), Two(m + n), Two(m + 1), Two(m + 1 + n));
    }
  }

  lemma TwoZero()
    ensures Two(0) == 1.0
  {
  }

  lemma TwoInverse(n: int)
    ensures Two(n) * Two(-n) == 1.0
  {
    hide Two;
    TwoAdd(n, -n);
    TwoZero();
  }

  lemma {:induction false} TwoOfNat(n: nat)
    ensures Two(n) == Pow2(n) as real
  {
    if n == 0 {
    } else {
      TwoOfNat(n - 1);
    }
  }

  /** 10^n for any integer n. */
  function Ten(n: int): (p: real)
    ensures p > 0.0
    decreases if n < 0 then -n else n
  {
    if n == 0 then 1.0
    else if n > 0 then 10.0 * Ten(n - 1)
    else Ten(n + 1) / 10.0
  }

  lemma TenStep(n: int)
    ensures Ten(n + 1) == 10.0 * Ten(n)
  {
  }

  lemma {:induction false} TenAdd(m: int, n: int)
    ensures Ten(m + n) == Ten(m) * Ten(n)
    decreases if m < 0 then -m else m
  {
    hide Ten;
    if m == 0 {
      TenZero();
    } else if m > 0 {
      TenAdd(m - 1, n);
      TenStep(m - 1 + n);
      TenStep(m - 1);
      ScaleUp(10.0, Ten(m - 1), Ten(n), Ten(m - 1 + n), Ten(m), Ten(m + n));
    } else {
      TenAdd(m + 1, n);
      TenStep(m + n);
      TenStep(m);
      ScaleDown(10.0, Ten(m), Ten(n), Ten(m + n), Ten(m + 1), Ten(m + 1 + n));
    }
  }

  lemma TenZero()
    ensures Ten(0) == 1.0
  {
  }

  lemma TenInverse(n: int)
    ensures Ten(n) * Ten(-n) == 1.0
  {
    hide Ten;
    TenAdd(n, -n);
    TenZero();
  }

  lemma {:induction false} TenOfNat(n: nat)
    ensures Ten(n) == Pow10(n) as real
  {
    if n == 0 {
    } else {
      TenOfNat(n - 1);
    }
  }
}

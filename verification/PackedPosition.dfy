/** Block positions packed into one number, ten bits for each axis. */
module PackedPosition {

  // ----- bit operations -----

  function Power2(k: nat): (p: nat)
    ensures p >= 1
  {
    if k == 0 then 1 else 2 * Power2(k - 1)
  }

  /** Bitwise and; the bits of a negative number are those of its two's complement. */
  function And(n: int, mask: nat): nat
    decreases mask
  {
    if mask == 0 then 0
    else (if n % 2 == 1 && mask % 2 == 1 then 1 else 0) + 2 * And(n / 2, mask / 2)
  }

  /** Bitwise or. */
  function Or(a: nat, b: nat): nat {
    if a == 0 then b
    else (if a % 2 == 1 || b % 2 == 1 then 1 else 0) + 2 * Or(a / 2, b / 2)
  }

  function ShiftLeft(n: nat, k: nat): nat {
    if k == 0 then n else 2 * ShiftLeft(n, k - 1)
  }

  /** A mask of k ones keeps the remainder, of a negative number too. */
  lemma {:induction false} MaskIsRemainder(n: int, k: nat)
    ensures And(n, Power2(k) - 1) == n % Power2(k)
    decreases k
  {
    if k > 0 {
      MaskIsRemainder(n / 2, k - 1);
      WiderMask(n, Power2(k - 1));
    }
  }

  lemma {:induction false} WiderMask(n: int, half: nat)
    requires half > 0 && And(n / 2, half - 1) == n / 2 % half
    ensures And(n, 2 * half - 1) == n % (2 * half)
  {
    AndOfOnes(n, half);
    RemainderOfHalf(n, half);
  }

  lemma {:induction false} AndOfOnes(n: int, half: nat)
    requires half > 0
    ensures And(n, 2 * half - 1) == n % 2 + 2 * And(n / 2, half - 1)
  {
  }

  lemma {:induction false} RemainderOfHalf(n: int, half: int)
    requires half > 0
    ensures n % (2 * half) == n % 2 + 2 * (n / 2 % half)
  {
    var q := n / 2 / half;
    assert n / 2 == q * half + n / 2 % half;
    assert n == q * (2 * half) + (n % 2 + 2 * (n / 2 % half));
    RemainderIsUnique(n, 2 * half, q, n % 2 + 2 * (n / 2 % half));
  }

  lemma {:induction false} RemainderIsUnique(n: int, m: int, q: int, r: int)
    requires 0 <= r < m && n == q * m + r
    ensures n % m == r
  {
    assert n == n / m * m + n % m;
    NoSmallMultiple(n / m - q, m);
  }

  lemma {:induction false} NoSmallMultiple(t: int, m: int)
    requires m > 0
    ensures t != 0 ==> t * m >= m || t * m <= -m
  {
    if t > 0 {
      MultipleIsLarge(t, m);
    } else if t < 0 {
      MultipleIsLarge(-t, m);
    }
  }

  lemma {:induction false} MultipleIsLarge(t: int, m: int)
    requires t > 0 && m > 0
    ensures t * m >= m
  {
    if t > 1 {
      MultipleIsLarge(t - 1, m);
    }
  }

  lemma {:induction false} ShiftIsProduct(n: nat, k: nat)
    ensures ShiftLeft(n, k) == Power2(k) * n
  {
    if k > 0 {
      ShiftIsProduct(n, k - 1);
    }
  }

  /** Fields that do not overlap are added. */
  lemma {:induction false} OrIsSum(a: nat, b: nat, k: nat)
    requires a < Power2(k)
    ensures Or(a, ShiftLeft(b, k)) == a + ShiftLeft(b, k)
  {
    if a > 0 {
      OrIsSum(a / 2, b, k - 1);
      OrOfEven(a, ShiftLeft(b, k - 1));
    }
  }

  lemma {:induction false} OrOfEven(a: nat, half: nat)
    requires a > 0 && Or(a / 2, half) == a / 2 + half
    ensures Or(a, 2 * half) == a + 2 * half
  {
  }

  // ----- keys -----

  /** The key of a position: three digits in base 1024. */
  function KeyOf(x: int, y: int, z: int): nat {
    x % 1024 + 1024 * (y % 1024) + 1_048_576 * (z % 1024)
  }

  /** The bit operations of encodePosition make that key. */
  method EncodePosition(x: int, y: int, z: int) returns (key: nat)
    ensures key == KeyOf(x, y, z)
  {
    TenBits(x);
    TenBits(y);
    TenBits(z);
    SecondField(And(x, 1023), And(y, 1023));
    ThirdField(x % 1024 + 1024 * (y % 1024), And(z, 1023));
    return Or(Or(And(x, 1023), ShiftLeft(And(y, 1023), 10)), ShiftLeft(And(z, 1023), 20));
  }

  /** Two positions share a key exactly when every coordinate agrees modulo 1024. */
  lemma {:induction false} KeysCollide(x: int, y: int, z: int, x': int, y': int, z': int)
    ensures KeyOf(x, y, z) == KeyOf(x', y', z') <==> x % 1024 == x' % 1024 && y % 1024 == y' % 1024 && z % 1024 == z' % 1024
  {
    Digits(x % 1024, y % 1024, z % 1024);
    Digits(x' % 1024, y' % 1024, z' % 1024);
  }

  lemma {:induction false} Digits(a: int, b: int, c: int)
    requires 0 <= a < 1024 && 0 <= b < 1024 && 0 <= c < 1024
    ensures
      var packed := a + 1024 * b + 1_048_576 * c;
      a == packed % 1024 && b == packed / 1024 % 1024 && c == packed / 1_048_576
  {
    var packed := a + 1024 * b + 1_048_576 * c;
    assert packed == a + 1024 * (b + 1024 * c);
    assert packed / 1024 == b + 1024 * c;
    assert packed == (a + 1024 * b) + 1_048_576 * c && 0 <= a + 1024 * b < 1_048_576;
  }

  lemma {:induction false} TenBits(n: int)
    ensures And(n, 1023) == n % 1024
  {
    assert Power2(5) == 32;
    assert Power2(10) == 1024;
    MaskIsRemainder(n, 10);
  }

  lemma {:induction false} SecondField(a: nat, b: nat)
    requires a < 1024
    ensures Or(a, ShiftLeft(b, 10)) == a + 1024 * b
  {
    assert Power2(5) == 32;
    assert Power2(10) == 1024;
    ShiftIsProduct(b, 10);
    OrIsSum(a, b, 10);
  }

  lemma {:induction false} ThirdField(a: nat, b: nat)
    requires a < 1_048_576
    ensures Or(a, ShiftLeft(b, 20)) == a + 1_048_576 * b
  {
    assert Power2(5) == 32;
    assert Power2(10) == 1024;
    assert Power2(15) == 32_768;
    ShiftIsProduct(b, 20);
    OrIsSum(a, b, 20);
  }
}

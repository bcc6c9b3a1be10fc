/** The verification code `pin_code` shows (src/quick_share_crypto.rs:455-463). */
module Pin {
  import opened Prelude

  const MODULUS: int := 9_973

  /** A 32-bit signed integer; assigning to one is a proof that nothing overflows. */
  type i32 = x: int | -0x8000_0000 <= x <= 0x7fff_ffff

  /** `byte as i8`. */
  function Signed(b: byte): int {
    if b < 128 then b else b - 256
  }

  /** The remainder of the machine: the quotient is truncated towards zero. */
  function Remainder(a: int, m: int): int
    requires m > 0
  {
    if a >= 0 then a % m else -((-a) % m)
  }

  function HashAt(key: bytes, i: nat): int
    requires i <= |key|
  {
    if i == 0 then 0
    else Remainder(HashAt(key, i - 1) + Signed(key[i - 1]) * MultiplierAt(i - 1), MODULUS)
  }

  function MultiplierAt(i: nat): int {
    if i == 0 then 1 else Remainder(MultiplierAt(i - 1) * 31, MODULUS)
  }

  function Digit(n: nat): char
    requires n < 10
  {
    ('0' as int + n) as char
  }

  /** `{:04}` of a number below 10,000. */
  function FourDigits(n: nat): (s: string)
    requires n < 10_000
    ensures |s| == 4
  {
    [Digit(n / 1000), Digit(n / 100 % 10), Digit(n / 10 % 10), Digit(n % 10)]
  }

  // ------------------------------------------------------------------
  // The polynomial as a reference

  function Power(i: nat): int {
    if i == 0 then 1 else 31 * Power(i - 1)
  }

  /** The sum of `Signed(key[i]) * 31^i`, with no reduction at all. */
  function Polynomial(key: bytes, i: nat): int
    requires i <= |key|
  {
    if i == 0 then 0 else Polynomial(key, i - 1) + Signed(key[i - 1]) * Power(i - 1)
  }

  // ------------------------------------------------------------------

  /** A signed octet is the one number from -128 to 127 that it is congruent to. */
  lemma SignedOctet(b: byte)
    ensures -128 <= Signed(b) < 128 && (b as int - Signed(b)) % 256 == 0
  {
  }

  /** The remainder has the sign of the dividend. */
  lemma RemainderBound(a: int, m: int)
    requires m > 0
    ensures -m < Remainder(a, m) < m
    ensures a >= 0 ==> Remainder(a, m) >= 0
    ensures a <= 0 ==> Remainder(a, m) <= 0
  {
  }

  lemma RemainderIsCongruent(a: int, m: int) returns (q: int)
    requires m > 0
    ensures Remainder(a, m) == a - q * m
  {
    if a >= 0 {
      q := a / m;
    } else {
      q := -((-a) / m);
      assert (-a) == ((-a) / m) * m + (-a) % m;
    }
  }

  lemma {:induction false} MultiplierBound(i: nat)
    ensures 0 <= MultiplierAt(i) < MODULUS
  {
    if i > 0 {
      MultiplierBound(i - 1);
    }
  }

  lemma HashBound(key: bytes, i: nat)
    requires i <= |key|
    ensures -MODULUS < HashAt(key, i) < MODULUS
  {
    if i > 0 {
      RemainderBound(HashAt(key, i - 1) + Signed(key[i - 1]) * MultiplierAt(i - 1), MODULUS);
    }
  }

  lemma NotNegative(a: nat, b: nat)
    ensures a * b >= 0
  {
  }

  lemma ProductBound(s: int, m: int)
    requires -128 <= s <= 127 && 0 <= m < MODULUS
    ensures -128 * MODULUS <= s * m <= 127 * MODULUS
  {
    NotNegative(s + 128, m);
    NotNegative(127 - s, m);
    assert (s + 128) * m == s * m + 128 * m && (127 - s) * m == 127 * m - s * m;
  }

  /** The multiplier at step `i` is 31^i modulo 9973. */
  lemma {:induction false} MultiplierIsPower(i: nat) returns (q: int)
    ensures MultiplierAt(i) == Power(i) - q * MODULUS
    ensures MultiplierAt(i) == Power(i) % MODULUS
  {
    MultiplierBound(i);
    if i == 0 {
      q := 0;
    } else {
      var before := MultiplierIsPower(i - 1);
      var t := RemainderIsCongruent(MultiplierAt(i - 1) * 31, MODULUS);
      q := 31 * before + t;
      assert MultiplierAt(i) == Power(i) - q * MODULUS;
    }
    ResidueIsUnique(Power(i), MultiplierAt(i), q);
  }

  lemma ResidueIsUnique(a: int, r: int, q: int)
    requires 0 <= r < MODULUS && r == a - q * MODULUS
    ensures r == a % MODULUS
  {
    assert a == q * MODULUS + r;
  }

  /** The running hash is congruent to the polynomial. */
  lemma {:induction false} HashIsPolynomial(key: bytes, i: nat) returns (q: int)
    requires i <= |key|
    ensures HashAt(key, i) == Polynomial(key, i) - q * MODULUS
  {
    if i == 0 {
      q := 0;
    } else {
      var before := HashIsPolynomial(key, i - 1);
      var k := MultiplierIsPower(i - 1);
      var s, m, p := Signed(key[i - 1]), MultiplierAt(i - 1), Power(i - 1);
      var t := RemainderIsCongruent(HashAt(key, i - 1) + s * m, MODULUS);
      Distribute(s, p, k);
      q := before + s * k + t;
      assert HashAt(key, i) == Polynomial(key, i - 1) - before * MODULUS + (s * p - (s * k) * MODULUS) - t * MODULUS;
    }
  }

  lemma Distribute(s: int, p: int, k: int)
    ensures s * (p - k * MODULUS) == s * p - (s * k) * MODULUS
  {
  }

  /** The code is the polynomial modulo 9973, or -- when the truncated remainder is negative -- its complement. */
  lemma {:induction false} CodeIsResidueOrComplement(key: bytes)
    ensures var hash, s := HashAt(key, |key|), Polynomial(key, |key|);
            && (hash >= 0 ==> hash == s % MODULUS)
            && (hash < 0 ==> -hash == MODULUS - s % MODULUS)
  {
    var hash, s := HashAt(key, |key|), Polynomial(key, |key|);
    HashBound(key, |key|);
    var q := HashIsPolynomial(key, |key|);
    if hash >= 0 {
      ResidueIsUnique(s, hash, q);
    } else {
      ResidueIsUnique(s, hash + MODULUS, q - 1);
    }
  }

  lemma FourDigitsRead(n: nat)
    requires n < 10_000
    ensures forall i :: 0 <= i < 4 ==> '0' <= FourDigits(n)[i] <= '9'
    ensures ValueOf(FourDigits(n)) == n
  {
    var s := FourDigits(n);
    assert s[..3][..2] == s[..2] && s[..2][..1] == s[..1] && s[..1][..0] == "";
    assert ValueOf(s[..1]) == n / 1000;
    assert ValueOf(s[..2]) == n / 100;
    assert ValueOf(s[..3]) == n / 10;
  }

  function Abs(n: int): nat {
    if n < 0 then -n else n
  }

  function PinOf(key: bytes): (pin: string)
    ensures |pin| == 4
  {
    assert Abs(HashAt(key, |key|)) < 10_000 by { HashBound(key, |key|); }
    FourDigits(Abs(HashAt(key, |key|)))
  }

  /** For every byte string the code is exactly four digits, no intermediate value leaves 32 bits, and read as
      a number the code is the polynomial sum modulo 9973 or the complement of that to 9973. */
  method PinCode(authKey: bytes) returns (pin: string)
    ensures pin == PinOf(authKey) && forall i :: 0 <= i < 4 ==> '0' <= pin[i] <= '9'
    ensures ValueOf(pin) == Abs(HashAt(authKey, |authKey|))
    ensures var residue := Polynomial(authKey, |authKey|) % MODULUS;
            ValueOf(pin) == residue || ValueOf(pin) == MODULUS - residue
  {
    var hash: i32, multiplier: i32 := 0, 1;
    var i := 0;
    while i < |authKey|
      invariant 0 <= i <= |authKey|
      invariant hash == HashAt(authKey, i) && multiplier == MultiplierAt(i)
    {
      MultiplierBound(i);
      HashBound(authKey, i);
      ProductBound(Signed(authKey[i]), multiplier);
      var product: i32 := Signed(authKey[i]) * multiplier;
      var sum: i32 := hash + product;
      RemainderBound(sum, MODULUS);
      hash := Remainder(sum, MODULUS);
      var next: i32 := multiplier * 31;
      RemainderBound(next, MODULUS);
      multiplier := Remainder(next, MODULUS);
      i := i + 1;
    }
    HashBound(authKey, |authKey|);
    CodeIsResidueOrComplement(authKey);
    FourDigitsRead(Abs(hash));
    pin := FourDigits(Abs(hash));
  }
}

/** Where the constants of the SHA family come from, sections 4.2 and 5.3 of FIPS 180-4: the first bits of
    the fractional parts of the square and cube roots of the first primes. */
module ShaConstants {
  import opened Division
  import Sha1Spec
  import Sha256Example
  import Sha256Spec
  import Sha512Example
  import Sha512Spec

  const TWO32: nat := 0x1_0000_0000

  const TWO64: nat := 0x1_0000_0000_0000_0000

  const TWO96: nat := 0x1_0000_0000_0000_0000_0000_0000

  const TWO128: nat := 0x1_0000_0000_0000_0000_0000_0000_0000_0000

  const TWO192: nat := 0x1_0000_0000_0000_0000_0000_0000_0000_0000_0000_0000_0000_0000

  // ---------------------------------------------------------------------------------------
  // The first primes
  // ---------------------------------------------------------------------------------------

  ghost predicate IsPrime(n: nat) { n >= 2 && forall d :: 2 <= d < n ==> n % d != 0 }

  ghost predicate NoneBetween(p: nat, q: nat) { forall n :: p < n < q ==> !IsPrime(n) }

  /** `p` is the prime number `t`, the first being number 0. */
  ghost predicate IsNth(t: nat, p: nat) {
    IsPrime(p) && if t == 0 then NoneBetween(0, p) else exists r: nat :: r < p && IsNth(t - 1, r) && NoneBetween(r, p)
  }

  /** Some prime below 20 divides `n` and is not `n`. */
  predicate SmallFactor(n: nat) {
    || (n > 2 && n % 2 == 0) || (n > 3 && n % 3 == 0) || (n > 5 && n % 5 == 0) || (n > 7 && n % 7 == 0)
    || (n > 11 && n % 11 == 0) || (n > 13 && n % 13 == 0) || (n > 17 && n % 17 == 0) || (n > 19 && n % 19 == 0)
  }

  /** Below 23 * 23 it is enough to try the primes below 20. */
  lemma TrialDivision(n: nat)
    requires 2 <= n < 529
    ensures IsPrime(n) <==> !SmallFactor(n)
  {
    if !SmallFactor(n) {
      forall d | 2 <= d < n ensures n % d != 0 {
        NoFactor(n, d);
      }
    }
  }

  /** A factor is not above 22, or the factor that goes with it is not. */
  lemma NoFactor(n: nat, d: nat)
    requires 2 <= d < n < 529 && !SmallFactor(n)
    ensures n % d != 0
  {
    hide SmallFactor;
    if n % d == 0 {
      var q := n / d;
      assert n == d * q;
      if d < 23 {
        SmallMultiple(n, d, q);
      } else {
        assert 2 <= q < 23 by {
          assert q >= 23 ==> d * q >= 23 * q;
        }
        SmallMultiple(n, q, d);
      }
      assert false;
    }
  }

  lemma SmallMultiple(n: nat, d: nat, q: nat)
    requires 2 <= d < 23 && d < n && n == d * q
    ensures SmallFactor(n)
  {
    if d % 2 == 0 {
      Remainder(n, 2, d / 2 * q, 0);
    } else if d % 3 == 0 {
      Remainder(n, 3, d / 3 * q, 0);
    } else {
      assert d in {5, 7, 11, 13, 17, 19};
      Remainder(n, d, q, 0);
    }
  }

  /** All numbers between `lo` and `hi` have small factors. */
  predicate NonePrime(lo: nat, hi: nat)
    decreases hi - lo
  {
    lo + 1 >= hi || (SmallFactor(lo + 1) && NonePrime(lo + 1, hi))
  }

  lemma {:induction false} NoneIsPrime(lo: nat, hi: nat, n: nat)
    requires NonePrime(lo, hi) && 1 <= lo < n < hi < 529
    ensures !IsPrime(n)
    decreases n - lo
  {
    if n == lo + 1 {
      TrialDivision(n);
    } else {
      NoneIsPrime(lo + 1, hi, n);
    }
  }

  lemma FirstPrime()
    ensures IsNth(0, 2)
  {
  }

  lemma NextPrime(t: nat, p: nat, q: nat)
    requires IsNth(t, p) && 2 <= p < q < 529 && !SmallFactor(q) && NonePrime(p, q)
    ensures IsNth(t + 1, q)
  {
    TrialDivision(q);
    forall n | p < n < q ensures !IsPrime(n) {
      NoneIsPrime(p, q, n);
    }
    assert NoneBetween(p, q);
  }

  lemma OnlyNext(r: nat, p: nat, q: nat)
    requires r < p && r < q && IsPrime(p) && IsPrime(q) && NoneBetween(r, p) && NoneBetween(r, q)
    ensures p == q
  {
    hide IsPrime;
  }

  /** There is only one prime number `t`. */
  lemma {:induction false} NthIsUnique(t: nat, p: nat, q: nat)
    requires IsNth(t, p) && IsNth(t, q)
    ensures p == q
  {
    if t == 0 {
      OnlyNext(0, p, q);
    } else {
      var r: nat :| r < p && IsNth(t - 1, r) && NoneBetween(r, p);
      var s: nat :| s < q && IsNth(t - 1, s) && NoneBetween(s, q);
      NthIsUnique(t - 1, r, s);
      OnlyNext(r, p, q);
    }
  }

  lemma Primes0()
    ensures IsNth(0, 2) && IsNth(1, 3) && IsNth(2, 5) && IsNth(3, 7)
  {
    hide IsNth;
    FirstPrime();
    NextPrime(0, 2, 3);
    NextPrime(1, 3, 5);
    NextPrime(2, 5, 7);
  }

  lemma Primes4()
    ensures IsNth(4, 11) && IsNth(5, 13) && IsNth(6, 17) && IsNth(7, 19)
  {
    hide IsNth;
    Primes0();
    NextPrime(3, 7, 11);
    NextPrime(4, 11, 13);
    NextPrime(5, 13, 17);
    NextPrime(6, 17, 19);
  }

  lemma Primes8()
    ensures IsNth(8, 23) && IsNth(9, 29) && IsNth(10, 31) && IsNth(11, 37)
  {
    hide IsNth;
    Primes4();
    NextPrime(7, 19, 23);
    NextPrime(8, 23, 29);
    NextPrime(9, 29, 31);
    NextPrime(10, 31, 37);
  }

  lemma Primes12()
    ensures IsNth(12, 41) && IsNth(13, 43) && IsNth(14, 47) && IsNth(15, 53)
  {
    hide IsNth;
    Primes8();
    NextPrime(11, 37, 41);
    NextPrime(12, 41, 43);
    NextPrime(13, 43, 47);
    NextPrime(14, 47, 53);
  }

  lemma Primes16()
    ensures IsNth(16, 59) && IsNth(17, 61) && IsNth(18, 67) && IsNth(19, 71)
  {
    hide IsNth;
    Primes12();
    NextPrime(15, 53, 59);
    NextPrime(16, 59, 61);
    NextPrime(17, 61, 67);
    NextPrime(18, 67, 71);
  }

  lemma Primes20()
    ensures IsNth(20, 73) && IsNth(21, 79) && IsNth(22, 83) && IsNth(23, 89)
  {
    hide IsNth;
    Primes16();
    NextPrime(19, 71, 73);
    NextPrime(20, 73, 79);
    NextPrime(21, 79, 83);
    NextPrime(22, 83, 89);
  }

  lemma Primes24()
    ensures IsNth(24, 97) && IsNth(25, 101) && IsNth(26, 103) && IsNth(27, 107)
  {
    hide IsNth;
    Primes20();
    NextPrime(23, 89, 97);
    NextPrime(24, 97, 101);
    NextPrime(25, 101, 103);
    NextPrime(26, 103, 107);
  }

  lemma Primes28()
    ensures IsNth(28, 109) && IsNth(29, 113) && IsNth(30, 127) && IsNth(31, 131)
  {
    hide IsNth;
    Primes24();
    NextPrime(27, 107, 109);
    NextPrime(28, 109, 113);
    NextPrime(29, 113, 127);
    NextPrime(30, 127, 131);
  }

  lemma Primes32()
    ensures IsNth(32, 137) && IsNth(33, 139) && IsNth(34, 149) && IsNth(35, 151)
  {
    hide IsNth;
    Primes28();
    NextPrime(31, 131, 137);
    NextPrime(32, 137, 139);
    NextPrime(33, 139, 149);
    NextPrime(34, 149, 151);
  }

  lemma Primes36()
    ensures IsNth(36, 157) && IsNth(37, 163) && IsNth(38, 167) && IsNth(39, 173)
  {
    hide IsNth;
    Primes32();
    NextPrime(35, 151, 157);
    NextPrime(36, 157, 163);
    NextPrime(37, 163, 167);
    NextPrime(38, 167, 173);
  }

  lemma Primes40()
    ensures IsNth(40, 179) && IsNth(41, 181) && IsNth(42, 191) && IsNth(43, 193)
  {
    hide IsNth;
    Primes36();
    NextPrime(39, 173, 179);
    NextPrime(40, 179, 181);
    NextPrime(41, 181, 191);
    NextPrime(42, 191, 193);
  }

  lemma Primes44()
    ensures IsNth(44, 197) && IsNth(45, 199) && IsNth(46, 211) && IsNth(47, 223)
  {
    hide IsNth;
    Primes40();
    NextPrime(43, 193, 197);
    NextPrime(44, 197, 199);
    NextPrime(45, 199, 211);
    NextPrime(46, 211, 223);
  }

  lemma Primes48()
    ensures IsNth(48, 227) && IsNth(49, 229) && IsNth(50, 233) && IsNth(51, 239)
  {
    hide IsNth;
    Primes44();
    NextPrime(47, 223, 227);
    NextPrime(48, 227, 229);
    NextPrime(49, 229, 233);
    NextPrime(50, 233, 239);
  }

  lemma Primes52()
    ensures IsNth(52, 241) && IsNth(53, 251) && IsNth(54, 257) && IsNth(55, 263)
  {
    hide IsNth;
    Primes48();
    NextPrime(51, 239, 241);
    NextPrime(52, 241, 251);
    NextPrime(53, 251, 257);
    NextPrime(54, 257, 263);
  }

  lemma Primes56()
    ensures IsNth(56, 269) && IsNth(57, 271) && IsNth(58, 277) && IsNth(59, 281)
  {
    hide IsNth;
    Primes52();
    NextPrime(55, 263, 269);
    NextPrime(56, 269, 271);
    NextPrime(57, 271, 277);
    NextPrime(58, 277, 281);
  }

  lemma Primes60()
    ensures IsNth(60, 283) && IsNth(61, 293) && IsNth(62, 307) && IsNth(63, 311)
  {
    hide IsNth;
    Primes56();
    NextPrime(59, 281, 283);
    NextPrime(60, 283, 293);
    NextPrime(61, 293, 307);
    NextPrime(62, 307, 311);
  }

  lemma Primes64()
    ensures IsNth(64, 313) && IsNth(65, 317) && IsNth(66, 331) && IsNth(67, 337)
  {
    hide IsNth;
    Primes60();
    NextPrime(63, 311, 313);
    NextPrime(64, 313, 317);
    NextPrime(65, 317, 331);
    NextPrime(66, 331, 337);
  }

  lemma Primes68()
    ensures IsNth(68, 347) && IsNth(69, 349) && IsNth(70, 353) && IsNth(71, 359)
  {
    hide IsNth;
    Primes64();
    NextPrime(67, 337, 347);
    NextPrime(68, 347, 349);
    NextPrime(69, 349, 353);
    NextPrime(70, 353, 359);
  }

  lemma Primes72()
    ensures IsNth(72, 367) && IsNth(73, 373) && IsNth(74, 379) && IsNth(75, 383)
  {
    hide IsNth;
    Primes68();
    NextPrime(71, 359, 367);
    NextPrime(72, 367, 373);
    NextPrime(73, 373, 379);
    NextPrime(74, 379, 383);
  }

  lemma Primes76()
    ensures IsNth(76, 389) && IsNth(77, 397) && IsNth(78, 401) && IsNth(79, 409)
  {
    hide IsNth;
    Primes72();
    NextPrime(75, 383, 389);
    NextPrime(76, 389, 397);
    NextPrime(77, 397, 401);
    NextPrime(78, 401, 409);
  }

  // ---------------------------------------------------------------------------------------
  // Roots
  // ---------------------------------------------------------------------------------------

  /** `q` is the cube root of `x`, rounded down. */
  predicate CubeRoot(x: nat, q: nat) { q * q * q <= x < (q + 1) * (q + 1) * (q + 1) }

  /** `q` is the square root of `x`, rounded down. */
  predicate SquareRoot(x: nat, q: nat) { q * q <= x < (q + 1) * (q + 1) }

  lemma CubesGrow(a: nat, b: nat)
    requires a <= b
    ensures a * a * a <= b * b * b
  {
    SquaresGrow(a, b);
    assert a * a * a <= b * b * a;
    assert b * b * a <= b * b * b;
  }

  lemma SquaresGrow(a: nat, b: nat)
    requires a <= b
    ensures a * a <= b * b
  {
    assert a * a <= a * b;
    assert a * b <= b * b;
  }

  lemma CubeRootIsUnique(x: nat, q: nat, r: nat)
    requires CubeRoot(x, q) && CubeRoot(x, r)
    ensures q == r
  {
    if q < r {
      CubesGrow(q + 1, r);
      assert false;
    } else if r < q {
      CubesGrow(r + 1, q);
      assert false;
    }
  }

  lemma SquareRootIsUnique(x: nat, q: nat, r: nat)
    requires SquareRoot(x, q) && SquareRoot(x, r)
    ensures q == r
  {
    if q < r {
      SquaresGrow(q + 1, r);
      assert false;
    } else if r < q {
      SquaresGrow(r + 1, q);
      assert false;
    }
  }

  /** The root to half as many places is the first half of it. */
  lemma HalfTheCubeRoot(p: nat, q: nat)
    requires CubeRoot(p * TWO192, q)
    ensures CubeRoot(p * TWO96, q / TWO32)
  {
    var r := q / TWO32;
    CubesGrow(TWO32 * r, q);
    CubesGrow(q + 1, TWO32 * (r + 1));
    CubeOfProduct(r);
    CubeOfProduct(r + 1);
  }

  lemma CubeOfProduct(r: nat)
    ensures TWO32 * r * (TWO32 * r) * (TWO32 * r) == TWO96 * (r * r * r)
  {
    assert TWO32 * r * (TWO32 * r) == TWO64 * (r * r);
    assert TWO64 * (r * r) * (TWO32 * r) == TWO96 * (r * r * r);
  }

  lemma HalfTheSquareRoot(p: nat, q: nat)
    requires SquareRoot(p * TWO128, q)
    ensures SquareRoot(p * TWO64, q / TWO32)
  {
    var r := q / TWO32;
    SquaresGrow(TWO32 * r, q);
    SquaresGrow(q + 1, TWO32 * (r + 1));
    assert TWO32 * r * (TWO32 * r) == TWO64 * (r * r);
    assert TWO32 * (r + 1) * (TWO32 * (r + 1)) == TWO64 * ((r + 1) * (r + 1));
  }

  // ---------------------------------------------------------------------------------------
  // The constants of the rounds
  // ---------------------------------------------------------------------------------------

  /** Constant `t` of SHA-512 has the first 64 bits of the fractional part of the cube root of prime `t`. */
  ghost predicate Is512(t: nat)
    requires t < 80
  {
    exists p: nat, q: nat :: IsNth(t, p) && CubeRoot(p * TWO192, q) && Sha512Spec.K(t) as nat == q % TWO64
  }

  /** Constant `t` of SHA-256 has the first 32 bits. */
  ghost predicate Is256(t: nat)
    requires t < 64
  {
    exists p: nat, q: nat :: IsNth(t, p) && CubeRoot(p * TWO96, q) && Sha256Spec.K(t) as nat == q % TWO32
  }

  lemma Cube512(t: nat, p: nat, q: nat, k: bv64)
    requires t < 80 && IsNth(t, p) && CubeRoot(p * TWO192, q) && Sha512Spec.K(t) == k && k as nat == q % TWO64
    ensures Is512(t)
  {
    hide Sha512Spec.K, IsNth, CubeRoot;
  }

  lemma Cube256(t: nat, p: nat, q: nat, k: bv32)
    requires t < 64 && IsNth(t, p) && CubeRoot(p * TWO192, q) && Sha256Spec.K(t) == k
      && k as nat == q / TWO32 % TWO32
    ensures Is256(t)
  {
    hide Sha256Spec.K, IsNth, CubeRoot;
    HalfTheCubeRoot(p, q);
  }

  lemma Constants0()
    ensures forall t :: 0 <= t < 8 ==> Is512(t) && Is256(t)
  {
    hide IsNth, Is512, Is256, Sha512Spec.K, Sha256Spec.K;
    Primes0();
    Primes4();
    Sha512Example.ConstantsFrom0();
    Sha256Example.ConstantsFrom0();
    Cube512(0, 2, 0x1428a2f98d728ae22, 0x428a2f98d728ae22);
    Cube256(0, 2, 0x1428a2f98d728ae22, 0x428a2f98);
    Cube512(1, 3, 0x17137449123ef65cd, 0x7137449123ef65cd);
    Cube256(1, 3, 0x17137449123ef65cd, 0x71374491);
    Cube512(2, 5, 0x1b5c0fbcfec4d3b2f, 0xb5c0fbcfec4d3b2f);
    Cube256(2, 5, 0x1b5c0fbcfec4d3b2f, 0xb5c0fbcf);
    Cube512(3, 7, 0x1e9b5dba58189dbbc, 0xe9b5dba58189dbbc);
    Cube256(3, 7, 0x1e9b5dba58189dbbc, 0xe9b5dba5);
    Cube512(4, 11, 0x23956c25bf348b538, 0x3956c25bf348b538);
    Cube256(4, 11, 0x23956c25bf348b538, 0x3956c25b);
    Cube512(5, 13, 0x259f111f1b605d019, 0x59f111f1b605d019);
    Cube256(5, 13, 0x259f111f1b605d019, 0x59f111f1);
    Cube512(6, 17, 0x2923f82a4af194f9b, 0x923f82a4af194f9b);
    Cube256(6, 17, 0x2923f82a4af194f9b, 0x923f82a4);
    Cube512(7, 19, 0x2ab1c5ed5da6d8118, 0xab1c5ed5da6d8118);
    Cube256(7, 19, 0x2ab1c5ed5da6d8118, 0xab1c5ed5);
  }

  lemma Constants8()
    ensures forall t :: 8 <= t < 16 ==> Is512(t) && Is256(t)
  {
    hide IsNth, Is512, Is256, Sha512Spec.K, Sha256Spec.K;
    Primes8();
    Primes12();
    Sha512Example.ConstantsFrom8();
    Sha256Example.ConstantsFrom8();
    Cube512(8, 23, 0x2d807aa98a3030242, 0xd807aa98a3030242);
    Cube256(8, 23, 0x2d807aa98a3030242, 0xd807aa98);
    Cube512(9, 29, 0x312835b0145706fbe, 0x12835b0145706fbe);
    Cube256(9, 29, 0x312835b0145706fbe, 0x12835b01);
    Cube512(10, 31, 0x3243185be4ee4b28c, 0x243185be4ee4b28c);
    Cube256(10, 31, 0x3243185be4ee4b28c, 0x243185be);
    Cube512(11, 37, 0x3550c7dc3d5ffb4e2, 0x550c7dc3d5ffb4e2);
    Cube256(11, 37, 0x3550c7dc3d5ffb4e2, 0x550c7dc3);
    Cube512(12, 41, 0x372be5d74f27b896f, 0x72be5d74f27b896f);
    Cube256(12, 41, 0x372be5d74f27b896f, 0x72be5d74);
    Cube512(13, 43, 0x380deb1fe3b1696b1, 0x80deb1fe3b1696b1);
    Cube256(13, 43, 0x380deb1fe3b1696b1, 0x80deb1fe);
    Cube512(14, 47, 0x39bdc06a725c71235, 0x9bdc06a725c71235);
    Cube256(14, 47, 0x39bdc06a725c71235, 0x9bdc06a7);
    Cube512(15, 53, 0x3c19bf174cf692694, 0xc19bf174cf692694);
    Cube256(15, 53, 0x3c19bf174cf692694, 0xc19bf174);
  }

  lemma Constants16()
    ensures forall t :: 16 <= t < 24 ==> Is512(t) && Is256(t)
  {
    hide IsNth, Is512, Is256, Sha512Spec.K, Sha256Spec.K;
    Primes16();
    Primes20();
    Sha512Example.ConstantsFrom16();
    Sha256Example.ConstantsFrom16();
    Cube512(16, 59, 0x3e49b69c19ef14ad2, 0xe49b69c19ef14ad2);
    Cube256(16, 59, 0x3e49b69c19ef14ad2, 0xe49b69c1);
    Cube512(17, 61, 0x3efbe4786384f25e3, 0xefbe4786384f25e3);
    Cube256(17, 61, 0x3efbe4786384f25e3, 0xefbe4786);
    Cube512(18, 67, 0x40fc19dc68b8cd5b5, 0x0fc19dc68b8cd5b5);
    Cube256(18, 67, 0x40fc19dc68b8cd5b5, 0x0fc19dc6);
    Cube512(19, 71, 0x4240ca1cc77ac9c65, 0x240ca1cc77ac9c65);
    Cube256(19, 71, 0x4240ca1cc77ac9c65, 0x240ca1cc);
    Cube512(20, 73, 0x42de92c6f592b0275, 0x2de92c6f592b0275);
    Cube256(20, 73, 0x42de92c6f592b0275, 0x2de92c6f);
    Cube512(21, 79, 0x44a7484aa6ea6e483, 0x4a7484aa6ea6e483);
    Cube256(21, 79, 0x44a7484aa6ea6e483, 0x4a7484aa);
    Cube512(22, 83, 0x45cb0a9dcbd41fbd4, 0x5cb0a9dcbd41fbd4);
    Cube256(22, 83, 0x45cb0a9dcbd41fbd4, 0x5cb0a9dc);
    Cube512(23, 89, 0x476f988da831153b5, 0x76f988da831153b5);
    Cube256(23, 89, 0x476f988da831153b5, 0x76f988da);
  }

  lemma Constants24()
    ensures forall t :: 24 <= t < 32 ==> Is512(t) && Is256(t)
  {
    hide IsNth, Is512, Is256, Sha512Spec.K, Sha256Spec.K;
    Primes24();
    Primes28();
    Sha512Example.ConstantsFrom24();
    Sha256Example.ConstantsFrom24();
    Cube512(24, 97, 0x4983e5152ee66dfab, 0x983e5152ee66dfab);
    Cube256(24, 97, 0x4983e5152ee66dfab, 0x983e5152);
    Cube512(25, 101, 0x4a831c66d2db43210, 0xa831c66d2db43210);
    Cube256(25, 101, 0x4a831c66d2db43210, 0xa831c66d);
    Cube512(26, 103, 0x4b00327c898fb213f, 0xb00327c898fb213f);
    Cube256(26, 103, 0x4b00327c898fb213f, 0xb00327c8);
    Cube512(27, 107, 0x4bf597fc7beef0ee4, 0xbf597fc7beef0ee4);
    Cube256(27, 107, 0x4bf597fc7beef0ee4, 0xbf597fc7);
    Cube512(28, 109, 0x4c6e00bf33da88fc2, 0xc6e00bf33da88fc2);
    Cube256(28, 109, 0x4c6e00bf33da88fc2, 0xc6e00bf3);
    Cube512(29, 113, 0x4d5a79147930aa725, 0xd5a79147930aa725);
    Cube256(29, 113, 0x4d5a79147930aa725, 0xd5a79147);
    Cube512(30, 127, 0x506ca6351e003826f, 0x06ca6351e003826f);
    Cube256(30, 127, 0x506ca6351e003826f, 0x06ca6351);
    Cube512(31, 131, 0x5142929670a0e6e70, 0x142929670a0e6e70);
    Cube256(31, 131, 0x5142929670a0e6e70, 0x14292967);
  }

  lemma Constants32()
    ensures forall t :: 32 <= t < 40 ==> Is512(t) && Is256(t)
  {
    hide IsNth, Is512, Is256, Sha512Spec.K, Sha256Spec.K;
    Primes32();
    Primes36();
    Sha512Example.ConstantsFrom32();
    Sha256Example.ConstantsFrom32();
    Cube512(32, 137, 0x527b70a8546d22ffc, 0x27b70a8546d22ffc);
    Cube256(32, 137, 0x527b70a8546d22ffc, 0x27b70a85);
    Cube512(33, 139, 0x52e1b21385c26c926, 0x2e1b21385c26c926);
    Cube256(33, 139, 0x52e1b21385c26c926, 0x2e1b2138);
    Cube512(34, 149, 0x54d2c6dfc5ac42aed, 0x4d2c6dfc5ac42aed);
    Cube256(34, 149, 0x54d2c6dfc5ac42aed, 0x4d2c6dfc);
    Cube512(35, 151, 0x553380d139d95b3df, 0x53380d139d95b3df);
    Cube256(35, 151, 0x553380d139d95b3df, 0x53380d13);
    Cube512(36, 157, 0x5650a73548baf63de, 0x650a73548baf63de);
    Cube256(36, 157, 0x5650a73548baf63de, 0x650a7354);
    Cube512(37, 163, 0x5766a0abb3c77b2a8, 0x766a0abb3c77b2a8);
    Cube256(37, 163, 0x5766a0abb3c77b2a8, 0x766a0abb);
    Cube512(38, 167, 0x581c2c92e47edaee6, 0x81c2c92e47edaee6);
    Cube256(38, 167, 0x581c2c92e47edaee6, 0x81c2c92e);
    Cube512(39, 173, 0x592722c851482353b, 0x92722c851482353b);
    Cube256(39, 173, 0x592722c851482353b, 0x92722c85);
  }

  lemma Constants40()
    ensures forall t :: 40 <= t < 48 ==> Is512(t) && Is256(t)
  {
    hide IsNth, Is512, Is256, Sha512Spec.K, Sha256Spec.K;
    Primes40();
    Primes44();
    Sha512Example.ConstantsFrom40();
    Sha256Example.ConstantsFrom40();
    Cube512(40, 179, 0x5a2bfe8a14cf10364, 0xa2bfe8a14cf10364);
    Cube256(40, 179, 0x5a2bfe8a14cf10364, 0xa2bfe8a1);
    Cube512(41, 181, 0x5a81a664bbc423001, 0xa81a664bbc423001);
    Cube256(41, 181, 0x5a81a664bbc423001, 0xa81a664b);
    Cube512(42, 191, 0x5c24b8b70d0f89791, 0xc24b8b70d0f89791);
    Cube256(42, 191, 0x5c24b8b70d0f89791, 0xc24b8b70);
    Cube512(43, 193, 0x5c76c51a30654be30, 0xc76c51a30654be30);
    Cube256(43, 193, 0x5c76c51a30654be30, 0xc76c51a3);
    Cube512(44, 197, 0x5d192e819d6ef5218, 0xd192e819d6ef5218);
    Cube256(44, 197, 0x5d192e819d6ef5218, 0xd192e819);
    Cube512(45, 199, 0x5d69906245565a910, 0xd69906245565a910);
    Cube256(45, 199, 0x5d69906245565a910, 0xd6990624);
    Cube512(46, 211, 0x5f40e35855771202a, 0xf40e35855771202a);
    Cube256(46, 211, 0x5f40e35855771202a, 0xf40e3585);
    Cube512(47, 223, 0x6106aa07032bbd1b8, 0x106aa07032bbd1b8);
    Cube256(47, 223, 0x6106aa07032bbd1b8, 0x106aa070);
  }

  lemma Constants48()
    ensures forall t :: 48 <= t < 56 ==> Is512(t) && Is256(t)
  {
    hide IsNth, Is512, Is256, Sha512Spec.K, Sha256Spec.K;
    Primes48();
    Primes52();
    Sha512Example.ConstantsFrom48();
    Sha256Example.ConstantsFrom48();
    Cube512(48, 227, 0x619a4c116b8d2d0c8, 0x19a4c116b8d2d0c8);
    Cube256(48, 227, 0x619a4c116b8d2d0c8, 0x19a4c116);
    Cube512(49, 229, 0x61e376c085141ab53, 0x1e376c085141ab53);
    Cube256(49, 229, 0x61e376c085141ab53, 0x1e376c08);
    Cube512(50, 233, 0x62748774cdf8eeb99, 0x2748774cdf8eeb99);
    Cube256(50, 233, 0x62748774cdf8eeb99, 0x2748774c);
    Cube512(51, 239, 0x634b0bcb5e19b48a8, 0x34b0bcb5e19b48a8);
    Cube256(51, 239, 0x634b0bcb5e19b48a8, 0x34b0bcb5);
    Cube512(52, 241, 0x6391c0cb3c5c95a63, 0x391c0cb3c5c95a63);
    Cube256(52, 241, 0x6391c0cb3c5c95a63, 0x391c0cb3);
    Cube512(53, 251, 0x64ed8aa4ae3418acb, 0x4ed8aa4ae3418acb);
    Cube256(53, 251, 0x64ed8aa4ae3418acb, 0x4ed8aa4a);
    Cube512(54, 257, 0x65b9cca4f7763e373, 0x5b9cca4f7763e373);
    Cube256(54, 257, 0x65b9cca4f7763e373, 0x5b9cca4f);
    Cube512(55, 263, 0x6682e6ff3d6b2b8a3, 0x682e6ff3d6b2b8a3);
    Cube256(55, 263, 0x6682e6ff3d6b2b8a3, 0x682e6ff3);
  }

  lemma Constants56()
    ensures forall t :: 56 <= t < 64 ==> Is512(t) && Is256(t)
  {
    hide IsNth, Is512, Is256, Sha512Spec.K, Sha256Spec.K;
    Primes56();
    Primes60();
    Sha512Example.ConstantsFrom56();
    Sha256Example.ConstantsFrom56();
    Cube512(56, 269, 0x6748f82ee5defb2fc, 0x748f82ee5defb2fc);
    Cube256(56, 269, 0x6748f82ee5defb2fc, 0x748f82ee);
    Cube512(57, 271, 0x678a5636f43172f60, 0x78a5636f43172f60);
    Cube256(57, 271, 0x678a5636f43172f60, 0x78a5636f);
    Cube512(58, 277, 0x684c87814a1f0ab72, 0x84c87814a1f0ab72);
    Cube256(58, 277, 0x684c87814a1f0ab72, 0x84c87814);
    Cube512(59, 281, 0x68cc702081a6439ec, 0x8cc702081a6439ec);
    Cube256(59, 281, 0x68cc702081a6439ec, 0x8cc70208);
    Cube512(60, 283, 0x690befffa23631e28, 0x90befffa23631e28);
    Cube256(60, 283, 0x690befffa23631e28, 0x90befffa);
    Cube512(61, 293, 0x6a4506cebde82bde9, 0xa4506cebde82bde9);
    Cube256(61, 293, 0x6a4506cebde82bde9, 0xa4506ceb);
    Cube512(62, 307, 0x6bef9a3f7b2c67915, 0xbef9a3f7b2c67915);
    Cube256(62, 307, 0x6bef9a3f7b2c67915, 0xbef9a3f7);
    Cube512(63, 311, 0x6c67178f2e372532b, 0xc67178f2e372532b);
    Cube256(63, 311, 0x6c67178f2e372532b, 0xc67178f2);
  }

  lemma Constants64()
    ensures forall t :: 64 <= t < 72 ==> Is512(t)
  {
    hide IsNth, Is512, Is256, Sha512Spec.K, Sha256Spec.K;
    Primes64();
    Primes68();
    Sha512Example.ConstantsFrom64();
    Cube512(64, 313, 0x6ca273eceea26619c, 0xca273eceea26619c);
    Cube512(65, 317, 0x6d186b8c721c0c207, 0xd186b8c721c0c207);
    Cube512(66, 331, 0x6eada7dd6cde0eb1e, 0xeada7dd6cde0eb1e);
    Cube512(67, 337, 0x6f57d4f7fee6ed178, 0xf57d4f7fee6ed178);
    Cube512(68, 347, 0x706f067aa72176fba, 0x06f067aa72176fba);
    Cube512(69, 349, 0x70a637dc5a2c898a6, 0x0a637dc5a2c898a6);
    Cube512(70, 353, 0x7113f9804bef90dae, 0x113f9804bef90dae);
    Cube512(71, 359, 0x71b710b35131c471b, 0x1b710b35131c471b);
  }

  lemma Constants72()
    ensures forall t :: 72 <= t < 80 ==> Is512(t)
  {
    hide IsNth, Is512, Is256, Sha512Spec.K, Sha256Spec.K;
    Primes72();
    Primes76();
    Sha512Example.ConstantsFrom72();
    Cube512(72, 367, 0x728db77f523047d84, 0x28db77f523047d84);
    Cube512(73, 373, 0x732caab7b40c72493, 0x32caab7b40c72493);
    Cube512(74, 379, 0x73c9ebe0a15c9bebc, 0x3c9ebe0a15c9bebc);
    Cube512(75, 383, 0x7431d67c49c100d4c, 0x431d67c49c100d4c);
    Cube512(76, 389, 0x74cc5d4becb3e42b6, 0x4cc5d4becb3e42b6);
    Cube512(77, 397, 0x7597f299cfc657e2a, 0x597f299cfc657e2a);
    Cube512(78, 401, 0x75fcb6fab3ad6faec, 0x5fcb6fab3ad6faec);
    Cube512(79, 409, 0x76c44198c4a475817, 0x6c44198c4a475817);
  }

  /** Section 4.2.2 of FIPS 180-4. */
  lemma Constants256(t: nat)
    requires t < 64
    ensures Is256(t)
  {
    hide Is512, Is256;
    Constants0();
    Constants8();
    Constants16();
    Constants24();
    Constants32();
    Constants40();
    Constants48();
    Constants56();
  }

  /** Section 4.2.3 of FIPS 180-4. */
  lemma Constants512(t: nat)
    requires t < 80
    ensures Is512(t)
  {
    hide Is512, Is256;
    Constants0();
    Constants8();
    Constants16();
    Constants24();
    Constants32();
    Constants40();
    Constants48();
    Constants56();
    Constants64();
    Constants72();
  }

  // ---------------------------------------------------------------------------------------
  // The initial values
  // ---------------------------------------------------------------------------------------

  /** The first 64 bits of the fractional part of the square root of prime `t`. */
  ghost predicate Starts64(t: nat, w: bv64) {
    exists p: nat, q: nat :: IsNth(t, p) && SquareRoot(p * TWO128, q) && w as nat == q % TWO64
  }

  /** The first 32 bits. */
  ghost predicate Starts32(t: nat, w: bv32) {
    exists p: nat, q: nat :: IsNth(t, p) && SquareRoot(p * TWO64, q) && w as nat == q % TWO32
  }

  lemma Square64(t: nat, p: nat, q: nat, w: bv64)
    requires IsNth(t, p) && SquareRoot(p * TWO128, q) && w as nat == q % TWO64
    ensures Starts64(t, w)
  {
    hide IsNth, SquareRoot;
  }

  lemma Square32(t: nat, p: nat, q: nat, w: bv32)
    requires IsNth(t, p) && SquareRoot(p * TWO128, q) && w as nat == q / TWO32 % TWO32
    ensures Starts32(t, w)
  {
    hide IsNth, SquareRoot;
    HalfTheSquareRoot(p, q);
  }

  /** Section 5.3.3 of FIPS 180-4. */
  lemma Initial256()
    ensures var r := Sha256Spec.INITIAL;
      && Starts32(0, r.a) && Starts32(1, r.b) && Starts32(2, r.c) && Starts32(3, r.d)
      && Starts32(4, r.e) && Starts32(5, r.f) && Starts32(6, r.g) && Starts32(7, r.h)
  {
    hide IsNth, Starts32;
    Primes0();
    Primes4();
    Square32(0, 2, 0x16a09e667f3bcc908, 0x6a09e667);
    Square32(1, 3, 0x1bb67ae8584caa73b, 0xbb67ae85);
    Square32(2, 5, 0x23c6ef372fe94f82b, 0x3c6ef372);
    Square32(3, 7, 0x2a54ff53a5f1d36f1, 0xa54ff53a);
    Square32(4, 11, 0x3510e527fade682d1, 0x510e527f);
    Square32(5, 13, 0x39b05688c2b3e6c1f, 0x9b05688c);
    Square32(6, 17, 0x41f83d9abfb41bd6b, 0x1f83d9ab);
    Square32(7, 19, 0x45be0cd19137e2179, 0x5be0cd19);
  }

  /** Section 5.3.5 of FIPS 180-4. */
  lemma Initial512()
    ensures var r := Sha512Spec.INITIAL512;
      && Starts64(0, r.a) && Starts64(1, r.b) && Starts64(2, r.c) && Starts64(3, r.d)
      && Starts64(4, r.e) && Starts64(5, r.f) && Starts64(6, r.g) && Starts64(7, r.h)
  {
    hide IsNth, Starts64;
    Primes0();
    Primes4();
    Square64(0, 2, 0x16a09e667f3bcc908, 0x6a09e667f3bcc908);
    Square64(1, 3, 0x1bb67ae8584caa73b, 0xbb67ae8584caa73b);
    Square64(2, 5, 0x23c6ef372fe94f82b, 0x3c6ef372fe94f82b);
    Square64(3, 7, 0x2a54ff53a5f1d36f1, 0xa54ff53a5f1d36f1);
    Square64(4, 11, 0x3510e527fade682d1, 0x510e527fade682d1);
    Square64(5, 13, 0x39b05688c2b3e6c1f, 0x9b05688c2b3e6c1f);
    Square64(6, 17, 0x41f83d9abfb41bd6b, 0x1f83d9abfb41bd6b);
    Square64(7, 19, 0x45be0cd19137e2179, 0x5be0cd19137e2179);
  }

  /** Section 5.3.4 of FIPS 180-4: the next eight primes. */
  lemma Initial384()
    ensures var r := Sha512Spec.INITIAL384;
      && Starts64(8, r.a) && Starts64(9, r.b) && Starts64(10, r.c) && Starts64(11, r.d)
      && Starts64(12, r.e) && Starts64(13, r.f) && Starts64(14, r.g) && Starts64(15, r.h)
  {
    hide IsNth, Starts64;
    Primes8();
    Primes12();
    Square64(8, 23, 0x4cbbb9d5dc1059ed8, 0xcbbb9d5dc1059ed8);
    Square64(9, 29, 0x5629a292a367cd507, 0x629a292a367cd507);
    Square64(10, 31, 0x59159015a3070dd17, 0x9159015a3070dd17);
    Square64(11, 37, 0x6152fecd8f70e5939, 0x152fecd8f70e5939);
    Square64(12, 41, 0x667332667ffc00b31, 0x67332667ffc00b31);
    Square64(13, 43, 0x68eb44a8768581511, 0x8eb44a8768581511);
    Square64(14, 47, 0x6db0c2e0d64f98fa7, 0xdb0c2e0d64f98fa7);
    Square64(15, 53, 0x747b5481dbefa4fa4, 0x47b5481dbefa4fa4);
  }

  /** Section 4.2.1 of FIPS 180-4: 2^30 times the square roots of 2, 3, 5 and 10. */
  lemma ConstantsSha1(t: nat)
    requires t < 80
    ensures SquareRoot((if t < 20 then 2 else if t < 40 then 3 else if t < 60 then 5 else 10) * 0x1000_0000_0000_0000,
      Sha1Spec.K(t) as nat)
  {
  }

  /** Four bytes, the least significant first, that start with `first` and go on in steps of `step`. */
  function Series(first: int, step: int): int {
    first + 0x100 * (first + step) + 0x1_0000 * (first + 2 * step) + 0x100_0000 * (first + 3 * step)
  }

  /** Section 5.3.1 of FIPS 180-4: sixteen digits counting up, and down again, and then both at once. */
  lemma InitialSha1()
    ensures var r := Sha1Spec.INITIAL;
      && r.a as int == Series(0x01, 0x22) && r.b as int == Series(0x89, 0x22)
      && r.c as int == Series(0xfe, -0x22) && r.d as int == Series(0x76, -0x22)
      && r.e as int == Series(0xf0, -0x0f)
  {
  }

}

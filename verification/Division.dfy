/** Remainders. */
module Division {

  lemma LessOne(n: nat, b: nat)
    requires 0 < b <= n
    ensures (n - b) % b == n % b
  {
    var q, r := n / b, n % b;
    assert n - b == b * (q - 1) + r;
    Remainder(n - b, b, q - 1, r);
  }

  lemma Remainder(n: int, b: int, q: int, r: int)
    requires 0 <= r < b && n == b * q + r
    ensures n % b == r
  {
    var q', r' := n / b, n % b;
    assert b * (q' - q) == r - r';
    if q' > q { Times(b, q' - q); } else if q' < q { Times(b, q - q'); }
  }

  lemma Times(b: int, k: int)
    requires b > 0 && k >= 1
    ensures b * k >= b
  {
  }

  lemma Multiple(b: nat, q: nat)
    requires b > 0
    ensures (b * q) % b == 0
  {
    Remainder(b * q, b, q, 0);
  }
}

/** Facts about remainders by a variable modulus, stated once so that no other proof needs nonlinear reasoning. */
module ModularArithmetic {
  /** `a` and `b` are congruent modulo `m`. */
  ghost predicate Cong(m: nat, a: int, b: int) {
    exists k: int :: a == b + Times(k, m)
  }

  ghost function Times(k: int, m: nat): int { k * m }

  lemma TimesSize(k: int, m: nat)
    ensures k >= 1 ==> Times(k, m) >= m
    ensures k <= -1 ==> Times(k, m) + m <= 0
  {
  }

  lemma CongIntro(m: nat, a: int, b: int, k: int)
    requires a == b + k * m
    ensures Cong(m, a, b)
  {
    assert a == b + Times(k, m);
  }

  lemma CongTrans(m: nat, a: int, b: int, c: int)
    requires Cong(m, a, b) && Cong(m, b, c)
    ensures Cong(m, a, c)
  {
    var k: int :| a == b + Times(k, m);
    var j: int :| b == c + Times(j, m);
    assert (k + j) * m == k * m + j * m;
    CongIntro(m, a, c, k + j);
  }

  lemma CongSym(m: nat, a: int, b: int)
    requires Cong(m, a, b)
    ensures Cong(m, b, a)
  {
    var k: int :| a == b + Times(k, m);
    assert (-k) * m == -(k * m);
    CongIntro(m, b, a, -k);
  }

  lemma CongSum(m: nat, a: int, b: int, c: int, d: int)
    requires Cong(m, a, b) && Cong(m, c, d)
    ensures Cong(m, a + c, b + d) && Cong(m, a - c, b - d)
  {
    var k: int :| a == b + Times(k, m);
    var j: int :| c == d + Times(j, m);
    assert (k + j) * m == k * m + j * m;
    assert (k - j) * m == k * m - j * m;
    CongIntro(m, a + c, b + d, k + j);
    CongIntro(m, a - c, b - d, k - j);
  }

  lemma CongRefl(m: nat, a: int)
    ensures Cong(m, a, a)
  {
    CongIntro(m, a, a, 0);
  }

  lemma ModCong(m: nat, a: int)
    requires m > 0
    ensures 0 <= a % m < m && Cong(m, a % m, a)
  {
    assert a == (a / m) * m + a % m;
    assert (-(a / m)) * m == -((a / m) * m);
    CongIntro(m, a % m, a, -(a / m));
  }

  /** Two congruent numbers less than `m` apart are equal. */
  lemma CongClose(m: nat, a: int, b: int)
    requires Cong(m, a, b) && a < b + m && b < a + m
    ensures a == b
  {
    var k: int :| a == b + Times(k, m);
    TimesSize(k, m);
  }

  lemma CongMod(m: nat, r: int, a: int)
    requires 0 <= r < m && Cong(m, r, a)
    ensures r == a % m
  {
    ModCong(m, a);
    CongSym(m, a % m, a);
    CongTrans(m, r, a, a % m);
    CongClose(m, r, a % m);
  }

  lemma SmallMod(m: nat, a: int)
    requires 0 <= a < m
    ensures a % m == a
  {
  }

  /** The remainder of a number less than one cycle ahead of another: either no wrap or exactly one. */
  lemma ModAhead(m: nat, g: int, t: int)
    requires m > 0 && 0 <= t - g < m
    ensures var k := t - g;
      if g % m + k < m then t % m == g % m + k else t % m == g % m + k - m
  {
    ModCong(m, g);
    CongRefl(m, t - g);
    CongSum(m, g % m, g, t - g, t - g);
    var r := if g % m + (t - g) < m then g % m + (t - g) else g % m + (t - g) - m;
    CongIntro(m, r, g % m + (t - g), if g % m + (t - g) < m then 0 else -1);
    CongTrans(m, r, g % m + (t - g), t);
    CongMod(m, r, t);
  }

  /** Adding to a remainder and wrapping again. */
  lemma ModOfSum(m: nat, a: int, b: int)
    requires m > 0
    ensures (a % m + b) % m == (a + b) % m
  {
    ModCong(m, a);
    CongRefl(m, b);
    CongSum(m, a % m, a, b, b);
    ModCong(m, a % m + b);
    CongTrans(m, (a % m + b) % m, a % m + b, a + b);
    CongMod(m, (a % m + b) % m, a + b);
  }
}

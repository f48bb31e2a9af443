/**
  Arithmetic of the sequential counter: a 32-bit counter, taken modulo the number of members.
 */
module RoundRobin {

  const Wrap: nat := 0x1_0000_0000

  // The member looked at k picks after the counter held c.
  function Slot(c: nat, n: nat, k: nat): (i: nat)
    requires n > 0
    ensures i < n
  {
    ((c + k) % Wrap) % n
  }

  ghost predicate Covers(c: nat, n: nat)
    requires n > 0
  {
    forall i {:trigger Reached(c, n, i)} :: 0 <= i < n ==> Reached(c, n, i)
  }

  ghost predicate Reached(c: nat, n: nat, i: nat)
    requires n > 0
  {
    exists k :: 0 <= k < n && Slot(c, n, k) == i
  }

  lemma ModShift(a: nat, n: nat, q: int)
    requires n > 0 && a + q * n >= 0
    ensures (a + q * n) % n == a % n
  {
    var d := a / n;
    assert a == d * n + a % n;
    assert a + q * n == (d + q) * n + a % n;
    ModUnique(a + q * n, n, d + q, a % n);
  }

  lemma ModUnique(x: int, n: nat, q: int, r: int)
    requires n > 0 && x == q * n + r && 0 <= r < n
    ensures x % n == r && x / n == q
  {
    var d := x / n - q;
    assert d * n == r - x % n;
    Multiples(d, n);
  }

  lemma Multiples(d: int, n: int)
    requires n > 0
    ensures d >= 1 ==> d * n >= n
    ensures d <= -1 ==> d * n <= -n
  {
  }

  // Some k < n steps from c reach the residue i, without wrapping.
  lemma Steps(c: nat, n: nat, i: nat) returns (k: nat)
    requires i < n
    ensures k < n && (c + k) % n == i
  {
    var r := c % n;
    var q := c / n;
    assert c == q * n + r;
    if r <= i {
      k := i - r;
      ModUnique(c + k, n, q, i);
    } else {
      k := i + n - r;
      assert c + k == (q + 1) * n + i;
      ModUnique(c + k, n, q + 1, i);
    }
  }

  lemma CoversWithoutWrap(c: nat, n: nat)
    requires 0 < n && c + n <= Wrap
    ensures Covers(c, n)
  {
    forall i {:trigger Reached(c, n, i)} | 0 <= i < n ensures Reached(c, n, i) {
      var k := Steps(c, n, i);
      assert (c + k) % Wrap == c + k;
      assert Slot(c, n, k) == i;
    }
  }

  lemma CoversDividing(c: nat, n: nat)
    requires 0 < n && c < Wrap && n <= Wrap && Wrap % n == 0
    ensures Covers(c, n)
  {
    forall i {:trigger Reached(c, n, i)} | 0 <= i < n ensures Reached(c, n, i) {
      var k := Steps(c, n, i);
      SlotDividing(c, n, k);
      assert Slot(c, n, k) == i;
    }
  }

  lemma SlotDividing(c: nat, n: nat, k: nat)
    requires 0 < n && c < Wrap && k < n <= Wrap && Wrap % n == 0
    ensures Slot(c, n, k) == (c + k) % n
  {
    if c + k >= Wrap {
      var rest, m := c + k - Wrap, Wrap / n;
      ModUnique(c + k, Wrap, 1, rest);
      assert c + k == rest + m * n;
      ModShift(rest, n, m);
    } else {
      ModUnique(c + k, Wrap, 0, c + k);
    }
  }

  // With a wrap inside the scan and a remainder, one member is passed over.
  lemma MissedByWrap(c: nat, n: nat) returns (i: nat)
    requires 0 < n <= Wrap && c < Wrap && c + n > Wrap && Wrap % n != 0
    ensures i < n && !Reached(c, n, i)
  {
    var a, r := Wrap - c, Wrap % n;
    i := if r < n - a then n - a else r;
    forall k | 0 <= k < n ensures Slot(c, n, k) != i { MissedAt(c, n, k, i); }
  }

  lemma MissedAt(c: nat, n: nat, k: nat, i: nat)
    requires 0 < n <= Wrap && c < Wrap && c + n > Wrap && Wrap % n != 0 && k < n
    requires i == if Wrap % n < n - (Wrap - c) then n - (Wrap - c) else Wrap % n
    ensures Slot(c, n, k) != i
  {
    var a, r, q := Wrap - c, Wrap % n, Wrap / n;
    assert Wrap == q * n + r;
    if c + k >= Wrap {
      assert (c + k) % Wrap == k - a;
      ModUnique(k - a, n, 0, k - a);
    } else {
      assert (c + k) % Wrap == c + k;
      var t := a - k;
      assert c + k == q * n + (r - t);
      if t <= r {
        ModUnique(c + k, n, q, r - t);
      } else {
        assert c + k == (q - 1) * n + (n + r - t);
        ModUnique(c + k, n, q - 1, n + r - t);
      }
    }
  }

  // A scan from the counter looks at every member exactly when it does not wrap or the number of
  // members divides the counter's range.
  lemma CoversExactly(c: nat, n: nat)
    requires 0 < n <= Wrap && c < Wrap
    ensures Covers(c, n) <==> c + n <= Wrap || Wrap % n == 0
  {
    if c + n <= Wrap {
      CoversWithoutWrap(c, n);
    } else if Wrap % n == 0 {
      CoversDividing(c, n);
    } else {
      var i := MissedByWrap(c, n);
    }
  }

  // ---- fairness ----

  // How many of k picks from c fall on member i.
  function Picks(c: nat, n: nat, k: nat, i: nat): nat
    requires n > 0
  {
    if k == 0 then 0 else Picks(c, n, k - 1, i) + if (c + k - 1) % n == i then 1 else 0
  }

  lemma {:induction false} PicksCount(c: nat, n: nat, k: nat, i: nat)
    requires i < n
    ensures Picks(c, n, k, i) == (c + k + n - 1 - i) / n - (c + n - 1 - i) / n
  {
    if k > 0 {
      PicksCount(c, n, k - 1, i);
      DivStep(c + k - 1, n, i);
    }
  }

  lemma DivStep(x: nat, n: nat, i: nat)
    requires i < n
    ensures (x + n - i) / n == (x + n - 1 - i) / n + if x % n == i then 1 else 0
  {
    var q, r := x / n, x % n;
    assert x == q * n + r;
    if r >= i {
      assert x + n - i == (q + 1) * n + (r - i);
      ModUnique(x + n - i, n, q + 1, r - i);
      if r == i {
        ModUnique(x + n - 1 - i, n, q, n - 1);
      } else {
        ModUnique(x + n - 1 - i, n, q + 1, r - i - 1);
      }
    } else {
      ModUnique(x + n - i, n, q, r + n - i);
      ModUnique(x + n - 1 - i, n, q, r + n - 1 - i);
    }
  }

  // Each member gets k/n picks, rounded down or up.
  lemma PicksFair(c: nat, n: nat, k: nat, i: nat)
    requires i < n
    ensures k / n <= Picks(c, n, k, i) <= (k + n - 1) / n
  {
    PicksCount(c, n, k, i);
    DivDifference(c + n - 1 - i, n, k);
  }

  lemma DivDifference(a: nat, n: nat, k: nat)
    requires n > 0
    ensures k / n <= (a + k) / n - a / n <= (k + n - 1) / n
  {
    var qa, ra, qk, rk := a / n, a % n, k / n, k % n;
    assert a == qa * n + ra && k == qk * n + rk;
    if ra + rk < n {
      assert a + k == (qa + qk) * n + (ra + rk);
      ModUnique(a + k, n, qa + qk, ra + rk);
    } else {
      assert a + k == (qa + qk + 1) * n + (ra + rk - n);
      ModUnique(a + k, n, qa + qk + 1, ra + rk - n);
    }
    if rk == 0 {
      ModUnique(k + n - 1, n, qk, n - 1);
    } else {
      assert k + n - 1 == (qk + 1) * n + (rk - 1);
      ModUnique(k + n - 1, n, qk + 1, rk - 1);
    }
  }
}

/** JavaScript BigInt bit operations on unbounded integers.

    A BigInt behaves as a two's complement number with infinite sign extension, so
    every integer has a bit at every position: all but finitely many are 0 for a
    non-negative number and 1 for a negative one. */
module BigInt {

  /** The bit of `n` at position `i`. Division here rounds down, as the sign extension needs. */
  predicate Bit(n: int, i: nat)
    decreases i
  {
    if i == 0 then n % 2 == 1 else Bit(n / 2, i - 1)
  }

  /** How far `n` is from a number all of whose bits are equal (0 or -1). */
  function Size(n: int): nat {
    if n >= 0 then n else -n - 1
  }

  /** `a & b` */
  function And(a: int, b: int): int
    decreases Size(a) + Size(b)
  {
    if Size(a) + Size(b) == 0 then
      if a == b then a else 0
    else
      2 * And(a / 2, b / 2) + (a % 2) * (b % 2)
  }

  /** `~a` */
  function Not(a: int): int {
    -a - 1
  }

  /** `a | b` */
  function Or(a: int, b: int): int {
    Not(And(Not(a), Not(b)))
  }

  /** `1n << k` */
  function Shl1(k: nat): (n: int)
    ensures n >= 1
  {
    if k == 0 then 1 else 2 * Shl1(k - 1)
  }

  lemma {:induction false} AndBit(a: int, b: int, i: nat)
    ensures Bit(And(a, b), i) <==> Bit(a, i) && Bit(b, i)
    decreases i
  {
    var low := (a % 2) * (b % 2);
    assert low == if a % 2 == 1 && b % 2 == 1 then 1 else 0;
    assert And(a, b) % 2 == low && And(a, b) / 2 == And(a / 2, b / 2);
    if i > 0 {
      AndBit(a / 2, b / 2, i - 1);
    }
  }

  lemma {:induction false} NotBit(a: int, i: nat)
    ensures Bit(Not(a), i) <==> !Bit(a, i)
    decreases i
  {
    assert Not(a) / 2 == Not(a / 2);
    if i > 0 {
      NotBit(a / 2, i - 1);
    }
  }

  lemma OrBit(a: int, b: int, i: nat)
    ensures Bit(Or(a, b), i) <==> Bit(a, i) || Bit(b, i)
  {
    NotBit(And(Not(a), Not(b)), i);
    AndBit(Not(a), Not(b), i);
    NotBit(a, i);
    NotBit(b, i);
  }

  /** `(p & ~deny) | allow`, the shape in which every overwrite layer is applied. */
  lemma MaskBit(p: int, deny: int, allow: int, i: nat)
    ensures Bit(Or(And(p, Not(deny)), allow), i) <==> Bit(allow, i) || (!Bit(deny, i) && Bit(p, i))
  {
    OrBit(And(p, Not(deny)), allow, i);
    AndBit(p, Not(deny), i);
    NotBit(deny, i);
  }

  lemma {:induction false} ZeroBit(i: nat)
    ensures !Bit(0, i)
  {
    if i > 0 {
      ZeroBit(i - 1);
    }
  }

  lemma {:induction false} Shl1Bit(k: nat, i: nat)
    ensures Bit(Shl1(k), i) <==> i == k
  {
    if i == 0 {
    } else if k == 0 {
      ZeroBit(i - 1);
    } else {
      Shl1Bit(k - 1, i - 1);
    }
  }

  /** Two numbers with the same bits are the same number. */
  lemma {:induction false} SameBits(a: int, b: int)
    requires forall i: nat :: Bit(a, i) == Bit(b, i)
    ensures a == b
    decreases Size(a) + Size(b)
  {
    assert Bit(a, 0) == Bit(b, 0);
    if Size(a) + Size(b) > 0 {
      forall i: nat
        ensures Bit(a / 2, i) == Bit(b / 2, i)
      {
        assert Bit(a, i + 1) == Bit(b, i + 1);
      }
      SameBits(a / 2, b / 2);
    }
  }
}

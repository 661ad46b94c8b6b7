/** Integer product and quotient facts. Mul and Div name a product or quotient, so that the facts
    about it are linear wherever they are used. */
module IntMath {
  function Mul(a: int, b: int): int {
    a * b
  }

  /** Integer quotient of non-negative operands, where flooring and truncation agree. */
  function Div(a: nat, b: nat): nat
    requires 0 < b
  {
    a / b
  }

  function Min(a: int, b: int): int {
    if a <= b then a else b
  }

  function Max(a: int, b: int): int {
    if a <= b then b else a
  }

  lemma MulSub(a: int, b: int, c: int)
    ensures Mul(a - b, c) == Mul(a, c) - Mul(b, c)
  {
  }

  lemma MulAdd(a: int, b: int, c: int)
    ensures Mul(a + b, c) == Mul(a, c) + Mul(b, c)
  {
  }

  lemma MulAddRight(a: int, b: int, c: int)
    ensures Mul(a, b + c) == Mul(a, b) + Mul(a, c)
  {
  }

  lemma MulUnit(a: int)
    ensures Mul(a, 1) == a && Mul(1, a) == a && Mul(0, a) == 0 && Mul(a, 0) == 0
  {
  }

  lemma MulNonNegative(a: int, b: int)
    requires 0 <= a && 0 <= b
    ensures 0 <= Mul(a, b)
  {
  }

  lemma MulMonotone(a: int, b: int, c: int)
    requires a <= b && 0 <= c
    ensures Mul(a, c) <= Mul(b, c)
  {
    MulSub(b, a, c);
    MulNonNegative(b - a, c);
  }

  /** The quotient is the largest factor whose product still fits. */
  lemma DivFits(a: nat, b: nat)
    requires 0 < b
    ensures Mul(Div(a, b), b) <= a < Mul(Div(a, b) + 1, b)
  {
    assert a == b * (a / b) + a % b;
  }

  lemma DivZero(a: nat, b: nat)
    requires 0 < b
    ensures Div(a, b) == 0 <==> a < b
  {
    DivFits(a, b);
    MulUnit(b);
    if a < b && Div(a, b) >= 1 {
      MulMonotone(1, Div(a, b), b);
      assert false;
    }
  }

  function Sum(s: seq<int>): int {
    if s == [] then 0 else Sum(s[..|s| - 1]) + s[|s| - 1]
  }

  lemma {:induction false} SumNonNegative(s: seq<int>)
    requires forall i :: 0 <= i < |s| ==> 0 <= s[i]
    ensures 0 <= Sum(s)
    ensures (forall i :: 0 <= i < |s| ==> s[i] == 0) ==> Sum(s) == 0
  {
    if s != [] {
      SumNonNegative(s[..|s| - 1]);
    }
  }

  lemma AppendSum(s: seq<int>, v: int)
    ensures Sum(s + [v]) == Sum(s) + v
  {
    assert (s + [v])[..|s|] == s;
  }

  lemma QuotientUnique(a: nat, b: nat, q: int)
    requires 0 < b && Mul(q, b) <= a < Mul(q + 1, b)
    ensures Div(a, b) == q
  {
    DivFits(a, b);
    if Div(a, b) < q {
      MulMonotone(Div(a, b) + 1, q, b);
      assert false;
    }
    if q < Div(a, b) {
      MulMonotone(q + 1, Div(a, b), b);
      assert false;
    }
  }
}

/** What several components share: optional values, integer widths, sets, and products of reals. */
module Common {
  datatype Option<T> = None | Some(value: T)

  const U16: nat := 0x1_0000
  const U32: nat := 0x1_0000_0000
  const U64: nat := 0x1_0000_0000_0000_0000

  /** Unsigned 64-bit subtraction. */
  function Since(now: nat, before: nat): (r: nat)
    ensures r < U64
  {
    (now - before) % U64
  }

  lemma SomeElement(s: set<int>)
    ensures s == {} || exists x :: x in s
  {
    if forall x :: x !in s {
      assert s == {};
    }
  }

  function Times(a: real, b: real): real {
    a * b
  }

  function Square(t: real): real {
    Times(t, t)
  }

  lemma ProductSigns(a: real, b: real)
    ensures (a > 0.0 && b > 0.0) || (a < 0.0 && b < 0.0) ==> Times(a, b) > 0.0
    ensures a == 0.0 ==> Times(a, b) == 0.0
  {
  }

  lemma SquareIsPositive(t: real)
    ensures Square(t) >= 0.0 && (t != 0.0 ==> Square(t) > 0.0)
  {
    hide Times;
    ProductSigns(t, t);
  }
}

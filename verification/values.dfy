/** Numeric values of the evaluator.

    The source computes with IEEE-754 doubles. Here a value is an exact real,
    and the one operation that leaves the reals, division by zero (which the
    source lets produce Infinity or NaN without failing), yields `NonFinite`.
    `NonFinite` absorbs every operation it takes part in. */
module Values {

  datatype Value = Real(r: real) | NonFinite

  /** Addition; undone by subtracting the right operand. */
  function Sum(a: Value, b: Value): (s: Value)
    ensures s.Real? <==> a.Real? && b.Real?
    ensures s.Real? ==> s.r - b.r == a.r
  {
    if a.Real? && b.Real? then Real(a.r + b.r) else NonFinite
  }

  /** Subtraction; undone by adding the right operand back. */
  function Difference(a: Value, b: Value): (d: Value)
    ensures d.Real? <==> a.Real? && b.Real?
    ensures d.Real? ==> d.r + b.r == a.r
  {
    if a.Real? && b.Real? then Real(a.r - b.r) else NonFinite
  }

  /** Multiplication; a real product is zero exactly when a factor is. */
  function Product(a: Value, b: Value): (p: Value)
    ensures p.Real? <==> a.Real? && b.Real?
    ensures p.Real? ==> (p.r == 0.0 <==> a.r == 0.0 || b.r == 0.0)
  {
    if a.Real? && b.Real? then Real(a.r * b.r) else NonFinite
  }

  /** Division; a zero divisor gives `NonFinite` rather than an error. */
  function Quotient(a: Value, b: Value): (q: Value)
    ensures q.Real? <==> a.Real? && b.Real? && b.r != 0.0
    ensures q.Real? ==> q.r * b.r == a.r
  {
    if a.Real? && b.Real? && b.r != 0.0 then Real(a.r / b.r) else NonFinite
  }

  /** Dividing a product by its non-zero right factor gives back the left one. */
  lemma QuotientUndoesProduct(a: Value, b: Value)
    requires a.Real? && b.Real? && b.r != 0.0
    ensures Quotient(Product(a, b), b) == a
  {
    var p := a.r * b.r;
    assert p / b.r * b.r == p;
    assert (p / b.r - a.r) * b.r == 0.0;
  }
}

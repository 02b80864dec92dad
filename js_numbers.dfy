/** The part of JavaScript's number semantics that the book list relies on:
    the relational operators `<=` and `>=`, and `Math.max`. */
module JsNumbers {

  /** A JavaScript number. Finite values are exact reals; IEEE-754 rounding
      and the sign of zero are not modelled. */
  datatype Number = Finite(value: real) | NaN | PosInfinity | NegInfinity

  /** `a <= b` on two numbers (and `b >= a`): false as soon as either side
      is NaN; otherwise -Infinity lies below and +Infinity above every
      number, and finite numbers compare as reals. */
  predicate LessEq(a: Number, b: Number): (r: bool)
    ensures r ==> !a.NaN? && !b.NaN?
    ensures !a.NaN? && a == b ==> r
    ensures !b.NaN? && a.NegInfinity? ==> r
    ensures !a.NaN? && b.PosInfinity? ==> r
    ensures a.Finite? && b.Finite? ==> (r <==> a.value <= b.value)
  {
    if a.NaN? || b.NaN? then false
    else if a.NegInfinity? || b.PosInfinity? then true
    else if a.PosInfinity? || b.NegInfinity? then false
    else a.value <= b.value
  }

  lemma LessEqTransitive(a: Number, b: Number, c: Number)
    requires LessEq(a, b) && LessEq(b, c)
    ensures LessEq(a, c)
  {
  }

  /** `Math.max(a, b)`: NaN when either argument is NaN, otherwise the larger one. */
  function Max(a: Number, b: Number): (r: Number)
    ensures r == a || r == b
    ensures r.NaN? <==> a.NaN? || b.NaN?
    ensures !r.NaN? ==> LessEq(a, r) && LessEq(b, r)
  {
    if a.NaN? then a
    else if b.NaN? then b
    else if LessEq(a, b) then b
    else a
  }

  /** `Math.max(...xs)`: -Infinity for no arguments, NaN as soon as one
      argument is NaN, otherwise the largest argument. */
  function MaxOf(xs: seq<Number>): (r: Number)
    ensures xs == [] ==> r == NegInfinity
    ensures xs != [] ==> r in xs
    ensures r.NaN? <==> NaN in xs
    ensures !r.NaN? ==> forall i :: 0 <= i < |xs| ==> LessEq(xs[i], r)
  {
    if xs == [] then NegInfinity
    else
      var front := xs[..|xs| - 1];
      assert forall i :: 0 <= i < |front| ==> front[i] == xs[i];
      assert xs == front + [xs[|xs| - 1]];
      Max(MaxOf(front), xs[|xs| - 1])
  }
}

/** JavaScript's number, with exact reals for the finite ones, and its comparisons. */
module Numbers {
  datatype Number = NaN | Infinite(positive: bool) | Finite(value: real)

  /** a < b: false whenever one of them is NaN. */
  predicate Less(a: Number, b: Number) {
    match (a, b)
    case (Finite(x), Finite(y)) => x < y
    case (Finite(_), Infinite(positive)) => positive
    case (Infinite(positive), Finite(_)) => !positive
    case (Infinite(p), Infinite(q)) => !p && q
    case _ => false
  }

  /** a <= b. */
  predicate AtMost(a: Number, b: Number) { Less(a, b) || (a == b && a != NaN) }

  /** Minus infinity comes first, plus infinity last, the finite ones in between by value, and NaN compares with nothing. */
  lemma OrderIs(a: Number, b: Number)
    ensures Less(a, b)
       <==> && a != NaN && b != NaN
            && ((a == Infinite(false) && b != Infinite(false)) || (b == Infinite(true) && a != Infinite(true))
                || (a.Finite? && b.Finite? && a.value < b.value))
    ensures AtMost(a, b) <==> a != NaN && b != NaN && !Less(b, a)
  {
  }

  lemma LessTransitive(a: Number, b: Number, c: Number)
    requires Less(a, b) && AtMost(b, c)
    ensures Less(a, c)
  {
  }
}

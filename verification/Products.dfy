/** Products of variables, one fact at a time. */
module Products {
  lemma TimesNotLess(n: int, a: int, b: int)
    requires n >= 0 && a <= b
    ensures n * a <= n * b
  {
  }

  lemma CancelCount(a: int, b: int, count: int)
    requires count >= 1 && a * count <= b * count
    ensures a <= b
  {
  }

  lemma SumTimes(a: int, b: int, q: int)
    ensures (a + b) * q == a * q + b * q
  {
  }

  lemma OrderTimes(a: int, b: int, q: int)
    requires a <= b && q >= 0
    ensures a * q <= b * q
  {
  }

  lemma LessTimes(a: int, b: int, count: int)
    requires count >= 1 && a * count < b * count
    ensures a < b
  {
  }
}

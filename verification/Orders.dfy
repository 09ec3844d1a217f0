/** Least elements of finite sets under a total order. */
module Orders {
  ghost predicate TotalOrder<T(!new)>(items: set<T>, before: (T, T) -> bool) {
    && (forall a, b | a in items && b in items && a != b :: before(a, b) || before(b, a))
    && (forall a, b, c | a in items && b in items && c in items && before(a, b) && before(b, c) :: before(a, c))
  }

  ghost predicate IsLeast<T(!new)>(items: set<T>, before: (T, T) -> bool, least: T) {
    least in items && forall other | other in items :: other == least || before(least, other)
  }

  lemma {:induction false} LeastExists<T(!new)>(items: set<T>, before: (T, T) -> bool) returns (least: T)
    requires items != {} && TotalOrder(items, before)
    ensures IsLeast(items, before, least)
    decreases |items|
  {
    var some :| some in items;
    least := some;
    if items != {some} {
      assert |items - {some}| < |items|;
      var rest := LeastExists(items - {some}, before);
      assert forall other | other in items :: other == some || other in items - {some};
      if before(rest, some) { least := rest; }
    }
  }
}

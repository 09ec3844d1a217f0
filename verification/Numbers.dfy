/** Numbers as Python compares them: `True`, `1` and `1.0` are one value. */
module Numbers {
  datatype Number = Bool(b: bool) | Int(i: int) | Float(f: real)
  {
    function Real(): real {
      match this
      case Bool(b) => if b then 1.0 else 0.0
      case Int(i) => i as real
      case Float(f) => f
    }
  }

  predicate SameValue(a: Number, b: Number) {
    a.Real() == b.Real()
  }
}

/** Small shared vocabulary. */
module Common {

  datatype Option<+T> = None | Some(value: T)

  datatype Direction = Up | Down

  /** Polymarket's minimum order, 5 shares, in units of 0.01 shares. */
  const MIN_SHARES := 500

  function Min(a: int, b: int): (r: int)
    ensures r <= a && r <= b && (r == a || r == b)
  {
    if a < b then a else b
  }

  function Max(a: int, b: int): (r: int)
    ensures a <= r && b <= r && (r == a || r == b)
  {
    if a < b then b else a
  }

  /** Some element of a set. */
  method Pick<T(==)>(s: set<T>) returns (x: T)
    requires s != {}
    ensures x in s
  {
    x :| x in s;
  }

  /** The least of some keys. */
  method Least(keys: set<int>) returns (k: int)
    requires keys != {}
    ensures k in keys && forall x :: x in keys ==> k <= x
  {
    k := Pick(keys);
    var rest := keys - {k};
    while rest != {}
      invariant rest <= keys && k in keys && forall x :: x in keys && x !in rest ==> k <= x
      decreases rest
    {
      var x := Pick(rest);
      if x < k {
        k := x;
      }
      rest := rest - {x};
    }
  }
}

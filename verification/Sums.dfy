/** Finite sums over sets. */
module Sums {

  ghost function Sum<K(!new)>(keys: set<K>, f: K -> real): real {
    if keys == {} then 0.0
    else
      var k :| k in keys;
      f(k) + Sum(keys - {k}, f)
  }

  /** The order of summation does not matter. */
  lemma {:induction false} SumOut<K(!new)>(keys: set<K>, f: K -> real, k: K)
    requires k in keys
    ensures Sum(keys, f) == f(k) + Sum(keys - {k}, f)
    decreases keys
  {
    var first :| first in keys && Sum(keys, f) == f(first) + Sum(keys - {first}, f);
    if first != k {
      SumOut(keys - {first}, f, k);
      SumOut(keys - {k}, f, first);
      assert keys - {first} - {k} == keys - {k} - {first};
    }
  }

  lemma {:induction false} SumOfEqual<K(!new)>(keys: set<K>, f: K -> real, g: K -> real)
    requires forall k :: k in keys ==> f(k) == g(k)
    ensures Sum(keys, f) == Sum(keys, g)
    decreases keys
  {
    if keys != {} {
      var k :| k in keys;
      SumOut(keys, f, k);
      SumOut(keys, g, k);
      SumOfEqual(keys - {k}, f, g);
    }
  }

  lemma {:induction false} SumOfZero<K(!new)>(keys: set<K>, f: K -> real)
    requires forall k :: k in keys ==> f(k) == 0.0
    ensures Sum(keys, f) == 0.0
    decreases keys
  {
    if keys != {} {
      var k :| k in keys;
      SumOut(keys, f, k);
      SumOfZero(keys - {k}, f);
    }
  }

  /** Changing one term changes the sum by as much. */
  lemma SumChanges<K(!new)>(keys: set<K>, f: K -> real, g: K -> real, k: K)
    requires k in keys && forall other :: other in keys && other != k ==> f(other) == g(other)
    ensures Sum(keys, g) == Sum(keys, f) + g(k) - f(k)
  {
    SumOut(keys, f, k);
    SumOut(keys, g, k);
    SumOfEqual(keys - {k}, f, g);
  }

  function Quotient(x: real, whole: real): real
    requires whole != 0.0
  {
    x / whole
  }

  lemma QuotientAdds(x: real, y: real, whole: real)
    requires whole != 0.0
    ensures Quotient(x, whole) + Quotient(y, whole) == Quotient(x + y, whole)
  {
  }

  /** Dividing every term divides the sum. */
  lemma {:induction false} SumOfQuotients<K(!new)>(keys: set<K>, f: K -> real, g: K -> real, whole: real)
    requires whole != 0.0 && forall k :: k in keys ==> g(k) == Quotient(f(k), whole)
    ensures Sum(keys, g) == Quotient(Sum(keys, f), whole)
    decreases keys
  {
    if keys != {} {
      var k :| k in keys;
      SumOut(keys, f, k);
      SumOut(keys, g, k);
      SumOfQuotients(keys - {k}, f, g, whole);
      QuotientAdds(f(k), Sum(keys - {k}, f), whole);
    }
  }
}

/** Sums over finite sets. */
module Sums {

  ghost function Sum<K>(keys: set<K>, f: K -> int): int {
    if keys == {} then 0
    else
      var k :| k in keys;
      f(k) + Sum(keys - {k}, f)
  }

  lemma SomeElement<K>(keys: set<K>) returns (k: K)
    requires keys != {}
    ensures k in keys
  {
    k :| k in keys;
  }

  /** The order of summation does not matter. */
  lemma {:induction false} SumRemove<K>(keys: set<K>, f: K -> int, x: K)
    requires x in keys
    ensures Sum(keys, f) == f(x) + Sum(keys - {x}, f)
  {
    var k :| k in keys && Sum(keys, f) == f(k) + Sum(keys - {k}, f);
    if k != x {
      SumRemove(keys - {k}, f, x);
      SumRemove(keys - {x}, f, k);
      assert keys - {k} - {x} == keys - {x} - {k};
    }
  }

  lemma {:induction false} SumSame<K>(keys: set<K>, f: K -> int, g: K -> int)
    requires forall k :: k in keys ==> f(k) == g(k)
    ensures Sum(keys, f) == Sum(keys, g)
  {
    if keys != {} {
      var k :| k in keys && Sum(keys, f) == f(k) + Sum(keys - {k}, f);
      SumRemove(keys, g, k);
      SumSame(keys - {k}, f, g);
    }
  }

  lemma SumChange<K>(keys: set<K>, f: K -> int, g: K -> int, x: K)
    requires x in keys && forall k :: k in keys && k != x ==> f(k) == g(k)
    ensures Sum(keys, g) == Sum(keys, f) + g(x) - f(x)
  {
    SumRemove(keys, f, x);
    SumRemove(keys, g, x);
    SumSame(keys - {x}, f, g);
  }

  lemma {:induction false} SumNonNegative<K>(keys: set<K>, f: K -> int)
    requires forall k :: k in keys ==> f(k) >= 0
    ensures Sum(keys, f) >= 0
  {
    if keys != {} {
      var k :| k in keys && Sum(keys, f) == f(k) + Sum(keys - {k}, f);
      SumNonNegative(keys - {k}, f);
    }
  }

  lemma {:induction false} SumAdd<K>(keys: set<K>, f: K -> int, g: K -> int, h: K -> int)
    requires forall k :: k in keys ==> h(k) == f(k) + g(k)
    ensures Sum(keys, h) == Sum(keys, f) + Sum(keys, g)
  {
    if keys != {} {
      var k :| k in keys && Sum(keys, h) == h(k) + Sum(keys - {k}, h);
      SumRemove(keys, f, k);
      SumRemove(keys, g, k);
      SumAdd(keys - {k}, f, g, h);
    }
  }
}

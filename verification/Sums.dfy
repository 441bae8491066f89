/** Sums over finite sets. */
module Sums {

  ghost function Sum<K(!new)>(ks: set<K>, f: K -> int): int {
    if ks == {} then 0
    else
      var k :| k in ks;
      f(k) + Sum(ks - {k}, f)
  }

  lemma {:induction false} SumPick<K(!new)>(ks: set<K>, f: K -> int, k: K)
    requires k in ks
    ensures Sum(ks, f) == f(k) + Sum(ks - {k}, f)
  {
    var j :| j in ks && Sum(ks, f) == f(j) + Sum(ks - {j}, f);
    if j != k {
      SumPick(ks - {j}, f, k);
      SumPick(ks - {k}, f, j);
      assert ks - {j} - {k} == ks - {k} - {j};
    }
  }

  lemma {:induction false} SumSame<K(!new)>(ks: set<K>, f: K -> int, g: K -> int)
    requires forall k | k in ks :: f(k) == g(k)
    ensures Sum(ks, f) == Sum(ks, g)
  {
    if ks != {} {
      var k :| k in ks;
      SumPick(ks, f, k);
      SumPick(ks, g, k);
      SumSame(ks - {k}, f, g);
    }
  }

  /** Changing one term changes the sum by as much. */
  lemma SumChange<K(!new)>(ks: set<K>, f: K -> int, g: K -> int, k: K)
    requires k in ks && forall j | j in ks && j != k :: f(j) == g(j)
    ensures Sum(ks, g) == Sum(ks, f) + g(k) - f(k)
  {
    SumPick(ks, f, k);
    SumPick(ks, g, k);
    SumSame(ks - {k}, f, g);
  }

  lemma {:induction false} SumZero<K(!new)>(ks: set<K>, f: K -> int)
    requires forall k | k in ks :: f(k) == 0
    ensures Sum(ks, f) == 0
  {
    if ks != {} {
      var k :| k in ks;
      SumPick(ks, f, k);
      SumZero(ks - {k}, f);
    }
  }

  lemma {:induction false} SumNonNegative<K(!new)>(ks: set<K>, f: K -> int)
    requires forall k | k in ks :: f(k) >= 0
    ensures Sum(ks, f) >= 0
  {
    if ks != {} {
      var k :| k in ks;
      SumPick(ks, f, k);
      SumNonNegative(ks - {k}, f);
    }
  }

  /** Zero terms do not count. */
  lemma {:induction false} SumSuperset<K(!new)>(ks: set<K>, more: set<K>, f: K -> int)
    requires ks <= more && forall k | k in more - ks :: f(k) == 0
    ensures Sum(more, f) == Sum(ks, f)
  {
    if ks == {} {
      SumZero(more, f);
    } else {
      var k :| k in ks;
      SumPick(ks, f, k);
      SumPick(more, f, k);
      assert more - {k} - (ks - {k}) == more - ks;
      SumSuperset(ks - {k}, more - {k}, f);
    }
  }
}

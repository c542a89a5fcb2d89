/** Sizes of finite sets, for every bound that counts rows, slots or records. */
module Sets {
  lemma {:induction false} SubsetSize<T>(a: set<T>, b: set<T>)
    requires a <= b
    ensures |a| <= |b|
  {
    if a != {} {
      var x :| x in a;
      SubsetSize(a - {x}, b - {x});
    }
  }

  lemma GrownSize<T>(a: set<T>, b: set<T>, x: T)
    requires a <= b + {x}
    ensures |a| <= |b| + 1
  {
    SubsetSize(a, b + {x});
  }

  lemma ShrunkSize<T>(a: set<T>, b: set<T>, x: T)
    requires x in b && a <= b - {x}
    ensures |a| + 1 <= |b|
  {
    SubsetSize(a, b - {x});
  }

  /** Moving x from the remaining to the visited elements adds it to the count if it belongs. */
  lemma TakenSize<T>(all: set<T>, rest: set<T>, x: T)
    requires x in rest
    ensures |all - (rest - {x})| == |all - rest| + if x in all then 1 else 0
  {
    assert all - (rest - {x}) == if x in all then (all - rest) + {x} else all - rest;
  }
}

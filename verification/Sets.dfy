// Counting facts about finite sets.
module Sets {

  lemma {:induction false} SubsetSize<T>(a: set<T>, b: set<T>)
    requires a <= b
    ensures |a| <= |b|
  {
    if a != {} {
      var x :| x in a;
      SubsetSize(a - {x}, b - {x});
    }
  }

  lemma Member<T>(s: set<T>) returns (x: T)
    requires s != {}
    ensures x in s
  {
    x :| x in s;
  }

  lemma {:induction false} Least(indices: set<int>) returns (lo: int)
    requires indices != {}
    ensures lo in indices && forall i | i in indices :: lo <= i
  {
    lo := Member(indices);
    var rest := indices - {lo};
    assert indices == rest + {lo};
    if rest != {} {
      var other := Least(rest);
      lo := if other < lo then other else lo;
    }
  }
}

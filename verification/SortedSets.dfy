/** sorted() over the distinct keys of a dictionary: the one listing a strict total order allows. */
module SortedSets {
  ghost predicate StrictOrder<T(!new)>(less: (T, T) -> bool, s: set<T>) {
    && (forall x, y :: x in s && y in s ==> less(x, y) || x == y || less(y, x))
    && (forall x, y :: x in s && y in s ==> !(less(x, y) && less(y, x)))
    && (forall x, y, z :: x in s && y in s && z in s && less(x, y) && less(y, z) ==> less(x, z))
  }

  ghost predicate IsLeast<T(!new)>(less: (T, T) -> bool, s: set<T>, m: T) {
    m in s && forall x :: x in s && x != m ==> less(m, x)
  }

  lemma {:induction false} LeastExists<T(!new)>(less: (T, T) -> bool, s: set<T>)
    requires s != {} && StrictOrder(less, s)
    ensures exists m :: IsLeast(less, s, m)
  {
    var x :| x in s;
    var rest := s - {x};
    if rest == {} {
      assert s == {x};
      assert IsLeast(less, s, x);
    } else {
      LeastExists(less, rest);
      var n :| IsLeast(less, rest, n);
      assert IsLeast(less, s, if less(x, n) then x else n);
    }
  }

  ghost function Least<T(!new)>(less: (T, T) -> bool, s: set<T>): (m: T)
    requires s != {} && StrictOrder(less, s)
    ensures IsLeast(less, s, m)
  {
    LeastExists(less, s);
    var m :| IsLeast(less, s, m);
    m
  }

  ghost function Sorted<T(!new)>(less: (T, T) -> bool, s: set<T>): seq<T>
    requires StrictOrder(less, s)
  {
    if s == {} then []
    else
      var m := Least(less, s);
      [m] + Sorted(less, s - {m})
  }

  ghost predicate Ascending<T(!new)>(less: (T, T) -> bool, q: seq<T>) {
    forall i, j :: 0 <= i < j < |q| ==> less(q[i], q[j])
  }

  lemma {:induction false} SortedLists<T(!new)>(less: (T, T) -> bool, s: set<T>)
    requires StrictOrder(less, s)
    ensures forall x :: x in Sorted(less, s) <==> x in s
    ensures Ascending(less, Sorted(less, s)) && |Sorted(less, s)| == |s|
  {
    if s != {} {
      var m := Least(less, s);
      SortedLists(less, s - {m});
      var rest := Sorted(less, s - {m});
      forall j | 0 <= j < |rest|
        ensures less(m, rest[j])
      {
        assert rest[j] in s - {m};
      }
    }
  }

  lemma FirstIsLeast<T(!new)>(less: (T, T) -> bool, s: set<T>, q: seq<T>)
    requires s != {} && StrictOrder(less, s) && Ascending(less, q)
    requires forall x :: x in q <==> x in s
    ensures q != [] && q[0] == Least(less, s)
    ensures forall x :: x in q[1..] <==> x in s - {q[0]}
  {
    var m := Least(less, s);
    assert m in q;
    var i :| 0 <= i < |q| && q[i] == m;
    var h := q[0];
    assert h in s;
    assert i > 0 ==> less(h, m);
    forall j | 1 <= j < |q|
      ensures q[j] in s && q[j] != q[0]
    {
      assert less(q[0], q[j]);
      assert q[j] in s;
    }
  }

  lemma Inhabited<T>(q: seq<T>)
    ensures q == [] || exists x :: x in q
  {
    if q != [] {
      assert q[0] in q;
    }
  }

  /** Any ascending listing of the set is the sorted one. */
  lemma {:induction false} SortedUnique<T(!new)>(less: (T, T) -> bool, s: set<T>, q: seq<T>)
    requires StrictOrder(less, s) && Ascending(less, q)
    requires forall x :: x in q <==> x in s
    ensures q == Sorted(less, s)
  {
    Inhabited(q);
    if s != {} {
      FirstIsLeast(less, s, q);
      SortedUnique(less, s - {q[0]}, q[1..]);
    }
  }
}

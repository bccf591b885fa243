/** Component names and Python's `sorted` over a set of them.

    Names are strings compared by code point, so `Sorted` is the one strictly
    increasing enumeration of a set; the graph, the level builder and the cycle
    finder all iterate over sets through it. */
module Names {

  type Name = string

  predicate Less(a: Name, b: Name) {
    if b == [] then false
    else if a == [] then true
    else a[0] < b[0] || (a[0] == b[0] && Less(a[1..], b[1..]))
  }

  lemma {:induction false} LessIsTotal(a: Name, b: Name)
    ensures a == b || Less(a, b) || Less(b, a)
    ensures !(Less(a, b) && Less(b, a))
    ensures !Less(a, a)
  {
    if a != [] && b != [] {
      LessIsTotal(a[1..], b[1..]);
      assert a == [a[0]] + a[1..] && b == [b[0]] + b[1..];
    }
    if a != [] {
      LessIsTotal(a[1..], a[1..]);
    }
  }

  lemma {:induction false} LessIsTransitive(a: Name, b: Name, c: Name)
    requires Less(a, b) && Less(b, c)
    ensures Less(a, c)
  {
    if a != [] && a[0] == b[0] == c[0] {
      LessIsTransitive(a[1..], b[1..], c[1..]);
    }
  }

  predicate IsLeast(m: Name, s: set<Name>) {
    m in s && forall x | x in s :: x != m ==> Less(m, x)
  }

  lemma {:induction false} LeastExists(s: set<Name>)
    requires s != {}
    ensures exists m :: IsLeast(m, s)
    ensures forall a, b :: IsLeast(a, s) && IsLeast(b, s) ==> a == b
  {
    forall a, b | IsLeast(a, s) && IsLeast(b, s) ensures a == b {
      LessIsTotal(a, b);
    }
    var x :| x in s;
    if s == {x} {
      assert IsLeast(x, s);
    } else {
      LeastExists(s - {x});
      var m :| IsLeast(m, s - {x});
      LessIsTotal(m, x);
      if Less(m, x) {
        assert IsLeast(m, s);
      } else {
        forall y | y in s && y != x ensures Less(x, y) {
          if y != m { LessIsTransitive(x, m, y); }
        }
        assert IsLeast(x, s);
      }
    }
  }

  ghost predicate Increasing(q: seq<Name>) {
    forall i, j :: 0 <= i < j < |q| ==> Less(q[i], q[j])
  }

  function Elems<T(==)>(q: seq<T>): set<T> {
    set x | x in q
  }

  function Least(s: set<Name>): (m: Name)
    requires s != {}
    ensures IsLeast(m, s)
  {
    LeastExists(s);
    var m :| IsLeast(m, s);
    m
  }

  /** The value of Python's `sorted(s)`. */
  function Sorted(s: set<Name>): (q: seq<Name>)
    ensures Elems(q) == s
    ensures Increasing(q)
    decreases s
  {
    if s == {} then []
    else
      var m := Least(s);
      var rest := Sorted(s - {m});
      assert forall x :: x in rest <==> x in Elems(rest);
      assert Elems([m] + rest) == {m} + Elems(rest);
      [m] + rest
  }

  /** An increasing sequence has no repetition and is determined by its elements. */
  lemma {:induction false} IncreasingIsUnique(p: seq<Name>, q: seq<Name>)
    requires Increasing(p) && Increasing(q)
    requires Elems(p) == Elems(q)
    ensures p == q
  {
    assert forall x :: x in p <==> x in Elems(p);
    assert forall x :: x in q <==> x in Elems(q);
    assert p != [] ==> p[0] in q;
    assert q != [] ==> q[0] in p;
    if p != [] {
      var i :| 0 <= i < |q| && q[i] == p[0];
      var j :| 0 <= j < |p| && p[j] == q[0];
      LessIsTotal(p[0], q[0]);
      IncreasingTail(p);
      IncreasingTail(q);
      IncreasingIsUnique(p[1..], q[1..]);
    }
  }

  lemma IncreasingTail(p: seq<Name>)
    requires p != [] && Increasing(p)
    ensures Increasing(p[1..])
    ensures Elems(p[1..]) == Elems(p) - {p[0]}
  {
    forall x | x in p[1..] ensures x != p[0] {
      var i :| 0 <= i < |p[1..]| && p[1..][i] == x;
      LessIsTotal(p[0], p[i + 1]);
    }
    forall x | x in p && x != p[0] ensures x in p[1..] {
      var i :| 0 <= i < |p| && p[i] == x;
      assert p[1..][i - 1] == x;
    }
  }

  lemma IncreasingIsDistinct(p: seq<Name>)
    requires Increasing(p)
    ensures Distinct(p)
  {
    forall i, j | 0 <= i < j < |p| ensures p[i] != p[j] {
      LessIsTotal(p[i], p[j]);
    }
  }

  ghost predicate Distinct<T>(q: seq<T>) {
    forall i, j :: 0 <= i < j < |q| ==> q[i] != q[j]
  }

  lemma {:induction false} DistinctSize<T>(q: seq<T>)
    requires Distinct(q)
    ensures |Elems(q)| == |q|
  {
    if q != [] {
      var n := |q| - 1;
      DistinctSize(q[..n]);
      assert Elems(q) == Elems(q[..n]) + {q[n]};
    }
  }
}

/** Restoring input order after a bounded fan-out: completions arrive tagged with their
    position, are sorted by it, and the tags are dropped. */
module GroupResults {

  datatype Done<+T> = Done(index: nat, value: T)

  function Insert<T>(d: Done<T>, q: seq<Done<T>>): seq<Done<T>> {
    if q == [] || d.index <= q[0].index then [d] + q
    else [q[0]] + Insert(d, q[1..])
  }

  function SortByIndex<T>(q: seq<Done<T>>): seq<Done<T>> {
    if q == [] then [] else Insert(q[0], SortByIndex(q[1..]))
  }

  function Values<T>(q: seq<Done<T>>): (r: seq<T>)
    ensures |r| == |q|
  {
    seq(|q|, i requires 0 <= i < |q| => q[i].value)
  }

  /** The value of `run_group_parallel`, given the completions in the order they happened. */
  function Restored<T>(completions: seq<Done<T>>): seq<T> {
    Values(SortByIndex(completions))
  }

  ghost predicate HasTag<T>(q: seq<Done<T>>, i: nat) {
    exists d :: d in q && d.index == i
  }

  ghost predicate Ascending<T>(q: seq<Done<T>>) {
    q != [] ==> (forall e :: e in q[1..] ==> q[0].index < e.index) && Ascending(q[1..])
  }

  ghost predicate DistinctTags<T>(q: seq<Done<T>>) {
    q != [] ==> !HasTag(q[1..], q[0].index) && DistinctTags(q[1..])
  }

  /** The tags present are exactly `lo .. hi - 1`. */
  ghost predicate TagsAre<T>(q: seq<Done<T>>, lo: nat, hi: nat) {
    (forall d :: d in q ==> lo <= d.index < hi) &&
    (forall i: nat {:trigger HasTag(q, i)} :: lo <= i < hi ==> HasTag(q, i))
  }

  lemma SameTags<T>(a: seq<Done<T>>, b: seq<Done<T>>, i: nat)
    requires forall e :: e in a <==> e in b
    ensures HasTag(a, i) <==> HasTag(b, i)
  {
    if HasTag(a, i) || HasTag(b, i) {
      var d :| (d in a || d in b) && d.index == i;
      assert d in a && d in b;
    }
  }

  lemma {:induction false} DistinctTagsAppend<T>(q: seq<Done<T>>, d: Done<T>)
    requires DistinctTags(q) && !HasTag(q, d.index)
    ensures DistinctTags(q + [d])
  {
    if q != [] {
      assert (q + [d])[1..] == q[1..] + [d];
      assert q == [q[0]] + q[1..];
      assert q[0] in q;
      DistinctTagsAppend(q[1..], d);
    }
  }

  lemma {:induction false} InsertKeepsAscending<T>(d: Done<T>, q: seq<Done<T>>)
    requires Ascending(q) && !HasTag(q, d.index)
    ensures Ascending(Insert(d, q))
    ensures forall e :: e in Insert(d, q) <==> e == d || e in q
  {
    if q != [] {
      assert q == [q[0]] + q[1..];
      assert q[0] in q;
      if d.index > q[0].index {
        InsertKeepsAscending(d, q[1..]);
        assert Insert(d, q)[1..] == Insert(d, q[1..]);
      } else {
        assert Insert(d, q)[1..] == q;
      }
    }
  }

  lemma {:induction false} SortIsAscending<T>(q: seq<Done<T>>)
    requires DistinctTags(q)
    ensures Ascending(SortByIndex(q))
    ensures forall e :: e in SortByIndex(q) <==> e in q
  {
    if q != [] {
      assert q == [q[0]] + q[1..];
      SortIsAscending(q[1..]);
      SameTags(SortByIndex(q[1..]), q[1..], q[0].index);
      InsertKeepsAscending(q[0], SortByIndex(q[1..]));
    }
  }

  lemma {:induction false} TagIsPosition<T>(q: seq<Done<T>>, lo: nat, hi: nat)
    requires Ascending(q) && TagsAre(q, lo, hi) && lo <= hi
    ensures |q| == hi - lo
    ensures forall k :: 0 <= k < |q| ==> q[k].index == lo + k
  {
    assert q != [] ==> q[0] in q;
    if lo < hi {
      assert HasTag(q, lo);
      assert q == [q[0]] + q[1..];
      assert q[0].index == lo;
      forall i: nat | lo + 1 <= i < hi ensures HasTag(q[1..], i) {
        assert HasTag(q, i);
      }
      TagIsPosition(q[1..], lo + 1, hi);
    }
  }

  /** Whatever the completion order, result `i` is the value computed for input `i`. */
  lemma RestoredInInputOrder<T>(q: seq<Done<T>>, n: nat)
    requires DistinctTags(q) && TagsAre(q, 0, n)
    ensures |Restored(q)| == n
    ensures forall d :: d in q ==> Restored(q)[d.index] == d.value
  {
    SortIsAscending(q);
    var s := SortByIndex(q);
    forall i: nat | i < n ensures HasTag(s, i) {
      SameTags(s, q, i);
    }
    assert TagsAre(s, 0, n);
    TagIsPosition(s, 0, n);
    forall d | d in q ensures Restored(q)[d.index] == d.value {
      assert d in s;
      var k :| 0 <= k < |s| && s[k] == d;
    }
  }
}

/** Sensor identifiers and the order in which a map keyed by them is
    traversed: ascending `std::string` order, which compares character by
    character and puts a proper prefix first. */
module SensorIds {

  /** `a` sorts strictly before `b`, lexicographically. */
  predicate LessThan(a: string, b: string)
  {
    if |a| == 0 then |b| > 0
    else |b| > 0 && (a[0] < b[0] || (a[0] == b[0] && LessThan(a[1..], b[1..])))
  }

  lemma {:induction false} LessThanIrreflexive(a: string)
    ensures !LessThan(a, a)
  {
    if |a| > 0 {
      LessThanIrreflexive(a[1..]);
    }
  }

  lemma {:induction false} LessThanTransitive(a: string, b: string, c: string)
    requires LessThan(a, b) && LessThan(b, c)
    ensures LessThan(a, c)
  {
    if |a| > 0 && a[0] == b[0] && b[0] == c[0] {
      LessThanTransitive(a[1..], b[1..], c[1..]);
    }
  }

  lemma {:induction false} LessThanTotal(a: string, b: string)
    ensures a == b || LessThan(a, b) || LessThan(b, a)
  {
    if |a| > 0 && |b| > 0 && a[0] == b[0] {
      LessThanTotal(a[1..], b[1..]);
      if a[1..] == b[1..] {
        assert a == [a[0]] + a[1..] && b == [b[0]] + b[1..];
      }
    }
  }

  lemma LessThanAsymmetric(a: string, b: string)
    requires LessThan(a, b)
    ensures !LessThan(b, a)
  {
    if LessThan(b, a) {
      LessThanTransitive(a, b, a);
      LessThanIrreflexive(a);
    }
  }

  /** `m` is the first of `s` in ascending order. */
  predicate IsLeast(m: string, s: set<string>)
  {
    m in s && forall x :: x in s && x != m ==> LessThan(m, x)
  }

  /** Every non-empty set of identifiers has a first one. */
  lemma {:induction false} HasLeast(s: set<string>)
    requires s != {}
    ensures exists m :: IsLeast(m, s)
  {
    var y :| y in s;
    if s != {y} {
      HasLeast(s - {y});
      var m :| IsLeast(m, s - {y});
      LessThanTotal(y, m);
      if LessThan(y, m) {
        forall x | x in s && x != y
          ensures LessThan(y, x)
        {
          if x != m {
            LessThanTransitive(y, m, x);
          }
        }
        assert IsLeast(y, s);
      } else {
        assert IsLeast(m, s);
      }
    } else {
      assert IsLeast(y, s);
    }
  }

  /** ... and only one. */
  lemma LeastUnique(s: set<string>)
    ensures forall m, m' :: IsLeast(m, s) && IsLeast(m', s) ==> m == m'
  {
    forall m, m' | IsLeast(m, s) && IsLeast(m', s)
      ensures m == m'
    {
      if m != m' {
        LessThanAsymmetric(m, m');
      }
    }
  }

  /** The identifiers of `s` in the order a `std::map` keyed by them visits
      its entries: each once, in strictly ascending order. */
  function SortedIds(s: set<string>): (ids: seq<string>)
    ensures |ids| == |s|
    ensures forall i :: 0 <= i < |ids| ==> ids[i] in s
    ensures forall x :: x in s ==> x in ids
    ensures forall i, j :: 0 <= i < j < |ids| ==> LessThan(ids[i], ids[j])
    decreases |s|
  {
    if s == {} then []
    else
      HasLeast(s);
      LeastUnique(s);
      var m :| IsLeast(m, s);
      var rest := SortedIds(s - {m});
      PrependLeast(m, s, rest);
      [m] + rest
  }

  /** The first of `s` followed by an ascending listing of the rest of `s`
      is an ascending listing of `s`. */
  lemma PrependLeast(m: string, s: set<string>, rest: seq<string>)
    requires IsLeast(m, s)
    requires |rest| == |s - {m}|
    requires forall i :: 0 <= i < |rest| ==> rest[i] in s - {m}
    requires forall x :: x in s - {m} ==> x in rest
    requires forall i, j :: 0 <= i < j < |rest| ==> LessThan(rest[i], rest[j])
    ensures |[m] + rest| == |s|
    ensures forall i :: 0 <= i < |[m] + rest| ==> ([m] + rest)[i] in s
    ensures forall x :: x in s ==> x in [m] + rest
    ensures forall i, j :: 0 <= i < j < |[m] + rest| ==> LessThan(([m] + rest)[i], ([m] + rest)[j])
  {
    var r := [m] + rest;
    forall i, j | 0 <= i < j < |r|
      ensures LessThan(r[i], r[j])
    {
      assert r[j] == rest[j - 1];
      if i > 0 {
        assert r[i] == rest[i - 1];
      }
    }
  }

  /** A strictly ascending listing has no repeated identifier. */
  lemma SortedDistinct(ids: seq<string>)
    requires forall i, j :: 0 <= i < j < |ids| ==> LessThan(ids[i], ids[j])
    ensures forall i, j :: 0 <= i < |ids| && 0 <= j < |ids| && i != j ==> ids[i] != ids[j]
  {
    forall i, j | 0 <= i < |ids| && 0 <= j < |ids| && i != j
      ensures ids[i] != ids[j]
    {
      if i < j {
        LessThanIrreflexive(ids[i]);
      } else {
        LessThanIrreflexive(ids[j]);
      }
    }
  }

  /** The head of a strictly ascending listing of `s` is the first of `s`. */
  lemma ListingHeadLeast(s: set<string>, ids: seq<string>)
    requires |ids| > 0
    requires forall i :: 0 <= i < |ids| ==> ids[i] in s
    requires forall x :: x in s ==> x in ids
    requires forall i, j :: 0 <= i < j < |ids| ==> LessThan(ids[i], ids[j])
    ensures IsLeast(ids[0], s)
  {
    forall x | x in s && x != ids[0]
      ensures LessThan(ids[0], x)
    {
      var j :| 0 <= j < |ids| && ids[j] == x;
    }
  }

  /** The rest of such a listing is a strictly ascending listing of the
      rest of `s`. */
  lemma ListingTail(s: set<string>, ids: seq<string>)
    requires |ids| > 0
    requires forall i :: 0 <= i < |ids| ==> ids[i] in s
    requires forall x :: x in s ==> x in ids
    requires forall i, j :: 0 <= i < j < |ids| ==> LessThan(ids[i], ids[j])
    ensures forall i :: 0 <= i < |ids[1..]| ==> ids[1..][i] in s - {ids[0]}
    ensures forall x :: x in s - {ids[0]} ==> x in ids[1..]
    ensures forall i, j :: 0 <= i < j < |ids[1..]| ==> LessThan(ids[1..][i], ids[1..][j])
  {
    SortedDistinct(ids);
    forall i | 0 <= i < |ids[1..]|
      ensures ids[1..][i] in s - {ids[0]}
    {
      assert ids[1..][i] == ids[i + 1];
    }
    forall x | x in s - {ids[0]}
      ensures x in ids[1..]
    {
      var j :| 0 <= j < |ids| && ids[j] == x;
      assert j != 0;
      assert ids[1..][j - 1] == x;
    }
  }

  /** The listing of a non-empty set is its first identifier followed by the
      listing of the rest. */
  lemma SortedIdsHead(s: set<string>)
    requires s != {}
    ensures |SortedIds(s)| > 0
    ensures SortedIds(s) == [SortedIds(s)[0]] + SortedIds(s - {SortedIds(s)[0]})
  {
  }

  /** The listing is the only strictly ascending one of its set. */
  lemma {:induction false} SortedIdsUnique(s: set<string>, ids: seq<string>)
    requires forall i :: 0 <= i < |ids| ==> ids[i] in s
    requires forall x :: x in s ==> x in ids
    requires forall i, j :: 0 <= i < j < |ids| ==> LessThan(ids[i], ids[j])
    ensures ids == SortedIds(s)
    decreases |s|
  {
    if ids == [] {
      assert s == {};
    } else {
      var r := SortedIds(s);
      var m := ids[0];
      ListingHeadLeast(s, ids);
      ListingHeadLeast(s, r);
      LeastUnique(s);
      assert r[0] == m;
      ListingTail(s, ids);
      SortedIdsUnique(s - {m}, ids[1..]);
      SortedIdsHead(s);
    }
  }
}

/** Facts about orderings of entity types used by the canonical sort of
    the `rel` schema builder: compareTypes is taken as an abstract strict
    total order, and a sequence sorted by it is determined by its elements. */
module RelOrder {
  import opened RelTypes

  /** The ordering the sort uses (compareTypes' "less"). */
  type Less = (Type, Type) -> bool

  /** What Go's sort.Sort needs of Less: never both ways. */
  ghost predicate Asymmetric(less: Less) {
    forall x, y :: less(x, y) ==> !less(y, x)
  }

  /** What compareTypes is taken to be: a strict total order on types. */
  ghost predicate StrictTotalOrder(less: Less) {
    && (forall x :: !less(x, x))
    && (forall x, y, z :: less(x, y) && less(y, z) ==> less(x, z))
    && (forall x, y :: x != y ==> less(x, y) || less(y, x))
  }

  /** No neighbour is out of order: what an insertion sort establishes. */
  ghost predicate AdjacentSorted(s: seq<Type>, less: Less) {
    forall k :: 0 <= k < |s| - 1 ==> !less(s[k + 1], s[k])
  }

  /** No pair is out of order. */
  ghost predicate Sorted(s: seq<Type>, less: Less) {
    forall p, q :: 0 <= p < q < |s| ==> !less(s[q], s[p])
  }

  lemma StrictTotalOrderIsAsymmetric(less: Less)
    requires StrictTotalOrder(less)
    ensures Asymmetric(less)
  {
  }

  /** Under a strict total order, neighbours in order means all pairs in order. */
  lemma {:induction false} AdjacentSortedIsSorted(s: seq<Type>, less: Less)
    requires StrictTotalOrder(less)
    requires AdjacentSorted(s, less)
    ensures Sorted(s, less)
  {
    if |s| > 1 {
      var t := s[1..];
      assert AdjacentSorted(t, less) by {
        forall k | 0 <= k < |t| - 1 ensures !less(t[k + 1], t[k]) {
          assert t[k + 1] == s[k + 2] && t[k] == s[k + 1];
        }
      }
      AdjacentSortedIsSorted(t, less);
      forall p, q | 0 <= p < q < |s| ensures !less(s[q], s[p]) {
        if p > 0 {
          assert s[q] == t[q - 1] && s[p] == t[p - 1];
        } else if q > 1 {
          assert !less(s[q], s[1]) by { assert s[q] == t[q - 1] && s[1] == t[0]; }
          assert !less(s[1], s[0]);
          // Totality puts s[0] <= s[1] <= s[q]; transitivity then rules out s[q] < s[0].
          if s[1] != s[0] && s[q] != s[1] {
            assert less(s[0], s[1]) && less(s[1], s[q]);
          }
        }
      }
    }
  }

  /** The first element of a sorted sequence of distinct types is below
      every other element. */
  lemma SortedHeadIsLeast(s: seq<Type>, less: Less, x: Type)
    requires StrictTotalOrder(less)
    requires Sorted(s, less) && |s| > 0
    requires x in s && x != s[0]
    ensures less(s[0], x)
  {
    var q :| 0 <= q < |s| && s[q] == x;
    assert q > 0;
    assert !less(s[q], s[0]);
  }

  lemma HeadIsElement(t: seq<Type>)
    requires |t| > 0
    ensures t[0] in t
  {
  }

  /** No type occurs twice. */
  ghost predicate Distinct(s: seq<Type>) {
    forall p, q :: 0 <= p < q < |s| ==> s[p] != s[q]
  }

  /** Rank determinism: two sorted orderings of the same distinct types are
      the same sequence, whatever order the types were registered in. */
  lemma {:induction false} SortedIsUnique(s: seq<Type>, t: seq<Type>, less: Less)
    requires StrictTotalOrder(less)
    requires Sorted(s, less) && Sorted(t, less)
    requires Distinct(s) && Distinct(t)
    requires forall x :: x in s <==> x in t
    ensures s == t
  {
    if |s| == 0 {
      // Any element of t would be an element of s.
      if |t| > 0 {
        HeadIsElement(t);
        assert false;
      }
    } else {
      assert s[0] in s;
      StrictTotalOrderIsAsymmetric(less);
      if |t| == 0 {
        assert false;
      } else {
        assert t[0] in t;
        if s[0] != t[0] {
          // s[0] would then be strictly below t[0], although it is an element
          // of t and t's head is its least element.
          SortedHeadIsLeast(s, less, t[0]);
        }
        assert s[0] == t[0];
        forall x ensures x in s[1..] <==> x in t[1..] {
          if x in s[1..] {
            var p :| 1 <= p < |s| && s[p] == x;
            assert x in t && x != t[0];
            var q :| 0 <= q < |t| && t[q] == x;
            assert t[1..][q - 1] == x;
          }
          if x in t[1..] {
            var q :| 1 <= q < |t| && t[q] == x;
            assert x in s && x != s[0];
            var p :| 0 <= p < |s| && s[p] == x;
            assert s[1..][p - 1] == x;
          }
        }
        SortedIsUnique(s[1..], t[1..], less);
        assert s == [s[0]] + s[1..];
        assert t == [t[0]] + t[1..];
      }
    }
  }
}

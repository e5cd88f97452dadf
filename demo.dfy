/** The four scenarios of example.cpp, each run through the range overload
    without `comp`, with the callback collecting what it receives. The
    callback there inserts into a std::set<int>; since every output below is
    strictly ascending, the collected sequence lists exactly that set. */
module Demo {
  import opened Ordering
  import opened SetSpec
  import opened SetAlgo

  /** A sequence of ints where each element is below the next is ascending
      under `Less`; std::set<int> iterates in such an order. */
  lemma {:induction false} StepwiseSorted(s: seq<int>)
    requires forall i | 0 <= i < |s| - 1 :: s[i] < s[i + 1]
    ensures Sorted(Less, s)
  {
    if |s| > 1 {
      StepwiseSorted(s[1..]);
      assert forall i | 0 <= i < |s[1..]| - 1 :: s[1..][i] < s[1..][i + 1];
      forall i, j | 0 <= i < j < |s| ensures !Less(s[j], s[i]) {
        if i > 0 {
          assert s[j] == s[1..][j - 1] && s[i] == s[1..][i - 1];
        } else if j > 1 {
          assert !Less(s[1..][j - 1], s[1..][0]);
        }
      }
    }
  }

  method UnionExample() returns (result: seq<int>)
    ensures result == [1, 2, 3, 4, 5, 6]
  {
    var sink := new Sink<int>();
    StepwiseSorted([1, 2, 3]);
    StepwiseSorted([4, 5, 6]);
    MakeUnionDefault([1, 2, 3], [4, 5, 6], sink);
    result := sink.trace;
  }

  method IntersectionExample() returns (result: seq<int>)
    ensures result == [1, 4]
  {
    var sink := new Sink<int>();
    StepwiseSorted([1, 2, 3, 4]);
    StepwiseSorted([1, 4, 5, 6]);
    MakeIntersectionDefault([1, 2, 3, 4], [1, 4, 5, 6], sink);
    result := sink.trace;
  }

  method DifferenceExample() returns (result: seq<int>)
    ensures result == [1, 4, 5]
  {
    var sink := new Sink<int>();
    StepwiseSorted([1, 2, 3, 4, 5]);
    StepwiseSorted([2, 3]);
    MakeDifferenceDefault([1, 2, 3, 4, 5], [2, 3], sink);
    result := sink.trace;
  }

  /** The merge evaluated on the inputs of the symmetric-difference scenario. */
  lemma {:induction false} SymmetricDifferenceExampleValue()
    ensures SymmetricDifference(Less, [1, 2, 3, 4, 5, 6], [2, 3, 4, 7, 8]) == [1, 5, 6, 7, 8]
  {
  }

  method SymmetricDifferenceExample() returns (result: seq<int>)
    ensures result == [1, 5, 6, 7, 8]
  {
    var sink := new Sink<int>();
    StepwiseSorted([1, 2, 3, 4, 5, 6]);
    StepwiseSorted([2, 3, 4, 7, 8]);
    SymmetricDifferenceExampleValue();
    MakeSymmetricDifferenceDefault([1, 2, 3, 4, 5, 6], [2, 3, 4, 7, 8], sink);
    result := sink.trace;
  }

  /** The union scenario with a caller-supplied descending `comp` and inputs
      listed in descending order. */
  method DescendingUnionExample() returns (result: seq<int>)
    ensures result == [6, 5, 4, 3, 2, 1]
  {
    GreaterIsStrictWeakOrder();
    var sink := new Sink<int>();
    MakeUnion([3, 2, 1], [6, 5, 4], sink, Greater);
    result := sink.trace;
  }
}

/** The sixteen entry points of set_algo.hpp. Each set operation runs the
    two-cursor merge of section 25.4.5 of ISO/IEC 14882:2011 over two
    read-only ranges and pushes every output element into a Sink, which
    stands for the function_output_iterator that forwards each write to the
    caller's unary callback.

    A C++ iterator pair [first, last) into a container `a` is the pair of
    indices, and the elements it still has to visit are the sequence
    `a[first..last]`; advancing `first` drops the head of that sequence. The
    overloads the header tells apart by argument count get distinct names:
    the suffix `Iter` marks the iterator-pair forms, `Default` the forms
    without `comp`, which use the natural `<` on `int`. */
module SetAlgo {
  import opened Ordering
  import opened SetSpec

  /** The output sink: `trace` holds the arguments of the callback
      invocations so far, in the order they were made. */
  class Sink<T> {
    var trace: seq<T>

    constructor ()
      ensures trace == []
    {
      trace := [];
    }

    /** One write through the output iterator: one callback invocation. */
    method Accept(x: T)
      modifies this
      ensures trace == old(trace) + [x]
    {
      trace := trace + [x];
    }
  }

  /** std::copy of the rest of a range into the sink, used to drain the
      range that is left over once the other is exhausted. */
  method Copy<T>(s: seq<T>, sink: Sink<T>)
    modifies sink
    ensures sink.trace == old(sink.trace) + s
  {
    var i := 0;
    while i < |s|
      invariant i <= |s|
      invariant sink.trace == old(sink.trace) + s[..i]
    {
      sink.Accept(s[i]);
      assert s[..i + 1] == s[..i] + [s[i]];
      i := i + 1;
    }
  }

  // ---------------------------------------------------------------------
  // Union

  method MakeUnionIter<T(!new)>(a: seq<T>, first1: nat, last1: nat,
                                b: seq<T>, first2: nat, last2: nat,
                                sink: Sink<T>, lt: (T, T) -> bool)
    requires first1 <= last1 <= |a| && first2 <= last2 <= |b|
    requires StrictWeakOrder(lt) && Sorted(lt, a[first1..last1]) && Sorted(lt, b[first2..last2])
    modifies sink
    ensures sink.trace == old(sink.trace) + Union(lt, a[first1..last1], b[first2..last2])
  {
    var r1, r2 := a[first1..last1], b[first2..last2];
    while r1 != [] && r2 != []
      invariant sink.trace + Union(lt, r1, r2)
             == old(sink.trace) + Union(lt, a[first1..last1], b[first2..last2])
    {
      UnionStep(lt, r1, r2);
      ghost var t := sink.trace;
      if lt(r1[0], r2[0]) {
        sink.Accept(r1[0]);
        AppendShift(t, r1[0], Union(lt, r1[1..], r2));
        r1 := r1[1..];
      } else if lt(r2[0], r1[0]) {
        sink.Accept(r2[0]);
        AppendShift(t, r2[0], Union(lt, r1, r2[1..]));
        r2 := r2[1..];
      } else {
        sink.Accept(r1[0]);
        AppendShift(t, r1[0], Union(lt, r1[1..], r2[1..]));
        r1, r2 := r1[1..], r2[1..];
      }
    }
    Drained(lt, r1, r2);
    ghost var t := sink.trace;
    Copy(r1, sink);
    Copy(r2, sink);
    AppendAssoc(t, r1, r2);
  }

  method MakeUnionIterDefault(a: seq<int>, first1: nat, last1: nat,
                              b: seq<int>, first2: nat, last2: nat, sink: Sink<int>)
    requires first1 <= last1 <= |a| && first2 <= last2 <= |b|
    requires Sorted(Less, a[first1..last1]) && Sorted(Less, b[first2..last2])
    modifies sink
    ensures sink.trace == old(sink.trace) + Union(Less, a[first1..last1], b[first2..last2])
  {
    LessIsStrictWeakOrder();
    MakeUnionIter(a, first1, last1, b, first2, last2, sink, Less);
  }

  method MakeUnion<T(!new)>(a: seq<T>, b: seq<T>, sink: Sink<T>, lt: (T, T) -> bool)
    requires StrictWeakOrder(lt) && Sorted(lt, a) && Sorted(lt, b)
    modifies sink
    ensures sink.trace == old(sink.trace) + Union(lt, a, b)
  {
    assert a[0..|a|] == a && b[0..|b|] == b;
    MakeUnionIter(a, 0, |a|, b, 0, |b|, sink, lt);
  }

  method MakeUnionDefault(a: seq<int>, b: seq<int>, sink: Sink<int>)
    requires Sorted(Less, a) && Sorted(Less, b)
    modifies sink
    ensures sink.trace == old(sink.trace) + Union(Less, a, b)
  {
    assert a[0..|a|] == a && b[0..|b|] == b;
    MakeUnionIterDefault(a, 0, |a|, b, 0, |b|, sink);
  }

  // ---------------------------------------------------------------------
  // Intersection

  method MakeIntersectionIter<T(!new)>(a: seq<T>, first1: nat, last1: nat,
                                       b: seq<T>, first2: nat, last2: nat,
                                       sink: Sink<T>, lt: (T, T) -> bool)
    requires first1 <= last1 <= |a| && first2 <= last2 <= |b|
    requires StrictWeakOrder(lt) && Sorted(lt, a[first1..last1]) && Sorted(lt, b[first2..last2])
    modifies sink
    ensures sink.trace == old(sink.trace) + Intersection(lt, a[first1..last1], b[first2..last2])
  {
    var r1, r2 := a[first1..last1], b[first2..last2];
    while r1 != [] && r2 != []
      invariant sink.trace + Intersection(lt, r1, r2)
             == old(sink.trace) + Intersection(lt, a[first1..last1], b[first2..last2])
    {
      IntersectionStep(lt, r1, r2);
      ghost var t := sink.trace;
      if lt(r1[0], r2[0]) {
        r1 := r1[1..];
      } else if lt(r2[0], r1[0]) {
        r2 := r2[1..];
      } else {
        sink.Accept(r1[0]);
        AppendShift(t, r1[0], Intersection(lt, r1[1..], r2[1..]));
        r1, r2 := r1[1..], r2[1..];
      }
    }
    Drained(lt, r1, r2);
  }

  method MakeIntersectionIterDefault(a: seq<int>, first1: nat, last1: nat,
                                     b: seq<int>, first2: nat, last2: nat, sink: Sink<int>)
    requires first1 <= last1 <= |a| && first2 <= last2 <= |b|
    requires Sorted(Less, a[first1..last1]) && Sorted(Less, b[first2..last2])
    modifies sink
    ensures sink.trace == old(sink.trace) + Intersection(Less, a[first1..last1], b[first2..last2])
  {
    LessIsStrictWeakOrder();
    MakeIntersectionIter(a, first1, last1, b, first2, last2, sink, Less);
  }

  method MakeIntersection<T(!new)>(a: seq<T>, b: seq<T>, sink: Sink<T>, lt: (T, T) -> bool)
    requires StrictWeakOrder(lt) && Sorted(lt, a) && Sorted(lt, b)
    modifies sink
    ensures sink.trace == old(sink.trace) + Intersection(lt, a, b)
  {
    assert a[0..|a|] == a && b[0..|b|] == b;
    MakeIntersectionIter(a, 0, |a|, b, 0, |b|, sink, lt);
  }

  method MakeIntersectionDefault(a: seq<int>, b: seq<int>, sink: Sink<int>)
    requires Sorted(Less, a) && Sorted(Less, b)
    modifies sink
    ensures sink.trace == old(sink.trace) + Intersection(Less, a, b)
  {
    assert a[0..|a|] == a && b[0..|b|] == b;
    MakeIntersectionIterDefault(a, 0, |a|, b, 0, |b|, sink);
  }

  // ---------------------------------------------------------------------
  // Difference

  method MakeDifferenceIter<T(!new)>(a: seq<T>, first1: nat, last1: nat,
                                     b: seq<T>, first2: nat, last2: nat,
                                     sink: Sink<T>, lt: (T, T) -> bool)
    requires first1 <= last1 <= |a| && first2 <= last2 <= |b|
    requires StrictWeakOrder(lt) && Sorted(lt, a[first1..last1]) && Sorted(lt, b[first2..last2])
    modifies sink
    ensures sink.trace == old(sink.trace) + Difference(lt, a[first1..last1], b[first2..last2])
  {
    var r1, r2 := a[first1..last1], b[first2..last2];
    while r1 != [] && r2 != []
      invariant sink.trace + Difference(lt, r1, r2)
             == old(sink.trace) + Difference(lt, a[first1..last1], b[first2..last2])
    {
      DifferenceStep(lt, r1, r2);
      ghost var t := sink.trace;
      if lt(r1[0], r2[0]) {
        sink.Accept(r1[0]);
        AppendShift(t, r1[0], Difference(lt, r1[1..], r2));
        r1 := r1[1..];
      } else if lt(r2[0], r1[0]) {
        r2 := r2[1..];
      } else {
        r1, r2 := r1[1..], r2[1..];
      }
    }
    Drained(lt, r1, r2);
    Copy(r1, sink);
  }

  method MakeDifferenceIterDefault(a: seq<int>, first1: nat, last1: nat,
                                   b: seq<int>, first2: nat, last2: nat, sink: Sink<int>)
    requires first1 <= last1 <= |a| && first2 <= last2 <= |b|
    requires Sorted(Less, a[first1..last1]) && Sorted(Less, b[first2..last2])
    modifies sink
    ensures sink.trace == old(sink.trace) + Difference(Less, a[first1..last1], b[first2..last2])
  {
    LessIsStrictWeakOrder();
    MakeDifferenceIter(a, first1, last1, b, first2, last2, sink, Less);
  }

  method MakeDifference<T(!new)>(a: seq<T>, b: seq<T>, sink: Sink<T>, lt: (T, T) -> bool)
    requires StrictWeakOrder(lt) && Sorted(lt, a) && Sorted(lt, b)
    modifies sink
    ensures sink.trace == old(sink.trace) + Difference(lt, a, b)
  {
    assert a[0..|a|] == a && b[0..|b|] == b;
    MakeDifferenceIter(a, 0, |a|, b, 0, |b|, sink, lt);
  }

  method MakeDifferenceDefault(a: seq<int>, b: seq<int>, sink: Sink<int>)
    requires Sorted(Less, a) && Sorted(Less, b)
    modifies sink
    ensures sink.trace == old(sink.trace) + Difference(Less, a, b)
  {
    assert a[0..|a|] == a && b[0..|b|] == b;
    MakeDifferenceIterDefault(a, 0, |a|, b, 0, |b|, sink);
  }

  // ---------------------------------------------------------------------
  // Symmetric difference

  method MakeSymmetricDifferenceIter<T(!new)>(a: seq<T>, first1: nat, last1: nat,
                                              b: seq<T>, first2: nat, last2: nat,
                                              sink: Sink<T>, lt: (T, T) -> bool)
    requires first1 <= last1 <= |a| && first2 <= last2 <= |b|
    requires StrictWeakOrder(lt) && Sorted(lt, a[first1..last1]) && Sorted(lt, b[first2..last2])
    modifies sink
    ensures sink.trace == old(sink.trace) + SymmetricDifference(lt, a[first1..last1], b[first2..last2])
  {
    var r1, r2 := a[first1..last1], b[first2..last2];
    while r1 != [] && r2 != []
      invariant sink.trace + SymmetricDifference(lt, r1, r2)
             == old(sink.trace) + SymmetricDifference(lt, a[first1..last1], b[first2..last2])
    {
      SymmetricDifferenceStep(lt, r1, r2);
      ghost var t := sink.trace;
      if lt(r1[0], r2[0]) {
        sink.Accept(r1[0]);
        AppendShift(t, r1[0], SymmetricDifference(lt, r1[1..], r2));
        r1 := r1[1..];
      } else if lt(r2[0], r1[0]) {
        sink.Accept(r2[0]);
        AppendShift(t, r2[0], SymmetricDifference(lt, r1, r2[1..]));
        r2 := r2[1..];
      } else {
        r1, r2 := r1[1..], r2[1..];
      }
    }
    Drained(lt, r1, r2);
    ghost var t := sink.trace;
    Copy(r1, sink);
    Copy(r2, sink);
    AppendAssoc(t, r1, r2);
  }

  method MakeSymmetricDifferenceIterDefault(a: seq<int>, first1: nat, last1: nat,
                                            b: seq<int>, first2: nat, last2: nat, sink: Sink<int>)
    requires first1 <= last1 <= |a| && first2 <= last2 <= |b|
    requires Sorted(Less, a[first1..last1]) && Sorted(Less, b[first2..last2])
    modifies sink
    ensures sink.trace
         == old(sink.trace) + SymmetricDifference(Less, a[first1..last1], b[first2..last2])
  {
    LessIsStrictWeakOrder();
    MakeSymmetricDifferenceIter(a, first1, last1, b, first2, last2, sink, Less);
  }

  method MakeSymmetricDifference<T(!new)>(a: seq<T>, b: seq<T>, sink: Sink<T>, lt: (T, T) -> bool)
    requires StrictWeakOrder(lt) && Sorted(lt, a) && Sorted(lt, b)
    modifies sink
    ensures sink.trace == old(sink.trace) + SymmetricDifference(lt, a, b)
  {
    assert a[0..|a|] == a && b[0..|b|] == b;
    MakeSymmetricDifferenceIter(a, 0, |a|, b, 0, |b|, sink, lt);
  }

  method MakeSymmetricDifferenceDefault(a: seq<int>, b: seq<int>, sink: Sink<int>)
    requires Sorted(Less, a) && Sorted(Less, b)
    modifies sink
    ensures sink.trace == old(sink.trace) + SymmetricDifference(Less, a, b)
  {
    assert a[0..|a|] == a && b[0..|b|] == b;
    MakeSymmetricDifferenceIterDefault(a, 0, |a|, b, 0, |b|, sink);
  }

  // ---------------------------------------------------------------------

  /** Moving one element from the front of the remaining output to the end
      of the trace keeps the whole output unchanged. */
  lemma {:induction false} AppendShift<T>(t: seq<T>, x: T, rest: seq<T>)
    ensures (t + [x]) + rest == t + ([x] + rest)
  {
  }

  /** Draining both leftover ranges in turn appends their concatenation. */
  lemma {:induction false} AppendAssoc<T>(t: seq<T>, x: seq<T>, y: seq<T>)
    ensures (t + x) + y == t + (x + y)
  {
  }
}

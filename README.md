# Set algorithms with a callback: a Dafny model

`set_algo.hpp` offers the four sorted-range set operations of the C++
standard library (`std::set_union`, `std::set_intersection`,
`std::set_difference`, `std::set_symmetric_difference`, section 25.4.5 of
ISO/IEC 14882:2011) as `make_union`, `make_intersection`, `make_difference`
and `make_symmetric_difference`. They do not write the output to an iterator
the caller supplies. Instead they hand each output element to a unary
callback `f`. Each operation has four overloads:

- an iterator pair per input, with or without a comparator `comp`;
- a whole range per input, with or without `comp`.

The range forms forward `begin`/`end` of each range to the iterator forms.
The forms without `comp` use `operator<`. The iterator forms call the
standard algorithm with `boost::make_function_output_iterator(f)` as the
output iterator.

The model has four files:

- `ordering.dfy` (module `Ordering`): the comparator contract. A `comp` must
  be a strict weak ordering (section 25.4, paragraph 4). The file defines
  equivalence, what "ascending under `comp`" means, and the natural `<` on
  `int` (plus `>` as a caller-supplied descending order).
- `set_spec.dfy` (module `SetSpec`): the four merges as recursive functions.
  They follow the standard two-cursor loop step by step. Lemmas state what
  the standard promises for each equivalence class of inputs: how many
  elements of the class are output, and which ones. Further lemmas prove
  that the output is ascending, say where the output elements come from,
  and cover the empty-input cases, idempotence of union and the
  decomposition of the symmetric difference.
- `set_algo.dfy` (module `SetAlgo`): the sixteen entry points as methods.
  - `Sink` is the function output iterator together with the callback: its
    `trace` is the sequence of callback arguments so far.
  - Each `Make…Iter` method runs the two-cursor `while` loop and drains the
    leftover range with `Copy` (`std::copy`).
  - Each method is proved to append exactly the specification function's
    output to the sink.
  - `Make…IterDefault` forwards to `Make…Iter` with `Less`. `Make…`
    forwards the whole ranges to `Make…Iter`, and `Make…Default` forwards
    them to `Make…IterDefault`, as the header does.
- `demo.dfy` (module `Demo`): the four scenarios of `example.cpp`, run
  through the range overloads with a collecting callback, plus a union
  under a descending comparator.

Naming of overloads: C++ tells the overloads apart by argument count. Here
they have distinct names. `Iter` marks the iterator-pair forms. `Default`
marks the forms without `comp`. A C++ iterator pair `[first, last)` into a
container is a sequence `a` with the indices `first` and `last`. The
elements still to be visited are `a[first..last]`. Advancing `first` drops
the head of that sequence.

## Model

| member | source | states |
|---|---|---|
| Ordering.LessIsStrictWeakOrder | set_algo.hpp:33-41 | `<` on `int`, the order of the overloads without `comp`, is a strict weak ordering whose equivalence is equality |
| Ordering.GreaterIsStrictWeakOrder | set_algo.hpp:43-51 | a descending comparator passed as `comp` meets the strict weak ordering requirement |
| SetSpec.Union | set_algo.hpp:27-30 | the union outputs at most as many elements as the two ranges hold together |
| SetSpec.Intersection | set_algo.hpp:67-70 | the intersection outputs at most as many elements as the shorter range holds |
| SetSpec.Difference | set_algo.hpp:112-115 | the difference outputs at most as many elements as the first range holds |
| SetSpec.SymmetricDifference | set_algo.hpp:156-160 | the symmetric difference outputs at most as many elements as the two ranges hold together |
| SetSpec.UnionClass | set_algo.hpp:21-31 | for every equivalence class, the union outputs all m elements of the class from the first range in order, then the last max(n - m, 0) from the second |
| SetSpec.UnionCount | set_algo.hpp:21-31 | each class occurs max(m, n) times in the union |
| SetSpec.UnionSorted | set_algo.hpp:21-31 | the union of two ascending ranges is ascending |
| SetSpec.UnionFromInputs | set_algo.hpp:21-31 | the union uses each input element at most once |
| SetSpec.UnionIdempotent | set_algo.hpp:21-31 | the union of a range with itself is that range |
| SetSpec.IntersectionClass | set_algo.hpp:61-71 | for every class, the intersection outputs the first min(m, n) elements of the class from the first range |
| SetSpec.IntersectionCount | set_algo.hpp:61-71 | each class occurs min(m, n) times in the intersection |
| SetSpec.IntersectionSorted | set_algo.hpp:61-71 | the intersection of two ascending ranges is ascending |
| SetSpec.IntersectionFromFirst | set_algo.hpp:61-71 | the intersection outputs only elements of the first range, each at most as often as it occurs there |
| SetSpec.DifferenceClass | set_algo.hpp:106-116 | for every class, the difference outputs the last max(m - n, 0) elements of the class from the first range |
| SetSpec.DifferenceCount | set_algo.hpp:106-116 | each class occurs max(m - n, 0) times in the difference |
| SetSpec.DifferenceSorted | set_algo.hpp:106-116 | the difference of two ascending ranges is ascending |
| SetSpec.DifferenceFromFirst | set_algo.hpp:106-116 | the difference outputs only elements of the first range, each at most as often as it occurs there |
| SetSpec.SymmetricDifferenceClass | set_algo.hpp:149-161 | for every class, the symmetric difference outputs the last m - n elements of the class from the first range when m > n, and the last n - m from the second when n > m |
| SetSpec.SymmetricDifferenceCount | set_algo.hpp:149-161 | each class occurs abs(m - n) times in the symmetric difference |
| SetSpec.SymmetricDifferenceSorted | set_algo.hpp:149-161 | the symmetric difference of two ascending ranges is ascending |
| SetSpec.SymmetricDifferenceFromInputs | set_algo.hpp:149-161 | the symmetric difference uses each input element at most once |
| SetSpec.SymmetricDifferenceIsBothDifferences | set_algo.hpp:149-161 | as a multiset, the symmetric difference is difference(a, b) plus difference(b, a) |
| SetSpec.EmptyInputs | set_algo.hpp:27-30 | with an empty range, the union and the symmetric difference give the other range, the intersection gives nothing, and the difference gives its first range or nothing |
| SetSpec.CountLess | set_algo.hpp:33-41 | under `<` on `int`, the size of a class is the multiplicity of its value |
| SetSpec.UnionMultiplicity | set_algo.hpp:33-41 | under `<`, each value occurs max(m, n) times in the union |
| SetSpec.IntersectionMultiplicity | set_algo.hpp:73-81 | under `<`, each value occurs min(m, n) times in the intersection |
| SetSpec.DifferenceMultiplicity | set_algo.hpp:118-126 | under `<`, each value occurs max(m - n, 0) times in the difference |
| SetSpec.SymmetricDifferenceMultiplicity | set_algo.hpp:163-172 | under `<`, each value occurs abs(m - n) times in the symmetric difference |
| SetAlgo.Sink.constructor | set_algo.hpp:29 | a new output iterator has made no callback invocation |
| SetAlgo.Sink.Accept | set_algo.hpp:29 | one write through the output iterator is exactly one callback invocation with that value, and nothing else is recorded |
| SetAlgo.Copy | set_algo.hpp:27-30 | draining a leftover range invokes the callback once per element, in order |
| SetAlgo.MakeUnionIter | set_algo.hpp:21-31 | the callback receives exactly the union of the two iterator ranges, in order |
| SetAlgo.MakeUnionIterDefault | set_algo.hpp:33-41 | the same, with `comp` replaced by `<` |
| SetAlgo.MakeUnion | set_algo.hpp:43-51 | the range form gives what the iterator form gives on `begin`/`end` of each range |
| SetAlgo.MakeUnionDefault | set_algo.hpp:53-59 | the range form without `comp` gives the union under `<` of the whole ranges |
| SetAlgo.MakeIntersectionIter | set_algo.hpp:61-71 | the callback receives exactly the intersection of the two iterator ranges, in order |
| SetAlgo.MakeIntersectionIterDefault | set_algo.hpp:73-81 | the same, with `comp` replaced by `<` |
| SetAlgo.MakeIntersection | set_algo.hpp:83-94 | the range form gives what the iterator form gives on `begin`/`end` of each range |
| SetAlgo.MakeIntersectionDefault | set_algo.hpp:96-104 | the range form without `comp` gives the intersection under `<` of the whole ranges |
| SetAlgo.MakeDifferenceIter | set_algo.hpp:106-116 | the callback receives exactly the difference of the two iterator ranges, in order |
| SetAlgo.MakeDifferenceIterDefault | set_algo.hpp:118-126 | the same, with `comp` replaced by `<` |
| SetAlgo.MakeDifference | set_algo.hpp:128-138 | the range form gives what the iterator form gives on `begin`/`end` of each range |
| SetAlgo.MakeDifferenceDefault | set_algo.hpp:140-147 | the range form without `comp` gives the difference under `<` of the whole ranges |
| SetAlgo.MakeSymmetricDifferenceIter | set_algo.hpp:149-161 | the callback receives exactly the symmetric difference of the two iterator ranges, in order |
| SetAlgo.MakeSymmetricDifferenceIterDefault | set_algo.hpp:163-172 | the same, with `comp` replaced by `<` |
| SetAlgo.MakeSymmetricDifference | set_algo.hpp:174-184 | the range form gives what the iterator form gives on `begin`/`end` of each range |
| SetAlgo.MakeSymmetricDifferenceDefault | set_algo.hpp:186-194 | the range form without `comp` gives the symmetric difference under `<` of the whole ranges |
| Demo.StepwiseSorted | example.cpp:30-31 | a `std::set<int>` traversed in order, each element below the next, is ascending under `<` |
| Demo.UnionExample | example.cpp:30-34 | the union of {1,2,3} and {4,5,6} calls back with 1, 2, 3, 4, 5, 6 |
| Demo.IntersectionExample | example.cpp:41-45 | the intersection of {1,2,3,4} and {1,4,5,6} calls back with 1, 4 |
| Demo.DifferenceExample | example.cpp:52-56 | the difference of {1,2,3,4,5} and {2,3} calls back with 1, 4, 5 |
| Demo.SymmetricDifferenceExampleValue | example.cpp:63-67 | the symmetric difference of {1,...,6} and {2,3,4,7,8} is 1, 5, 6, 7, 8 |
| Demo.SymmetricDifferenceExample | example.cpp:63-67 | the callback is invoked with 1, 5, 6, 7, 8 for those inputs |
| Demo.DescendingUnionExample | set_algo.hpp:43-51 | with a descending `comp` and descending inputs {3,2,1} and {6,5,4}, the union calls back with 6, 5, 4, 3, 2, 1 |

## Left out

- Compile-time overload selection: the header tells its overloads apart by
  argument count only. The model gives each overload its own name instead.
  No capability probe exists in the header, so none is modelled.
- Argument ownership: `boost::move` of `f` and `comp`, and the forwarding
  references. The callback is modelled by what it receives, not by its
  own side effects.
- Callback failures: an exception thrown by the callback would end the
  traversal early. The model's callback always returns.
- Iterator categories and generic range types: every input is a sequence,
  and Boost.Range `begin`/`end` become the whole sequence. Sequences are
  values, so the inputs are read-only by construction.
- Unsorted inputs, or a `comp` that is not a strict weak ordering: the
  standard leaves the result undefined. Here they are preconditions.
- Forms without `comp`: in C++ they accept any
  element type with `operator<`. The model fixes the element type to
  `int`. The `comp` forms cover other types and orders.
- example.cpp as code: building `std::set`s, `print`, `std::cout` and
  `main`. Its calls use the names `set_union`, `set_intersection`,
  `set_difference` and `set_symmetric_difference` with three arguments.
  These do not match the `make_*` names the header defines. Only the
  scenarios' inputs and results are kept, run through the `make_*` models.

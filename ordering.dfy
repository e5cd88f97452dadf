/** The ordering a comparator must induce for the sorted-merge algorithms: a
    strict weak ordering (section 25.4, paragraph 4, of ISO/IEC 14882:2011),
    and what "ascending under the comparator" means for a sequence. */
module Ordering {

  /** Two values are equivalent when neither is less than the other. */
  predicate Equivalent<T>(lt: (T, T) -> bool, x: T, y: T) {
    !lt(x, y) && !lt(y, x)
  }

  ghost predicate Irreflexive<T(!new)>(lt: (T, T) -> bool) {
    forall x :: !lt(x, x)
  }

  ghost predicate Transitive<T(!new)>(lt: (T, T) -> bool) {
    forall x, y, z :: lt(x, y) && lt(y, z) ==> lt(x, z)
  }

  ghost predicate EquivalenceTransitive<T(!new)>(lt: (T, T) -> bool) {
    forall x, y, z :: Equivalent(lt, x, y) && Equivalent(lt, y, z) ==> Equivalent(lt, x, z)
  }

  /** The requirement every `comp` argument must meet. */
  ghost predicate StrictWeakOrder<T(!new)>(lt: (T, T) -> bool) {
    Irreflexive(lt) && Transitive(lt) && EquivalenceTransitive(lt)
  }

  /** Non-descending: no later element is less than an earlier one. */
  ghost predicate Sorted<T>(lt: (T, T) -> bool, s: seq<T>) {
    forall i, j | 0 <= i < j < |s| :: !lt(s[j], s[i])
  }

  /** No element of `s` is less than `w`. */
  ghost predicate NoneBelow<T>(lt: (T, T) -> bool, w: T, s: seq<T>) {
    forall z | z in s :: !lt(z, w)
  }

  /** The natural order on `int`, the comparator of the overloads without `comp`. */
  function Less(x: int, y: int): bool {
    x < y
  }

  lemma {:induction false} LessIsStrictWeakOrder()
    ensures StrictWeakOrder(Less)
    ensures forall x, y :: Equivalent(Less, x, y) <==> x == y
  {
  }

  /** A descending order on `int`, as a caller-supplied `comp`. */
  function Greater(x: int, y: int): bool {
    x > y
  }

  lemma {:induction false} GreaterIsStrictWeakOrder()
    ensures StrictWeakOrder(Greater)
  {
  }

  /** Less-than is unaffected by replacing an operand with an equivalent one. */
  lemma {:induction false} LessRespectsEquivalence<T(!new)>(lt: (T, T) -> bool, x: T, y: T, z: T)
    requires StrictWeakOrder(lt)
    requires Equivalent(lt, x, y)
    ensures lt(x, z) <==> lt(y, z)
    ensures lt(z, x) <==> lt(z, y)
  {
    if Equivalent(lt, y, z) {
      assert Equivalent(lt, x, z);
    }
    if Equivalent(lt, x, z) {
      assert Equivalent(lt, y, z);
    }
  }

  /** The first element of an ascending sequence is a lower bound of it. */
  lemma {:induction false} SortedHeadBound<T(!new)>(lt: (T, T) -> bool, s: seq<T>)
    requires Irreflexive(lt) && Sorted(lt, s) && |s| > 0
    ensures NoneBelow(lt, s[0], s)
  {
    forall z | z in s ensures !lt(z, s[0]) {
      var k :| 0 <= k < |s| && s[k] == z;
      if k > 0 {
        assert !lt(s[k], s[0]);
      }
    }
  }

  /** A lower bound of `s` stays one when lowered or replaced by an equivalent. */
  lemma {:induction false} NoneBelowLower<T(!new)>(lt: (T, T) -> bool, x: T, y: T, s: seq<T>)
    requires StrictWeakOrder(lt) && NoneBelow(lt, y, s)
    requires lt(x, y) || Equivalent(lt, x, y)
    ensures NoneBelow(lt, x, s)
  {
    forall z | z in s ensures !lt(z, x) {
      if Equivalent(lt, x, y) {
        LessRespectsEquivalence(lt, x, y, z);
      }
    }
  }

  lemma {:induction false} SortedTail<T>(lt: (T, T) -> bool, s: seq<T>)
    requires Sorted(lt, s) && |s| > 0
    ensures Sorted(lt, s[1..])
  {
    forall i, j | 0 <= i < j < |s| - 1 ensures !lt(s[1..][j], s[1..][i]) {
      assert s[1..][j] == s[j + 1] && s[1..][i] == s[i + 1];
    }
  }

  /** Putting a lower bound in front of an ascending sequence keeps it ascending. */
  lemma {:induction false} SortedCons<T>(lt: (T, T) -> bool, x: T, s: seq<T>)
    requires Sorted(lt, s) && NoneBelow(lt, x, s)
    ensures Sorted(lt, [x] + s)
  {
    var r := [x] + s;
    forall i, j | 0 <= i < j < |r| ensures !lt(r[j], r[i]) {
      if i == 0 {
        assert r[j] == s[j - 1] && r[j] in s;
      } else {
        assert r[j] == s[j - 1] && r[i] == s[i - 1];
      }
    }
  }
}

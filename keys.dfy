/** Canonical keys for the tuples of particles an interaction acts on.

    A pair is stored smallest first; an angle keeps its middle particle and puts the smaller
    end first; a dihedral angle is kept as it is or reversed, by comparing the larger names of
    its two halves and, on a tie, the smaller ones. The same rules order the particle names in
    the warning for a missing interaction and the particle kinds of the interaction registry,
    so every key function here is written once for any order `lt`. */
module Keys {

  /** `lt` is a strict total order. */
  ghost predicate StrictTotalOrder<T(!new)>(lt: (T, T) -> bool) {
    && (forall a :: !lt(a, a))
    && (forall a, b, c :: lt(a, b) && lt(b, c) ==> lt(a, c))
    && (forall a, b :: a == b || lt(a, b) || lt(b, a))
  }

  /** The order of particle names: lexicographic by character, which for UTF-8 text is the
      byte order Rust's `String` comparison uses. */
  predicate NameLess(a: string, b: string) {
    if |a| == 0 then |b| > 0
    else if |b| == 0 then false
    else if a[0] != b[0] then a[0] < b[0]
    else NameLess(a[1..], b[1..])
  }

  /** The order of particle kinds: by number. */
  predicate KindLess(a: nat, b: nat) {
    a < b
  }

  lemma {:induction false} NameLessIrreflexive(a: string)
    ensures !NameLess(a, a)
  {
    if |a| > 0 {
      NameLessIrreflexive(a[1..]);
    }
  }

  lemma {:induction false} NameLessTransitive(a: string, b: string, c: string)
    requires NameLess(a, b) && NameLess(b, c)
    ensures NameLess(a, c)
  {
    if |a| > 0 && |b| > 0 && |c| > 0 && a[0] == b[0] && b[0] == c[0] {
      NameLessTransitive(a[1..], b[1..], c[1..]);
    }
  }

  lemma {:induction false} NameLessTotal(a: string, b: string)
    ensures a == b || NameLess(a, b) || NameLess(b, a)
  {
    if |a| > 0 && |b| > 0 && a[0] == b[0] {
      NameLessTotal(a[1..], b[1..]);
      if a[1..] == b[1..] {
        assert a == [a[0]] + a[1..] && b == [b[0]] + b[1..];
      }
    }
  }

  /** Names are totally ordered. */
  lemma NameLessIsStrictTotalOrder()
    ensures StrictTotalOrder(NameLess)
  {
    forall a: string ensures !NameLess(a, a) {
      NameLessIrreflexive(a);
    }
    forall a: string, b: string, c: string | NameLess(a, b) && NameLess(b, c)
      ensures NameLess(a, c)
    {
      NameLessTransitive(a, b, c);
    }
    forall a: string, b: string ensures a == b || NameLess(a, b) || NameLess(b, a) {
      NameLessTotal(a, b);
    }
  }

  /** Kinds are totally ordered. */
  lemma KindLessIsStrictTotalOrder()
    ensures StrictTotalOrder(KindLess)
  {
  }

  /** Rust's `cmp::max`: the second argument unless the first is greater. */
  function Max<T(!new)>(lt: (T, T) -> bool, a: T, b: T): T {
    if lt(b, a) then a else b
  }

  /** Rust's `cmp::min`: the first argument unless the second is smaller. */
  function Min<T(!new)>(lt: (T, T) -> bool, a: T, b: T): T {
    if lt(b, a) then b else a
  }

  /** The key of a pair: smallest first. */
  function PairKey<T(!new)>(lt: (T, T) -> bool, i: T, j: T): (r: (T, T))
    ensures r == (i, j) || r == (j, i)
  {
    if lt(i, j) then (i, j) else (j, i)
  }

  /** The key of an angle: the middle stays, the smaller end comes first. */
  function AngleKey<T(!new)>(lt: (T, T) -> bool, i: T, j: T, k: T): (r: (T, T, T))
    ensures r == (i, j, k) || r == (k, j, i)
  {
    if lt(i, k) then (i, j, k) else (k, j, i)
  }

  /** The key of a dihedral angle: the tuple or its reverse, whichever has the half with the
      smaller maximum first, and on a tie the half with the smaller minimum. */
  function DihedralKey<T(==,!new)>(lt: (T, T) -> bool, i: T, j: T, k: T, m: T): (r: (T, T, T, T))
    ensures r == (i, j, k, m) || r == (m, k, j, i)
  {
    var maxIJ := Max(lt, i, j);
    var maxKM := Max(lt, k, m);
    if maxIJ == maxKM then
      if lt(Min(lt, i, j), Min(lt, k, m)) then (i, j, k, m) else (m, k, j, i)
    else if lt(maxIJ, maxKM) then (i, j, k, m)
    else (m, k, j, i)
  }

  /** Both halves of the dihedral angle hold the same two values: neither comparison can
      pick a direction. */
  predicate Ambiguous<T(==,!new)>(lt: (T, T) -> bool, i: T, j: T, k: T, m: T) {
    Max(lt, i, j) == Max(lt, k, m) && Min(lt, i, j) == Min(lt, k, m)
  }

  /** A pair key holds its smaller element first. */
  lemma PairKeyOrdered<T(!new)>(lt: (T, T) -> bool, i: T, j: T)
    requires StrictTotalOrder(lt)
    ensures !lt(PairKey(lt, i, j).1, PairKey(lt, i, j).0)
  {
  }

  /** An angle key holds its smaller end first. */
  lemma AngleKeyOrdered<T(!new)>(lt: (T, T) -> bool, i: T, j: T, k: T)
    requires StrictTotalOrder(lt)
    ensures !lt(AngleKey(lt, i, j, k).2, AngleKey(lt, i, j, k).0)
  {
  }

  /** A dihedral key holds first the half with the smaller maximum, and, when both halves
      have the same maximum, the half with the smaller minimum. */
  lemma DihedralKeyOrdered<T(!new)>(lt: (T, T) -> bool, i: T, j: T, k: T, m: T)
    requires StrictTotalOrder(lt)
    ensures var r := DihedralKey(lt, i, j, k, m);
      !Ambiguous(lt, i, j, k, m) ==> !lt(Max(lt, r.2, r.3), Max(lt, r.0, r.1))
    ensures var r := DihedralKey(lt, i, j, k, m);
      Max(lt, i, j) == Max(lt, k, m) ==> !lt(Min(lt, r.2, r.3), Min(lt, r.0, r.1))
    ensures Ambiguous(lt, i, j, k, m) ==> DihedralKey(lt, i, j, k, m) == (m, k, j, i)
  {
  }

  /** The two halves of a dihedral angle are tied exactly when they hold the same two
      values, whatever the order. */
  lemma AmbiguousIffSameHalves<T(!new)>(lt: (T, T) -> bool, i: T, j: T, k: T, m: T)
    requires StrictTotalOrder(lt)
    ensures Ambiguous(lt, i, j, k, m) <==> (i == k && j == m) || (i == m && j == k)
  {
    MaxMinSymmetric(lt, i, j);
    MaxMinSymmetric(lt, k, m);
  }

  /** A dihedral key is its own key read backwards: keys are the canonical representatives
      of a dihedral angle and its reverse. */
  lemma DihedralKeyCanonical<T(!new)>(lt: (T, T) -> bool, i: T, j: T, k: T, m: T)
    requires StrictTotalOrder(lt)
    ensures var r := DihedralKey(lt, i, j, k, m);
      DihedralKey(lt, r.3, r.2, r.1, r.0) == r
  {
    DihedralKeyReversal(lt, i, j, k, m);
    AmbiguousIffSameHalves(lt, i, j, k, m);
    AmbiguousIffSameHalves(lt, m, k, j, i);
  }

  lemma MaxMinSymmetric<T(!new)>(lt: (T, T) -> bool, a: T, b: T)
    requires StrictTotalOrder(lt)
    ensures Max(lt, a, b) == Max(lt, b, a) && Min(lt, a, b) == Min(lt, b, a)
    ensures Max(lt, a, b) == a || Max(lt, a, b) == b
    ensures {Max(lt, a, b), Min(lt, a, b)} == {a, b}
  {
  }

  /** Swapping a pair does not change its key. */
  lemma PairKeySymmetric<T(!new)>(lt: (T, T) -> bool, i: T, j: T)
    requires StrictTotalOrder(lt)
    ensures PairKey(lt, i, j) == PairKey(lt, j, i)
  {
  }

  /** Reversing an angle does not change its key. */
  lemma AngleKeyReversal<T(!new)>(lt: (T, T) -> bool, i: T, j: T, k: T)
    requires StrictTotalOrder(lt)
    ensures AngleKey(lt, i, j, k) == AngleKey(lt, k, j, i)
  {
  }

  /** Reversing a dihedral angle keeps its key exactly when the comparison can pick a
      direction, or when the angle reads the same both ways. */
  lemma DihedralKeyReversal<T(!new)>(lt: (T, T) -> bool, i: T, j: T, k: T, m: T)
    requires StrictTotalOrder(lt)
    ensures DihedralKey(lt, i, j, k, m) == DihedralKey(lt, m, k, j, i)
        <==> !Ambiguous(lt, i, j, k, m) || (i, j, k, m) == (m, k, j, i)
  {
    MaxMinSymmetric(lt, i, j);
    MaxMinSymmetric(lt, k, m);
    if Ambiguous(lt, i, j, k, m) {
      assert DihedralKey(lt, i, j, k, m) == (m, k, j, i);
      assert DihedralKey(lt, m, k, j, i) == (i, j, k, m);
    }
  }

  /** The dihedral angle (A, B, A, B) and its reverse (B, A, B, A) get different keys. */
  lemma DihedralKeyNotReversalInvariant()
    ensures DihedralKey(NameLess, "A", "B", "A", "B") != DihedralKey(NameLess, "B", "A", "B", "A")
  {
    assert NameLess("A", "B") && !NameLess("B", "A");
    assert DihedralKey(NameLess, "A", "B", "A", "B") == ("B", "A", "B", "A");
  }
}

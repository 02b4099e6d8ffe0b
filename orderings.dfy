/**
  Three-way comparison, as Rust's `Ord::cmp` returns it, and the lexicographic
  order on sequences that Rust derives for slices, vectors, strings and tuples.
  The grouping maps of the profile viewer are ordered by these comparisons.
*/
module Orderings {

  datatype Ordering = Less | Equal | Greater {
    /** The comparison with its operands swapped. */
    function Flip(): Ordering {
      match this
      case Less => Greater
      case Equal => Equal
      case Greater => Less
    }

    /** Rust's `Ordering::then`: the next key decides only a tie. */
    function Then(next: Ordering): Ordering {
      if this == Equal then next else this
    }
  }

  function CompareInt(a: int, b: int): Ordering {
    if a < b then Less else if a == b then Equal else Greater
  }

  function CompareChar(a: char, b: char): Ordering {
    if a < b then Less else if a == b then Equal else Greater
  }

  /** Swapping the operands flips the result. */
  ghost predicate Antisymmetric<T(!new)>(cmp: (T, T) -> Ordering) {
    forall a, b :: cmp(b, a) == cmp(a, b).Flip()
  }

  /** "Not greater" is transitive. */
  ghost predicate Transitive<T(!new)>(cmp: (T, T) -> Ordering) {
    forall a, b, c :: cmp(a, b) != Greater && cmp(b, c) != Greater ==> cmp(a, c) != Greater
  }

  /** What a `BTreeMap` needs of its key order: every pair is comparable, consistently. */
  ghost predicate TotalPreorder<T(!new)>(cmp: (T, T) -> Ordering) {
    Antisymmetric(cmp) && Transitive(cmp)
  }

  /** A total preorder whose ties are exactly the equal values. */
  ghost predicate TotalOrder<T(!new)>(cmp: (T, T) -> Ordering) {
    TotalPreorder(cmp) && forall a, b :: cmp(a, b) == Equal ==> a == b
  }

  /** The strict and the tie cases of transitivity, derived from the two axioms. */
  lemma PreorderChains<T(!new)>(cmp: (T, T) -> Ordering, a: T, b: T, c: T)
    requires TotalPreorder(cmp)
    ensures cmp(a, b) == Less && cmp(b, c) != Greater ==> cmp(a, c) == Less
    ensures cmp(a, b) != Greater && cmp(b, c) == Less ==> cmp(a, c) == Less
    ensures cmp(a, b) == Equal && cmp(b, c) == Equal ==> cmp(a, c) == Equal
    ensures cmp(a, b) == Equal ==> cmp(a, c) == cmp(b, c)
  {
    assert cmp(c, a) == cmp(a, c).Flip();
    assert cmp(b, a) == cmp(a, b).Flip();
    assert cmp(c, b) == cmp(b, c).Flip();
    if cmp(a, b) == Equal {
      if cmp(b, c) == Less {
        assert cmp(a, c) != Greater;
      } else if cmp(b, c) == Greater {
        assert cmp(c, b) == Less && cmp(b, a) == Equal;
        assert cmp(c, a) != Greater;
      } else {
        assert cmp(a, c) != Greater && cmp(c, a) != Greater;
      }
    }
  }

  /**
    The three results of comparing a with b, b with c and a with c fit a
    preorder: a strict step and a weak step make a strict step, two ties a tie.
  */
  predicate Chains(ab: Ordering, bc: Ordering, ac: Ordering) {
    && (ab == Less && bc != Greater ==> ac == Less)
    && (ab != Greater && bc == Less ==> ac == Less)
    && (ab == Equal && bc == Equal ==> ac == Equal)
  }

  /** Breaking ties with a second key keeps the chain property. */
  lemma ThenChains(ab: Ordering, bc: Ordering, ac: Ordering, ab': Ordering, bc': Ordering, ac': Ordering)
    requires Chains(ab, bc, ac) && Chains(ab', bc', ac')
    ensures Chains(ab.Then(ab'), bc.Then(bc'), ac.Then(ac'))
  {
  }

  /** Lexicographic order: the first differing position decides, and a proper prefix comes first. */
  function CompareLex<T>(a: seq<T>, b: seq<T>, cmp: (T, T) -> Ordering): Ordering
  {
    if a == [] then (if b == [] then Equal else Less)
    else if b == [] then Greater
    else cmp(a[0], b[0]).Then(CompareLex(a[1..], b[1..], cmp))
  }

  lemma {:induction false} LexFlip<T(!new)>(a: seq<T>, b: seq<T>, cmp: (T, T) -> Ordering)
    requires Antisymmetric(cmp)
    ensures CompareLex(b, a, cmp) == CompareLex(a, b, cmp).Flip()
  {
    if a != [] && b != [] {
      LexFlip(a[1..], b[1..], cmp);
      assert cmp(b[0], a[0]) == cmp(a[0], b[0]).Flip();
    }
  }

  lemma {:induction false} LexTransitive<T(!new)>(a: seq<T>, b: seq<T>, c: seq<T>, cmp: (T, T) -> Ordering)
    requires TotalPreorder(cmp)
    requires CompareLex(a, b, cmp) != Greater && CompareLex(b, c, cmp) != Greater
    ensures CompareLex(a, c, cmp) != Greater
  {
    if a != [] && b != [] && c != [] {
      PreorderChains(cmp, a[0], b[0], c[0]);
      if cmp(a[0], b[0]) == Equal && cmp(b[0], c[0]) == Equal {
        LexTransitive(a[1..], b[1..], c[1..], cmp);
      }
    }
  }

  /** Ties of the lexicographic order are exactly equal sequences when ties of the element order are. */
  lemma {:induction false} LexEqual<T(!new)>(a: seq<T>, b: seq<T>, cmp: (T, T) -> Ordering)
    requires TotalOrder(cmp)
    ensures CompareLex(a, b, cmp) == Equal <==> a == b
  {
    if a != [] && b != [] {
      LexEqual(a[1..], b[1..], cmp);
      assert cmp(a[0], a[0]) == cmp(a[0], a[0]).Flip();
      if a == b {
        assert a[1..] == b[1..];
      }
    }
  }

  lemma LexTotalPreorder<T(!new)>(cmp: (T, T) -> Ordering)
    requires TotalPreorder(cmp)
    ensures TotalPreorder((a: seq<T>, b: seq<T>) => CompareLex(a, b, cmp))
  {
    forall a: seq<T>, b: seq<T> ensures CompareLex(b, a, cmp) == CompareLex(a, b, cmp).Flip() {
      LexFlip(a, b, cmp);
    }
    forall a: seq<T>, b: seq<T>, c: seq<T> | CompareLex(a, b, cmp) != Greater && CompareLex(b, c, cmp) != Greater
      ensures CompareLex(a, c, cmp) != Greater
    {
      LexTransitive(a, b, c, cmp);
    }
  }

  lemma LexTotalOrder<T(!new)>(cmp: (T, T) -> Ordering)
    requires TotalOrder(cmp)
    ensures TotalOrder((a: seq<T>, b: seq<T>) => CompareLex(a, b, cmp))
  {
    LexTotalPreorder(cmp);
    forall a: seq<T>, b: seq<T> | CompareLex(a, b, cmp) == Equal ensures a == b {
      LexEqual(a, b, cmp);
    }
  }

  /** Rust's `Ord` for `String`: byte order of UTF-8, which is code-point order. */
  function CompareStrings(a: string, b: string): Ordering {
    CompareLex(a, b, CompareChar)
  }

  lemma StringsTotalOrder()
    ensures TotalOrder(CompareStrings)
  {
    LexTotalOrder(CompareChar);
    var lex := (a: string, b: string) => CompareLex(a, b, CompareChar);
    assert TotalOrder(lex);
    forall a, b ensures CompareStrings(b, a) == CompareStrings(a, b).Flip() {
      assert lex(b, a) == lex(a, b).Flip();
    }
    forall a, b, c | CompareStrings(a, b) != Greater && CompareStrings(b, c) != Greater
      ensures CompareStrings(a, c) != Greater
    {
      assert lex(a, b) != Greater && lex(b, c) != Greater;
    }
    forall a, b | CompareStrings(a, b) == Equal ensures a == b {
      assert lex(a, b) == Equal;
    }
  }
}

/**
  The total runtime behind the bandwidth metric. The (start, end) spans of the
  contributing kernels are collected into an ordered set, then folded into a
  stack of merged spans: a span that starts no later than the end of the top
  of the stack rewrites that top's end, any other span is pushed. The runtime
  is the sum of the merged spans' lengths.

  The fold as written (`MergeStep`, `MergeFold`, `MergeSpans`) overwrites the
  top's end even when the new span ends earlier, so a nested span shrinks the
  runtime (`NestedSpanShrinks`). The runtime used by the rest of the model is
  taken with the corrected fold (`UnionStep`, `UnionFold`, `UnionSpans`), which
  keeps the larger end and covers exactly the points the spans cover.
*/
module SpanMerge {

  datatype Span = Span(start: nat, end: nat)

  /** The derived order of the `(start, end)` tuple. */
  predicate Below(a: Span, b: Span) {
    a.start < b.start || (a.start == b.start && a.end < b.end)
  }

  predicate StrictlyAscending(spans: seq<Span>) {
    forall i, j | 0 <= i < j < |spans| :: Below(spans[i], spans[j])
  }

  /** `BTreeSet::insert` on the set kept as an ascending sequence without duplicates. */
  function InsertSpan(sorted: seq<Span>, x: Span): (r: seq<Span>)
    requires StrictlyAscending(sorted)
    ensures StrictlyAscending(r)
    ensures forall y :: y in r <==> y in sorted || y == x
  {
    if sorted == [] then [x]
    else if x == sorted[0] then sorted
    else if Below(x, sorted[0]) then [x] + sorted
    else
      var rest := InsertSpan(sorted[1..], x);
      assert forall y | y in rest :: Below(sorted[0], y) by {
        forall y | y in rest ensures Below(sorted[0], y) {
          if y != x {
            var j :| 1 <= j < |sorted| && sorted[j] == y;
          }
        }
      }
      [sorted[0]] + rest
  }

  /** The spans collected into a `BTreeSet` and iterated: ascending, each distinct span once. */
  function SortedSpans(spans: seq<Span>): (r: seq<Span>)
    ensures StrictlyAscending(r)
    ensures forall y :: y in r <==> y in spans
  {
    if spans == [] then []
    else
      var r := InsertSpan(SortedSpans(spans[..|spans| - 1]), spans[|spans| - 1]);
      assert forall y :: y in spans <==> y in spans[..|spans| - 1] || y == spans[|spans| - 1] by {
        assert spans == spans[..|spans| - 1] + [spans[|spans| - 1]];
      }
      r
  }

  /** An ascending duplicate-free sequence is determined by its elements. */
  lemma {:induction false} AscendingUnique(a: seq<Span>, b: seq<Span>)
    requires StrictlyAscending(a) && StrictlyAscending(b)
    requires forall y :: y in a <==> y in b
    ensures a == b
  {
    assert a != [] ==> a[0] in a;
    assert b != [] ==> b[0] in b;
    if a != [] && b != [] {
      assert a[0] == b[0];
      forall y ensures y in a[1..] <==> y in b[1..] {
        if y in a[1..] {
          var i :| 1 <= i < |a| && a[i] == y;
          assert y != a[0] by { assert Below(a[0], a[i]); }
          assert y in b;
        }
        if y in b[1..] {
          var i :| 1 <= i < |b| && b[i] == y;
          assert y != b[0] by { assert Below(b[0], b[i]); }
          assert y in a;
        }
      }
      AscendingUnique(a[1..], b[1..]);
      assert a == [a[0]] + a[1..] && b == [b[0]] + b[1..];
    }
  }

  /** The set, and so its iteration order, depends only on which spans occur, not on their order or repetition. */
  lemma SortedSpansDependOnlyOnElements(a: seq<Span>, b: seq<Span>)
    requires forall y :: y in a <==> y in b
    ensures SortedSpans(a) == SortedSpans(b)
  {
    AscendingUnique(SortedSpans(a), SortedSpans(b));
  }

  // ------------------------------------------------------------------ merging

  /** One step of the stack fold, as written: the top's end is overwritten with the new span's end. */
  function MergeStep(stack: seq<Span>, s: Span): seq<Span> {
    if stack != [] && s.start <= stack[|stack| - 1].end then
      stack[..|stack| - 1] + [Span(stack[|stack| - 1].start, s.end)]
    else stack + [s]
  }

  function MergeFold(spans: seq<Span>): seq<Span> {
    if spans == [] then [] else MergeStep(MergeFold(spans[..|spans| - 1]), spans[|spans| - 1])
  }

  /** The stack fold over a `Vec` whose last element is rewritten in place. */
  method MergeSpans(spans: seq<Span>) returns (stack: seq<Span>)
    ensures stack == MergeFold(spans)
  {
    stack := [];
    for i := 0 to |spans|
      invariant stack == MergeFold(spans[..i])
    {
      var s := spans[i];
      assert spans[..i + 1][..i] == spans[..i];
      assert MergeFold(spans[..i + 1]) == MergeStep(stack, s);
      if stack != [] && s.start <= stack[|stack| - 1].end {
        ghost var merged := stack[..|stack| - 1] + [Span(stack[|stack| - 1].start, s.end)];
        stack := stack[|stack| - 1 := Span(stack[|stack| - 1].start, s.end)];
        assert stack == merged;
      } else {
        stack := stack + [s];
      }
    }
    assert spans[..|spans|] == spans;
  }

  function Length(s: Span): int {
    s.end - s.start
  }

  /** The sum of the lengths, each an `u64` subtraction taken over the integers. */
  function Runtime(spans: seq<Span>): int {
    if spans == [] then 0 else Runtime(spans[..|spans| - 1]) + Length(spans[|spans| - 1])
  }

  /**
    The runtime the bandwidth metric divides by, taken with the corrected fold
    (`UnionFold` below): the as-written fold can shrink a span nested in an
    earlier one.
  */
  function TotalRuntime(spans: seq<Span>): int {
    Runtime(UnionFold(SortedSpans(spans)))
  }

  predicate WellFormed(spans: seq<Span>) {
    forall i | 0 <= i < |spans| :: spans[i].start <= spans[i].end
  }

  predicate StartsAscending(spans: seq<Span>) {
    forall i, j | 0 <= i < j < |spans| :: spans[i].start <= spans[j].start
  }

  /** Each merged span starts strictly after the end of the one before it. */
  predicate Separated(stack: seq<Span>) {
    forall i | 0 < i < |stack| :: stack[i - 1].end < stack[i].start
  }

  predicate StrictlyIncreasingStarts(stack: seq<Span>) {
    forall i, j | 0 <= i < j < |stack| :: stack[i].start < stack[j].start
  }

  lemma AscendingStarts(spans: seq<Span>)
    requires StrictlyAscending(spans)
    ensures StartsAscending(spans)
  {
    forall i, j | 0 <= i < j < |spans| ensures spans[i].start <= spans[j].start {
      assert Below(spans[i], spans[j]);
    }
  }

  /** Rewriting the top's end, or pushing a span that starts after it, keeps a stack separated. */
  lemma ExtendSeparated(stack: seq<Span>, s: Span, end: nat)
    requires Separated(stack)
    ensures stack != [] && s.start <= stack[|stack| - 1].end ==>
      Separated(stack[..|stack| - 1] + [Span(stack[|stack| - 1].start, end)])
    ensures !(stack != [] && s.start <= stack[|stack| - 1].end) ==> Separated(stack + [s])
  {
    if stack != [] && s.start <= stack[|stack| - 1].end {
      var r := stack[..|stack| - 1] + [Span(stack[|stack| - 1].start, end)];
      forall i | 0 < i < |r| ensures r[i - 1].end < r[i].start {
        assert r[i - 1] == stack[i - 1];
        assert r[i].start == stack[i].start;
      }
    } else {
      var r := stack + [s];
      forall i | 0 < i < |r| ensures r[i - 1].end < r[i].start {
        assert r[i - 1] == stack[i - 1];
      }
    }
  }

  /** Whatever the input, each merged span starts strictly after the end of the one before it. */
  lemma {:induction false} MergeSeparated(spans: seq<Span>)
    ensures Separated(MergeFold(spans))
  {
    if spans != [] {
      var init := spans[..|spans| - 1];
      MergeSeparated(init);
      ExtendSeparated(MergeFold(init), spans[|spans| - 1], spans[|spans| - 1].end);
    }
  }

  /** Over spans ordered by start, the top of the stack starts no later than the latest span. */
  lemma {:induction false} MergeTopStart(spans: seq<Span>)
    requires StartsAscending(spans) && spans != []
    ensures MergeFold(spans) != []
    ensures MergeFold(spans)[|MergeFold(spans)| - 1].start <= spans[|spans| - 1].start
  {
    var init := spans[..|spans| - 1];
    if init != [] {
      assert StartsAscending(init);
      MergeTopStart(init);
      assert init[|init| - 1].start <= spans[|spans| - 1].start;
    }
  }

  /** A well-formed span that starts no earlier than the top of the stack keeps the stack well formed. */
  lemma StepWellFormed(stack: seq<Span>, s: Span)
    requires WellFormed(stack) && s.start <= s.end
    requires stack != [] ==> stack[|stack| - 1].start <= s.start
    ensures WellFormed(MergeStep(stack, s))
  {
    var r := MergeStep(stack, s);
    forall i | 0 <= i < |r| ensures r[i].start <= r[i].end {
      if i < |r| - 1 {
        assert r[i] == stack[i];
      }
    }
  }

  /**
    Over well-formed spans ordered by start, every merged span is well formed,
    so the final subtractions cannot underflow, and the merged starts strictly
    increase.
  */
  lemma {:induction false} MergeWellFormed(spans: seq<Span>)
    requires StartsAscending(spans) && WellFormed(spans)
    ensures WellFormed(MergeFold(spans))
    ensures StrictlyIncreasingStarts(MergeFold(spans))
  {
    if spans != [] {
      var init := spans[..|spans| - 1];
      var s := spans[|spans| - 1];
      assert StartsAscending(init) && WellFormed(init);
      MergeWellFormed(init);
      if init != [] {
        MergeTopStart(init);
        assert init[|init| - 1].start <= s.start;
      }
      StepWellFormed(MergeFold(init), s);
      var r := MergeFold(spans);
      MergeSeparated(spans);
      forall i, j | 0 <= i < j < |r| ensures r[i].start < r[j].start {
        StartsBelow(r, i, j);
      }
    }
  }

  lemma {:induction false} StartsBelow(r: seq<Span>, i: nat, j: nat)
    requires Separated(r) && WellFormed(r) && i < j < |r|
    ensures r[i].start < r[j].start
    decreases j - i
  {
    if i + 1 < j {
      StartsBelow(r, i + 1, j);
    }
  }

  /** Merging never adds time: the runtime is at most the naive sum of the lengths. */
  lemma {:induction false} MergeAtMostNaive(spans: seq<Span>)
    ensures Runtime(MergeFold(spans)) <= Runtime(spans)
  {
    if spans != [] {
      var init := spans[..|spans| - 1];
      var s := spans[|spans| - 1];
      var stack := MergeFold(init);
      MergeAtMostNaive(init);
      if stack != [] && s.start <= stack[|stack| - 1].end {
        var top := stack[|stack| - 1];
        var rest := stack[..|stack| - 1];
        var r := rest + [Span(top.start, s.end)];
        assert r[..|r| - 1] == rest;
        assert stack[..|stack| - 1] == rest;
        assert Runtime(r) == Runtime(stack) - Length(top) + Length(Span(top.start, s.end));
      } else {
        assert (stack + [s])[..|stack|] == stack;
      }
    }
  }

  /** For well-formed spans the total runtime is never negative and at most the sum of the lengths of the distinct spans. */
  lemma TotalRuntimeBounds(spans: seq<Span>)
    requires WellFormed(spans)
    ensures 0 <= TotalRuntime(spans) <= Runtime(SortedSpans(spans))
  {
    var sorted := SortedSpans(spans);
    assert WellFormed(sorted) by {
      forall i | 0 <= i < |sorted| ensures sorted[i].start <= sorted[i].end {
        assert sorted[i] in spans;
      }
    }
    UnionAtMostNaive(sorted);
    UnionWellFormed(sorted);
    RuntimeNonNegative(UnionFold(sorted));
  }

  lemma {:induction false} RuntimeNonNegative(spans: seq<Span>)
    requires WellFormed(spans)
    ensures Runtime(spans) >= 0
  {
    if spans != [] {
      RuntimeNonNegative(spans[..|spans| - 1]);
    }
  }

  // ------------------------------------------------------------- the union

  predicate In(s: Span, t: nat) {
    s.start <= t < s.end
  }

  /** Whether some span covers time point `t`. */
  predicate Covers(spans: seq<Span>, t: nat) {
    spans != [] && (Covers(spans[..|spans| - 1], t) || In(spans[|spans| - 1], t))
  }

  /**
    A span nested in the top of the stack shrinks it: the merged runtime drops
    to 20 although the spans cover 100 time units, and point 50, covered by the
    first kernel, is no longer covered.
  */
  lemma NestedSpanShrinks(spans: seq<Span>)
    requires spans == [Span(0, 100), Span(10, 20)]
    ensures MergeFold(spans) == [Span(0, 20)]
    ensures Runtime(MergeFold(spans)) == 20
    ensures Covers(spans, 50) && !Covers(MergeFold(spans), 50)
  {
    assert spans[..1][..0] == [];
    assert spans[..1] == [Span(0, 100)];
    assert MergeFold(spans[..1]) == [Span(0, 100)];
    assert [Span(0, 100)][..0] == [];
    assert [Span(0, 20)][..0] == [];
    assert spans[..1][..0] == [];
  }

  /** One step of the evidently intended fold: the top's end becomes the larger of the two ends. */
  function UnionStep(stack: seq<Span>, s: Span): seq<Span> {
    if stack != [] && s.start <= stack[|stack| - 1].end then
      var top := stack[|stack| - 1];
      stack[..|stack| - 1] + [Span(top.start, if top.end < s.end then s.end else top.end)]
    else stack + [s]
  }

  function UnionFold(spans: seq<Span>): seq<Span> {
    if spans == [] then [] else UnionStep(UnionFold(spans[..|spans| - 1]), spans[|spans| - 1])
  }

  lemma {:induction false} CoversAppend(spans: seq<Span>, s: Span, t: nat)
    ensures Covers(spans + [s], t) <==> Covers(spans, t) || In(s, t)
  {
    assert (spans + [s])[..|spans|] == spans;
  }

  lemma {:induction false} UnionSeparated(spans: seq<Span>)
    ensures Separated(UnionFold(spans))
  {
    if spans != [] {
      var init := spans[..|spans| - 1];
      var s := spans[|spans| - 1];
      var stack := UnionFold(init);
      UnionSeparated(init);
      if stack != [] {
        var top := stack[|stack| - 1];
        ExtendSeparated(stack, s, if top.end < s.end then s.end else top.end);
      } else {
        ExtendSeparated(stack, s, s.end);
      }
    }
  }

  lemma {:induction false} UnionTopStart(spans: seq<Span>)
    requires StartsAscending(spans) && spans != []
    ensures UnionFold(spans) != []
    ensures UnionFold(spans)[|UnionFold(spans)| - 1].start <= spans[|spans| - 1].start
  {
    var init := spans[..|spans| - 1];
    if init != [] {
      assert StartsAscending(init);
      UnionTopStart(init);
      assert init[|init| - 1].start <= spans[|spans| - 1].start;
    }
  }

  /** A span that starts no earlier than the top of the stack adds exactly its own time points to the corrected stack. */
  lemma UnionStepCovers(stack: seq<Span>, s: Span, t: nat)
    requires stack != [] ==> stack[|stack| - 1].start <= s.start
    ensures Covers(UnionStep(stack, s), t) <==> Covers(stack, t) || In(s, t)
  {
    if stack != [] && s.start <= stack[|stack| - 1].end {
      var top := stack[|stack| - 1];
      var rest := stack[..|stack| - 1];
      var merged := Span(top.start, if top.end < s.end then s.end else top.end);
      assert UnionStep(stack, s) == rest + [merged];
      assert rest + [top] == stack;
      CoversAppend(rest, merged, t);
      CoversAppend(rest, top, t);
    } else {
      CoversAppend(stack, s, t);
    }
  }

  /**
    Over spans ordered by start, the corrected fold covers exactly the time
    points the spans cover, with separated merged spans.
  */
  lemma {:induction false} UnionCoversExactly(spans: seq<Span>)
    requires StartsAscending(spans)
    ensures forall t :: Covers(UnionFold(spans), t) <==> Covers(spans, t)
    ensures Separated(UnionFold(spans))
  {
    UnionSeparated(spans);
    if spans != [] {
      var init := spans[..|spans| - 1];
      var s := spans[|spans| - 1];
      assert StartsAscending(init);
      UnionCoversExactly(init);
      if init != [] {
        UnionTopStart(init);
        assert init[|init| - 1].start <= s.start;
      }
      forall t ensures Covers(UnionFold(spans), t) <==> Covers(spans, t) {
        UnionStepCovers(UnionFold(init), s, t);
      }
    }
  }

  /** The corrected fold, rewriting the last element of the stack in place with the larger end. */
  method UnionSpans(spans: seq<Span>) returns (stack: seq<Span>)
    ensures stack == UnionFold(spans)
  {
    stack := [];
    for i := 0 to |spans|
      invariant stack == UnionFold(spans[..i])
    {
      var s := spans[i];
      assert spans[..i + 1][..i] == spans[..i];
      assert UnionFold(spans[..i + 1]) == UnionStep(stack, s);
      if stack != [] && s.start <= stack[|stack| - 1].end {
        var top := stack[|stack| - 1];
        ghost var merged := stack[..|stack| - 1] + [Span(top.start, if top.end < s.end then s.end else top.end)];
        if top.end < s.end {
          stack := stack[|stack| - 1 := Span(top.start, s.end)];
        }
        assert stack == merged;
      } else {
        stack := stack + [s];
      }
    }
    assert spans[..|spans|] == spans;
  }

  /** The corrected fold keeps every merged span well formed. */
  lemma {:induction false} UnionWellFormed(spans: seq<Span>)
    requires WellFormed(spans)
    ensures WellFormed(UnionFold(spans))
  {
    if spans != [] {
      var init := spans[..|spans| - 1];
      assert WellFormed(init);
      UnionWellFormed(init);
      var stack, r := UnionFold(init), UnionFold(spans);
      forall i | 0 <= i < |r| ensures r[i].start <= r[i].end {
        if i < |r| - 1 {
          assert r[i] == stack[i];
        }
      }
    }
  }

  /** Over well-formed spans the corrected stack's starts strictly increase. */
  lemma UnionStartsIncrease(spans: seq<Span>)
    requires WellFormed(spans)
    ensures StrictlyIncreasingStarts(UnionFold(spans))
  {
    var r := UnionFold(spans);
    UnionSeparated(spans);
    UnionWellFormed(spans);
    forall i, j | 0 <= i < j < |r| ensures r[i].start < r[j].start {
      StartsBelow(r, i, j);
    }
  }

  /** Merging well-formed spans never adds time: the runtime is at most the naive sum of the lengths. */
  lemma {:induction false} UnionAtMostNaive(spans: seq<Span>)
    requires WellFormed(spans)
    ensures Runtime(UnionFold(spans)) <= Runtime(spans)
  {
    if spans != [] {
      var init := spans[..|spans| - 1];
      var s := spans[|spans| - 1];
      var stack := UnionFold(init);
      assert WellFormed(init);
      UnionAtMostNaive(init);
      if stack != [] && s.start <= stack[|stack| - 1].end {
        var top := stack[|stack| - 1];
        var rest := stack[..|stack| - 1];
        var merged := Span(top.start, if top.end < s.end then s.end else top.end);
        var r := rest + [merged];
        assert r[..|r| - 1] == rest;
        assert Runtime(r) == Runtime(stack) - Length(top) + Length(merged);
      } else {
        assert (stack + [s])[..|stack|] == stack;
      }
    }
  }

  /** Three kernels, two overlapping: 0..150 and 200..250 give 200. */
  lemma RuntimeExample(spans: seq<Span>)
    requires spans == [Span(0, 100), Span(50, 150), Span(200, 250)]
    ensures UnionFold(spans) == [Span(0, 150), Span(200, 250)]
    ensures Runtime(UnionFold(spans)) == 200
  {
    var one, two := spans[..1], spans[..2];
    assert UnionFold(one) == [Span(0, 100)] by {
      assert one[..0] == [];
    }
    assert UnionFold(two) == [Span(0, 150)] by {
      assert two[..1] == one;
      assert UnionFold(two) == UnionStep(UnionFold(one), Span(50, 150));
    }
    var r := UnionFold(spans);
    assert r == [Span(0, 150), Span(200, 250)] by {
      assert spans[..2] == two;
      assert r == UnionStep(UnionFold(two), Span(200, 250));
    }
    assert Runtime(r) == 200 by {
      assert r[..1][..0] == [] && r[..1] == [Span(0, 150)];
      assert Runtime(r[..1]) == 150;
    }
  }

  /** A span nested in an earlier one leaves the corrected stack as it was: the runtime stays 100. */
  lemma NestedSpanKept(spans: seq<Span>)
    requires spans == [Span(0, 100), Span(10, 20)]
    ensures UnionFold(spans) == [Span(0, 100)]
    ensures Runtime(UnionFold(spans)) == 100
  {
    assert spans[..1][..0] == [];
    assert UnionFold(spans[..1]) == [Span(0, 100)];
    assert [Span(0, 100)][..0] == [];
  }

  predicate EndsNondecreasing(spans: seq<Span>) {
    forall i, j | 0 <= i < j < |spans| :: spans[i].end <= spans[j].end
  }

  /** A span that ends no earlier than the top of the stack takes both steps to the same stack, topped by that span's end. */
  lemma StepsAgree(stack: seq<Span>, s: Span)
    requires stack != [] ==> stack[|stack| - 1].end <= s.end
    ensures MergeStep(stack, s) == UnionStep(stack, s)
    ensures MergeStep(stack, s) != [] && MergeStep(stack, s)[|MergeStep(stack, s)| - 1].end == s.end
  {
  }

  /**
    Where no span ends before an earlier one, the fold as written agrees with
    the corrected one, and the top of the stack ends where the last span ends.
  */
  lemma {:induction false} MergeAgreesWhenEndsGrow(spans: seq<Span>)
    requires EndsNondecreasing(spans)
    ensures MergeFold(spans) == UnionFold(spans)
    ensures spans != [] ==> (MergeFold(spans) != [] &&
      MergeFold(spans)[|MergeFold(spans)| - 1].end == spans[|spans| - 1].end)
  {
    if spans != [] {
      var init := spans[..|spans| - 1];
      var s := spans[|spans| - 1];
      assert EndsNondecreasing(init);
      MergeAgreesWhenEndsGrow(init);
      if init != [] {
        assert init[|init| - 1].end <= s.end;
      }
      StepsAgree(MergeFold(init), s);
    }
  }
}

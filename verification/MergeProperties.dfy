// When consolidating is nesting removal and nothing else (src/ImageProcessing/ROI_Detector.cpp): exactly when the
// merging branch is never taken, which can be read off the list before the call.
module MergeProperties {
  import opened Rects
  import opened RoiDetector
  import opened NestedProperties
  import opened ConsolidateProperties

  // rects[j] is the first rectangle the inner loop meets that rects[i] overlaps by more than 85 percent.
  ghost predicate FirstHigh(rects: seq<Rect>, i: int, j: int)
    requires 0 <= i < j < |rects| && AllPositive(rects)
  {
    !OverlapAtMost85(rects, i, j) && forall k :: j < k < |rects| ==> OverlapAtMost85(rects, i, k)
  }

  // The guard of the merging branch fails for every rectangle of the list as it is given.
  ghost predicate NeverMerges(rects: seq<Rect>)
    requires AllPositive(rects)
  {
    forall i, j :: 0 <= i < j < |rects| && FirstHigh(rects, i, j) ==> OverlapPercentage(rects[i], rects[j]) == 100
  }

  ghost predicate FirstNeverMerges(rest: seq<Rect>)
    requires AllPositive(rest) && rest != []
  {
    forall j :: 1 <= j < |rest| && FirstHigh(rest, 0, j) ==> OverlapPercentage(rest[0], rest[j]) == 100
  }

  lemma TailFirstHigh(rest: seq<Rect>, i: int, j: int)
    requires AllPositive(rest) && 1 <= i < j < |rest|
    ensures FirstHigh(rest, i, j) <==> FirstHigh(rest[1..], i - 1, j - 1)
  {
    var tail, before := rest[1..], i - 1;
    assert forall k :: before <= k < |tail| ==> tail[k] == rest[k + 1];
    if FirstHigh(tail, before, j - 1) {
      forall k | j < k < |rest| ensures OverlapAtMost85(rest, i, k) {
        assert OverlapAtMost85(tail, before, k - 1);
      }
    }
    if FirstHigh(rest, i, j) {
      forall k | j - 1 < k < |tail| ensures OverlapAtMost85(tail, before, k) {
        assert OverlapAtMost85(rest, i, k + 1);
      }
    }
  }

  lemma NeverMergesSplit(rest: seq<Rect>)
    requires AllPositive(rest) && rest != []
    ensures NeverMerges(rest) <==> FirstNeverMerges(rest) && NeverMerges(rest[1..])
  {
    var tail := rest[1..];
    forall i, j | 1 <= i < j < |rest|
      ensures FirstHigh(rest, i, j) <==> FirstHigh(tail, i - 1, j - 1)
    {
      TailFirstHigh(rest, i, j);
    }
    if NeverMerges(rest) {
      forall i, j | 0 <= i < j < |tail| && FirstHigh(tail, i, j) ensures OverlapPercentage(tail[i], tail[j]) == 100 {
        assert FirstHigh(rest, i + 1, j + 1);
      }
    }
    if FirstNeverMerges(rest) && NeverMerges(tail) {
      forall i, j | 0 <= i < j < |rest| && FirstHigh(rest, i, j) ensures OverlapPercentage(rest[i], rest[j]) == 100 {
        if i > 0 {
          assert FirstHigh(tail, i - 1, j - 1);
        }
      }
    }
  }

  // ---- The first step of the inner loop that is not passed over ----

  // From the large end, down to the first high overlap or to the small rectangle itself.
  lemma {:induction false} ScanToFirstHigh(rest: seq<Rect>, large: nat) returns (j: nat)
    requires AllPositive(rest) && large < |rest| && forall k :: large < k < |rest| ==> OverlapAtMost85(rest, 0, k)
    ensures j < |rest| && Scan(rest, large) == Scan(rest, j)
    ensures j == 0 || FirstHigh(rest, 0, j)
    ensures j == 0 ==> FirstClear(rest, |rest| - 1)
    decreases large
  {
    j := large;
    if large > 0 && OverlapAtMost85(rest, 0, large) {
      j := ScanToFirstHigh(rest, large - 1);
    }
  }

  // No high overlap at all: the rectangle stays.
  lemma StaysWhenClear(rest: seq<Rect>)
    requires AllPositive(rest) && rest != [] && FirstClear(rest, |rest| - 1)
    ensures !InsideLater(rest)
  {
    if j :| 1 <= j < |rest| && IsInside(rest[0], rest[j]) {
      assert OverlapAtMost85(rest, 0, j);
      FullOverlapIffInside(rest[0], rest[j]);
      assert false;
    }
  }

  lemma FirstStep(rest: seq<Rect>) returns (j: nat)
    requires AllPositive(rest) && rest != []
    ensures j < |rest|
    ensures j == 0 ==> FirstNeverMerges(rest) && Sweep(rest) == [rest[0]] + Sweep(rest[1..])
                       && DropNested(rest) == [rest[0]] + DropNested(rest[1..])
    ensures j > 0 ==> FirstHigh(rest, 0, j)
    ensures j > 0 && OverlapPercentage(rest[0], rest[j]) == 100 ==>
              FirstNeverMerges(rest) && Sweep(rest) == Sweep(rest[1..]) && DropNested(rest) == DropNested(rest[1..])
    ensures j > 0 && OverlapPercentage(rest[0], rest[j]) < 100 ==>
              !FirstNeverMerges(rest) && Sweep(rest) == Scan(Merged(rest, j), j - 1)
  {
    j := ScanToFirstHigh(rest, |rest| - 1);
    if j == 0 {
      StaysWhenClear(rest);
    } else {
      FullOverlapIffInside(rest[0], rest[j]);
      forall k | 1 <= k < |rest| && FirstHigh(rest, 0, k) ensures k == j {
      }
    }
  }

  // ---- After a merge ----

  lemma StrictlyInsideIsSmaller(a: Rect, b: Rect)
    requires Positive(a) && Positive(b) && IsInside(a, b) && a != b
    ensures SmallerArea(a, b)
  {
    MulStrict(a.width, a.height, b.width, b.height);
  }

  lemma InsideTrans(a: Rect, b: Rect, c: Rect)
    requires IsInside(a, b) && IsInside(b, c)
    ensures IsInside(a, c)
  {
  }

  lemma NotInsideFrom(rest: seq<Rect>, large: nat, j: nat)
    requires AllPositive(rest) && 0 < large <= j < |rest|
    requires FirstHigh(rest, 0, large) && OverlapPercentage(rest[0], rest[large]) < 100
    ensures !IsInside(rest[0], rest[j])
  {
    if j > large {
      assert OverlapAtMost85(rest, 0, j);
    }
    FullOverlapIffInside(rest[0], rest[j]);
  }

  // The forest over the list as it is right after the merge.
  lemma ForestAfterMerge(rest: seq<Rect>, large: nat) returns (forest: seq<Block>)
    requires AllPositive(rest) && 0 < large < |rest|
    ensures IsConsolidation(Merged(rest, large), Scan(Merged(rest, large), large - 1), forest)
  {
    var m := Merged(rest, large);
    LeavesTrack(m);
    forest := ScanForest(m, m, Leaves(|m|, 0), large - 1);
  }

  lemma MergedAt(rest: seq<Rect>, large: nat, p: nat)
    requires AllPositive(rest) && 0 < large <= p < |rest|
    ensures p > large ==> Merged(rest, large)[p - 1] == rest[p]
    ensures p == large ==> Merged(rest, large)[p - 1] == Enlarge(rest[large], rest[0])
  {
  }

  // What holds the enlarged rectangle and the one at p after the merge holds the two rectangles they were.
  lemma HoldsBoth(rest: seq<Rect>, large: nat, p: nat, hull: Rect)
    requires AllPositive(rest) && 0 < large <= p < |rest|
    requires IsInside(Merged(rest, large)[large - 1], hull) && IsInside(Merged(rest, large)[p - 1], hull)
    ensures IsInside(rest[0], hull) && IsInside(rest[p], hull)
  {
    var kept := Enlarge(rest[large], rest[0]);
    MergedAt(rest, large, large);
    MergedAt(rest, large, p);
    EnlargeIsLeastBound(rest[large], rest[0]);
    InsideTrans(rest[0], kept, hull);
    InsideTrans(rest[large], kept, hull);
  }

  lemma GrownHull(rest: seq<Rect>, large: nat, p: nat, hull: Rect)
    requires AllPositive(rest) && 0 < large <= p < |rest| && Positive(hull)
    requires FirstHigh(rest, 0, large) && OverlapPercentage(rest[0], rest[large]) < 100
    requires IsInside(Merged(rest, large)[large - 1], hull) && IsInside(Merged(rest, large)[p - 1], hull)
    ensures SmallerArea(rest[p], hull)
  {
    HoldsBoth(rest, large, p, hull);
    NotInsideFrom(rest, large, p);
    StrictlyInsideIsSmaller(rest[p], hull);
  }

  // The block that holds the enlarged rectangle ends up larger than the rectangle at its root was before the merge.
  lemma SomeBlockGrows(rest: seq<Rect>, large: nat, b: Block)
    requires AllPositive(rest) && 0 < large < |rest|
    requires FirstHigh(rest, 0, large) && OverlapPercentage(rest[0], rest[large]) < 100
    requires Fits(b, |rest| - 1) && RootLast(b) && large - 1 in Members(b)
    ensures large <= Root(b) + 1 < |rest|
    ensures SmallerArea(rest[Root(b) + 1], BlockHull(b, Merged(rest, large)))
  {
    var m := Merged(rest, large);
    RootFits(b, |m|);
    MembersBeforeRoot(b, large - 1);
    MemberInHull(b, m, large - 1);
    MemberInHull(b, m, Root(b));
    GrownHull(rest, large, Root(b) + 1, BlockHull(b, m));
  }

  // An output that equals an input after its own root lies inside another output.
  lemma LiesInAnother(input: seq<Rect>, out: seq<Rect>, forest: seq<Block>, k: nat, i: nat) returns (other: nat)
    requires IsConsolidation(input, out, forest) && k < |out| && Root(forest[k]) < i < |input| && input[i] == out[k]
    ensures other < |out| && other != k && IsInside(out[k], out[other])
  {
    other := BlockOf(forest, i);
    if other == k {
      MembersBeforeRoot(forest[k], i);
    }
    MemberInHull(forest[other], input, i);
  }

  lemma KeptAt(rest: seq<Rect>, out: seq<Rect>, k: nat) returns (p: nat)
    requires AllPositive(rest) && SortedByArea(rest) && out == DropNested(rest) && k < |out|
    ensures p < |rest| && rest[p] == out[k]
    ensures forall other :: 0 <= other < |out| && other != k ==> !IsInside(out[k], out[other])
  {
    var positions := RemoveNestedKeepsMaximal(rest);
    p := positions[k];
  }

  lemma LargerIsLater(rest: seq<Rect>, p: nat, q: nat)
    requires SortedByArea(rest) && p < |rest| && q < |rest| && SmallerArea(rest[q], rest[p])
    ensures q < p
  {
  }

  lemma GrownOutput(rest: seq<Rect>, large: nat, out: seq<Rect>, forest: seq<Block>) returns (k: nat)
    requires AllPositive(rest) && 0 < large < |rest|
    requires FirstHigh(rest, 0, large) && OverlapPercentage(rest[0], rest[large]) < 100
    requires IsConsolidation(Merged(rest, large), out, forest)
    ensures k < |out| == |forest| && large <= Root(forest[k]) + 1 < |rest|
    ensures SmallerArea(rest[Root(forest[k]) + 1], out[k])
  {
    k := BlockOf(forest, large - 1);
    SomeBlockGrows(rest, large, forest[k]);
  }

  lemma HeldByAnother(rest: seq<Rect>, large: nat, out: seq<Rect>, forest: seq<Block>, k: nat, p: nat)
    returns (other: nat)
    requires AllPositive(rest) && 0 < large < p < |rest| && IsConsolidation(Merged(rest, large), out, forest)
    requires k < |out| && Root(forest[k]) + 1 < p && rest[p] == out[k]
    ensures other < |out| && other != k && IsInside(out[k], out[other])
  {
    MergedAt(rest, large, p);
    other := LiesInAnother(Merged(rest, large), out, forest, k, p - 1);
  }

  lemma NotNestingRemoval(rest: seq<Rect>, large: nat, out: seq<Rect>, forest: seq<Block>)
    requires AllPositive(rest) && SortedByArea(rest) && 0 < large < |rest|
    requires FirstHigh(rest, 0, large) && OverlapPercentage(rest[0], rest[large]) < 100
    requires IsConsolidation(Merged(rest, large), out, forest)
    ensures out != DropNested(rest)
  {
    if out == DropNested(rest) {
      var k := GrownOutput(rest, large, out, forest);
      var p := KeptAt(rest, out, k);
      LargerIsLater(rest, p, Root(forest[k]) + 1);
      var other := HeldByAnother(rest, large, out, forest, k, p);
    }
  }

  // A merge shows in the result: it is not that of nesting removal, whatever follows.
  lemma MergeDiffers(rest: seq<Rect>, large: nat)
    requires AllPositive(rest) && SortedByArea(rest) && 0 < large < |rest|
    requires FirstHigh(rest, 0, large) && OverlapPercentage(rest[0], rest[large]) < 100
    ensures Scan(Merged(rest, large), large - 1) != DropNested(rest)
  {
    var forest := ForestAfterMerge(rest, large);
    NotNestingRemoval(rest, large, Scan(Merged(rest, large), large - 1), forest);
  }

  // ---- Consolidating and removing nested rectangles ----

  lemma {:induction false} SweepIffNeverMerges(rest: seq<Rect>)
    requires AllPositive(rest)
    ensures NeverMerges(rest) ==> Sweep(rest) == DropNested(rest)
    ensures SortedByArea(rest) && Sweep(rest) == DropNested(rest) ==> NeverMerges(rest)
    decreases |rest|
  {
    if rest != [] {
      SweepIffNeverMerges(rest[1..]);
      NeverMergesSplit(rest);
      if SortedByArea(rest) {
        SortedTail(rest);
      }
      OneMoreInFront(rest);
    }
  }

  lemma OneMoreInFront(rest: seq<Rect>)
    requires AllPositive(rest) && rest != []
    ensures FirstNeverMerges(rest) ==>
              (Sweep(rest) == DropNested(rest) <==> Sweep(rest[1..]) == DropNested(rest[1..]))
    ensures !FirstNeverMerges(rest) && SortedByArea(rest) ==> Sweep(rest) != DropNested(rest)
  {
    var j := FirstStep(rest);
    if j == 0 {
      SameFirst(rest[0], Sweep(rest[1..]), DropNested(rest[1..]));
    } else if OverlapPercentage(rest[0], rest[j]) != 100 {
      FullOverlapIffInside(rest[0], rest[j]);
      if SortedByArea(rest) {
        MergeDiffers(rest, j);
      }
    }
  }

  lemma SameFirst(x: Rect, a: seq<Rect>, b: seq<Rect>)
    ensures [x] + a == [x] + b <==> a == b
  {
    assert ([x] + a)[1..] == a && ([x] + b)[1..] == b;
  }

  lemma SortedTail(rest: seq<Rect>)
    requires rest != [] && SortedByArea(rest)
    ensures SortedByArea(rest[1..])
  {
  }

  // On an area-sorted list the two give the same list exactly when the merging branch is never taken.
  lemma ConsolidateIsRemoveNestedIff(input: seq<Rect>)
    requires AllPositive(input) && SortedByArea(input)
    ensures Consolidated(input) == DropNested(input) <==> NeverMerges(input)
  {
    SweepIffNeverMerges(input);
  }

  // On any list it is enough that no pair overlaps by 86 to 99 percent.
  ghost predicate PartlyOverlaps(rects: seq<Rect>, i: int, j: int)
    requires 0 <= i < |rects| && 0 <= j < |rects| && AllPositive(rects)
  {
    85 < OverlapPercentage(rects[i], rects[j]) < 100
  }

  ghost predicate NoPartialOverlap(rects: seq<Rect>)
    requires AllPositive(rects)
  {
    forall i, j :: 0 <= i < j < |rects| ==> !PartlyOverlaps(rects, i, j)
  }

  lemma ConsolidateIsRemoveNested(input: seq<Rect>)
    requires AllPositive(input) && NoPartialOverlap(input)
    ensures NeverMerges(input) && Consolidated(input) == DropNested(input)
  {
    forall i, j | 0 <= i < j < |input| && FirstHigh(input, i, j) ensures OverlapPercentage(input[i], input[j]) == 100 {
      assert !PartlyOverlaps(input, i, j);
      FullOverlapIffInside(input[i], input[j]);
    }
    SweepIffNeverMerges(input);
  }

  // ---- One pass or several ----

  lemma {:induction false} HighHasFirst(rects: seq<Rect>, i: int, j: int) returns (first: int)
    requires 0 <= i < j < |rects| && AllPositive(rects) && !OverlapAtMost85(rects, i, j)
    ensures j <= first < |rects| && FirstHigh(rects, i, first)
    decreases |rects| - j
  {
    if FirstHigh(rects, i, j) {
      first := j;
    } else {
      var k :| j < k < |rects| && !OverlapAtMost85(rects, i, k);
      first := HighHasFirst(rects, i, k);
    }
  }

  // If the merging branch is never taken, one pass settles the list: no two rectangles left overlap above 85 percent,
  // and a second pass changes nothing.
  lemma OnePassSettles(input: seq<Rect>)
    requires AllPositive(input) && NeverMerges(input)
    ensures AllPositive(Consolidated(input)) && NoHighOverlap(Consolidated(input))
    ensures Consolidated(Consolidated(input)) == Consolidated(input)
  {
    var out := Consolidated(input);
    SweepIffNeverMerges(input);
    var positions := KeptPositions(input);
    forall i, j | 0 <= i < j < |out| ensures OverlapAtMost85(out, i, j) {
      var p, q := positions[i], positions[j];
      assert p in positions && InsideNoLater(input, p);
      if !OverlapAtMost85(input, p, q) {
        var first := HighHasFirst(input, p, q);
        FullOverlapIffInside(input[p], input[first]);
      }
    }
    UnchangedIffNoHighOverlap(out);
  }

  // ... and an area-sorted list stays sorted by area.
  lemma SortedWithoutMerge(input: seq<Rect>)
    requires AllPositive(input) && SortedByArea(input) && NeverMerges(input)
    ensures SortedByArea(Consolidated(input))
  {
    var out := Consolidated(input);
    SweepIffNeverMerges(input);
    var positions := KeptPositions(input);
    forall i, j | 0 <= i < j < |out| ensures !SmallerArea(out[j], out[i]) {
      assert positions[i] < positions[j];
    }
  }

  // After a merge the list returned need not be sorted: the enlarged rectangle is now the largest, but not the last.
  lemma MergeCanUnsort()
    ensures var input := [Rect(20, 9, 10, 10), Rect(10, 10, 30, 30), Rect(200, 200, 91, 10)];
            && AllPositive(input) && SortedByArea(input)
            && Consolidated(input) == [Rect(10, 9, 30, 31), input[2]] && !SortedByArea(Consolidated(input))
  {
    var input := [Rect(20, 9, 10, 10), Rect(10, 10, 30, 30), Rect(200, 200, 91, 10)];
    var kept, far := Rect(10, 9, 30, 31), input[2];
    assert Scan(input, 2) == Scan(input, 1);
    MergeOfTwo(input, kept);
    KeptBoth(kept, far);
    assert SmallerArea(far, kept);
    var out := [kept, far];
    assert SmallerArea(out[1], out[0]);
  }

  lemma MergeOfTwo(input: seq<Rect>, kept: Rect)
    requires |input| == 3 && AllPositive(input)
    requires input[0] == Rect(20, 9, 10, 10) && input[1] == Rect(10, 10, 30, 30) && kept == Rect(10, 9, 30, 31)
    ensures Scan(input, 1) == Scan([kept, input[2]], 0)
  {
    assert OverlapPercentage(input[0], input[1]) == 90;
    assert Merged(input, 1) == [kept, input[2]];
  }

  lemma KeptBoth(kept: Rect, far: Rect)
    requires Positive(kept) && Positive(far)
    ensures Scan([kept, far], 0) == [kept, far]
  {
    assert [kept, far][1..] == [far];
    assert Sweep([far]) == Scan([far], 0) == [far] + Sweep([]);
  }

  // After a merge it can go either way. One pass may settle the list ...
  lemma MergeCanSettle()
    ensures var input := [Rect(20, 9, 10, 10), Rect(10, 10, 30, 30)];
            && AllPositive(input) && SortedByArea(input) && !NeverMerges(input)
            && NoHighOverlap(Consolidated(input)) && Consolidated(Consolidated(input)) == Consolidated(input)
  {
    var input := [Rect(20, 9, 10, 10), Rect(10, 10, 30, 30)];
    var kept := Enlarge(input[1], input[0]);
    assert OverlapPercentage(input[0], input[1]) == 90;
    assert FirstHigh(input, 0, 1);
    assert Merged(input, 1) == [kept];
    assert Scan([kept], 0) == [kept] + Sweep([]);
    assert Consolidated(input) == Scan(input, 1) == Scan([kept], 0);
    UnchangedIffNoHighOverlap([kept]);
  }

  // ... or leave a rectangle inside another, because the next one is not compared with those beyond the merged one.
  lemma NestedRectangleCanStay()
    ensures var partial, nested := Rect(20, 9, 10, 10), Rect(110, 110, 10, 10);
            var near, far := Rect(10, 10, 30, 30), Rect(100, 100, 31, 31);
            var input := [partial, nested, near, far];
            && AllPositive(input) && SortedByArea(input) && IsInside(nested, far)
            && Consolidated(input) == [nested, Enlarge(near, partial), far]
            && !NoHighOverlap(Consolidated(input)) && Consolidated(Consolidated(input)) != Consolidated(input)
  {
    var partial, nested := Rect(20, 9, 10, 10), Rect(110, 110, 10, 10);
    var near, far := Rect(10, 10, 30, 30), Rect(100, 100, 31, 31);
    var input := [partial, nested, near, far];
    var kept := Enlarge(near, partial);
    SweepApart(kept, far);
    assert Merged(input, 2) == [nested, kept, far];
    ScanFour(input, kept);
    ScanThree(nested, kept, far);
    NotSettled([nested, kept, far]);
  }

  lemma NotSettled(out: seq<Rect>)
    requires AllPositive(out) && |out| == 3 && IsInside(out[0], out[2])
    ensures !NoHighOverlap(out) && Consolidated(out) != out
  {
    FullOverlapIffInside(out[0], out[2]);
    assert !OverlapAtMost85(out, 0, 2);
    UnchangedIffNoHighOverlap(out);
  }

  lemma SweepApart(kept: Rect, far: Rect)
    requires kept == Rect(10, 9, 30, 31) && far == Rect(100, 100, 31, 31)
    ensures Sweep([kept, far]) == [kept, far]
  {
    assert Sweep([far]) == Scan([far], 0) == [far] + Sweep([]);
    assert Scan([kept, far], 1) == Scan([kept, far], 0) == [kept] + Sweep([far]);
  }

  lemma ScanThree(nested: Rect, kept: Rect, far: Rect)
    requires nested == Rect(110, 110, 10, 10) && kept == Rect(10, 9, 30, 31) && far == Rect(100, 100, 31, 31)
    requires Sweep([kept, far]) == [kept, far]
    ensures Scan([nested, kept, far], 1) == [nested, kept, far]
  {
    assert [nested, kept, far][1..] == [kept, far];
    assert Scan([nested, kept, far], 1) == Scan([nested, kept, far], 0);
  }

  lemma ScanFour(input: seq<Rect>, kept: Rect)
    requires input == [Rect(20, 9, 10, 10), Rect(110, 110, 10, 10), Rect(10, 10, 30, 30), Rect(100, 100, 31, 31)]
    requires Merged(input, 2) == [input[1], kept, input[3]]
    ensures Sweep(input) == Scan([input[1], kept, input[3]], 1)
  {
    assert OverlapPercentage(input[0], input[3]) == 0;
    assert OverlapPercentage(input[0], input[2]) == 90;
    assert Scan(input, 3) == Scan(input, 2);
  }
}

// remove_nested and consolidate_rectangles (src/ImageProcessing/ROI_Detector.cpp): two cursors walk one
// vector while elements are erased and enlarged under them.
module RoiDetector {
  import opened Rects

  ghost predicate AllPositive(rects: seq<Rect>) {
    forall k :: 0 <= k < |rects| ==> Positive(rects[k])
  }

  ghost predicate SortedByArea(rects: seq<Rect>) {
    forall i, j :: 0 <= i < j < |rects| ==> !SmallerArea(rects[j], rects[i])
  }

  function Erase(rects: seq<Rect>, k: nat): seq<Rect>
    requires k < |rects|
  {
    rects[..k] + rects[k + 1..]
  }

  // ---- What the loops compute, as recursion on the part not yet passed by the small cursor ----

  predicate InsideLater(rest: seq<Rect>)
    requires rest != []
  {
    exists j :: 1 <= j < |rest| && IsInside(rest[0], rest[j])
  }

  function DropNested(rest: seq<Rect>): seq<Rect> {
    if rest == [] then []
    else if InsideLater(rest) then DropNested(rest[1..])
    else [rest[0]] + DropNested(rest[1..])
  }

  // The outer loop of consolidate_rectangles, with rest[0] under the small cursor.
  ghost function Sweep(rest: seq<Rect>): (out: seq<Rect>)
    requires AllPositive(rest)
    ensures AllPositive(out)
    decreases |rest|, |rest|
  {
    if rest == [] then [] else Scan(rest, |rest| - 1)
  }

  // The inner loop, with rest[large] under the large cursor. A merge erases the small rectangle, so both
  // cursors then denote positions in a list that is one shorter.
  ghost function Scan(rest: seq<Rect>, large: nat): (out: seq<Rect>)
    requires AllPositive(rest) && large < |rest|
    ensures AllPositive(out)
    decreases |rest|, large
  {
    if large == 0 then
      [rest[0]] + Sweep(rest[1..])
    else
      var overlap := OverlapPercentage(rest[0], rest[large]);
      if overlap == 100 then Sweep(rest[1..])
      else if overlap > 85 then Scan(Merged(rest, large), large - 1)
      else Scan(rest, large - 1)
  }

  ghost function Merged(rest: seq<Rect>, large: nat): (out: seq<Rect>)
    requires AllPositive(rest) && 0 < large < |rest|
    ensures AllPositive(out) && |out| == |rest| - 1
  {
    rest[large := Enlarge(rest[large], rest[0])][1..]
  }

  ghost function Consolidated(rects: seq<Rect>): seq<Rect>
    requires AllPositive(rects)
  {
    Sweep(rects)
  }

  // The same edits seen on the whole vector, with the passed part in front.
  lemma EditsAt(done: seq<Rect>, rest: seq<Rect>, large: nat)
    requires AllPositive(rest) && 0 < large < |rest|
    ensures var rects, s, l := done + rest, |done|, |done| + large;
            && rects[s] == rest[0] && rects[l] == rest[large]
            && Erase(rects, s) == done + rest[1..]
            && Erase(rects[l := Enlarge(rects[l], rects[s])], s) == done + Merged(rest, large)
  {
    var rects, s, l := done + rest, |done|, |done| + large;
    assert Erase(rects, s) == done + rest[1..];
    assert Erase(rects[l := Enlarge(rects[l], rects[s])], s) == done + Merged(rest, large);
  }

  lemma PassOver(done: seq<Rect>, rest: seq<Rect>, tail: seq<Rect>)
    requires rest != []
    ensures done + rest == (done + [rest[0]]) + rest[1..]
    ensures done + ([rest[0]] + tail) == (done + [rest[0]]) + tail
  {
  }

  // The number of pairs among n rectangles.
  function Pairs(n: nat): nat {
    if n == 0 then 0 else n - 1 + Pairs(n - 1)
  }

  lemma {:induction false} PairsMonotone(m: nat, n: nat)
    requires m <= n
    ensures Pairs(m) <= Pairs(n)
  {
    if m < n {
      PairsMonotone(m, n - 1);
    }
  }

  lemma {:induction false} PairsClosedForm(n: nat)
    ensures 2 * Pairs(n) == n * (n - 1)
  {
    if n > 0 {
      PairsClosedForm(n - 1);
      assert n * (n - 1) == 2 * (n - 1) + (n - 1) * (n - 2);
    }
  }

  // ---- The vector edited in place ----

  class RegionsOfInterest {
    var rects: seq<Rect>

    constructor (rects: seq<Rect>)
      ensures this.rects == rects
    {
      this.rects := rects;
    }

    method RemoveNested() returns (ghost comparisons: nat)
      modifies this
      ensures rects == DropNested(old(rects))
      ensures comparisons <= Pairs(|old(rects)|)
    {
      var small := 0;
      comparisons := 0;
      ghost var done, rest: seq<Rect> := [], rects;
      assert rects == done + rest && done + DropNested(rest) == DropNested(rects);
      while small != |rects|
        invariant rects == done + rest && small == |done|
        invariant done + DropNested(rest) == DropNested(old(rects))
        invariant comparisons + Pairs(|rest|) <= Pairs(|old(rects)|)
        decreases |rest|
      {
        var erased := false;
        var large := |rects| - 1;
        while large > small && !erased
          invariant rects == done + rest && small <= large < |rects|
          invariant forall j :: large - small < j < |rest| ==> !IsInside(rest[0], rest[j])
          invariant erased ==> large > small && IsInside(rest[0], rest[large - small])
          invariant comparisons + (large - small) - (if erased then 1 else 0) + Pairs(|rest| - 1) <= Pairs(|old(rects)|)
          decreases large, !erased
        {
          comparisons := comparisons + 1;
          if IsInside(rects[small], rects[large]) {
            erased := true;
          } else {
            large := large - 1;
          }
        }
        if erased {
          assert Erase(rects, small) == done + rest[1..];
          rects := Erase(rects, small);
          rest := rest[1..];
        } else {
          PassOver(done, rest, DropNested(rest[1..]));
          done, rest := done + [rest[0]], rest[1..];
          small := small + 1;
        }
      }
      assert DropNested(rest) == [] && done + [] == rects;
    }

    method ConsolidateRectangles() returns (ghost comparisons: nat)
      requires AllPositive(rects)
      modifies this
      ensures AllPositive(rects) && rects == Consolidated(old(rects))
      ensures comparisons <= Pairs(|old(rects)|)
    {
      var small := 0;
      comparisons := 0;
      ghost var done, rest: seq<Rect> := [], rects;
      assert rects == done + rest;
      assert done + Sweep(rest) == Consolidated(rects);
      while small != |rects|
        invariant rects == done + rest && small == |done| && AllPositive(rest)
        invariant done + Sweep(rest) == Consolidated(old(rects))
        invariant comparisons + Pairs(|rest|) <= Pairs(|old(rects)|)
        decreases |rest|
      {
        var erased;
        ghost var made, before := 0, |rest|;
        erased, rest, made := CompareWithLarger(small, done, rest);
        comparisons := comparisons + made;
        PairsMonotone(if erased then |rest| else |rest| - 1, before - 1);
        if !erased {
          PassOver(done, rest, Sweep(rest[1..]));
          done, rest := done + [rest[0]], rest[1..];
          small := small + 1;
        }
      }
      assert Sweep(rest) == [] && done + [] == rects;
    }

    // The inner loop, run for one position of the small cursor. It ends early when that rectangle is erased.
    method CompareWithLarger(small: nat, ghost done: seq<Rect>, ghost rest: seq<Rect>)
      returns (erased: bool, ghost rest': seq<Rect>, ghost comparisons: nat)
      requires rects == done + rest && small == |done| && AllPositive(rest) && rest != []
      modifies this
      ensures rects == done + rest' && AllPositive(rest')
      ensures if erased then |rest'| < |rest| && Sweep(rest') == Sweep(rest)
              else 0 < |rest'| <= |rest| && [rest'[0]] + Sweep(rest'[1..]) == Sweep(rest)
      ensures comparisons < |rest|
    {
      var large := |rects| - 1;
      erased, rest', comparisons := false, rest, 0;
      while large > small && !erased
        invariant rects == done + rest' && AllPositive(rest') && |rest'| <= |rest|
        invariant if erased then |rest'| < |rest| && Sweep(rest') == Sweep(rest)
                  else small <= large < |rects| && Scan(rest', large - small) == Sweep(rest)
        invariant comparisons + (if erased then 0 else large - small) < |rest|
        decreases !erased, large
      {
        comparisons := comparisons + 1;
        erased, rest' := Compare(small, large, done, rest');
        if !erased {
          large := large - 1;
        }
      }
    }

    // What happens for one pair.
    method Compare(small: nat, large: nat, ghost done: seq<Rect>, ghost rest: seq<Rect>)
      returns (erased: bool, ghost rest': seq<Rect>)
      requires rects == done + rest && small == |done| && AllPositive(rest) && small < large < |rects|
      modifies this
      ensures rects == done + rest' && AllPositive(rest') && |rest'| <= |rest|
      ensures if erased then |rest'| < |rest| && Sweep(rest') == Scan(rest, large - small)
              else |rest'| > large - 1 - small && Scan(rest', large - 1 - small) == Scan(rest, large - small)
    {
      EditsAt(done, rest, large - small);
      erased, rest' := false, rest;
      var overlap := OverlapPercentage(rects[small], rects[large]);
      if overlap == 100 {
        rects := Erase(rects, small);
        rest' := rest[1..];
        erased := true;
      } else if overlap > 85 {
        rects := rects[large := Enlarge(rects[large], rects[small])];
        rects := Erase(rects, small);
        rest' := Merged(rest, large - small);
      }
    }
  }
}

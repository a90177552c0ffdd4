// What remove_nested returns: the rectangles that lie in no other one, once each, in their order.
module NestedProperties {
  import opened Common
  import opened Rects
  import opened RoiDetector

  ghost predicate InsideNoLater(rects: seq<Rect>, i: nat)
    requires i < |rects|
  {
    forall j :: i < j < |rects| ==> !IsInside(rects[i], rects[j])
  }

  // rects[i] lies in no other rectangle, and of several equal copies it is the last.
  ghost predicate MaximalLastCopy(rects: seq<Rect>, i: nat)
    requires i < |rects|
  {
    forall j :: 0 <= j < |rects| && IsInside(rects[i], rects[j]) ==> rects[j] == rects[i] && j <= i
  }

  lemma {:induction false} KeptPositions(rects: seq<Rect>) returns (positions: seq<int>)
    ensures SubsequenceVia(DropNested(rects), rects, positions)
    ensures forall i :: 0 <= i < |rects| ==> (i in positions <==> InsideNoLater(rects, i))
  {
    if rects == [] {
      positions := [];
    } else {
      var tail := KeptPositions(rects[1..]);
      SubsequenceSkip(DropNested(rects[1..]), rects, tail);
      SubsequenceTake(DropNested(rects[1..]), rects, tail);
      positions := if InsideLater(rects) then Shifted(tail) else [0] + Shifted(tail);
      forall i | 0 <= i < |rects| ensures i in positions <==> InsideNoLater(rects, i) {
        ShiftedMembers(tail, i);
        if i > 0 {
          TailIsSameLater(rects, i);
        }
      }
    }
  }

  lemma TailIsSameLater(rects: seq<Rect>, i: nat)
    requires 1 <= i < |rects|
    ensures InsideNoLater(rects, i) <==> InsideNoLater(rects[1..], i - 1)
  {
    var rest := rects[1..];
    assert forall j :: i < j < |rects| ==> rects[j] == rest[j - 1];
    assert forall j :: i - 1 < j < |rest| ==> rest[j] == rects[j + 1];
  }

  lemma LastCopyIffInsideNoLater(rects: seq<Rect>, i: nat)
    requires AllPositive(rects) && SortedByArea(rects) && i < |rects|
    ensures MaximalLastCopy(rects, i) <==> InsideNoLater(rects, i)
  {
    if InsideNoLater(rects, i) {
      forall j | 0 <= j < |rects| && IsInside(rects[i], rects[j]) ensures rects[j] == rects[i] && j <= i {
        if j < i {
          assert !SmallerArea(rects[i], rects[j]);
          MulStrict(rects[i].width, rects[i].height, rects[j].width, rects[j].height);
        }
      }
    }
  }

  // Every rectangle lies in one that lies in no later one.
  lemma {:induction false} LastAbove(rects: seq<Rect>, i: nat) returns (top: nat)
    requires i < |rects|
    ensures top < |rects| && IsInside(rects[i], rects[top]) && InsideNoLater(rects, top)
    decreases |rects| - i
  {
    if InsideNoLater(rects, i) {
      top := i;
    } else {
      var j :| i < j < |rects| && IsInside(rects[i], rects[j]);
      top := LastAbove(rects, j);
    }
  }

  // On any area-sorted list: the result is the list of the maximal rectangles, last copies, in order;
  // none of them lies in another, and everything dropped lies in one that is kept.
  lemma RemoveNestedKeepsMaximal(rects: seq<Rect>) returns (positions: seq<int>)
    requires AllPositive(rects) && SortedByArea(rects)
    ensures SubsequenceVia(DropNested(rects), rects, positions)
    ensures forall i :: 0 <= i < |rects| ==> (i in positions <==> MaximalLastCopy(rects, i))
    ensures var out := DropNested(rects);
            && (forall a, b :: 0 <= a < |out| && 0 <= b < |out| && a != b ==> !IsInside(out[a], out[b]))
            && (forall i :: 0 <= i < |rects| ==> exists k :: 0 <= k < |out| && IsInside(rects[i], out[k]))
  {
    positions := KeptPositions(rects);
    var out := DropNested(rects);
    forall i | 0 <= i < |rects| ensures i in positions <==> MaximalLastCopy(rects, i) {
      LastCopyIffInsideNoLater(rects, i);
    }
    forall a, b | 0 <= a < |out| && 0 <= b < |out| && a != b ensures !IsInside(out[a], out[b]) {
      assert positions[a] in positions && positions[b] in positions;
      assert MaximalLastCopy(rects, positions[a]) && MaximalLastCopy(rects, positions[b]);
      assert positions[a] != positions[b] by {
        assert a < b || b < a;
      }
    }
    forall i | 0 <= i < |rects| ensures exists k :: 0 <= k < |out| && IsInside(rects[i], out[k]) {
      var top := LastAbove(rects, i);
      var k :| 0 <= k < |positions| && positions[k] == top;
      assert out[k] == rects[top];
    }
  }
}

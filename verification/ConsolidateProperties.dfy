// What consolidate_rectangles returns: bounding hulls of the blocks of a partition of its input, every
// joining of two blocks being warranted by an overlap above 85 percent.
module ConsolidateProperties {
  import opened Common
  import opened Rects
  import opened RoiDetector

  // The history of one output rectangle: an input rectangle, or a block absorbed by another.
  datatype Block = Leaf(index: nat) | Join(small: Block, large: Block)

  function Members(b: Block): multiset<nat> {
    match b
    case Leaf(i) => multiset{i}
    case Join(s, l) => Members(s) + Members(l)
  }

  // The input rectangle that did the absorbing.
  function Root(b: Block): nat {
    match b
    case Leaf(i) => i
    case Join(_, l) => Root(l)
  }

  predicate Fits(b: Block, n: nat) {
    match b
    case Leaf(i) => i < n
    case Join(s, l) => Fits(s, n) && Fits(l, n)
  }

  ghost function BlockHull(b: Block, input: seq<Rect>): (h: Rect)
    requires AllPositive(input) && Fits(b, |input|)
    ensures Positive(h)
  {
    match b
    case Leaf(i) => input[i]
    case Join(s, l) => Enlarge(BlockHull(l, input), BlockHull(s, input))
  }

  ghost predicate Warranted(b: Block, input: seq<Rect>)
    requires AllPositive(input) && Fits(b, |input|)
  {
    match b
    case Leaf(_) => true
    case Join(s, l) =>
      && Warranted(s, input) && Warranted(l, input)
      && OverlapPercentage(BlockHull(s, input), BlockHull(l, input)) > 85
  }

  function AllMembers(blocks: seq<Block>): multiset<nat> {
    if blocks == [] then multiset{} else Members(blocks[0]) + AllMembers(blocks[1..])
  }

  function Roots(blocks: seq<Block>): (roots: seq<int>)
    ensures |roots| == |blocks| && forall k :: 0 <= k < |blocks| ==> roots[k] == Root(blocks[k])
  {
    seq(|blocks|, k requires 0 <= k < |blocks| => Root(blocks[k]))
  }

  ghost predicate Tracks(input: seq<Rect>, rects: seq<Rect>, blocks: seq<Block>) {
    && AllPositive(input) && |blocks| == |rects|
    && forall k :: 0 <= k < |blocks| ==>
         Fits(blocks[k], |input|) && Warranted(blocks[k], input) && rects[k] == BlockHull(blocks[k], input)
  }

  // Blocks are absorbed by later ones.
  predicate RootLast(b: Block) {
    match b
    case Leaf(_) => true
    case Join(s, l) => RootLast(s) && RootLast(l) && Root(s) < Root(l)
  }

  ghost predicate Orderly(blocks: seq<Block>) {
    Increasing(Roots(blocks)) && forall k :: 0 <= k < |blocks| ==> RootLast(blocks[k])
  }

  lemma {:induction false} MembersBeforeRoot(b: Block, i: nat)
    requires RootLast(b) && i in Members(b)
    ensures i <= Root(b)
  {
    if b.Join? {
      if i in Members(b.small) {
        MembersBeforeRoot(b.small, i);
      } else {
        MembersBeforeRoot(b.large, i);
      }
    }
  }

  // The output is the list of hulls of a forest of warranted blocks that holds every input index
  // exactly once, in the order of the absorbing rectangles, which come after what they absorbed.
  ghost predicate IsConsolidation(input: seq<Rect>, output: seq<Rect>, forest: seq<Block>) {
    && Tracks(input, output, forest)
    && (forall i: nat :: AllMembers(forest)[i] == if i < |input| then 1 else 0)
    && Orderly(forest)
  }

  lemma {:induction false} ReplaceMembers(blocks: seq<Block>, k: nat, b: Block)
    requires k < |blocks|
    ensures AllMembers(blocks[k := b]) + Members(blocks[k]) == AllMembers(blocks) + Members(b)
  {
    if k > 0 {
      ReplaceMembers(blocks[1..], k - 1, b);
      var old', new' := AllMembers(blocks[1..]), AllMembers(blocks[1..][k - 1 := b]);
      assert blocks[k := b][1..] == blocks[1..][k - 1 := b];
      assert Members(blocks[0]) + new' + Members(blocks[k]) == Members(blocks[0]) + (new' + Members(blocks[k]));
      assert Members(blocks[0]) + old' + Members(b) == Members(blocks[0]) + (old' + Members(b));
    } else {
      assert blocks[k := b][1..] == blocks[1..];
      var tail := AllMembers(blocks[1..]);
      assert Members(b) + tail + Members(blocks[0]) == Members(blocks[0]) + tail + Members(b);
    }
  }

  ghost predicate Follows(out: seq<Block>, blocks: seq<Block>) {
    && AllMembers(out) == AllMembers(blocks)
    && (Orderly(blocks) ==> Orderly(out))
    && forall k :: 0 <= k < |out| ==> Roots(out)[k] in Roots(blocks)
  }

  lemma RootsInFront(b: Block, out: seq<Block>)
    ensures Roots([b] + out) == [Root(b) as int] + Roots(out)
    ensures AllMembers([b] + out) == Members(b) + AllMembers(out)
  {
    assert ([b] + out)[1..] == out;
  }

  lemma FollowsTail(out: seq<Block>, blocks: seq<Block>)
    requires blocks != [] && Follows(out, blocks[1..])
    ensures Follows([blocks[0]] + out, blocks)
  {
    var first, rt, ro := Root(blocks[0]) as int, Roots(blocks[1..]), Roots(out);
    RootsInFront(blocks[0], out);
    RootsInFront(blocks[0], blocks[1..]);
    assert [blocks[0]] + blocks[1..] == blocks;
    if Orderly(blocks) {
      OrderlyTail(blocks);
      RootsFollow(first, rt, ro);
    }
    forall k | 0 <= k < |[blocks[0]] + out| ensures Roots([blocks[0]] + out)[k] in Roots(blocks) {
      if k > 0 {
        assert ro[k - 1] in rt;
      }
    }
  }

  lemma OrderlyTail(blocks: seq<Block>)
    requires blocks != [] && Orderly(blocks)
    ensures Orderly(blocks[1..])
  {
    assert Roots(blocks[1..]) == Roots(blocks)[1..];
  }

  lemma RootsFollow(first: int, rt: seq<int>, ro: seq<int>)
    requires Increasing([first] + rt) && Increasing(ro)
    requires forall k :: 0 <= k < |ro| ==> ro[k] in rt
    ensures Increasing([first] + ro)
  {
    IncreasingTail([first] + rt);
    assert ([first] + rt)[1..] == rt;
    IncreasingCons(first, ro);
  }

  lemma IncreasingTail(s: seq<int>)
    requires s != [] && Increasing(s)
    ensures Increasing(s[1..]) && forall x :: x in s[1..] ==> s[0] < x
  {
  }

  lemma IncreasingCons(x: int, s: seq<int>)
    requires Increasing(s) && forall k :: 0 <= k < |s| ==> x < s[k]
    ensures Increasing([x] + s)
  {
  }

  function Absorb(blocks: seq<Block>, large: nat): (out: seq<Block>)
    requires 0 < large < |blocks|
    ensures |out| == |blocks| - 1
  {
    blocks[large := Join(blocks[0], blocks[large])][1..]
  }

  lemma AbsorbFollows(blocks: seq<Block>, large: nat)
    requires 0 < large < |blocks|
    ensures Follows(Absorb(blocks, large), blocks)
  {
    var out, b := Absorb(blocks, large), Join(blocks[0], blocks[large]);
    ReplaceMembers(blocks, large, b);
    AbsorbedMembers(AllMembers(out), Members(blocks[0]), Members(blocks[large]), AllMembers(blocks));
    assert Roots(out) == Roots(blocks)[1..];
    if Orderly(blocks) {
      IncreasingTail(Roots(blocks));
      assert Roots(blocks)[0] < Roots(blocks)[large];
      assert RootLast(b);
    }
  }

  lemma AbsorbedMembers(out: multiset<nat>, small: multiset<nat>, large: multiset<nat>, all: multiset<nat>)
    requires small + out + large == all + (small + large)
    ensures out == all
  {
    assert (small + out + large) - (small + large) == out;
    assert (all + (small + large)) - (small + large) == all;
  }

  lemma FollowsTrans(a: seq<Block>, b: seq<Block>, c: seq<Block>)
    requires Follows(a, b) && Follows(b, c)
    ensures Follows(a, c)
  {
    forall k | 0 <= k < |a| ensures Roots(a)[k] in Roots(c) {
      var j :| 0 <= j < |b| && Roots(b)[j] == Roots(a)[k];
    }
  }

  lemma {:induction false} SweepForest(input: seq<Rect>, rest: seq<Rect>, blocks: seq<Block>) returns (out: seq<Block>)
    requires AllPositive(rest) && Tracks(input, rest, blocks)
    ensures Tracks(input, Sweep(rest), out) && Follows(out, blocks)
    decreases |rest|, |rest|
  {
    if rest == [] {
      out := [];
    } else {
      out := ScanForest(input, rest, blocks, |rest| - 1);
    }
  }

  lemma TracksTail(input: seq<Rect>, rest: seq<Rect>, blocks: seq<Block>)
    requires Tracks(input, rest, blocks) && rest != []
    ensures Tracks(input, rest[1..], blocks[1..])
  {
  }

  lemma KeepFirst(input: seq<Rect>, rest: seq<Rect>, blocks: seq<Block>, out: seq<Rect>, forest: seq<Block>)
    requires Tracks(input, rest, blocks) && rest != []
    requires Tracks(input, out, forest) && Follows(forest, blocks[1..])
    ensures Tracks(input, [rest[0]] + out, [blocks[0]] + forest) && Follows([blocks[0]] + forest, blocks)
  {
    FollowsTail(forest, blocks);
  }

  lemma {:induction false} ScanForest(input: seq<Rect>, rest: seq<Rect>, blocks: seq<Block>, large: nat)
    returns (out: seq<Block>)
    requires AllPositive(rest) && Tracks(input, rest, blocks) && large < |rest|
    ensures Tracks(input, Scan(rest, large), out) && Follows(out, blocks)
    decreases |rest|, large
  {
    if large == 0 {
      TracksTail(input, rest, blocks);
      var tail := SweepForest(input, rest[1..], blocks[1..]);
      out := [blocks[0]] + tail;
      KeepFirst(input, rest, blocks, Sweep(rest[1..]), tail);
    } else if OverlapPercentage(rest[0], rest[large]) > 85 {
      var merged, absorbed := Merged(rest, large), Absorb(blocks, large);
      MergeTracks(input, rest, blocks, large);
      if OverlapPercentage(rest[0], rest[large]) == 100 {
        out := SweepForest(input, merged, absorbed);
      } else {
        out := ScanForest(input, merged, absorbed, large - 1);
      }
      FollowsTrans(out, absorbed, blocks);
    } else {
      out := ScanForest(input, rest, blocks, large - 1);
    }
  }

  // A rectangle dropped at 100 percent changes nothing in the one that holds it.
  lemma MergeTracks(input: seq<Rect>, rest: seq<Rect>, blocks: seq<Block>, large: nat)
    requires AllPositive(rest) && Tracks(input, rest, blocks) && 0 < large < |rest|
    requires OverlapPercentage(rest[0], rest[large]) > 85
    ensures Tracks(input, Merged(rest, large), Absorb(blocks, large))
    ensures Follows(Absorb(blocks, large), blocks)
    ensures OverlapPercentage(rest[0], rest[large]) == 100 ==> Merged(rest, large) == rest[1..]
  {
    var joined := Join(blocks[0], blocks[large]);
    assert Warranted(joined, input) && BlockHull(joined, input) == Enlarge(rest[large], rest[0]);
    AbsorbFollows(blocks, large);
    FullOverlapIffInside(rest[0], rest[large]);
    EnlargeIsLeastBound(rest[large], rest[0]);
  }

  function Leaves(n: nat, k: nat): (blocks: seq<Block>)
    requires k <= n
    ensures |blocks| == n - k && forall i :: 0 <= i < n - k ==> blocks[i] == Leaf(k + i)
    ensures forall i: nat :: AllMembers(blocks)[i] == if k <= i < n then 1 else 0
    decreases n - k
  {
    if k == n then [] else [Leaf(k)] + Leaves(n, k + 1)
  }

  lemma LeavesTrack(input: seq<Rect>)
    requires AllPositive(input)
    ensures Tracks(input, input, Leaves(|input|, 0)) && Orderly(Leaves(|input|, 0))
  {
    var leaves := Leaves(|input|, 0);
    assert forall k :: 0 <= k < |leaves| ==> leaves[k] == Leaf(k) && Roots(leaves)[k] == k;
  }

  // The main result: a partition into warranted blocks, one per output rectangle.
  lemma ConsolidateIsForest(input: seq<Rect>) returns (forest: seq<Block>)
    requires AllPositive(input)
    ensures IsConsolidation(input, Consolidated(input), forest)
  {
    LeavesTrack(input);
    forest := SweepForest(input, input, Leaves(|input|, 0));
  }

  // ---- What a block's hull is ----

  lemma {:induction false} MemberInHull(b: Block, input: seq<Rect>, i: nat)
    requires AllPositive(input) && Fits(b, |input|) && i in Members(b)
    ensures i < |input| && IsInside(input[i], BlockHull(b, input))
  {
    if b.Join? {
      EnlargeIsLeastBound(BlockHull(b.large, input), BlockHull(b.small, input));
      if i in Members(b.small) {
        MemberInHull(b.small, input, i);
      } else {
        MemberInHull(b.large, input, i);
      }
    }
  }

  ghost predicate HoldsMembers(r: Rect, b: Block, input: seq<Rect>) {
    forall i :: i in Members(b) ==> i < |input| && IsInside(input[i], r)
  }

  lemma {:induction false} HullInBound(b: Block, input: seq<Rect>, r: Rect)
    requires AllPositive(input) && Fits(b, |input|) && HoldsMembers(r, b, input)
    ensures IsInside(BlockHull(b, input), r)
  {
    if b.Join? {
      assert forall i :: i in Members(b.small) ==> i in Members(b);
      assert forall i :: i in Members(b.large) ==> i in Members(b);
      HullInBound(b.small, input, r);
      HullInBound(b.large, input, r);
      EnlargeIsLeastBound(BlockHull(b.large, input), BlockHull(b.small, input));
    } else {
      assert b.index in Members(b);
    }
  }

  // It is the least rectangle that holds the block's members.
  lemma BlockHullIsLeast(b: Block, input: seq<Rect>)
    requires AllPositive(input) && Fits(b, |input|)
    ensures HoldsMembers(BlockHull(b, input), b, input)
    ensures forall r :: HoldsMembers(r, b, input) ==> IsInside(BlockHull(b, input), r)
  {
    forall i | i in Members(b) ensures i < |input| && IsInside(input[i], BlockHull(b, input)) {
      MemberInHull(b, input, i);
    }
    forall r | HoldsMembers(r, b, input) ensures IsInside(BlockHull(b, input), r) {
      HullInBound(b, input, r);
    }
  }

  lemma {:induction false} BlockOf(blocks: seq<Block>, i: nat) returns (k: nat)
    requires i in AllMembers(blocks)
    ensures k < |blocks| && i in Members(blocks[k])
  {
    if i in Members(blocks[0]) {
      k := 0;
    } else {
      k := BlockOf(blocks[1..], i);
      k := k + 1;
    }
  }

  ghost predicate AllInside(rects: seq<Rect>, r: Rect) {
    forall k :: 0 <= k < |rects| ==> IsInside(rects[k], r)
  }

  // No input area is lost, nothing leaves a rectangle that held all the input, and something is returned.
  lemma ConsolidateCovers(input: seq<Rect>)
    requires AllPositive(input)
    ensures var out := Consolidated(input);
            && (forall i, px, py :: 0 <= i < |input| && Contains(input[i], px, py)
                                    ==> exists k :: 0 <= k < |out| && Contains(out[k], px, py))
            && (forall r :: AllInside(input, r) ==> AllInside(out, r))
            && (input != [] ==> out != [])
  {
    var out := Consolidated(input);
    var forest := ConsolidateIsForest(input);
    forall i, px, py | 0 <= i < |input| && Contains(input[i], px, py)
      ensures exists k :: 0 <= k < |out| && Contains(out[k], px, py)
    {
      var k := BlockOf(forest, i);
      BlockHullIsLeast(forest[k], input);
      InsideMeansCovered(input[i], out[k]);
      assert Contains(out[k], px, py);
    }
    forall r | AllInside(input, r) ensures AllInside(out, r) {
      forall k | 0 <= k < |out| ensures IsInside(out[k], r) {
        BlockHullIsLeast(forest[k], input);
      }
    }
    if input != [] {
      var k := BlockOf(forest, 0);
    }
  }

  // ---- How much a rectangle can grow ----

  function Power(base: nat, e: nat): nat {
    if e == 0 then 1 else base * Power(base, e - 1)
  }

  // How often the absorbing rectangle was enlarged.
  ghost function Enlargements(b: Block, input: seq<Rect>): nat
    requires AllPositive(input) && Fits(b, |input|)
  {
    match b
    case Leaf(_) => 0
    case Join(s, l) =>
      Enlargements(l, input) + if OverlapPercentage(BlockHull(s, input), BlockHull(l, input)) == 100 then 0 else 1
  }

  lemma ChainGrowth(p: nat, q: nat, root: int, area: int, grown: int)
    requires p * area <= q * root && 86 * grown <= 100 * area
    ensures (86 * p) * grown <= (100 * q) * root
  {
    assert (86 * p) * grown == p * (86 * grown) <= p * (100 * area) == 100 * (p * area);
    assert (100 * q) * root == 100 * (q * root);
  }

  lemma {:induction false} RootFits(b: Block, n: nat)
    requires Fits(b, n)
    ensures Root(b) < n && Root(b) in Members(b)
  {
    if b.Join? {
      RootFits(b.large, n);
    }
  }

  // Each of the e enlargements multiplies the area by at most 100/86.
  lemma {:induction false} GrowthIsBounded(b: Block, input: seq<Rect>)
    requires AllPositive(input) && Fits(b, |input|) && Warranted(b, input)
    ensures Root(b) < |input|
    ensures var e := Enlargements(b, input);
            Power(86, e) * Area(BlockHull(b, input)) <= Power(100, e) * Area(input[Root(b)])
  {
    RootFits(b, |input|);
    if b.Join? {
      var s, l := BlockHull(b.small, input), BlockHull(b.large, input);
      GrowthIsBounded(b.large, input);
      if OverlapPercentage(s, l) == 100 {
        FullOverlapIffInside(s, l);
        EnlargeIsLeastBound(l, s);
      } else {
        MergeGrowth(l, s);
        var e := Enlargements(b.large, input);
        ChainGrowth(Power(86, e), Power(100, e), Area(input[Root(b)]), Area(l), Area(Enlarge(l, s)));
      }
    }
  }

  // ---- When nothing is consolidated ----

  ghost predicate OverlapAtMost85(rects: seq<Rect>, i: int, j: int)
    requires 0 <= i < |rects| && 0 <= j < |rects| && AllPositive(rects)
  {
    OverlapPercentage(rects[i], rects[j]) <= 85
  }

  ghost predicate NoHighOverlap(rects: seq<Rect>)
    requires AllPositive(rects)
  {
    forall i, j :: 0 <= i < j < |rects| ==> OverlapAtMost85(rects, i, j)
  }

  ghost predicate FirstClear(rest: seq<Rect>, large: nat)
    requires AllPositive(rest) && large < |rest|
  {
    forall j :: 1 <= j <= large ==> OverlapAtMost85(rest, 0, j)
  }

  lemma NoHighOverlapSplit(rest: seq<Rect>)
    requires AllPositive(rest) && rest != []
    ensures NoHighOverlap(rest) <==>
            NoHighOverlap(rest[1..]) && FirstClear(rest, |rest| - 1)
  {
    var tail := rest[1..];
    forall i, j | 0 <= i < j < |tail| ensures OverlapAtMost85(tail, i, j) <==> OverlapAtMost85(rest, i + 1, j + 1) {
    }
    if NoHighOverlap(tail) && FirstClear(rest, |rest| - 1) {
      forall i, j | 0 <= i < j < |rest| ensures OverlapAtMost85(rest, i, j) {
        if i > 0 {
          assert OverlapAtMost85(tail, i - 1, j - 1);
        }
      }
    }
    if NoHighOverlap(rest) {
      forall i, j | 0 <= i < j < |tail| ensures OverlapAtMost85(tail, i, j) {
        assert OverlapAtMost85(rest, i + 1, j + 1);
      }
    }
  }

  lemma {:induction false} SweepLength(rest: seq<Rect>)
    requires AllPositive(rest)
    ensures |Sweep(rest)| <= |rest|
    ensures |Sweep(rest)| == |rest| <==> NoHighOverlap(rest)
    ensures NoHighOverlap(rest) ==> Sweep(rest) == rest
    decreases |rest|, |rest|
  {
    if rest != [] {
      ScanLength(rest, |rest| - 1);
      NoHighOverlapSplit(rest);
    }
  }

  lemma {:induction false} ScanLength(rest: seq<Rect>, large: nat)
    requires AllPositive(rest) && large < |rest|
    ensures |Scan(rest, large)| <= |rest|
    ensures |Scan(rest, large)| == |rest| <==> NoHighOverlap(rest[1..]) && FirstClear(rest, large)
    ensures NoHighOverlap(rest[1..]) && FirstClear(rest, large) ==> Scan(rest, large) == rest
    decreases |rest|, large
  {
    if large == 0 {
      SweepLength(rest[1..]);
    } else {
      var overlap := OverlapPercentage(rest[0], rest[large]);
      if overlap > 85 {
        assert !OverlapAtMost85(rest, 0, large);
        if overlap == 100 {
          SweepLength(rest[1..]);
        } else {
          ScanLength(Merged(rest, large), large - 1);
        }
      } else {
        ScanLength(rest, large - 1);
        assert OverlapAtMost85(rest, 0, large);
      }
    }
  }

  // The list comes back unchanged, or even just as long, exactly when no pair overlaps above 85 percent.
  lemma UnchangedIffNoHighOverlap(input: seq<Rect>)
    requires AllPositive(input)
    ensures Consolidated(input) == input <==> NoHighOverlap(input)
    ensures |Consolidated(input)| == |input| <==> NoHighOverlap(input)
  {
    SweepLength(input);
  }
}

// Small shared vocabulary: options, flattening, ranges, subsequences.
module Common {

  datatype Option<+T> = None | Some(value: T)

  function Flatten<T>(parts: seq<seq<T>>): seq<T> {
    if parts == [] then [] else parts[0] + Flatten(parts[1..])
  }

  lemma {:induction false} FlattenAppend<T>(a: seq<seq<T>>, b: seq<seq<T>>)
    ensures Flatten(a + b) == Flatten(a) + Flatten(b)
  {
    if a == [] {
      assert a + b == b;
    } else {
      FlattenAppend(a[1..], b);
      assert (a + b)[1..] == a[1..] + b && (a + b)[0] == a[0];
      assert a[0] + (Flatten(a[1..]) + Flatten(b)) == a[0] + Flatten(a[1..]) + Flatten(b);
    }
  }

  // The numbers lo, lo + 1, ..., hi - 1.
  function Range(lo: nat, hi: nat): (r: seq<nat>)
    requires lo <= hi
    ensures |r| == hi - lo && forall k :: 0 <= k < |r| ==> r[k] == lo + k
  {
    seq(hi - lo, k requires 0 <= k => lo + k)
  }

  ghost predicate Increasing(s: seq<int>) {
    forall i, j :: 0 <= i < j < |s| ==> s[i] < s[j]
  }

  // a can be obtained from b by deleting elements: the positions chosen grow strictly.
  ghost predicate SubsequenceVia<T>(a: seq<T>, b: seq<T>, positions: seq<int>) {
    && |positions| == |a|
    && Increasing(positions)
    && forall i :: 0 <= i < |a| ==> 0 <= positions[i] < |b| && b[positions[i]] == a[i]
  }

  function Shifted(positions: seq<int>): (r: seq<int>)
    ensures |r| == |positions| && forall k :: 0 <= k < |r| ==> r[k] == positions[k] + 1
  {
    seq(|positions|, k requires 0 <= k < |positions| => positions[k] + 1)
  }

  lemma ShiftedMembers(positions: seq<int>, i: int)
    ensures i in Shifted(positions) <==> i - 1 in positions
  {
    if i - 1 in positions {
      var k :| 0 <= k < |positions| && positions[k] == i - 1;
      assert Shifted(positions)[k] == i;
    }
  }

  lemma SubsequenceSkip<T>(a: seq<T>, b: seq<T>, positions: seq<int>)
    requires b != [] && SubsequenceVia(a, b[1..], positions)
    ensures SubsequenceVia(a, b, Shifted(positions))
  {
  }

  lemma SubsequenceTake<T>(a: seq<T>, b: seq<T>, positions: seq<int>)
    requires b != [] && SubsequenceVia(a, b[1..], positions)
    ensures SubsequenceVia([b[0]] + a, b, [0] + Shifted(positions))
  {
    var p := [0] + Shifted(positions);
    forall i | 0 <= i < |p| ensures 0 <= p[i] < |b| && b[p[i]] == ([b[0]] + a)[i] {
      if i > 0 {
        assert p[i] == positions[i - 1] + 1;
      }
    }
  }
}

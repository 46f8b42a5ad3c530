/** Non-maximum suppression: greedy, in score order, by overlap. */
module Nms {
  import opened Common

  datatype Box = Box(x1: real, y1: real, x2: real, y2: real)

  const SMALLEST_UNION := 0.0000001

  function Area(b: Box): real {
    MaxReal(0.0, b.x2 - b.x1) * MaxReal(0.0, b.y2 - b.y1)
  }

  function Intersection(a: Box, b: Box): real {
    MaxReal(0.0, MinReal(a.x2, b.x2) - MaxReal(a.x1, b.x1)) * MaxReal(0.0, MinReal(a.y2, b.y2) - MaxReal(a.y1, b.y1))
  }

  function Iou(a: Box, b: Box): real {
    Intersection(a, b) / MaxReal(Area(a) + Area(b) - Intersection(a, b), SMALLEST_UNION)
  }

  // ----- overlap is a ratio -----

  lemma ProductBound(a: real, b: real, c: real, d: real)
    requires 0.0 <= a <= c && 0.0 <= b <= d
    ensures 0.0 <= a * b <= c * d
  {
    assert 0.0 <= (c - a) * b;
    assert 0.0 <= c * (d - b);
    assert c * d - a * b == (c - a) * b + c * (d - b);
  }

  lemma IntersectionBound(a: Box, b: Box)
    ensures 0.0 <= Intersection(a, b) <= Area(a) && Intersection(a, b) <= Area(b)
  {
    var w := MaxReal(0.0, MinReal(a.x2, b.x2) - MaxReal(a.x1, b.x1));
    var h := MaxReal(0.0, MinReal(a.y2, b.y2) - MaxReal(a.y1, b.y1));
    ProductBound(w, h, MaxReal(0.0, a.x2 - a.x1), MaxReal(0.0, a.y2 - a.y1));
    ProductBound(w, h, MaxReal(0.0, b.x2 - b.x1), MaxReal(0.0, b.y2 - b.y1));
  }

  lemma IntersectionSymmetric(a: Box, b: Box)
    ensures Intersection(a, b) == Intersection(b, a)
  {
  }

  lemma RatioBound(x: real, y: real)
    requires 0.0 <= x <= y && y > 0.0
    ensures 0.0 <= x / y <= 1.0
  {
  }

  /** Overlap lies in [0, 1] for all boxes, degenerate and inverted ones included, and is symmetric. */
  lemma IouIsRatio(a: Box, b: Box)
    ensures 0.0 <= Iou(a, b) <= 1.0 && Iou(a, b) == Iou(b, a)
  {
    IntersectionBound(a, b);
    var i := Intersection(a, b);
    IntersectionSymmetric(a, b);
    RatioBound(i, MaxReal(Area(a) + Area(b) - i, SMALLEST_UNION));
  }

  /** A box of ordinary size overlaps itself completely; an empty one not at all. */
  lemma IouOfSelf(a: Box)
    ensures Area(a) >= SMALLEST_UNION ==> Iou(a, a) == 1.0
    ensures Area(a) == 0.0 ==> Iou(a, a) == 0.0
  {
    assert Intersection(a, a) == Area(a);
  }

  // ----- the greedy specification -----

  /** A ranking of the boxes: every index once, scores not increasing. Equal scores may be ranked either way. */
  ghost predicate Ranking(order: seq<nat>, scores: seq<real>) {
    && |order| == |scores| && Distinct(order)
    && (forall i :: 0 <= i < |order| ==> order[i] < |scores|)
    && (forall i, j :: 0 <= i < j < |order| ==> scores[order[i]] >= scores[order[j]])
  }

  type Overlaps = (nat, nat) -> real

  /** The overlap of two boxes by index; indices of no box overlap nothing. */
  function OverlapsOf(boxes: seq<Box>): Overlaps {
    (j: nat, k: nat) => if j < |boxes| && k < |boxes| then Iou(boxes[j], boxes[k]) else 0.0
  }

  /** No box of `kept` overlaps box k by more than the threshold. */
  predicate Clear(kept: seq<nat>, o: Overlaps, k: nat, threshold: real) {
    forall j :: j in kept ==> o(j, k) <= threshold
  }

  /** In rank order, a box is kept if and only if no box kept before it overlaps it by more than the threshold. */
  function Greedy(order: seq<nat>, o: Overlaps, threshold: real): (kept: seq<nat>)
    ensures forall k :: k in kept ==> k in order
  {
    if order == [] then []
    else
      var before := Greedy(order[..|order| - 1], o, threshold);
      var k := order[|order| - 1];
      if Clear(before, o, k, threshold) then before + [k] else before
  }

  lemma OverlapIsRatio(boxes: seq<Box>, j: nat, k: nat)
    ensures 0.0 <= OverlapsOf(boxes)(j, k) <= 1.0
  {
    if j < |boxes| && k < |boxes| {
      IouIsRatio(boxes[j], boxes[k]);
    }
  }

  // ----- the loop -----

  /** The boxes of `rest` that overlap `current` by at most the threshold, in order. */
  function Survivors(rest: seq<nat>, o: Overlaps, current: nat, threshold: real): (r: seq<nat>)
    ensures |r| <= |rest| && forall k :: k in r ==> k in rest
  {
    if rest == [] then []
    else
      var before := Survivors(rest[..|rest| - 1], o, current, threshold);
      var k := rest[|rest| - 1];
      if o(current, k) <= threshold then before + [k] else before
  }

  lemma GreedySnoc(s: seq<nat>, k: nat, o: Overlaps, threshold: real)
    ensures var kept := Greedy(s, o, threshold);
            Greedy(s + [k], o, threshold) == if Clear(kept, o, k, threshold) then kept + [k] else kept
  {
    assert (s + [k])[..|s|] == s;
  }

  lemma SurvivorsSnoc(s: seq<nat>, k: nat, o: Overlaps, c: nat, threshold: real)
    ensures var before := Survivors(s, o, c, threshold);
            Survivors(s + [k], o, c, threshold) == if o(c, k) <= threshold then before + [k] else before
  {
    assert (s + [k])[..|s|] == s;
  }

  lemma ClearCons(c: nat, kept: seq<nat>, o: Overlaps, k: nat, threshold: real)
    ensures Clear([c] + kept, o, k, threshold) <==> o(c, k) <= threshold && Clear(kept, o, k, threshold)
  {
    assert forall j :: j in [c] + kept <==> j == c || j in kept;
  }

  lemma ConsSnoc(c: nat, s: seq<nat>, k: nat)
    ensures ([c] + s) + [k] == [c] + (s + [k])
  {
  }

  /** Taking the best box and dropping what overlaps it too much leaves the greedy problem for the rest. */
  lemma {:induction false} GreedyHead(c: nat, rest: seq<nat>, o: Overlaps, threshold: real)
    ensures Greedy([c] + rest, o, threshold) == [c] + Greedy(Survivors(rest, o, c, threshold), o, threshold)
  {
    if rest == [] {
      assert [c] + rest == [c] && [c][..0] == [];
    } else {
      var init, k := rest[..|rest| - 1], rest[|rest| - 1];
      var s := Survivors(init, o, c, threshold);
      assert rest == init + [k];
      GreedyHead(c, init, o, threshold);
      ConsSnoc(c, init, k);
      GreedySnoc([c] + init, k, o, threshold);
      SurvivorsSnoc(init, k, o, c, threshold);
      ClearCons(c, Greedy(s, o, threshold), o, k, threshold);
      GreedySnoc(s, k, o, threshold);
      ConsSnoc(c, Greedy(s, o, threshold), k);
    }
  }

  /** Keeps boxes greedily: take the best remaining, drop what overlaps it too much, repeat. */
  method Suppress(boxes: seq<Box>, ranking: seq<nat>, threshold: real) returns (keep: seq<nat>)
    requires |ranking| == |boxes| && forall k :: k in ranking ==> k < |boxes|
    ensures keep == Greedy(ranking, OverlapsOf(boxes), threshold)
  {
    keep := [];
    if |boxes| == 0 {
      return;
    }
    var o := OverlapsOf(boxes);
    var order := ranking;
    while |order| > 0
      invariant Greedy(ranking, o, threshold) == keep + Greedy(order, o, threshold)
      decreases |order|
    {
      var current := order[0];
      keep := keep + [current];
      assert order == [current] + order[1..];
      GreedyHead(current, order[1..], o, threshold);
      if |order| == 1 {
        break;
      }
      order := Survivors(order[1..], o, current, threshold);
    }
  }

  // ----- what the result means -----

  /** Kept boxes overlap pairwise by at most the threshold. */
  lemma {:induction false} KeptAreApart(order: seq<nat>, o: Overlaps, threshold: real, i: nat, j: nat)
    requires i < j < |Greedy(order, o, threshold)|
    ensures var kept := Greedy(order, o, threshold); o(kept[i], kept[j]) <= threshold
  {
    var init := order[..|order| - 1];
    var before := Greedy(init, o, threshold);
    if j < |before| {
      KeptAreApart(init, o, threshold, i, j);
    } else {
      assert before[i] in before;
    }
  }

  /** Two copies of one box are never both kept, unless the box is tiny or the threshold allows full overlap. */
  lemma DuplicatesDrop(order: seq<nat>, boxes: seq<Box>, threshold: real, i: nat, j: nat)
    requires i < j < |Greedy(order, OverlapsOf(boxes), threshold)|
    ensures var kept := Greedy(order, OverlapsOf(boxes), threshold);
            kept[i] < |boxes| && kept[j] < |boxes| && boxes[kept[i]] == boxes[kept[j]] ==>
              Area(boxes[kept[i]]) < SMALLEST_UNION || threshold >= 1.0
  {
    var kept := Greedy(order, OverlapsOf(boxes), threshold);
    KeptAreApart(order, OverlapsOf(boxes), threshold, i, j);
    if kept[i] < |boxes| {
      IouOfSelf(boxes[kept[i]]);
    }
  }

  /** The last-ranked box is judged against all kept boxes before it; the others as without it. */
  lemma KeptLast(init: seq<nat>, k: nat, o: Overlaps, threshold: real)
    requires k !in init
    ensures k in Greedy(init + [k], o, threshold) <==> Clear(Greedy(init, o, threshold), o, k, threshold)
    ensures forall x :: x in init ==> (x in Greedy(init + [k], o, threshold) <==> x in Greedy(init, o, threshold))
  {
    GreedySnoc(init, k, o, threshold);
  }

  /** The rule itself, without the recursion: the box ranked i is kept if and only if no better-ranked
      kept box overlaps it by more than the threshold. */
  lemma {:induction false} KeptIff(order: seq<nat>, o: Overlaps, threshold: real, i: nat)
    requires Distinct(order) && i < |order|
    ensures order[i] in Greedy(order, o, threshold) <==>
            forall j :: 0 <= j < i && order[j] in Greedy(order, o, threshold) ==>
              o(order[j], order[i]) <= threshold
  {
    var m := |order| - 1;
    var init := order[..m];
    assert order == init + [order[m]];
    KeptLast(init, order[m], o, threshold);
    if i < m {
      KeptIff(init, o, threshold, i);
      assert forall j :: 0 <= j <= i ==> order[j] == init[j] && order[j] in init;
    } else {
      assert forall j :: 0 <= j < m ==> order[j] == init[j] && order[j] in init;
      forall x | x in Greedy(init, o, threshold) ensures exists j :: 0 <= j < m && order[j] == x {
        assert x in init;
      }
    }
  }

  /** Every box that is dropped overlaps a kept box of at least its score by more than the threshold. */
  lemma DroppedAreDominated(order: seq<nat>, o: Overlaps, scores: seq<real>, threshold: real, i: nat)
    requires Ranking(order, scores) && i < |order|
    requires order[i] !in Greedy(order, o, threshold)
    ensures exists k :: k in Greedy(order, o, threshold) && k < |scores| && scores[k] >= scores[order[i]]
              && o(k, order[i]) > threshold
  {
    KeptIff(order, o, threshold, i);
    var j :| 0 <= j < i && order[j] in Greedy(order, o, threshold) && o(order[j], order[i]) > threshold;
    assert scores[order[j]] >= scores[order[i]];
  }

  lemma {:induction false} AllClear(kept: seq<nat>, o: Overlaps, threshold: real)
    requires forall i, j :: 0 <= i < j < |kept| ==> o(kept[i], kept[j]) <= threshold
    ensures Greedy(kept, o, threshold) == kept
  {
    if kept != [] {
      var m := |kept| - 1;
      var init := kept[..m];
      forall i, j | 0 <= i < j < m ensures o(init[i], init[j]) <= threshold {
        assert o(kept[i], kept[j]) <= threshold;
      }
      AllClear(init, o, threshold);
      assert kept == init + [kept[m]];
      GreedySnoc(init, kept[m], o, threshold);
      forall j | j in init ensures o(j, kept[m]) <= threshold {
        var i :| 0 <= i < m && init[i] == j;
        assert o(kept[i], kept[m]) <= threshold;
      }
    }
  }

  /** Running the suppression on its own result drops nothing. */
  lemma RerunKeepsAll(order: seq<nat>, o: Overlaps, threshold: real)
    ensures Greedy(Greedy(order, o, threshold), o, threshold) == Greedy(order, o, threshold)
  {
    var kept := Greedy(order, o, threshold);
    forall i, j | 0 <= i < j < |kept| ensures o(kept[i], kept[j]) <= threshold {
      KeptAreApart(order, o, threshold, i, j);
    }
    AllClear(kept, o, threshold);
  }

  /** The best box is always kept, and a threshold of one or more keeps everything. */
  lemma {:induction false} Extremes(order: seq<nat>, boxes: seq<Box>, threshold: real)
    requires order != []
    ensures Greedy(order, OverlapsOf(boxes), threshold) != []
    ensures Greedy(order, OverlapsOf(boxes), threshold)[0] == order[0]
    ensures threshold >= 1.0 ==> Greedy(order, OverlapsOf(boxes), threshold) == order
  {
    var m, o := |order| - 1, OverlapsOf(boxes);
    assert order == order[..m] + [order[m]];
    if m > 0 {
      Extremes(order[..m], boxes, threshold);
    } else {
      assert order[..m] == [];
    }
    if threshold >= 1.0 {
      forall j | j in Greedy(order[..m], o, threshold) ensures o(j, order[m]) <= threshold {
        OverlapIsRatio(boxes, j, order[m]);
      }
    }
  }
}

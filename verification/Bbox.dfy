/** Bounding boxes of changesets and uploads, in scaled integer degrees. */
module Bbox {
  import opened Common

  datatype Box = Box(minLat: int, minLon: int, maxLat: int, maxLon: int) {
    /** The box after growing it by `b`. */
    function Expand(b: Box): Box {
      Box(Min(minLat, b.minLat), Min(minLon, b.minLon), Max(maxLat, b.maxLat), Max(maxLon, b.maxLon))
    }

    /** Every bound of this box lies within `b`: the order whose join is `Expand`. */
    predicate Within(b: Box) {
      b.minLat <= minLat && b.minLon <= minLon && maxLat <= b.maxLat && maxLon <= b.maxLon
    }

    /** Sum of the two side lengths. */
    function LinearSize(): int { (maxLon - minLon) + (maxLat - minLat) }
  }

  /** The default box: its minima lie above and its maxima below every coordinate. */
  function Undefined(scale: int): Box {
    Box(200 * scale, 200 * scale, -200 * scale, -200 * scale)
  }

  function JoinAll(start: Box, boxes: seq<Box>): Box {
    if boxes == [] then start else JoinAll(start, boxes[..|boxes| - 1]).Expand(boxes[|boxes| - 1])
  }

  /** `JoinAll` is the least box that contains the start box and every listed box. */
  lemma {:induction false} JoinAllIsLeastUpperBound(start: Box, boxes: seq<Box>)
    ensures start.Within(JoinAll(start, boxes))
    ensures forall b :: b in boxes ==> b.Within(JoinAll(start, boxes))
    ensures forall u: Box :: start.Within(u) && (forall b :: b in boxes ==> b.Within(u)) ==>
      JoinAll(start, boxes).Within(u)
  {
    if boxes != [] {
      var front := boxes[..|boxes| - 1];
      JoinAllIsLeastUpperBound(start, front);
      forall u: Box | start.Within(u) && (forall b :: b in boxes ==> b.Within(u))
        ensures JoinAll(start, boxes).Within(u)
      {
        assert forall b :: b in front ==> b in boxes;
        assert boxes[|boxes| - 1] in boxes;
      }
      assert boxes == front + [boxes[|boxes| - 1]];
    }
  }

  /** The join is the start box exactly when no listed box reaches outside it. */
  lemma {:induction false} JoinAllUnchanged(start: Box, boxes: seq<Box>)
    ensures JoinAll(start, boxes) == start <==> forall b :: b in boxes ==> b.Within(start)
  {
    JoinAllIsLeastUpperBound(start, boxes);
    if forall b :: b in boxes ==> b.Within(start) {
      assert start.Within(start);
    }
  }

  /** Every bound of the join is the outermost among those of the start box and the listed boxes. */
  lemma {:induction false} JoinAllBounds(start: Box, boxes: seq<Box>)
    ensures var j := JoinAll(start, boxes); var all := [start] + boxes;
      && (forall b :: b in all ==>
            j.minLat <= b.minLat && j.minLon <= b.minLon && b.maxLat <= j.maxLat && b.maxLon <= j.maxLon)
      && (exists b :: b in all && b.minLat == j.minLat) && (exists b :: b in all && b.minLon == j.minLon)
      && (exists b :: b in all && b.maxLat == j.maxLat) && (exists b :: b in all && b.maxLon == j.maxLon)
    decreases |boxes|
  {
    var all := [start] + boxes;
    if boxes == [] {
      assert start in all;
    } else {
      var front, last := boxes[..|boxes| - 1], boxes[|boxes| - 1];
      JoinAllBounds(start, front);
      assert all == ([start] + front) + [last];
      assert last in all && forall b :: b in [start] + front ==> b in all;
    }
  }

  /** The default box adds nothing to a box of coordinates on earth. */
  lemma {:induction false} UndefinedIsNeutral(scale: nat, b: Box)
    requires -180 * scale <= b.minLat <= b.maxLat <= 180 * scale && -180 * scale <= b.minLon <= b.maxLon <= 180 * scale
    ensures Undefined(scale).Expand(b) == b && b.Expand(Undefined(scale)) == b
  {
  }
}

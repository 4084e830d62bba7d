/** Boxes on the canvas and the collision test between them.
    Coordinates grow rightwards (x) and downwards (y); a word is drawn with
    its top-left corner at its anchor, so its box spans
    [x, x + width] horizontally and [y, y + descent] vertically. */
module Geometry {

  /** A point (or an offset) on the canvas. */
  datatype Point = Point(x: real, y: real)

  /** The footprint of a rendered word: its advance width and the extent of
      its glyphs below the top-left anchor. */
  datatype Metric = Metric(width: real, descent: real)

  /** One accepted word as kept in the registry: its anchor and its footprint. */
  datatype Placement = Placement(x: real, y: real, metric: Metric) {
    function Right(): real { x + metric.width }
    function Bottom(): real { y + metric.descent }
  }

  /** Strict axis-aligned overlap: the open boxes intersect. */
  predicate Overlaps(a: Placement, b: Placement) {
    a.x < b.Right() && a.Right() > b.x && a.y < b.Bottom() && a.Bottom() > b.y
  }

  /** A candidate fits when it overlaps none of the placements already made. */
  predicate Fits(c: Placement, placed: seq<Placement>) {
    forall k :: 0 <= k < |placed| ==> !Overlaps(c, placed[k])
  }

  /** No two distinct entries of the registry overlap. */
  predicate Disjoint(placed: seq<Placement>) {
    forall p, q :: 0 <= p < |placed| && 0 <= q < |placed| && p != q ==> !Overlaps(placed[p], placed[q])
  }

  /** The test does not depend on which box is the candidate. */
  lemma OverlapsSymmetric(a: Placement, b: Placement)
    ensures Overlaps(a, b) <==> Overlaps(b, a)
  {
  }

  /** Boxes that only share an edge (or a corner) do not collide. */
  lemma TouchingBoxesDoNotOverlap(a: Placement, b: Placement)
    requires a.Right() == b.x || b.Right() == a.x || a.Bottom() == b.y || b.Bottom() == a.y
    ensures !Overlaps(a, b) && !Overlaps(b, a)
  {
  }

  /** A box collides with itself exactly when it has a positive area. */
  lemma SelfOverlap(a: Placement)
    ensures Overlaps(a, a) <==> a.metric.width > 0.0 && a.metric.descent > 0.0
  {
  }

  /** Appending a candidate that fits keeps the registry pairwise disjoint. */
  lemma DisjointAppend(placed: seq<Placement>, c: Placement)
    requires Fits(c, placed)
    ensures Disjoint(placed) ==> Disjoint(placed + [c])
  {
    var r := placed + [c];
    if !Disjoint(placed) {
      return;
    }
    forall p, q | 0 <= p < |r| && 0 <= q < |r| && p != q
      ensures !Overlaps(r[p], r[q])
    {
      if p == |placed| {
        assert !Overlaps(c, placed[q]);
      } else if q == |placed| {
        assert !Overlaps(c, placed[p]);
      } else {
        assert r[p] == placed[p] && r[q] == placed[q];
      }
    }
  }
}

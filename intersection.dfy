/**
 * Intersection results. The objects of the renderer return either nothing
 * (`null`) or a record of the ray parameter, the normal and the material;
 * Objects/Intersection.cs is the Hit/Miss struct that the XY plane uses.
 */
module Intersections {
  import opened Wrappers
  import opened Vectors

  datatype Hit<M> = Hit(t: real, normal: Vec3, mat: M)

  /**
   * One step of every nearest-hit scan in the source:
   * `if (cand != null && (best == null || cand.T < best.T)) best = cand`.
   */
  function Closer<M>(best: Option<Hit<M>>, cand: Option<Hit<M>>): (r: Option<Hit<M>>)
    ensures r.None? <==> best.None? && cand.None?
    ensures r == best || r == cand
    ensures r.Some? && best.Some? ==> r.value.t <= best.value.t
    ensures r.Some? && cand.Some? ==> r.value.t <= cand.value.t
    ensures best.Some? && cand.Some? && cand.value.t == best.value.t ==> r == best
  {
    if cand.Some? && (best.None? || cand.value.t < best.value.t) then cand else best
  }

  /** Position i holds a hit of least t, and every earlier hit is strictly farther. */
  ghost predicate IsNearestAt<M>(hits: seq<Option<Hit<M>>>, i: int)
  {
    && 0 <= i < |hits|
    && hits[i].Some?
    && (forall j :: 0 <= j < |hits| && hits[j].Some? ==> hits[i].value.t <= hits[j].value.t)
    && (forall j :: 0 <= j < i && hits[j].Some? ==> hits[j].value.t > hits[i].value.t)
  }

  /**
   * The scan of `Closer` over candidates in order, starting from no hit
   * (Scene.FirstInteresction, MeshObject.Intersect, Cylinder.Intersect).
   */
  function Nearest<M>(hits: seq<Option<Hit<M>>>): (r: Option<Hit<M>>)
    ensures r == None || r in hits
  {
    if |hits| == 0 then None else Closer(Nearest(hits[..|hits| - 1]), hits[|hits| - 1])
  }

  /**
   * The scan finds nothing exactly when no candidate hits; otherwise it returns
   * a hit of least t, the first such in order.
   */
  lemma {:induction false} NearestIsNearest<M>(hits: seq<Option<Hit<M>>>)
    ensures Nearest(hits).None? <==> forall i :: 0 <= i < |hits| ==> hits[i].None?
    ensures Nearest(hits).Some? ==> exists i :: IsNearestAt(hits, i) && hits[i] == Nearest(hits)
  {
    if |hits| > 0 {
      var prefix := hits[..|hits| - 1];
      var cand := hits[|hits| - 1];
      assert hits == prefix + [cand];
      NearestIsNearest(prefix);
      var best := Nearest(prefix);
      if best.Some? && (cand.None? || cand.value.t >= best.value.t) {
        var i :| IsNearestAt(prefix, i) && prefix[i] == best;
        KeepEarlier(prefix, cand, i);
      } else if cand.Some? {
        TakeLast(prefix, cand, best);
      }
    }
  }

  /** One more candidate scanned: the prefix's nearest against the candidate. */
  lemma NearestStep<M>(hits: seq<Option<Hit<M>>>, i: nat)
    requires i < |hits|
    ensures Nearest(hits[..i + 1]) == Closer(Nearest(hits[..i]), hits[i])
  {
    assert hits[..i + 1][..i] == hits[..i];
  }

  lemma KeepEarlier<M>(prefix: seq<Option<Hit<M>>>, cand: Option<Hit<M>>, i: int)
    requires IsNearestAt(prefix, i)
    requires cand.None? || cand.value.t >= prefix[i].value.t
    ensures IsNearestAt(prefix + [cand], i)
  {
    var hits := prefix + [cand];
    forall j | 0 <= j < |hits| && hits[j].Some?
      ensures hits[i].value.t <= hits[j].value.t
    {
      if j < |prefix| { assert hits[j] == prefix[j]; }
    }
  }

  lemma TakeLast<M>(prefix: seq<Option<Hit<M>>>, cand: Option<Hit<M>>, best: Option<Hit<M>>)
    requires cand.Some?
    requires best.None? ==> forall i :: 0 <= i < |prefix| ==> prefix[i].None?
    requires best.Some? ==> exists i :: IsNearestAt(prefix, i) && prefix[i] == best
    requires best.Some? ==> cand.value.t < best.value.t
    ensures IsNearestAt(prefix + [cand], |prefix|)
  {
    var hits := prefix + [cand];
    forall j | 0 <= j < |prefix| && hits[j].Some?
      ensures hits[j].value.t > cand.value.t
    {
      assert hits[j] == prefix[j];
      var i :| IsNearestAt(prefix, i) && prefix[i] == best;
    }
  }

  /** The hit record of the XY plane (Objects/Intersection.cs). */
  datatype XYIntersection = XYIntersection(isHit: bool, t: real, normal: Vec3)

  /** `Intersection.Hit(t, n)`. */
  function HitXY(t: real, n: Vec3): (r: XYIntersection)
    ensures r.isHit && r.t == t && r.normal == n
  {
    XYIntersection(true, t, n)
  }

  /** `Intersection.Miss()`: not a hit, t = 0 and a zero normal. */
  function MissXY(): (r: XYIntersection)
    ensures !r.isHit && r.t == 0.0 && r.normal == Zero
  {
    XYIntersection(false, 0.0, Zero)
  }
}

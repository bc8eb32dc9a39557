/** A plane whose material alternates in unit cells (Objects/CheckerBoard.cs). */
module CheckerBoards {
  import opened Wrappers
  import opened Global
  import opened RealMath
  import opened Vectors
  import opened Rays
  import opened Intersections
  import Planes

  /**
   * `normal` is the normalised constructor normal; `mv1` and `mv2` are the two
   * in-plane pattern directions and `matDir` the unprojected pattern direction,
   * whose length is the cell size.
   */
  datatype CheckerBoard<M> = CheckerBoard(
    center: Vec3, normal: Vec3, mv1: Vec3, mv2: Vec3, matDir: Vec3, mat1: M, mat2: M)

  /**
   * `new CheckerBoard(...)`. The pattern directions are built from the
   * constructor's own `normal` argument, before normalisation.
   */
  function MakeCheckerBoard<M>(center: Vec3, normal: Vec3, matDir: Vec3, mat1: M, mat2: M, m: MathF)
    : (b: CheckerBoard<M>)
    ensures Dot(Cross(matDir, normal), normal) == 0.0
    ensures b.center == center && b.matDir == matDir && b.mat1 == mat1 && b.mat2 == mat2
    ensures Dot(b.mv1, normal) == 0.0 && Dot(b.mv2, normal) == 0.0
    ensures Dot(b.mv2, b.mv1) == 0.0
  {
    var mv1 := Normalize(Cross(matDir, normal), m);
    var mv2 := Normalize(Cross(normal, mv1), m);
    CrossIsOrthogonal(matDir, normal);
    CrossIsOrthogonal(normal, mv1);
    ScalePreservesOrthogonality(Cross(matDir, normal), Div(1.0, Length(Cross(matDir, normal), m)), normal);
    DotCommutes(Cross(normal, mv1), normal);
    ScalePreservesOrthogonality(Cross(normal, mv1), Div(1.0, Length(Cross(normal, mv1), m)), normal);
    ScalePreservesOrthogonality(Cross(normal, mv1), Div(1.0, Length(Cross(normal, mv1), m)), mv1);
    CheckerBoard(center, Normalize(normal, m), mv1, mv2, matDir, mat1, mat2)
  }

  /** C#'s `%` on int: truncating division, so the remainder takes the sign of k. */
  function CsRem(k: int, n: int): (r: int)
    requires n != 0
    ensures k >= 0 ==> 0 <= r < (if n > 0 then n else -n)
    ensures k < 0 ==> -(if n > 0 then n else -n) < r <= 0
  {
    var an := if n > 0 then n else -n;
    if k >= 0 then k % an else -((-k) % an)
  }

  /** `Mod(k, n)`: the truncating remainder moved into [0, n) for n > 0. */
  function Mod(k: int, n: int): (r: int)
    requires n != 0
    ensures n > 0 ==> 0 <= r < n
  {
    var r := CsRem(k, n);
    if r < 0 then r + n else r
  }

  /** For a positive modulus, `Mod` is the Euclidean remainder. */
  lemma ModIsEuclidean(k: int, n: int)
    requires n > 0
    ensures 0 <= Mod(k, n) < n
    ensures Mod(k, n) == k % n
  {
    if k < 0 {
      var s := (-k) % n;
      var q := (-k) / n;
      assert -k == q * n + s;
      if s == 0 {
        RemainderIsUnique(k, -q, n, 0);
      } else {
        assert k == (-q - 1) * n + (n - s);
        RemainderIsUnique(k, -q - 1, n, n - s);
      }
    }
  }

  /** A decomposition k = q·n + r with 0 <= r < n fixes the Euclidean remainder. */
  lemma RemainderIsUnique(k: int, q: int, n: int, r: int)
    requires n > 0 && 0 <= r < n && k == q * n + r
    ensures k % n == r
  {
    var q' := k / n;
    var r' := k % n;
    assert k == q' * n + r';
    assert (q - q') * n == r' - r;
    if q > q' {
      MulAtLeast(q - q', n);
    } else if q < q' {
      MulAtLeast(q' - q, n);
    }
  }

  lemma MulAtLeast(a: int, n: int)
    requires a >= 1 && n > 0
    ensures a * n >= n
  {
    assert a * n == (a - 1) * n + n;
  }

  /** The cell (w1, w2) takes the first material. */
  predicate PicksFirst(w1: int, w2: int)
  {
    Mod(w1, 2) == Mod(w2, 2)
  }

  /** The first material is taken exactly on cells whose index sum is even. */
  lemma PicksFirstIffEvenSum(w1: int, w2: int)
    ensures PicksFirst(w1, w2) <==> (w1 + w2) % 2 == 0
  {
    ModIsEuclidean(w1, 2);
    ModIsEuclidean(w2, 2);
  }

  /** Stepping to a neighbouring cell in either direction switches material. */
  lemma NeighbourCellsAlternate(w1: int, w2: int)
    ensures PicksFirst(w1 + 1, w2) == !PicksFirst(w1, w2)
    ensures PicksFirst(w1 - 1, w2) == !PicksFirst(w1, w2)
    ensures PicksFirst(w1, w2 + 1) == !PicksFirst(w1, w2)
    ensures PicksFirst(w1, w2 - 1) == !PicksFirst(w1, w2)
  {
    PicksFirstIffEvenSum(w1, w2);
    PicksFirstIffEvenSum(w1 + 1, w2);
    PicksFirstIffEvenSum(w1 - 1, w2);
    PicksFirstIffEvenSum(w1, w2 + 1);
    PicksFirstIffEvenSum(w1, w2 - 1);
  }

  /** The cell index along one pattern direction: floor of the projection over the cell size. */
  function CellIndex(mp: Vec3, mv: Vec3, cell: real): (w: int)
    ensures cell > 0.0 ==> w as real <= Dot(mp, mv) / cell < w as real + 1.0
  {
    Div(Dot(mp, mv), cell).Floor
  }

  /** `CheckerBoard.Intersect`: the plane crossing with the material of its cell. */
  function CheckerIntersect<M>(b: CheckerBoard<M>, ray: Ray, m: MathF): (r: Option<Hit<M>>)
    ensures Abs(Dot(ray.dir, b.normal)) < EPS ==> r.None?
    ensures r.Some? ==> && r.value.t >= EPS && r.value.normal == b.normal
                        && Planes.OnPlane(b.center, b.normal, PointAt(ray, r.value.t))
    ensures r.None? && Abs(Dot(ray.dir, b.normal)) >= EPS ==>
              forall t :: Planes.OnPlane(b.center, b.normal, PointAt(ray, t)) ==> t < EPS
    ensures r.Some? ==>
              var mp := Sub(PointAt(ray, r.value.t), b.center);
              var cell := Length(b.matDir, m);
              r.value.mat == if PicksFirst(CellIndex(mp, b.mv1, cell), CellIndex(mp, b.mv2, cell))
                             then b.mat1 else b.mat2
  {
    match Planes.PlaneCrossing(b.center, b.normal, ray)
    case None => None
    case Some(t) =>
      var mp := Sub(PointAt(ray, t), b.center);
      var cell := Length(b.matDir, m);
      var w1 := CellIndex(mp, b.mv1, cell);
      var w2 := CellIndex(mp, b.mv2, cell);
      Some(Hit(t, b.normal, if PicksFirst(w1, w2) then b.mat1 else b.mat2))
  }
}

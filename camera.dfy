/** The camera: viewport geometry derived from the image size, the colour
    seen along a ray, and the row-major render loop that feeds the writer. */
module Cameras {
  import opened Numeric
  import opened Vector
  import opened Rays
  import opened Intervals
  import opened HitLists
  import opened Colors
  import opened Writers
  import Hits

  /** The random draws a render consumes, indexed by where they are drawn:
      `jitter(j, i, s)` gives the two `random_point` values of sample `s` of
      pixel `(i, j)`, and `bounce(j, i, s, d)` the `random_unit_vector` drawn
      by that sample's ray at remaining depth `d`. */
  datatype Draws = Draws(jitter: (nat, nat, nat) -> (real, real), bounce: (nat, nat, nat, nat) -> Vec3)

  /** The fields of a camera at one moment. */
  datatype CameraState = CameraState(
    imageWidth: u32, imageHeight: u32, samplesPerPixel: u32, maxDepth: u8,
    pixelSampleScale: Float, center: Vec3, pixel00Loc: Vec3, pixelDeltaU: Vec3, pixelDeltaV: Vec3)

  /** `(image_width / aspect_ratio).abs().trunc() as u32`, raised to 1 when it
      comes out as 0. A zero aspect ratio divides by zero: the infinity
      saturates to `u32::MAX`, and `0/0` is NaN, which casts to 0. */
  function HeightFor(width: u32, aspectRatio: real): (h: u32)
    ensures 1 <= h
    ensures aspectRatio != 0.0 ==>
      var q := width as real / aspectRatio;
      var m := if q < 0.0 then -q else q;
      (m < 1.0 ==> h == 1) && (1.0 <= m < U32_MAX as real ==> h == m.Floor)
        && (m >= U32_MAX as real ==> h == U32_MAX)
    ensures aspectRatio == 0.0 && width > 0 ==> h == U32_MAX
    ensures aspectRatio == 0.0 && width == 0 ==> h == 1
  {
    var raw := CastUnsigned(Trunc(Abs(Quotient(width as real, aspectRatio))), U32_MAX);
    if raw < 1 then 1 else raw
  }

  /** The state `initialize` leaves behind: a height of at least 1, the
      sample scale `1 / samples_per_pixel`, the eye at the origin, and the
      pixel grid `Viewport` lays over the viewport. */
  ghost predicate Initialized(st: CameraState) {
    1 <= st.imageHeight
    && st.pixelSampleScale == Quotient(1.0, st.samplesPerPixel as real)
    && st.center == Zero()
    && Grid(st.pixelDeltaU, st.pixelDeltaV, st.pixel00Loc) == Viewport(st.imageWidth as real, st.imageHeight as real)
  }

  /** `sample_square`: an offset in `[-0.5, 0.5)^2` in the viewport plane. */
  function SampleSquare(draw: (real, real)): (offset: Vec3)
    ensures offset.z == 0.0
    ensures 0.0 <= draw.0 < 1.0 && 0.0 <= draw.1 < 1.0 ==>
      -0.5 <= offset.x < 0.5 && -0.5 <= offset.y < 0.5
  {
    Vec3(draw.0 - 0.5, draw.1 - 0.5, 0.0)
  }

  /** `get_ray`: from the camera centre through the point of pixel `(i, j)`
      moved by `offset` pixel steps. */
  function GetRay(st: CameraState, i: nat, j: nat, offset: Vec3): (r: Ray)
    ensures r.origin == st.center
    ensures Add(r.origin, r.direction)
         == Add(Add(st.pixel00Loc, Scale(i as real + offset.x, st.pixelDeltaU)),
                Scale(j as real + offset.y, st.pixelDeltaV))
  {
    var pixelSample := Add(Add(st.pixel00Loc, Scale(i as real + offset.x, st.pixelDeltaU)),
                           Scale(j as real + offset.y, st.pixelDeltaV));
    Ray(st.center, Vector.Sub(pixelSample, st.center))
  }

  /** The sky seen by a ray that hits nothing: white below, blending to light
      blue as the ray points upwards. */
  function Sky(r: Ray, sqrt: real -> real): Color {
    var unitDirection := UnitVector(r.direction, sqrt);
    var a := 0.5 * (unitDirection.y + 1.0);
    Add(Scale(1.0 - a, WHITE), Scale(a, BLEND))
  }

  /** The interval a bounce is looked for in: from 0.001 on, unbounded. */
  const BOUNCE_RANGE: Interval := From(Finite(0.001), PosInf)

  /** `ray_color`: black once the depth is used up; on a hit, half the colour
      seen along the scattered ray with one less depth; otherwise the sky. */
  function RayColor(r: Ray, dept: nat, world: seq<Hittable>, scatter: nat -> Vec3, sqrt: real -> real): (c: Color)
    ensures dept == 0 ==> c == BLACK
    ensures dept > 0 && Scan(world, r, BOUNCE_RANGE, sqrt).None? ==> c == Sky(r, sqrt)
    decreases dept
  {
    if dept == 0 then BLACK
    else match Scan(world, r, BOUNCE_RANGE, sqrt)
      case Some(rec) => Scale(0.5, RayColor(Scattered(rec, scatter(dept)), dept - 1, world, scatter, sqrt))
      case None => Sky(r, sqrt)
  }

  /** The ray a hit scatters into: from the hit point along the normal moved
      by the bounce draw. */
  function Scattered(rec: Hits.HitRecord, bounce: Vec3): (next: Ray)
    ensures next.origin == rec.p
    ensures Vector.Sub(next.direction, rec.normal) == bounce
  {
    Ray(rec.p, Add(rec.normal, bounce))
  }

  /** On a hit, `ray_color` is half the colour seen along the scattered ray
      with one less depth. */
  lemma RayColorHit(r: Ray, dept: nat, world: seq<Hittable>, scatter: nat -> Vec3, sqrt: real -> real)
    requires dept > 0 && Scan(world, r, BOUNCE_RANGE, sqrt).Some?
    ensures var next := Scattered(Scan(world, r, BOUNCE_RANGE, sqrt).value, scatter(dept));
      RayColor(r, dept, world, scatter, sqrt) == Scale(0.5, RayColor(next, dept - 1, world, scatter, sqrt))
  {
  }

  /** The first `k` rays of the path from `r` at depth `dept` all hit
      something. */
  ghost predicate PathHits(r: Ray, dept: nat, k: nat, world: seq<Hittable>, scatter: nat -> Vec3, sqrt: real -> real)
    decreases k
  {
    k == 0
    || (0 < dept && Scan(world, r, BOUNCE_RANGE, sqrt).Some?
        && PathHits(Scattered(Scan(world, r, BOUNCE_RANGE, sqrt).value, scatter(dept)), dept - 1, k - 1, world, scatter, sqrt))
  }

  /** `0.5^k`. */
  function HalfPower(k: nat): (p: real)
    ensures 0.0 < p <= 1.0
    ensures 0 < k ==> p <= 0.5
  {
    if k == 0 then 1.0 else 0.5 * HalfPower(k - 1)
  }

  /** Every hit halves the colour: a path whose first `k` rays hit something
      is at most `0.5^k` bright in every channel. */
  lemma {:induction false} PathHitsDim(r: Ray, dept: nat, k: nat, world: seq<Hittable>, scatter: nat -> Vec3, sqrt: real -> real)
    requires IsSqrt(sqrt)
    requires PathHits(r, dept, k, world, scatter, sqrt)
    ensures var c := RayColor(r, dept, world, scatter, sqrt);
      c.x <= HalfPower(k) && c.y <= HalfPower(k) && c.z <= HalfPower(k)
    decreases k
  {
    if k == 0 {
      RayColorInUnitCube(r, dept, world, scatter, sqrt);
    } else {
      var next := Scattered(Scan(world, r, BOUNCE_RANGE, sqrt).value, scatter(dept));
      PathHitsDim(next, dept - 1, k - 1, world, scatter, sqrt);
      RayColorHit(r, dept, world, scatter, sqrt);
    }
  }

  /** A path that hits something at every depth down to 0 ends in the black of
      depth 0, and every bounce halves that: the colour is black. */
  lemma {:induction false} AllHitsBlack(r: Ray, dept: nat, world: seq<Hittable>, scatter: nat -> Vec3, sqrt: real -> real)
    requires PathHits(r, dept, dept, world, scatter, sqrt)
    ensures RayColor(r, dept, world, scatter, sqrt) == BLACK
    decreases dept
  {
    if dept > 0 {
      var next := Scattered(Scan(world, r, BOUNCE_RANGE, sqrt).value, scatter(dept));
      AllHitsBlack(next, dept - 1, world, scatter, sqrt);
      RayColorHit(r, dept, world, scatter, sqrt);
    }
  }

  predicate InUnitCube(c: Color) {
    0.0 <= c.x <= 1.0 && 0.0 <= c.y <= 1.0 && 0.0 <= c.z <= 1.0
  }

  /** The sky lies between white and the blend colour. */
  lemma SkyRange(r: Ray, sqrt: real -> real)
    requires IsSqrt(sqrt)
    ensures var c := Sky(r, sqrt);
      0.5 <= c.x <= 1.0 && 0.7 <= c.y <= 1.0 && c.z == 1.0
  {
    UnitVectorIsUnit(r.direction, sqrt);
    var a := 0.5 * (UnitVector(r.direction, sqrt).y + 1.0);
    assert 0.0 <= a <= 1.0;
  }

  /** Every colour `ray_color` returns lies in the unit cube, and one whose
      first ray hits something is at most half bright in every channel. */
  lemma {:induction false} RayColorInUnitCube(r: Ray, dept: nat, world: seq<Hittable>, scatter: nat -> Vec3, sqrt: real -> real)
    requires IsSqrt(sqrt)
    ensures InUnitCube(RayColor(r, dept, world, scatter, sqrt))
    ensures dept > 0 && Scan(world, r, BOUNCE_RANGE, sqrt).Some? ==>
      var c := RayColor(r, dept, world, scatter, sqrt);
      c.x <= 0.5 && c.y <= 0.5 && c.z <= 0.5
    decreases dept
  {
    if dept > 0 {
      var res := Scan(world, r, BOUNCE_RANGE, sqrt);
      if res.Some? {
        var next := Scattered(res.value, scatter(dept));
        var c := RayColor(next, dept - 1, world, scatter, sqrt);
        RayColorInUnitCube(next, dept - 1, world, scatter, sqrt);
        assert RayColor(r, dept, world, scatter, sqrt) == Scale(0.5, c);
        HalfInUnitCube(c);
      } else {
        SkyRange(r, sqrt);
      }
    }
  }

  lemma HalfInUnitCube(c: Color)
    requires InUnitCube(c)
    ensures var h := Scale(0.5, c);
      InUnitCube(h) && h.x <= 0.5 && h.y <= 0.5 && h.z <= 0.5
  {
  }

  /** An empty world shows the sky along every ray while depth remains. */
  lemma EmptyWorldShowsSky(r: Ray, dept: nat, scatter: nat -> Vec3, sqrt: real -> real)
    requires dept > 0
    ensures RayColor(r, dept, [], scatter, sqrt) == Sky(r, sqrt)
  {
  }

  /** The bounce directions drawn by sample `s` of pixel `(i, j)`, by
      remaining depth. */
  function Bounces(draws: Draws, j: nat, i: nat, s: nat): nat -> Vec3 {
    (d: nat) => draws.bounce(j, i, s, d)
  }

  /** The colour of sample `s` of pixel `(i, j)`. */
  function SampleColor(st: CameraState, world: seq<Hittable>, draws: Draws, i: nat, j: nat, s: nat, sqrt: real -> real): Color {
    var r := GetRay(st, i, j, SampleSquare(draws.jitter(j, i, s)));
    RayColor(r, st.maxDepth, world, Bounces(draws, j, i, s), sqrt)
  }

  /** The sum of the first `n` sample colours of pixel `(i, j)`. */
  function SampleSum(st: CameraState, world: seq<Hittable>, draws: Draws, i: nat, j: nat, n: nat, sqrt: real -> real): Color
    decreases n
  {
    if n == 0 then BLACK
    else Add(SampleSum(st, world, draws, i, j, n - 1, sqrt), SampleColor(st, world, draws, i, j, n - 1, sqrt))
  }

  /** `pixel_color * pixel_sample_scale`. With no samples the scale is
      `1/0 = inf`, and `0 * inf` is NaN in every channel, which quantises to
      0 like black; the model gives black there. */
  function Scaled(c: Color, scale: Float): (r: Color)
    ensures scale.Finite? ==> r == MulScalar(c, scale.val)
    ensures !scale.Finite? ==> Quantize(r) == Rgb(0, 0, 0)
  {
    if scale.Finite? then MulScalar(c, scale.val) else BLACK
  }

  /** The colour written for pixel `(i, j)`. */
  function PixelColor(st: CameraState, world: seq<Hittable>, draws: Draws, i: nat, j: nat, sqrt: real -> real): Color {
    Scaled(SampleSum(st, world, draws, i, j, st.samplesPerPixel, sqrt), st.pixelSampleScale)
  }

  /** Each sum of `n` unit-cube colours lies in `[0, n]` per channel. */
  lemma {:induction false} SampleSumBounds(st: CameraState, world: seq<Hittable>, draws: Draws, i: nat, j: nat, n: nat, sqrt: real -> real)
    requires IsSqrt(sqrt)
    ensures var c := SampleSum(st, world, draws, i, j, n, sqrt);
      0.0 <= c.x <= n as real && 0.0 <= c.y <= n as real && 0.0 <= c.z <= n as real
    decreases n
  {
    if n > 0 {
      SampleSumBounds(st, world, draws, i, j, n - 1, sqrt);
      var s := n - 1;
      RayColorInUnitCube(GetRay(st, i, j, SampleSquare(draws.jitter(j, i, s))), st.maxDepth, world,
                         Bounces(draws, j, i, s), sqrt);
    }
  }

  lemma AverageBound(x: real, n: real)
    requires 0.0 < n && 0.0 <= x <= n
    ensures 0.0 <= x * (1.0 / n) <= 1.0
  {
    assert x * (1.0 / n) == x / n;
    assert n * (1.0 / n) == 1.0;
  }

  /** A sum of `n` unit-cube colours scaled by `1/n` lies in the unit cube. */
  lemma AverageInUnitCube(c: Color, n: nat, scale: Float)
    requires scale == Quotient(1.0, n as real)
    requires 0.0 <= c.x <= n as real && 0.0 <= c.y <= n as real && 0.0 <= c.z <= n as real
    ensures InUnitCube(Scaled(c, scale))
  {
    if n > 0 {
      AverageBound(c.x, n as real);
      AverageBound(c.y, n as real);
      AverageBound(c.z, n as real);
    }
  }

  /** With `pixel_sample_scale = 1/samples_per_pixel`, every written pixel is
      the average of its samples and lies in the unit cube. */
  lemma PixelColorInUnitCube(st: CameraState, world: seq<Hittable>, draws: Draws, i: nat, j: nat, sqrt: real -> real)
    requires IsSqrt(sqrt)
    requires st.pixelSampleScale == Quotient(1.0, st.samplesPerPixel as real)
    ensures InUnitCube(PixelColor(st, world, draws, i, j, sqrt))
  {
    SampleSumBounds(st, world, draws, i, j, st.samplesPerPixel, sqrt);
    AverageInUnitCube(SampleSum(st, world, draws, i, j, st.samplesPerPixel, sqrt), st.samplesPerPixel, st.pixelSampleScale);
  }

  /** The colours of row `j`, left to right. */
  function Row(st: CameraState, world: seq<Hittable>, draws: Draws, j: nat, sqrt: real -> real): (row: seq<Color>)
    ensures |row| == st.imageWidth
    ensures forall i :: 0 <= i < |row| ==> row[i] == PixelColor(st, world, draws, i, j, sqrt)
  {
    seq(st.imageWidth, i requires 0 <= i < st.imageWidth => PixelColor(st, world, draws, i, j, sqrt))
  }

  /** The colours of the first `n` rows, top row first. */
  function Rows(st: CameraState, world: seq<Hittable>, draws: Draws, n: nat, sqrt: real -> real): (cs: seq<Color>)
    ensures |cs| == n * st.imageWidth
    decreases n
  {
    if n == 0 then []
    else Rows(st, world, draws, n - 1, sqrt) + Row(st, world, draws, n - 1, sqrt)
  }

  lemma RowsNext(st: CameraState, world: seq<Hittable>, draws: Draws, j: nat, sqrt: real -> real)
    ensures Rows(st, world, draws, j + 1, sqrt) == Rows(st, world, draws, j, sqrt) + Row(st, world, draws, j, sqrt)
  {
  }

  /** The whole picture in the order `render` writes it. */
  function Frame(st: CameraState, world: seq<Hittable>, draws: Draws, sqrt: real -> real): seq<Color> {
    Rows(st, world, draws, st.imageHeight, sqrt)
  }

  /** Row-major order: pixel `(i, j)` is colour number `j * width + i`. */
  lemma {:induction false} RowsRowMajor(st: CameraState, world: seq<Hittable>, draws: Draws, n: nat, sqrt: real -> real, i: nat, j: nat)
    requires i < st.imageWidth && j < n
    ensures j * st.imageWidth + i < |Rows(st, world, draws, n, sqrt)|
    ensures Rows(st, world, draws, n, sqrt)[j * st.imageWidth + i] == PixelColor(st, world, draws, i, j, sqrt)
    decreases n
  {
    var w := st.imageWidth;
    var prev := Rows(st, world, draws, n - 1, sqrt);
    assert |prev| == (n - 1) * w;
    if j < n - 1 {
      RowsRowMajor(st, world, draws, n - 1, sqrt, i, j);
    } else {
      assert j * w + i == |prev| + i;
    }
  }

  /** The pixel grid `initialize` lays over the viewport. */
  datatype Grid = Grid(pixelDeltaU: Vec3, pixelDeltaV: Vec3, pixel00Loc: Vec3)

  /** `viewport_u`: the top edge of the viewport, left to right. The
      viewport is 2 units high (`viewport_height`) and
      `2 * width / height` wide. */
  function ViewportU(w: real, h: real): Vec3
    requires 1.0 <= h
  {
    Vec3(2.0 * (w / h), 0.0, 0.0)
  }

  /** `viewport_v`: the left edge of the viewport, top to bottom. */
  function ViewportV(): Vec3 {
    Vec3(0.0, -2.0, 0.0)
  }

  /** `pixel_delta_u`, one pixel step rightwards. A zero width would divide
      by zero; the model leaves the step zero there. */
  function PixelDeltaU(w: real, h: real): Vec3
    requires 1.0 <= h
  {
    if w != 0.0 then DivScalar(ViewportU(w, h), w) else Zero()
  }

  /** `pixel_delta_v`, one pixel step downwards. */
  function PixelDeltaV(h: real): Vec3
    requires 1.0 <= h
  {
    DivScalar(ViewportV(), h)
  }

  /** `center - (0, 0, focal_length) - viewport_u / 2 - viewport_v / 2` for a
      camera at the origin with `focal_length` 1; halving is written as a
      product by 0.5. */
  function ViewportUpperLeft(w: real, h: real): Vec3
    requires 1.0 <= h
  {
    Vector.Sub(Vector.Sub(Vector.Sub(Zero(), Vec3(0.0, 0.0, 1.0)),
      MulScalar(ViewportU(w, h), 0.5)), MulScalar(ViewportV(), 0.5))
  }

  /** `pixel00_loc`: half a step in from the upper-left corner, both ways. */
  function FirstPixel(upperLeft: Vec3, du: Vec3, dv: Vec3): Vec3 {
    Add(upperLeft, Scale(0.5, Add(du, dv)))
  }

  /** The pixel grid `initialize` lays over the viewport of a `w` by `h`
      picture. */
  function Viewport(w: real, h: real): Grid
    requires 1.0 <= h
  {
    var du, dv := PixelDeltaU(w, h), PixelDeltaV(h);
    Grid(du, dv, FirstPixel(ViewportUpperLeft(w, h), du, dv))
  }

  /** Rows go down the picture: one step is `2 / height` downwards. */
  lemma PixelDeltaVClosed(h: real)
    requires 1.0 <= h
    ensures PixelDeltaV(h) == Vec3(0.0, -(2.0 / h), 0.0)
  {
    var k := 1.0 / h;
    assert 0.0 * k == 0.0 && -2.0 * k == -(2.0 / h);
  }

  /** Pixels are square: one step rightwards is also `2 / height`. */
  lemma PixelDeltaUClosed(w: real, h: real)
    requires 1.0 <= h && w != 0.0
    ensures PixelDeltaU(w, h) == Vec3(2.0 / h, 0.0, 0.0)
  {
    var k := 1.0 / w;
    assert 0.0 * k == 0.0;
    ViewportSteps(w, h);
  }

  /** The upper-left corner of the viewport lies on the plane `z = -1`, at
      the top edge `y = 1` and half the viewport's width to the left. */
  lemma UpperLeftClosed(w: real, h: real)
    requires 1.0 <= h
    ensures ViewportUpperLeft(w, h) == Vec3(-(w / h), 1.0, -1.0)
  {
  }

  /** Half a step along each of two opposite steps of length `d`. */
  lemma FirstPixelClosed(upperLeft: Vec3, du: Vec3, dv: Vec3, a: real, d: real)
    requires upperLeft == Vec3(-a, 1.0, -1.0) && du == Vec3(d, 0.0, 0.0) && dv == Vec3(0.0, -d, 0.0)
    ensures FirstPixel(upperLeft, du, dv) == Vec3(-a + 0.5 * d, 1.0 - 0.5 * d, -1.0)
  {
  }

  lemma FirstPixelCorner(w: real, h: real)
    requires 1.0 <= h
    ensures FirstPixel(Vec3(-(w / h), 1.0, -1.0), Vec3(2.0 / h, 0.0, 0.0), Vec3(0.0, -(2.0 / h), 0.0))
         == Vec3(-(w / h) + 1.0 / h, 1.0 - 1.0 / h, -1.0)
  {
    FirstPixelClosed(Vec3(-(w / h), 1.0, -1.0), Vec3(2.0 / h, 0.0, 0.0), Vec3(0.0, -(2.0 / h), 0.0), w / h, 2.0 / h);
    ViewportSteps(w, h);
  }

  /** The grid in closed form: square steps of `2 / height` rightwards and
      downwards, and the first pixel centre at
      `(-width/height + 1/height, 1 - 1/height, -1)`. */
  lemma ViewportClosedForm(w: real, h: real)
    requires 1.0 <= h && w != 0.0
    ensures Viewport(w, h) == Grid(Vec3(2.0 / h, 0.0, 0.0), Vec3(0.0, -(2.0 / h), 0.0),
                                   Vec3(-(w / h) + 1.0 / h, 1.0 - 1.0 / h, -1.0))
  {
    UpperLeftClosed(w, h);
    PixelDeltaVClosed(h);
    PixelDeltaUClosed(w, h);
    FirstPixelCorner(w, h);
  }

  /** The middle of the pixel grid, half-way between the first and the last
      pixel centre both ways, lies straight ahead of the camera at
      `(0, 0, -1)`. */
  lemma ViewportCentred(w: real, h: real)
    requires 1.0 <= h && w != 0.0
    ensures var g := Viewport(w, h);
      Add(Add(g.pixel00Loc, Scale((w - 1.0) / 2.0, g.pixelDeltaU)), Scale((h - 1.0) / 2.0, g.pixelDeltaV))
        == Vec3(0.0, 0.0, -1.0)
  {
    ViewportClosedForm(w, h);
    CentreSteps(w, h);
  }

  lemma CentreSteps(w: real, h: real)
    requires 1.0 <= h
    ensures Add(Add(Vec3(-(w / h) + 1.0 / h, 1.0 - 1.0 / h, -1.0), Scale((w - 1.0) / 2.0, Vec3(2.0 / h, 0.0, 0.0))),
                Scale((h - 1.0) / 2.0, Vec3(0.0, -(2.0 / h), 0.0)))
         == Vec3(0.0, 0.0, -1.0)
  {
    var a, b := w / h, 1.0 / h;
    assert (w - 1.0) / 2.0 * (2.0 / h) == a - b;
    assert (h - 1.0) / 2.0 * -(2.0 / h) == -1.0 + b;
  }

  /** A point of the viewport plane `z = -1` inside cell `(i, j)` of a `w` by
      `h` picture: the square of side `2 / h` whose upper-left corner is `i`
      steps right of and `j` steps below the viewport's corner `(-w/h, 1)`. */
  predicate InPixelCell(d: Vec3, w: real, h: real, i: nat, j: nat)
    requires 1.0 <= h
  {
    d.z == -1.0
    && -(w / h) + (i as real) * (2.0 / h) <= d.x < -(w / h) + (i as real + 1.0) * (2.0 / h)
    && 1.0 - (j as real + 1.0) * (2.0 / h) < d.y <= 1.0 - (j as real) * (2.0 / h)
  }

  /** Every jittered sample of pixel `(i, j)` passes through that pixel's
      cell of the viewport. `random_point` draws from `[0, 1)`; the grid
      requirements are the part of `Initialized` the ray depends on. */
  lemma SampleInPixelCell(st: CameraState, i: nat, j: nat, draw: (real, real))
    requires 1 <= st.imageHeight && st.center == Zero() && st.imageWidth != 0
    requires Grid(st.pixelDeltaU, st.pixelDeltaV, st.pixel00Loc) == Viewport(st.imageWidth as real, st.imageHeight as real)
    requires 0.0 <= draw.0 < 1.0 && 0.0 <= draw.1 < 1.0
    ensures InPixelCell(GetRay(st, i, j, SampleSquare(draw)).direction, st.imageWidth as real, st.imageHeight as real, i, j)
  {
    var offset := SampleSquare(draw);
    var w, h := st.imageWidth as real, st.imageHeight as real;
    GridFields(st.pixelDeltaU, st.pixelDeltaV, st.pixel00Loc, w, h);
    OffsetInCell(st, i, j, offset, w, h);
  }

  /** `get_ray` with an offset in `[-0.5, 0.5)^2` through a grid in closed
      form passes through cell `(i, j)`. */
  lemma OffsetInCell(st: CameraState, i: nat, j: nat, offset: Vec3, w: real, h: real)
    requires 1.0 <= h && st.center == Zero()
    requires -0.5 <= offset.x < 0.5 && -0.5 <= offset.y < 0.5
    requires st.pixelDeltaU == Vec3(2.0 / h, 0.0, 0.0) && st.pixelDeltaV == Vec3(0.0, -(2.0 / h), 0.0)
    requires st.pixel00Loc == Vec3(-(w / h) + 1.0 / h, 1.0 - 1.0 / h, -1.0)
    ensures InPixelCell(GetRay(st, i, j, offset).direction, w, h, i, j)
  {
    ViewportSteps(w, h);
    CellOfSample(st.pixel00Loc, st.pixelDeltaU, st.pixelDeltaV, offset, w / h, 2.0 / h, i as real, j as real);
  }

  /** The fields of a grid laid over a viewport with a non-zero width, in
      closed form. */
  lemma GridFields(du: Vec3, dv: Vec3, p00: Vec3, w: real, h: real)
    requires 1.0 <= h && w != 0.0 && Grid(du, dv, p00) == Viewport(w, h)
    ensures du == Vec3(2.0 / h, 0.0, 0.0) && dv == Vec3(0.0, -(2.0 / h), 0.0)
    ensures p00 == Vec3(-(w / h) + 1.0 / h, 1.0 - 1.0 / h, -1.0)
  {
    ViewportClosedForm(w, h);
  }

  /** The point `pixel00 + (i + ox) du + (j + oy) dv` of a grid with square
      steps lies in cell `(i, j)`. */
  lemma CellOfSample(p00: Vec3, du: Vec3, dv: Vec3, offset: Vec3, a: real, step: real, i: real, j: real)
    requires 0.0 < step && -0.5 <= offset.x < 0.5 && -0.5 <= offset.y < 0.5
    requires p00 == Vec3(-a + 0.5 * step, 1.0 - 0.5 * step, -1.0)
    requires du == Vec3(step, 0.0, 0.0) && dv == Vec3(0.0, -step, 0.0)
    ensures var x := Add(Add(p00, Scale(i + offset.x, du)), Scale(j + offset.y, dv));
      x.z == -1.0
      && -a + i * step <= x.x < -a + (i + 1.0) * step
      && 1.0 - (j + 1.0) * step < x.y <= 1.0 - j * step
  {
    CellOffset(i, offset.x, step);
    CellOffset(j, offset.y, step);
    var pu, pv := (i + offset.x) * step, (j + offset.y) * step;
    assert Scale(i + offset.x, du) == Vec3(pu, 0.0, 0.0);
    assert Scale(j + offset.y, dv) == Vec3(0.0, -pv, 0.0);
  }

  /** Half a step plus `k + o` steps, for `o` in `[-0.5, 0.5)`, lies in the
      `k`-th step. */
  lemma CellOffset(k: real, o: real, step: real)
    requires -0.5 <= o < 0.5 && 0.0 < step
    ensures k * step <= 0.5 * step + (k + o) * step < (k + 1.0) * step
  {
    assert 0.5 * step + (k + o) * step == k * step + (0.5 + o) * step;
    assert 0.0 <= (0.5 + o) * step < step;
  }

  class Camera {
    var aspectRatio: real
    var imageWidth: u32
    var samplesPerPixel: u32
    var maxDepth: u8
    var imageHeight: u32
    var pixelSampleScale: Float
    var center: Vec3
    var pixel00Loc: Vec3
    var pixelDeltaU: Vec3
    var pixelDeltaV: Vec3

    function State(): CameraState
      reads this
    {
      CameraState(imageWidth, imageHeight, samplesPerPixel, maxDepth, pixelSampleScale,
                  center, pixel00Loc, pixelDeltaU, pixelDeltaV)
    }

    /** `Camera::new`: square pictures 100 pixels wide, 10 samples per pixel,
        10 bounces; the derived fields zero until `initialize`. */
    constructor New()
      ensures aspectRatio == 1.0 && imageWidth == 100 && samplesPerPixel == 10 && maxDepth == 10
      ensures imageHeight == 0 && pixelSampleScale == Finite(0.0)
      ensures center == Zero() && pixel00Loc == Zero() && pixelDeltaU == Zero() && pixelDeltaV == Zero()
    {
      aspectRatio := 1.0;
      imageWidth := 100;
      samplesPerPixel := 10;
      maxDepth := 10;
      imageHeight := 0;
      pixelSampleScale := Finite(0.0);
      center := Zero();
      pixel00Loc := Zero();
      pixelDeltaU := Zero();
      pixelDeltaV := Zero();
    }

    /** `initialize`: the height from the width and aspect ratio, then the
        sample scale and the viewport geometry. The settings are kept. */
    method Initialize()
      modifies this
      ensures aspectRatio == old(aspectRatio) && imageWidth == old(imageWidth)
      ensures samplesPerPixel == old(samplesPerPixel) && maxDepth == old(maxDepth)
      ensures imageHeight == HeightFor(imageWidth, aspectRatio)
      ensures Initialized(State())
    {
      imageHeight := CastUnsigned(Trunc(Abs(Quotient(imageWidth as real, aspectRatio))), U32_MAX);
      imageHeight := if imageHeight < 1 then 1 else imageHeight;

      pixelSampleScale := Quotient(1.0, samplesPerPixel as real);

      center := Zero();

      var viewport := Viewport(imageWidth as real, imageHeight as real);
      pixelDeltaU := viewport.pixelDeltaU;
      pixelDeltaV := viewport.pixelDeltaV;
      pixel00Loc := viewport.pixel00Loc;
    }

    /** `render`: initialise, then write every pixel. The text is returned
        instead of being written to a file. */
    method Render(world: seq<Hittable>, draws: Draws, sqrt: real -> real) returns (writer: Writer)
      modifies this
      ensures fresh(writer)
      ensures aspectRatio == old(aspectRatio) && imageWidth == old(imageWidth)
      ensures samplesPerPixel == old(samplesPerPixel) && maxDepth == old(maxDepth)
      ensures imageHeight == HeightFor(imageWidth, aspectRatio) && Initialized(State())
      ensures writer.data == Output(imageWidth, imageHeight, Frame(State(), world, draws, sqrt))
    {
      Initialize();
      writer := WritePixels(world, draws, sqrt);
    }

    /** The loops of `render`: one line per pixel, rows top to bottom. The
        camera is left as it is. */
    method WritePixels(world: seq<Hittable>, draws: Draws, sqrt: real -> real) returns (writer: Writer)
      ensures fresh(writer)
      ensures |Frame(State(), world, draws, sqrt)| == imageHeight as nat * imageWidth as nat
      ensures writer.data == Output(imageWidth, imageHeight, Frame(State(), world, draws, sqrt))
    {
      writer := new Writer(imageWidth, imageHeight);
      assert Texts([]) == [];
      WriteRows(world, draws, sqrt, writer);
    }

    /** The row loop of `render`, on a writer that holds the header only. */
    method WriteRows(world: seq<Hittable>, draws: Draws, sqrt: real -> real, writer: Writer)
      requires writer.data == Output(imageWidth, imageHeight, [])
      modifies writer
      ensures writer.data == Output(imageWidth, imageHeight, Frame(State(), world, draws, sqrt))
    {
      ghost var st := State();
      var j := 0;
      while j < imageHeight
        invariant 0 <= j <= imageHeight
        invariant State() == st
        invariant writer.data == Output(imageWidth, imageHeight, Rows(st, world, draws, j, sqrt))
      {
        WriteRow(world, draws, sqrt, j, writer, Rows(st, world, draws, j, sqrt));
        RowsNext(st, world, draws, j, sqrt);
        j := j + 1;
      }
    }

    /** Row `j` of the picture, left to right, appended to the writer. */
    method WriteRow(world: seq<Hittable>, draws: Draws, sqrt: real -> real, j: nat, writer: Writer, ghost done: seq<Color>)
      requires writer.data == Output(imageWidth, imageHeight, done)
      modifies writer
      ensures writer.data == Output(imageWidth, imageHeight, done + Row(State(), world, draws, j, sqrt))
    {
      ghost var row := Row(State(), world, draws, j, sqrt);
      assert done + row[..0] == done;
      var i := 0;
      while i < imageWidth
        invariant 0 <= i <= imageWidth
        invariant writer.data == Output(imageWidth, imageHeight, done + row[..i])
      {
        var pixelColor := PixelSum(world, draws, sqrt, i, j);
        assert Scaled(pixelColor, pixelSampleScale) == row[i];
        OutputGrows(imageWidth, imageHeight, done + row[..i], row[i]);
        PrefixGrows(done, row, i);
        writer.Add(Scaled(pixelColor, pixelSampleScale));
        i := i + 1;
      }
      assert row[..i] == row;
    }

    /** The sample loop of one pixel: the sum of its sample colours. */
    method PixelSum(world: seq<Hittable>, draws: Draws, sqrt: real -> real, i: nat, j: nat) returns (pixelColor: Color)
      ensures pixelColor == SampleSum(State(), world, draws, i, j, samplesPerPixel, sqrt)
    {
      pixelColor := BLACK;
      var s := 0;
      while s < samplesPerPixel
        invariant 0 <= s <= samplesPerPixel
        invariant pixelColor == SampleSum(State(), world, draws, i, j, s, sqrt)
      {
        var r := GetRay(State(), i, j, SampleSquare(draws.jitter(j, i, s)));
        pixelColor := Add(pixelColor, RayColor(r, maxDepth, world, Bounces(draws, j, i, s), sqrt));
        s := s + 1;
      }
    }
  }

  lemma PrefixGrows(done: seq<Color>, row: seq<Color>, i: nat)
    requires i < |row|
    ensures done + row[..i + 1] == done + row[..i] + [row[i]]
  {
    assert row[..i + 1] == row[..i] + [row[i]];
  }

  /** The arithmetic behind the closed forms. */
  lemma ViewportSteps(w: real, h: real)
    requires 1.0 <= h
    ensures w != 0.0 ==> (2.0 * (w / h)) * (1.0 / w) == 2.0 / h
    ensures 0.5 * (2.0 / h) == 1.0 / h
  {
  }
}

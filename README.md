# A model of a small Rust path tracer

This project models the core of a small ray tracer written in Rust. The tracer:

- builds a camera from an image width and an aspect ratio;
- fires `samples_per_pixel` jittered rays through every pixel;
- follows each ray through a list of spheres, up to `max_depth` diffuse bounces;
- averages the sample colours;
- writes the picture as plain-text PPM (`P3`).

The model keeps the tracer's own entities. Each source file's types and functions go to one module, except `hit.rs`, which is split into `Hits` (the record) and `HitLists` (the object list). Two further modules have no source file of their own: `Numeric` holds the `f64` semantics and `Text` the decimal text of integers.

- **`Vector.Vec3`**: the three-component vector with its operators (`vec3.rs`).
- **`Rays.Ray`**: a ray (`ray.rs`).
- **`Intervals.Interval`**: the interval with its `contains`/`surrounds`/`clamp` tests (`interval.rs`).
- **`Hits.Hit`**: the hit record. `set_face_normal` updates it in place, so it is a class.
- **`Spheres.Hit`**: the sphere test.
- **`HitLists.HitList`**: the object list. Its `hit` loop narrows the interval after every success.
- **`Colors.Channel` and `Colors.ColorText`**: colour quantisation and its text.
- **`Writers.Writer`**: the PPM writer, a growing text buffer.
- **`Cameras.Camera`**: initialisation, `ray_color` and the render loops.

Most `f64` values are modelled as exact `real`s: vector components, the ray parameter `t`, the radius and the aspect ratio. Where the source can produce or compare an infinity or NaN, the model uses `Numeric.Float`, which is `Finite(real) | PosInf | NegInf | NaN`. These places are the interval bounds, the two sphere roots, the sample scale `1 / samples_per_pixel` and the steps of the height computation. The comparisons on `Float` follow IEEE-754, and NaN compares false. Rust's saturating float-to-integer cast is modelled as well. Three things are parameters rather than definitions:

- **`sqrt`**: any function satisfying `Numeric.IsSqrt`.
- **The random draws**: a `Cameras.Draws` value indexed by pixel, sample and depth.
- **The output file**: `Render` returns the writer rather than writing it to disk.

`dot` in `vec3.rs` adds the two z components where it should multiply them (see "## Findings"). `Vector.Dot` models the function as written. The rest of the model uses the corrected `Vector.InnerProduct`: the sphere test's half-`b` coefficient and the front-face test in `set_face_normal`.

## Model

| member | source | states |
|---|---|---|
| Numeric.Lt | src/interval.rs:39-45 | IEEE `<` on `f64`: the real order on finite values, `-inf` below and `+inf` above every other value, and false whenever NaN is involved; its properties are in LtIsStrict, LeTransitive and LtTotal |
| Numeric.Le | src/interval.rs:39-45 | IEEE `<=`: `<` or equal, and false whenever NaN is involved |
| Numeric.Sub | src/interval.rs:35-37 | IEEE subtraction: the real difference on finite values; an infinity minus a finite value keeps its sign; `inf - inf` of one sign and anything with NaN give NaN; Intervals.Size states its results |
| Numeric.LtIsStrict | src/interval.rs:39-45 | IEEE `<` is irreflexive and asymmetric and implies `<=` |
| Numeric.LeTransitive | src/interval.rs:39-45 | `<=` and `<` chain transitively, including through the infinities |
| Numeric.LtTotal | src/interval.rs:39-45 | away from NaN, every pair is ordered one way or the other |
| Numeric.Quotient | src/camera.rs:76 | division by a non-zero value is the real quotient; division by zero never gives a finite value |
| Numeric.Abs | src/camera.rs:67-69 | `abs` of a value other than NaN is `>= 0` |
| Numeric.TruncTowardZero | src/camera.rs:67-69 | truncation lies within 1 of its argument, on the side of zero |
| Numeric.Trunc | src/camera.rs:67-69 | `f64::trunc`: a finite value truncated toward zero; infinities and NaN unchanged; HeightFor states its effect in the height |
| Numeric.CastUnsigned | src/camera.rs:67-69 | the `as` cast never exceeds the maximum; NaN, `-inf` and negative values give 0; `+inf` and overlarge values saturate; in range it truncates |
| Text.Decimal | src/writer.rs:33-41 | `{}` of an unsigned integer is non-empty, all digits, has no leading zero and contains no space or line break |
| Text.ParseDecimal | src/writer.rs:33-41 | reading succeeds exactly on non-empty all-digit text |
| Text.DecimalRoundTrip | src/writer.rs:33-41 | reading the decimal text of `n` gives back `n` |
| Text.SplitWithoutSeparator | src/writer.rs:33-41 | text without the separator splits into itself alone |
| Text.SplitAfterPiece | src/writer.rs:33-41 | a separator after a separator-free piece ends exactly that piece |
| Intervals.New | src/interval.rs:17-22 | the default interval runs from `+inf` to `-inf`; it contains and surrounds no value |
| Intervals.From | src/interval.rs:25-33 | bounds are stored as given; inverted bounds hold nothing |
| Intervals.Size | src/interval.rs:35-37 | the size is `max - min`; negative when inverted, `-inf` for the empty interval, `+inf` for the universe |
| Intervals.Clamp | src/interval.rs:47-55 | a value in range is unchanged; one below goes to `min` and one above to `max`; on a non-empty interval the result lies in it |
| Intervals.Contains | src/interval.rs:39-41 | `min <= x <= max` under IEEE comparison; SurroundsImpliesContains and BoundsContainedNotSurrounded relate it to Surrounds |
| Intervals.Surrounds | src/interval.rs:43-45 | `min < x < max` under IEEE comparison, so NaN is never surrounded; the sphere and list tests accept a root only when it holds |
| Intervals.UniverseHoldsEveryFinite | src/interval.rs:11-14 | `UNIVERSE` contains and surrounds every finite value, and contains but does not surround `+inf` |
| Intervals.SurroundsImpliesContains | src/interval.rs:39-45 | the strict test implies the inclusive one |
| Intervals.BoundsContainedNotSurrounded | src/interval.rs:39-45 | the bounds of a non-empty interval are contained but not surrounded |
| Intervals.ClampIdempotent | src/interval.rs:47-55 | clamping twice equals clamping once |
| Intervals.ClampMonotone | src/interval.rs:47-55 | clamping preserves `<=` |
| Vector.ZeroAndAccessors | src/vec3.rs:16-35 | `Vec3::new` is all zeros; `x`, `y` and `z` are components 0, 1 and 2 |
| Vector.LengthSquared | src/vec3.rs:43-45 | the squared length is non-negative and bounds each squared component |
| Vector.Length | src/vec3.rs:37-40 | the square root of the squared length, with `sqrt` a parameter; UnitVectorIsUnit uses it |
| Vector.Dot | src/vec3.rs:48-50 | `dot` as written: `x*x' + y*y' + z + z'`; DotVersusInnerProduct and DotSelfCounterexample show how it departs from the inner product |
| Vector.InnerProduct | src/vec3.rs:48-50 | the inner product `x*x' + y*y' + z*z'` that `dot` is meant to be; InnerProductSelf and InnerProductSymmetric state its properties |
| Vector.DotVersusInnerProduct | src/vec3.rs:48-50 | `dot` as written differs from the inner product by `a.z + b.z - a.z*b.z`; they agree exactly when that term is 0 |
| Vector.DotSelfCounterexample | src/vec3.rs:48-50 | `dot` of `(0,0,1)` with itself is 2, while its squared length is 1 |
| Vector.InnerProductSelf | src/vec3.rs:48-50 | the corrected product of a vector with itself is its squared length |
| Vector.InnerProductSymmetric | src/vec3.rs:48-50 | the corrected product is symmetric |
| Vector.Cross | src/vec3.rs:53-61 | the cross product by its component formula; CrossAntiSymmetric and CrossOrthogonal state its properties |
| Vector.CrossAntiSymmetric | src/vec3.rs:53-61 | `a × b = -(b × a)` and `a × a = 0` |
| Vector.CrossOrthogonal | src/vec3.rs:53-61 | the cross product is orthogonal to both operands |
| Vector.Neg | src/vec3.rs:88-97 | every component negated; NegInvolution and NegKeepsLength state its properties |
| Vector.NegInvolution | src/vec3.rs:88-97 | negating twice is the identity; only the zero vector is its own negation |
| Vector.NegKeepsLength | src/vec3.rs:88-97 | negation keeps the squared length |
| Vector.AddScalar | src/vec3.rs:98-114 | `v + s` adds the scalar to every component; ScalarOperatorsBroadcast ties it to `Add` |
| Vector.SubScalar | src/vec3.rs:116-132 | `v - s` subtracts the scalar from every component; ScalarOperatorsBroadcast ties it to `Sub` |
| Vector.MulScalar | src/vec3.rs:134-150 | `v * s` multiplies every component by the scalar; ScalarOperatorsBroadcast ties it to `Mul` |
| Vector.Scale | src/vec3.rs:134-150 | `s * v`, the scalar on the left, is `v * s` |
| Vector.ScalarOperatorsBroadcast | src/vec3.rs:98-150 | `v + s`, `v - s` and `v * s` equal the vector operators applied to `(s, s, s)` |
| Vector.DivScalar | src/vec3.rs:152-159 | `v / s` is `v * (1 / s)` for a non-zero `s`; DivScalarInverse shows that multiplying by `s` undoes it |
| Vector.DivScalarInverse | src/vec3.rs:152-159 | multiplying `v / s` by `s` gives back `v` |
| Vector.Add | src/vec3.rs:161-170 | component-wise sum; AddSubInverse states its identities |
| Vector.Sub | src/vec3.rs:172-181 | component-wise difference; AddSubInverse shows it undoes `Add` |
| Vector.Mul | src/vec3.rs:183-192 | component-wise product; AddSubInverse shows it commutes |
| Vector.AddSubInverse | src/vec3.rs:161-192 | `-` undoes `+`; `a - b = a + (-b)`; `+` and component-wise `*` commute |
| Vector.UnitVector | src/vec3.rs:64-66 | `v / |v|` for a vector of non-zero length, and the zero vector otherwise; UnitVectorIsUnit shows the result has length 1 |
| Vector.UnitVectorIsUnit | src/vec3.rs:64-66 | a vector of non-zero length is scaled to length 1, and every component of the result lies in `[-1, 1]` |
| Vector.NormalisedIsUnit | src/vec3.rs:64-66 | dividing by a positive square root of the squared length gives squared length 1 |
| Rays.New | src/ray.rs:9-19 | the accessors return the origin and direction the ray was built with |
| Rays.At | src/ray.rs:21-23 | `at(t) - origin` is `t` times the direction |
| Rays.AtZero | src/ray.rs:21-23 | `at(0)` is the origin and `at(1)` is origin plus direction |
| Rays.AtAffine | src/ray.rs:21-23 | points advance linearly in `t` |
| Hits.IsFrontFace | src/hit.rs:28 | the ray meets the surface from outside: its direction and the outward normal have a negative inner product (the corrected `dot`) |
| Hits.WithFaceNormal | src/hit.rs:27-34 | `p` and `t` are kept; the face is a front face iff the direction meets the outward normal at a negative product; the normal is that normal or its negation, with the same length |
| Hits.FrontFaceKeepsOutwardNormal | src/hit.rs:27-34 | for a non-zero outward normal, the stored normal is the outward one iff the face is a front face |
| Hits.WithFaceNormalIdempotent | src/hit.rs:27-34 | orienting twice against the same ray changes nothing more |
| Hits.Hit.constructor | src/hit.rs:18-25 | a new record is all zeros and not a front face |
| Hits.Hit.SetFaceNormal | src/hit.rs:27-34 | the record changes exactly as `WithFaceNormal` says; `p` and `t` are untouched |
| Hits.Hit.Assign | src/hit.rs:87 | the record becomes a copy of the other one |
| Hits.DefaultHit | src/hit.rs:37-41 | the default `hit` reports no hit |
| Spheres.New | src/sphere.rs:16-22 | the centre is kept; a negative radius becomes 0 and any other is kept |
| Spheres.Coefficients | src/sphere.rs:27-31 | `a = |d|^2`, `h = d . (center - origin)` with the inner product, `c = |center - origin|^2 - radius^2`; AsWrittenDiffersOnlyInH compares it with the as-written form |
| Spheres.CoefficientsAsWritten | src/sphere.rs:27-31 | the same coefficients with `h` through `dot` as written; CentreCoefficients and CentreRayMissesAsWritten show the effect |
| Spheres.Discriminant | src/sphere.rs:33 | `h^2 - a*c`; a negative value means no hit, as QueryTakesNearestRoot states |
| Spheres.NearRoot | src/sphere.rs:41 | `(h - sqrtd) / a` under IEEE division; NearNotBeyondFar shows it never lies beyond the far root |
| Spheres.FarRoot | src/sphere.rs:43 | `(h + sqrtd) / a`, tried when the near root is not surrounded; QueryTakesNearestRoot states the choice |
| Spheres.OutwardNormal | src/sphere.rs:49-53 | `(p - center) / radius`, or `p - center` for radius 0 (see Left out); Fill orients it against the ray |
| Spheres.Fill | src/sphere.rs:49-54 | the record holds the root, the point `at(root)`, and the outward normal oriented against the ray |
| Spheres.Query | src/sphere.rs:26-57 | a reported hit lies strictly inside the interval and is the record `Fill` writes for its `t`: the point `at(t)` and the outward normal oriented against the ray; a negative discriminant reports none |
| Spheres.Hit | src/sphere.rs:26-57 | returns true iff `Query` reports a hit; writes that record, and leaves `rec` untouched otherwise |
| Spheres.NearNotBeyondFar | src/sphere.rs:39-47 | the near root is finite iff the far one is, and never lies beyond it |
| Spheres.QueryTakesNearestRoot | src/sphere.rs:33-47 | no hit iff the discriminant is negative or neither root is surrounded; otherwise the reported `t` is one of the two roots and no larger than either root the interval surrounds |
| Spheres.QueryNarrowing | src/sphere.rs:39-47 | lowering the upper bound keeps a hit below the new bound and drops every other |
| Spheres.AsWrittenDiffersOnlyInH | src/sphere.rs:27-31 | the as-written and corrected coefficients share `a` and `c`; their `h` values agree iff `dot` agrees with the inner product |
| Spheres.CentreCoefficients | src/sphere.rs:27-31 | for the centre ray, `h` is -3 as written and 2 when corrected |
| Spheres.CentreRayMissesAsWritten | src/sphere.rs:27-47 | with `dot` as written, a ray aimed at a sphere's centre from outside it has both roots negative, so it misses |
| Spheres.CentreRayHits | src/sphere.rs:26-57 | with the corrected product, that ray hits the sphere's front at `t = 1` with the normal facing back along the ray |
| HitLists.ObjectQuery | src/hit.rs:37-43 | an object's report lies strictly inside the interval and is the record its sphere fills in; a bare record never reports |
| HitLists.ObjectHit | src/hit.rs:37-43 | dispatch returns true iff the object reports, and writes exactly that record |
| HitLists.Scan | src/hit.rs:78-92 | the loop's record lies strictly inside `ray_t`; it holds none iff no object reports a hit on `ray_t` |
| HitLists.ScanFills | src/hit.rs:78-92 | the loop's record is the one some sphere of the list fills in for that `t`, with the normal oriented against the ray |
| HitLists.ScanStep | src/hit.rs:83-89 | each object is asked with `[min, closest_so_far]`, and a success replaces the record |
| HitLists.Nearest | src/hit.rs:78-92 | the reference selection holds none iff no object reports |
| HitLists.NearestIsFirstMinimum | src/hit.rs:78-92 | the reference selection is the first report with the smallest `t` |
| HitLists.ObjectNarrowing | src/hit.rs:83-89 | asking with a lower upper bound keeps a report below it and drops every other |
| HitLists.ScanIsNearest | src/hit.rs:78-92 | the narrowing loop selects the nearest report over the whole interval, and the earliest object wins a tie |
| HitLists.HitList.New | src/hit.rs:52-57 | a new list is empty |
| HitLists.HitList.From | src/hit.rs:60-65 | `from` holds exactly the one object |
| HitLists.HitList.Clear | src/hit.rs:68-70 | `clear` empties the list |
| HitLists.HitList.Add | src/hit.rs:72-74 | `add` appends at the end and keeps the earlier objects in order |
| HitLists.HitList.Hit | src/hit.rs:78-92 | returns true iff some object reports a hit; `rec` then holds the scan's (nearest) record and is untouched otherwise |
| Colors.Channel | src/color.rs:14-16 | `(c * 255.999) as u8` is 0 at or below 0 and 255 at or above 1; in between it is the truncation |
| Colors.ChannelEndpoints | src/color.rs:14-16 | 0.0, 0.5 and 1.0 quantise to 0, 127 and 255 |
| Colors.ChannelMonotone | src/color.rs:14-16 | a brighter channel never gives a smaller byte |
| Colors.Quantize | src/color.rs:10-16 | the three channels quantised by `Channel`, in the order red, green, blue; ColorTextRoundTrip reads them back |
| Colors.ColorText | src/color.rs:7-20 | a colour's text is its three quantised bytes as decimals separated by single spaces, with no line break |
| Colors.RgbText | src/color.rs:18 | three bytes are written as decimals separated by single spaces |
| Colors.SplitThree | src/color.rs:18 | three space-free pieces joined by spaces split back into those pieces |
| Colors.ParseChannel | src/color.rs:14-18 | a byte read back is the decimal value of its text |
| Colors.ParseRgb | src/color.rs:18 | a pixel line reads back only when it has three fields |
| Colors.ColorTextRoundTrip | src/color.rs:7-20 | a colour's text reads back as its quantised bytes |
| Writers.HeaderLines | src/writer.rs:33-41 | the header lines contain no line breaks |
| Writers.HeaderTextLines | src/writer.rs:33-41 | the header is `P3`, `<width> <height>` and `255`, one per line |
| Writers.MaxColorText | src/writer.rs:11 | `MAX_COLOR` is written as `255` |
| Writers.HeaderText | src/writer.rs:33-41 | `P3`, `<width> <height>` and `255`, each followed by a line break; HeaderTextLines splits it back into those lines |
| Writers.Texts | src/writer.rs:23-25 | one line text per colour, in order, with no line breaks |
| Writers.OutputGrows | src/writer.rs:23-25 | adding one colour appends exactly its line and keeps the earlier text |
| Writers.Output | src/writer.rs:15-25 | the header followed by one line per added colour, in order; DecodeOutput reads it back |
| Writers.ParsePixels | src/writer.rs:23-25 | pixel lines that read back give one triple per line |
| Writers.Decode | src/writer.rs:33-41 | a decoded text starts with the `P3` line |
| Writers.ParseTexts | src/writer.rs:23-25 | the colour lines read back as the quantised colours |
| Writers.DecodeOutput | src/writer.rs:15-41 | the writer's text reads back as the declared width, height, 255 and exactly the quantised pixels in order |
| Writers.Writer.constructor | src/writer.rs:15-20 | a new writer holds exactly the header |
| Writers.Writer.Add | src/writer.rs:23-25 | `add` appends the colour's text and a line break |
| Writers.Writer.Metadata | src/writer.rs:33-41 | the metadata is the header text, which splits into its three lines |
| Cameras.HeightFor | src/camera.rs:67-74 | the height is `abs(width / aspect)` truncated, 1 when that is below 1, saturating at `u32::MAX`; an aspect ratio of 0 gives `u32::MAX` (1 for width 0) |
| Cameras.SampleSquare | src/camera.rs:132-138 | jitter in `[0, 1)^2` becomes an offset in `[-0.5, 0.5)^2` |
| Cameras.GetRay | src/camera.rs:119-130 | the ray starts at the camera centre and passes through the jittered point of pixel `(i, j)` |
| Cameras.Sky | src/camera.rs:112-115 | white blended toward `BLEND` by `a = (unit_direction.y + 1) / 2`; SkyRange bounds it |
| Cameras.RayColor | src/camera.rs:101-117 | depth 0 gives black; a ray that hits nothing gives the sky |
| Cameras.Scattered | src/camera.rs:108-109 | the scattered ray starts at the hit point, and its direction differs from the normal by the bounce draw |
| Cameras.RayColorHit | src/camera.rs:108-110 | on a hit, the colour is 0.5 times the colour seen along the scattered ray with one less depth |
| Cameras.HalfPower | src/camera.rs:108-110 | `0.5^k` lies in `(0, 1]`, and is at most 0.5 once a bounce has happened |
| Cameras.PathHitsDim | src/camera.rs:101-117 | a path whose first `k` rays all hit something is at most `0.5^k` bright in every channel |
| Cameras.AllHitsBlack | src/camera.rs:101-117 | a path that hits something at every depth down to 0 is black |
| Cameras.SkyRange | src/camera.rs:112-115 | the sky lies between white and the light-blue blend |
| Cameras.RayColorInUnitCube | src/camera.rs:101-117 | every ray colour lies in `[0, 1]^3`; one whose ray hits something is at most 0.5 per channel |
| Cameras.HalfInUnitCube | src/camera.rs:109-110 | halving a unit-cube colour stays in the cube, at most 0.5 per channel |
| Cameras.EmptyWorldShowsSky | src/camera.rs:108-116 | with no objects and some depth left, every ray shows the sky |
| Cameras.SampleSum | src/camera.rs:50-55 | the sum of the first `n` sample colours of a pixel, each from a jittered `get_ray` traced by `ray_color`; SampleSumBounds bounds it and PixelSum computes it |
| Cameras.Scaled | src/camera.rs:57 | a finite sample scale multiplies the sum; with zero samples the pixel quantises to black, as the source's NaN channels do |
| Cameras.PixelColor | src/camera.rs:50-57 | the sum of `samples_per_pixel` samples times `pixel_sample_scale`; PixelColorInUnitCube bounds it |
| Cameras.SampleSumBounds | src/camera.rs:52-55 | the sum of `n` samples lies in `[0, n]` per channel |
| Cameras.AverageInUnitCube | src/camera.rs:57 | a sum of `n` unit-cube colours times `1/n` lies in the unit cube |
| Cameras.PixelColorInUnitCube | src/camera.rs:50-57 | with `pixel_sample_scale = 1/samples`, every written pixel lies in the unit cube |
| Cameras.Rows | src/camera.rs:48-59 | the first `n` rows hold `n * image_width` colours |
| Cameras.RowsNext | src/camera.rs:48-59 | one more row appends that row |
| Cameras.RowsRowMajor | src/camera.rs:48-59 | pixel `(i, j)` is colour number `j * width + i` |
| Cameras.Frame | src/camera.rs:48-59 | every row of the picture, top row first; RowsRowMajor gives each pixel's position and WritePixels writes it |
| Cameras.ViewportU | src/camera.rs:82-87 | the top edge of the viewport: `(2 * w / h, 0, 0)` for a viewport 2 units high |
| Cameras.ViewportV | src/camera.rs:82-88 | the left edge of the viewport, top to bottom: `(0, -2, 0)` |
| Cameras.PixelDeltaU | src/camera.rs:91 | `viewport_u / width`, the zero step for width 0 (see Left out); PixelDeltaUClosed gives it in closed form |
| Cameras.PixelDeltaV | src/camera.rs:92 | `viewport_v / height`; PixelDeltaVClosed gives it in closed form |
| Cameras.ViewportUpperLeft | src/camera.rs:95-96 | `center - (0, 0, 1) - viewport_u / 2 - viewport_v / 2`; UpperLeftClosed gives it in closed form |
| Cameras.FirstPixel | src/camera.rs:98 | the corner moved half a step along each pixel step; FirstPixelClosed gives it in closed form |
| Cameras.Viewport | src/camera.rs:76-98 | the three derived grid fields of `initialize`; ViewportClosedForm and ViewportCentred state them |
| Cameras.PixelDeltaVClosed | src/camera.rs:82-92 | the vertical pixel step is `(0, -2/h, 0)` |
| Cameras.PixelDeltaUClosed | src/camera.rs:81-91 | the horizontal pixel step is `(2/h, 0, 0)` |
| Cameras.UpperLeftClosed | src/camera.rs:78-96 | the viewport's upper-left corner is `(-w/h, 1, -1)` |
| Cameras.FirstPixelClosed | src/camera.rs:98 | pixel (0, 0) lies half a step right of and below the corner |
| Cameras.ViewportClosedForm | src/camera.rs:76-98 | the pixel grid in closed form: steps `2/h` right and down, first pixel `(-w/h + 1/h, 1 - 1/h, -1)` |
| Cameras.ViewportCentred | src/camera.rs:76-98 | the grid is centred on the viewport: its middle pixel position is `(0, 0, -1)`, straight ahead of the eye |
| Cameras.InPixelCell | src/camera.rs:91-98 | a point on the plane `z = -1` inside the square cell of pixel `(i, j)`, of side `2 / h`, `i` steps right of and `j` steps below the viewport's corner |
| Cameras.SampleInPixelCell | src/camera.rs:119-138 | on an initialised grid, the ray `get_ray` builds for pixel `(i, j)` with any jitter drawn from `[0, 1)^2` passes through that pixel's cell |
| Cameras.Camera.New | src/camera.rs:28-41 | defaults: aspect 1, width 100, 10 samples, depth 10, derived fields zero |
| Cameras.Camera.Initialize | src/camera.rs:65-99 | settings kept; the height is `HeightFor`; the scale is `1/samples`; the centre is the origin; the grid is `Viewport` |
| Cameras.Camera.Render | src/camera.rs:43-62 | settings kept; the camera is initialised; the text is the header plus every pixel's colour line in row-major order |
| Cameras.Camera.WritePixels | src/camera.rs:46-59 | a fresh writer holds the header plus the `height * width` pixel lines of the frame |
| Cameras.Camera.WriteRows | src/camera.rs:48-59 | the row loop appends the frame's lines, top row first |
| Cameras.Camera.WriteRow | src/camera.rs:49-58 | one row's pixel lines are appended, left to right |
| Cameras.Camera.PixelSum | src/camera.rs:50-55 | the sample loop returns the sum of the pixel's sample colours |

## Left out

- `Writer::write` (src/writer.rs:28-30) and `PATH_IMG` (src/camera.rs:11): writing the file is I/O. `Render` returns the writer whose text would be written.
- `main.rs` builds one scene and calls `render`; it is not part of this model. `helpers.rs` defines only `degrees_to_radians`, which the modelled code never calls. The random generator (`Generator::random_point`) and `Vec3::random_unit_vector` are defined elsewhere in the crate and are not part of this model. The values they would draw are a `Draws` parameter.
- Floating-point rounding: arithmetic is exact on reals. Only the special values (infinities, NaN) that the modelled code can produce are modelled, in `Numeric`.
- `f64::sqrt` is a parameter, constrained by `Numeric.IsSqrt` wherever a proof needs it.
- `Display for Vec3` (src/vec3.rs:69-74) is debug output that the renderer never writes to the image; it is not modelled.
- Vector.DivScalar: requires a non-zero divisor. The source's `v * (1.0 / 0.0)` gives infinite or NaN components, which `Vec3`'s `real` components cannot hold. Each caller's division by zero is listed on its own line below.
- Vector.UnitVector: for the zero vector the source divides by zero and gets NaN components; the model returns the zero vector.
- Spheres.OutwardNormal: for a radius-0 sphere the source divides by zero; the model keeps `p - center`.
- Cameras.PixelDeltaU: for image width 0 the source divides by zero; the model gives the zero step, and the closed-form lemmas require a non-zero width.
- Cameras.Scaled: with `samples_per_pixel = 0` the source multiplies by `inf` and gets NaN channels, which quantise to 0. The model gives black, which quantises to the same bytes.
- A `HitList` inside a `HitList` is not modelled. A list holds spheres or bare `Hit` records, the two `Hittable` implementations in `hit.rs` and `sphere.rs`, and the camera's world is such a list.
- `Rc` sharing, `clone` and the record fields `hit` never reads are not modelled.
- The source divides a `Vec3` by an integer such as `image_width` or `2`. The model divides by that integer's value as a real.
- `Point3::new`, `from_scalars` and `f64 * Vec3` are defined elsewhere in the crate. The model takes them as the zero vector, the vector of the given components, and scaling of each component.
- `Color::WHITE` and `Color::BLEND` are defined elsewhere in the crate. The model assumes the usual sky gradient, `WHITE = (1, 1, 1)` and `BLEND = (0.5, 0.7, 1)` (`Colors.WHITE`, `Colors.BLEND`). Cameras.SkyRange, Cameras.RayColorInUnitCube, Cameras.PixelColorInUnitCube and Cameras.PathHitsDim depend on these values: with a channel above 1 the unit-cube bounds would not hold, and SkyRange states the exact channels.

## Findings

| source | as written | input that shows it | evidently intended | confidence | as-written member | corrected member |
|---|---|---|---|---|---|---|
| src/vec3.rs:49 | the third term of `dot` is `self[2] + other[2]`, a sum | `(0, 0, 1)` with itself gives 2 instead of 1; a ray from the origin along `-z` misses the sphere of radius 1 at `(0, 0, -2)` | `self[2] * other[2]`, the inner product | high; not executed | Vector.Dot, Vector.DotSelfCounterexample, Spheres.CentreRayMissesAsWritten | Vector.InnerProduct, Vector.InnerProductSelf, Spheres.CentreRayHits |

The corrected `Vector.InnerProduct` is what `Spheres.Coefficients` and `Hits.IsFrontFace` use. `Spheres.CoefficientsAsWritten` keeps the source's coefficient computation, so that the discrepancy can be stated.

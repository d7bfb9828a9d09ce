# A verified model of a ray tracer and an image-filter pipeline

This project models two Rust programs from one repository, over the reals in
place of `f32`.

**asgn2, the ray tracer.** The model covers these steps:

- A scene file is read by a nom grammar (`ParserNom`, after
  `asgn2/src/parser/nom.rs`). The grammar produces one `Line` per directive
  and drops comments.
- `SceneParser.FromStr` (after `asgn2/src/parser/mod.rs`) folds those lines
  from left to right into a `Scene`. The fold threads through it the
  vertices and normals declared so far and the current material. It stops
  at the first bad vertex or normal index, or at an unimplemented feature.
- `Trace` shades the pixels (after `asgn2/src/trace/`):
  - one camera ray per pixel (`Camera`);
  - the closest collision among the scene's renderables (`Renderables`);
  - ambient light plus a diffuse term summed over the lights (`Lights`),
    each light gated by intensity, shadow and facing;
  - a truncating 8-bit quantisation.
- `Render` lays the pixels out row-major, three bytes each (after
  `asgn2/src/scene.rs`).
- The colour algebra is `Colors` and the materials are `Materials`.
  Triangle normals are `ParserMath`.

**asgn1, the image filters.** The model covers these steps:

- `CommandLine` parses the argument list (after `asgn1/src/args.rs`).
- The driver loop in `asgn1/src/main.rs` threads an image and a sampling
  mode through the filters in command-line order (`Pipeline`). It stops at
  the first panic.
- Modelled filters:
  - the per-pixel arms: brighten, channel, grayscale, black-and-white by
    luminosity, and quantise (`Filters`);
  - the Floyd–Steinberg dither (`Dithering`);
  - the trimmed 3×3 convolution and the blur built on it (`Convolution`,
    `Blurring`);
  - point sampling (`Sampling`) and scaling (`Scaling`).

The dither reads every pixel from the unchanged input and assigns the
quantized value with `=`. So every share of error sent to a pixel the scan
has not yet reached is overwritten later. Only the 3/16 share sent down and
to the left survives. `Dithering.Dithered` gives the result in closed form,
and `Dithering.FloydSteinberg` is proved to compute it.

Point upscaling panics (see Findings). The driver's `Scale` arm calls
`Scaling.Scale`, which keeps `scale::filter` as written, so a run that
doubles a non-empty image stops with that panic. `Scaling.ScaleFixed` is
the corrected filter, proved to agree with `Scaling.Scale` wherever the
latter succeeds.

Modelling conventions:

- A Rust panic is a `Panics.Panic` value. This covers `unimplemented!()`,
  an index out of bounds, a failed `debug_assert!`, unsigned underflow, and
  a division that `f32` would turn into NaN or infinity. Operations that
  can panic return a `Result`.
- The loops of the source are methods proved equal to functions. These are
  `CommandLine.Parse`, `SceneParser.FromStr`, `Convolution.ConvolveAt`,
  `Dithering.FloydSteinberg` and `Pipeline.ApplyFilters`. The properties
  are proved about those functions.

## Model

| member | source | states |
|---|---|---|
| Colors.ToneDivisor | asgn2/src/util.rs:49-55 | the divisor is the largest of 1 and the three channels: at least each of them and equal to one of them |
| Colors.NormalizeColorDown | asgn2/src/util.rs:46-57 | a non-negative colour lands in the unit cube; a colour already inside is unchanged; one outside comes back with its brightest channel exactly 1 |
| Colors.NormalizeColorDownKeepsRatios | asgn2/src/util.rs:46-57 | tone mapping keeps the ratio between every pair of channels (the hue) |
| Colors.AddColors | asgn2/src/util.rs:13-22 | blending non-negative colours gives a displayable colour; when the plain channel-wise sum is displayable it is the result |
| Colors.AddColorsCommutative | asgn2/src/util.rs:13-22 | blending is commutative |
| Colors.AddBlack | asgn2/src/util.rs:8-22 | blending a displayable colour with `BLACK` on either side leaves it unchanged |
| Colors.Clamp | asgn2/src/util.rs:28-30 | the result is in `[0, 1]`, equals the input inside that range, and is 0 below it and 1 above it |
| Colors.ClampColor | asgn2/src/util.rs:24-33 | every channel of the result is in `[0, 1]`; a displayable colour is unchanged |
| Colors.ClampColorIdempotent | asgn2/src/util.rs:24-33 | clamping twice is clamping once |
| Colors.MulColors | asgn2/src/util.rs:35-44 | the product of non-negative colours is non-negative and of displayable colours is displayable; white is a left identity and black absorbs |
| Colors.MulColorsCommutative | asgn2/src/util.rs:35-44 | the channel-wise product is commutative |
| Colors.ScaleColor | asgn2/src/util.rs:59-64 | scaling by 0 gives black, by 1 gives the colour back, and a non-negative factor keeps a non-negative colour non-negative |
| Colors.ColorVectorRoundTrip | asgn2/src/util.rs:66-80 | `rgb_from_vector` and `vector_from_rgb` are mutual inverses |
| Colors.RgbFromVector | asgn2/src/util.rs:67-71 | definition: `x, y, z` become red, green, blue; inverted by `VectorFromRgb` in `ColorVectorRoundTrip` |
| Colors.VectorFromRgb | asgn2/src/util.rs:74-80 | definition: red, green, blue become `x, y, z`; inverted by `RgbFromVector` in `ColorVectorRoundTrip` |
| Lights.DirectionFrom | asgn2/src/light/mod.rs:40-46 | a directional light gives its stored direction at infinite distance wherever the point is; point and spot lights give the direction and distance towards their position |
| Lights.LightColor | asgn2/src/light/mod.rs:31-38 | definition: `color` returns the stored colour of every variant (point.rs:20-22, directional.rs:22-24, spot.rs:29-31); `Trace.OneLight` and `Trace.ContributionsNonNegative` state that a light of non-negative colour contributes a non-negative colour, and `SceneParser.StepDisplayable` that a parsed light's colour is displayable |
| Lights.TowardPosition | asgn2/src/light/point.rs:24-27 | definition: the normalised offset to the position and its length, shared with spot.rs:33-38; `Lights.DirectionUnit` proves the direction is unit and `Lights.ProjectReachesLight` that travelling the distance along it reaches the position |
| Lights.IntensityAt | asgn2/src/light/mod.rs:48-54 | a directional light has its stored intensity everywhere; a point light's intensity is defined exactly away from its own position and is non-negative for a non-negative intensity; a spot light is `unimplemented!()` |
| Lights.PointIntensityAt | asgn2/src/light/point.rs:29-31 | the point-light intensity exists exactly away from the light's position and is non-negative for a non-negative intensity |
| Lights.InverseSquare | asgn2/src/light/point.rs:30 | `10 * intensity / d2` is non-negative for a non-negative intensity |
| Lights.DirectionUnit | asgn2/src/light/point.rs:24-27 | away from a point or spot light the returned direction has unit length |
| Lights.ProjectReachesLight | asgn2/src/light/spot.rs:33-38 | the returned distance is finite, and travelling it along the returned direction arrives at the light's position |
| Lights.DirectionFromRoundTrip | asgn2/src/light/mod.rs:62-76 | the round trip the `Light` trait documents: when the distance is finite, asking again from the projected point gives distance 0 |
| Lights.PointInverseSquare | asgn2/src/light/point.rs:29-31 | twice as far from a point light the intensity is a quarter |
| Rays.Project | asgn2/src/ray.rs:14-17 | the projected point lies `distance` times the direction away from the origin, and distance 0 gives the origin |
| Rays.ProjectAffine | asgn2/src/ray.rs:14-17 | projection is affine in the distance: projecting `d1 + d2` is projecting `d1` and moving `d2` further, and two projections differ by the difference of their distances |
| Rays.ProjectDistance | asgn2/src/ray.rs:9-17 | along a unit direction the projected point lies exactly `abs(d)` from the origin |
| Renderables.FirstPositive | asgn2/src/renderable/sphere.rs:34-44 | the chosen root is positive and is one of the two candidates; the larger is chosen only when the smaller is not positive; no root is chosen only when neither is positive |
| Renderables.ZeroDirection | asgn2/src/renderable/sphere.rs:22 | `a = magnitude2(direction)` is non-negative and zero exactly for a zero direction, and then the discriminant is 0 |
| Renderables.SphereA | asgn2/src/renderable/sphere.rs:22 | definition: `a = direction.magnitude2()`; `Renderables.ZeroDirection` proves it non-negative and zero exactly for a zero direction |
| Renderables.SphereB | asgn2/src/renderable/sphere.rs:23 | definition: `b = 2 direction · (origin - centre)`; with `SphereA` and `SphereC` it makes the quadratic whose roots `Renderables.OnSphereIffRoot` proves are exactly the on-sphere distances |
| Renderables.SphereC | asgn2/src/renderable/sphere.rs:24-26 | definition: `c` as the source expands it; `Renderables.SphereCIsOffset` proves it is the squared origin-to-centre distance less the squared radius |
| Renderables.SphereDelta | asgn2/src/renderable/sphere.rs:28 | definition: `b² - 4ac`; `Renderables.NoRootsOfQuadratic` proves a negative value means no distance reaches the sphere, and `Renderables.RootsOfQuadratic` gives both roots otherwise |
| Renderables.DegenerateIffZeroDirection | asgn2/src/renderable/sphere.rs:28-30 | the root formula divides by `2a = 0` exactly when the direction is zero |
| Renderables.SphereCollides | asgn2/src/renderable/sphere.rs:21-48 | the division by zero happens exactly for a zero direction; any reported distance is positive |
| Renderables.SolveQuadratic | asgn2/src/renderable/sphere.rs:28-47 | with a non-negative discriminant and `a = 0` the division by zero happens, and only then; any root returned is positive |
| Renderables.SphereCIsOffset | asgn2/src/renderable/sphere.rs:24-26 | `c` is the squared distance from the ray origin to the centre less the squared radius |
| Renderables.OnSphereIffRoot | asgn2/src/renderable/sphere.rs:22-26 | the point at distance `t` lies on the sphere exactly when `t` is a root of `a t^2 + b t + c` |
| Renderables.RootsOfQuadratic | asgn2/src/renderable/sphere.rs:28-36 | for `a > 0` the roots are exactly `(-b - sqrt(delta)) / 2a` and `(-b + sqrt(delta)) / 2a` |
| Renderables.NoRootsOfQuadratic | asgn2/src/renderable/sphere.rs:28-29 | a negative discriminant leaves the quadratic without roots, so the `None` branch is right |
| Renderables.SphereHitIsLeastRoot | asgn2/src/renderable/sphere.rs:21-48 | a reported distance puts the point on the sphere and is the least positive such distance, so a ray starting inside gets the exit point |
| Renderables.SphereMissHasNoRoot | asgn2/src/renderable/sphere.rs:21-48 | when no collision is reported, no positive distance puts the point on the sphere |
| Renderables.UnitSphereAhead | asgn2/src/renderable/sphere.rs:21-48 | a ray from the origin along `+z` meets the unit sphere centred at `(0, 0, 2)` at distance 1 |
| Renderables.UnitSphereObjectAhead | asgn2/src/renderable/mod.rs:33-39 | the same collision through the `DynamicRenderable` dispatch |
| Renderables.UnitSphereRoot | asgn2/src/renderable/sphere.rs:28-44 | `t^2 - 4t + 3` gives the nearer root 1 |
| Renderables.SphereNormalUnit | asgn2/src/renderable/sphere.rs:54-56 | away from the centre the sphere normal has unit length |
| Renderables.SphereNormalOnSurface | asgn2/src/renderable/sphere.rs:54-56 | on the surface of a sphere of positive radius the normal is the offset from the centre divided by the radius |
| Renderables.CollidesWith | asgn2/src/renderable/mod.rs:33-39 | a plane delegates to `collide_plane` with its stored point and normal; a sphere uses its root selection, so any distance is positive; a triangle is `unimplemented!()` |
| Renderables.NormalAt | asgn2/src/renderable/mod.rs:49-55 | a plane returns its stored normal wherever it is asked; a sphere returns the normalised offset from its centre; a triangle is `unimplemented!()` |
| Renderables.MaterialOf | asgn2/src/renderable/mod.rs:41-47 | definition: every variant, the triangle included, returns its stored material |
| Renderables.SphereNormal | asgn2/src/renderable/sphere.rs:54-56 | definition: the normalised offset from the centre; stated by `SphereNormalUnit` and `SphereNormalOnSurface` |
| Materials.DefaultMaterialValues | asgn2/src/material.rs:25-36 | the default material is black in its ambient, specular and transmissive colours and white in its diffuse colour, with phong exponent 5 and index of refraction 1; its colours are displayable |
| Scenes.DefaultCamera | asgn2/src/scene.rs:89-92 | the default camera sits at the origin, looks along `+z` with `+y` up, both unit and orthogonal as the field documentation asks, with a half-angle tangent of 1 |
| Scenes.DefaultDirectionUnit | asgn2/src/scene.rs:18-19 | the default camera direction is normalised, as the field documentation asks |
| Scenes.DefaultUpUnit | asgn2/src/scene.rs:21-22 | the default up vector is normalised, as the field documentation asks |
| Scenes.DefaultCameraOrthogonal | asgn2/src/scene.rs:90-91 | the default direction and up vector are orthogonal |
| Scenes.DefaultSceneValues | asgn2/src/scene.rs:93-101 | the default scene is 640 by 480 pixels with no output path, black ambient light and background, no lights or objects, and five collisions |
| Render.IndexInRange | asgn2/src/scene.rs:77-83 | the row-major position `y * width + x` of an in-range pixel lies below `width * height` |
| Render.Index | asgn2/src/scene.rs:78-81 | definition: pixel `(x, y)` sits at `y · width + x`; stated by `IndexInRange` and `CoordinatesIndex` |
| Render.Row | asgn2/src/scene.rs:80 | one row holds `width` coordinates, `(x, y)` at position `x` |
| Render.Coordinates | asgn2/src/scene.rs:78-80 | the `flat_map` yields `width * height` in-range coordinates with pixel `(x, y)` at position `y * width + x` |
| Render.CoordinatesIndex | asgn2/src/scene.rs:78-80 | the coordinate at every position maps back to that position, so each pixel appears exactly once |
| Render.RenderRays | asgn2/src/scene.rs:77-83 | rendering succeeds exactly when every pixel traces without panicking, and then entry `y * width + x` is the traced pixel `(x, y)` |
| Render.RenderedPixelsHaveThreeChannels | asgn2/src/scene.rs:77-83 | every rendered pixel is three bytes, so the buffer reinterpretation has the right length |
| Render.Flatten | asgn2/src/scene.rs:58-64 | the reinterpreted buffer is three times as long and byte `3 i + c` is channel `c` of pixel `i` |
| Render.RenderImage | asgn2/src/scene.rs:56-66 | the image buffer is `3 * width * height` bytes and channel `c` of pixel `(x, y)` sits at `3 (y * width + x) + c`; it fails exactly when some pixel panics |
| Camera.AspectRatio | asgn2/src/trace/to_ray.rs:21-23 | the aspect ratio times the height is the width, and it is non-negative |
| Camera.MakeCameraRay | asgn2/src/trace/to_ray.rs:7-14 | the camera ray starts at the camera position and departs from the viewing direction by `x_to_ray` along the right vector plus `y_to_ray` along the up vector |
| Camera.CameraRightOrthogonal | asgn2/src/trace/to_ray.rs:16-19 | the right vector `up x direction` is orthogonal to both |
| Camera.CameraRight | asgn2/src/trace/to_ray.rs:16-19 | definition: `up × direction`; orthogonal to both by `CameraRightOrthogonal` |
| Camera.CameraRightUnit | asgn2/src/trace/to_ray.rs:16-19 | with unit, orthogonal up and direction vectors the right vector has unit length |
| Camera.CameraRayLength | asgn2/src/trace/to_ray.rs:7-14 | with an orthonormal camera frame the camera ray's squared length is `1 + x^2 + y^2`, so it is never shorter than 1 and not normalised |
| Camera.XToRayRange | asgn2/src/trace/to_ray.rs:25-28 | column 0 maps to `-tan * aspect`, the middle column to 0, and with a positive tangent the map increases and stays below `tan * aspect` |
| Camera.XToRay | asgn2/src/trace/to_ray.rs:25-28 | definition: `(2x / width - 1) · tan · aspect`; its range and monotonicity are `XToRayRange` |
| Camera.YToRayRange | asgn2/src/trace/to_ray.rs:30-33 | row 0 maps to `tan`, the middle row to 0, and with a positive tangent the map decreases and stays above `-tan` |
| Camera.YToRay | asgn2/src/trace/to_ray.rs:30-33 | definition: `(1 - 2y / height) · tan`; its range and monotonicity are `YToRayRange` |
| Trace.Collisions | asgn2/src/trace/mod.rs:44-47 | one collision result per object, in scene order, each the object's own `collides_with` |
| Trace.MinHit | asgn2/src/trace/mod.rs:47-48 | no hit exactly when no object collides; otherwise the hit's distance is one object's distance, no larger than any other, and strictly smaller than every earlier one (the first minimum wins) |
| Trace.ClosestCollision | asgn2/src/trace/mod.rs:44-49 | no panic exactly when no object's collision test panics; `None` exactly when nothing collides; otherwise the nearest object, the first among equals |
| Trace.OneLight | asgn2/src/trace/mod.rs:58-95 | a light contributes only when its intensity is at least `MIN_INTENSITY` and the normal faces it, and a light of non-negative colour contributes a non-negative colour |
| Trace.ShadowRay | asgn2/src/trace/mod.rs:73-77 | definition: the shadow ray starts `0.0001 · norm` above the point and heads along the light's direction |
| Trace.HitDistance | asgn2/src/trace/mod.rs:78-81 | definition: the distance of the first hit, infinite when nothing is hit |
| Trace.Shade | asgn2/src/trace/mod.rs:85-90 | a contribution exists exactly when the cosine between normal and light direction is non-negative, and it is the light's colour scaled by cosine times intensity |
| Trace.ShadeFacing | asgn2/src/trace/mod.rs:85-86 | for non-zero vectors the cosine test is the sign of the dot product |
| Trace.DimLightSkipped | asgn2/src/trace/mod.rs:69-71 | a light dimmer than `MIN_INTENSITY` contributes nothing, whatever the scene |
| Trace.OccluderShadows | asgn2/src/trace/mod.rs:78-93 | any object on the shadow ray strictly nearer than the light makes the light contribute nothing |
| Trace.InfiniteLightShadow | asgn2/src/trace/mod.rs:78-84 | a light at infinite distance is unshadowed exactly when nothing at all lies on the shadow ray |
| Trace.FacingLightContributes | asgn2/src/trace/mod.rs:69-90 | a bright enough, unshadowed light contributes exactly the shaded colour, and it contributes at all exactly when the normal and the direction to the light have a non-negative dot product |
| Trace.Contributions | asgn2/src/trace/mod.rs:53-55 | one `one_light` result per light, in list order |
| Trace.SumColors | asgn2/src/trace/mod.rs:55-56 | folding no contribution gives black, and folding non-negative contributions with `add_colors` gives a displayable colour |
| Trace.LightOn | asgn2/src/trace/mod.rs:51-57 | lighting succeeds exactly when the normal and every light succeed; when no light contributes (none at all, or every one dim, shadowed or facing away) the result is black; lights of non-negative colour give a displayable colour |
| Trace.LightOnSums | asgn2/src/trace/mod.rs:51-57 | when the normal and every light succeed, the lit colour is `add_colors` folded from black over exactly the lights' contributions, in list order |
| Trace.LightOnOneLight | asgn2/src/trace/mod.rs:51-57 | a single light contributing a displayable colour lights the point with exactly that colour |
| Trace.ContributionsNonNegative | asgn2/src/trace/mod.rs:51-57 | lights of non-negative colour make every present contribution non-negative |
| Trace.TraceRay | asgn2/src/trace/mod.rs:30-42 | a ray that hits nothing gives the background; a hit in a scene of non-negative colours gives a displayable colour |
| Trace.F32ToU8 | asgn2/src/trace/mod.rs:19-23 | the debug assertions fail exactly outside `[0, 1]`; inside, the byte is `floor(255 x)` |
| Trace.TracePixel | asgn2/src/trace/mod.rs:18-28 | the pixel succeeds exactly when the camera ray traces to a colour in `[0, 1]³`, and then its three bytes are the channels times 255, truncated |
| Trace.TracePixelQuantises | asgn2/src/trace/mod.rs:18-28 | in a scene of non-negative colours with a displayable background a ray that traces never trips the debug assertions, and the pixel is its three quantised channels |
| Trace.CentreRay | asgn2/src/trace/to_ray.rs:7-33 | the centre pixel of a 1920 by 1080 image looks straight along the camera direction |
| Trace.OnlyObjectClosest | asgn2/src/trace/mod.rs:44-49 | an only object hit at distance 1 is the closest collision |
| Trace.NoLightsAmbientOnly | asgn2/src/trace/mod.rs:30-42 | without lights a hit shows only the ambient term |
| Trace.NoLightsBlack | asgn2/src/trace/mod.rs:51-57 | without lights an object with normals is lit by black |
| Trace.TraceRayHit | asgn2/src/trace/mod.rs:31-38 | a hit shows the ambient term blended with the diffuse colour times the light on it |
| Trace.SphereScenePixel | asgn2/src/parser/tests.rs:8-38 | the centre pixel of the integration-test scene is `[25, 25, 25]`: ambient 0.1 on a white sphere, quantised down |
| Trace.SphereSceneCentre | asgn2/src/parser/tests.rs:8-38 | given its closest collision, the test scene's centre pixel is `[25, 25, 25]` |
| Trace.SphereSceneShape | asgn2/src/parser/tests.rs:13-37 | the test scene is 1920 by 1080, looks along `+z` from the origin, has ambient light 0.1, no lights and one white sphere two units ahead |
| Trace.UnitSphereClosest | asgn2/src/trace/mod.rs:44-49 | a unit sphere two units ahead on `+z` is hit first at distance 1 |
| Trace.AmbientOnlyCentrePixel | asgn2/src/trace/mod.rs:18-42 | the centre pixel of a lightless 1920 by 1080 scene under ambient 0.1, hitting a white-ambient object, is `[25, 25, 25]` |
| Trace.CentrePixel | asgn2/src/trace/mod.rs:18-28 | the centre pixel quantises the colour traced along the camera direction |
| Trace.TracePixelOf | asgn2/src/trace/mod.rs:18-28 | a displayable traced colour is quantised channel by channel |
| Trace.QuantiseTenth | asgn2/src/trace/mod.rs:19-23 | `0.1` quantises to 25 |
| ParserMath.NormalFromPointsOrthogonal | asgn2/src/parser/math.rs:3-7 | the computed normal is orthogonal to both edges it is built from |
| ParserMath.NormalFromPoints | asgn2/src/parser/math.rs:3-7 | definition: `(v1 - v2) × (v2 - v3)`, unnormalised; its orthogonality, sign and degenerate cases are the lemmas beside it |
| ParserMath.NormalFromPointsSwap | asgn2/src/parser/math.rs:3-7 | exchanging the first two vertices negates the normal |
| ParserMath.NormalFromPointsRotate | asgn2/src/parser/math.rs:3-7 | rotating the vertices leaves the normal unchanged |
| ParserMath.NormalFromPointsCollinear | asgn2/src/parser/math.rs:3-7 | collinear vertices give the zero vector, since the result is not checked or normalised |
| ParserMath.NormalFromPointsRepeated | asgn2/src/parser/math.rs:3-7 | a repeated vertex gives the zero vector |
| ParserMath.NormalFromNormals | asgn2/src/parser/math.rs:9-18 | every call is `unimplemented!()` |
| ParserNom.SkipSpace | asgn2/src/parser/nom.rs:13 | the separator `ws!` skips never lengthens the input |
| ParserNom.SkipSpaceShape | asgn2/src/parser/nom.rs:13 | `ws!` drops exactly the leading run of spaces, tabs, carriage returns and newlines and stops at the first other character |
| ParserNom.Tag | asgn2/src/parser/nom.rs:30 | `tag_s!` succeeds exactly when the input starts with the tag and leaves what follows; it is `Incomplete` exactly when the input is a proper prefix of the tag, and `Error` otherwise |
| ParserNom.DigitRun | asgn2/src/parser/nom.rs:113 | the digit run is a prefix made only of digits and ends at the input's end or at a non-digit |
| ParserNom.Digit | asgn2/src/parser/nom.rs:113 | `digit` is `Incomplete` exactly on empty input and `Error` exactly when the first character is not a digit; otherwise it takes the longest non-empty digit prefix |
| ParserNom.OptDigit | asgn2/src/parser/nom.rs:113 | `opt!(digit)` never fails with `Error`, is `Incomplete` exactly on empty input, and takes the longest digit prefix, possibly empty |
| ParserNom.TakeUntilNewline | asgn2/src/parser/nom.rs:17 | `take_until_s!("\n")` never fails with `Error`; it succeeds exactly when there is a newline, returning the text before the first one and leaving the newline in the input |
| ParserNom.Sign | asgn2/src/parser/nom.rs:111 | the optional sign never fails with `Error`, is `Incomplete` exactly on empty input, and reads `""`, `+` or `-` off the front |
| ParserNom.DigitsPointDigits | asgn2/src/parser/nom.rs:113 | the first number form reads well-formed text: digits, a point, optional digits |
| ParserNom.PointDigits | asgn2/src/parser/nom.rs:114 | the second number form reads optional digits, a point and at least one digit |
| ParserNom.WholeDigits | asgn2/src/parser/nom.rs:115 | the third number form reads digits without a point |
| ParserNom.UnsignedReal | asgn2/src/parser/nom.rs:112-116 | the alternation of the three forms reads well-formed unsigned text off the front |
| ParserNom.RecognizeReal | asgn2/src/parser/nom.rs:110-117 | the recognised real is well-formed text at the front of the input and consumes at least one character |
| ParserNom.Real | asgn2/src/parser/nom.rs:109-119 | `f32_s` consumes input whenever it succeeds |
| ParserNom.DecimalValue | asgn2/src/parser/nom.rs:109-119 | definition: `parse_to!(f32)` on a recognised token as its exact decimal value, whole digits plus fraction digits over a power of ten, negated after `-` |
| ParserNom.Natural | asgn2/src/parser/nom.rs:120-121 | `u32_s` and `usize_s` succeed exactly when a digit run is present and its value fits the type, and then they return that value and leave the rest; they are `Incomplete` exactly on empty input |
| ParserNom.RealList | asgn2/src/parser/nom.rs:31-34 | reading `n` reals yields `n` values and consumes input when `n > 0` |
| ParserNom.NaturalList | asgn2/src/parser/nom.rs:56-61 | reading `n` naturals yields `n` values, each within the type's range |
| ParserNom.ParseArguments | asgn2/src/parser/nom.rs:29-107 | the arguments read fit the directive's signature: the right count of reals, of in-range naturals, or a path without a newline |
| ParserNom.MakeLine | asgn2/src/parser/nom.rs:29-107 | the line built from a directive's arguments is of that directive's kind |
| ParserNom.ParseDirective | asgn2/src/parser/nom.rs:29-107 | a directive parser yields a line of its own kind and consumes input |
| ParserNom.Keyword | asgn2/src/parser/nom.rs:29-107 | every directive's keyword is non-empty |
| ParserNom.DirectiveOf | asgn2/src/parser/nom.rs:29-107 | definition: the directive whose parser produces a given `Line` |
| ParserNom.TryFrom | asgn2/src/parser/nom.rs:21-27 | the alternation over the remaining directives consumes input when it succeeds |
| ParserNom.ParseLineNoComment | asgn2/src/parser/nom.rs:21-27 | `parse_line_no_comment` consumes input when it succeeds |
| ParserNom.Comment | asgn2/src/parser/nom.rs:15-18 | a comment yields no line and consumes input |
| ParserNom.ParseLine | asgn2/src/parser/nom.rs:13-14 | `parse_line` consumes input when it succeeds, so `many0!` always advances |
| ParserNom.Present | asgn2/src/parser/nom.rs:11 | the `filter_map` keeps at most as many lines as it is given |
| ParserNom.ManyLinesNeverError | asgn2/src/parser/nom.rs:9-11 | `many0!`'s guard against a parser that consumes nothing never fires, so `parse_lines` only ever fails through `complete!` |
| ParserNom.ManyLinesStop | asgn2/src/parser/nom.rs:10 | `many0!` stops only at the end of the input or at a line that fails with `Error` |
| ParserNom.ParseLinesStop | asgn2/src/parser/nom.rs:9-11 | the text `parse_lines` leaves is empty or starts with a line that does not parse |
| ParserNom.ParseLines | asgn2/src/parser/nom.rs:9-11 | definition: `complete!(map!(many0!(parse_line), filter_map))`, returning the leftover text and the lines with comments dropped |
| ParserNom.ManyLines | asgn2/src/parser/nom.rs:10 | definition: `many0!` with nom 3's stop, `Incomplete` and no-progress rules; stated by `ManyLinesStop`, `ManyLinesStep` and `ManyLinesNeverError` |
| ParserNom.ManyLinesStep | asgn2/src/parser/nom.rs:10 | a parsed line is followed by the lines of the text it leaves, in order |
| ParserNom.ParseLinesEmpty | asgn2/src/parser/nom.rs:9-11 | the empty file parses to no lines |
| ParserNom.WhitespaceOnly | asgn2/src/parser/nom.rs:9-14 | a non-empty file of only whitespace is `Incomplete`, which `complete!` reports as an error |
| ParserNom.PresentAppend | asgn2/src/parser/nom.rs:11 | the `filter_map` commutes with concatenation |
| ParserNom.TakeUntilNewlineOf | asgn2/src/parser/nom.rs:17 | text without a newline followed by a newline is taken up to that newline |
| ParserNom.CommentOf | asgn2/src/parser/nom.rs:15-18 | `#` and text up to a newline is a comment that leaves the newline |
| ParserNom.CommentLine | asgn2/src/parser/nom.rs:13-18 | a comment line is consumed with its trailing whitespace and yields no line |
| ParserNom.CommentAtEnd | asgn2/src/parser/nom.rs:15-18 | a comment on the last line without a newline is `Incomplete` |
| ParserNom.DigitRunOf | asgn2/src/parser/nom.rs:113 | the digit run of digits followed by a non-digit is exactly those digits |
| ParserNom.DigitOf | asgn2/src/parser/nom.rs:113 | `digit` reads exactly the leading digits |
| ParserNom.OptDigitOf | asgn2/src/parser/nom.rs:113 | `opt!(digit)` reads exactly the leading digits, possibly none |
| ParserNom.SignOf | asgn2/src/parser/nom.rs:111 | the sign reads exactly the given `""`, `+` or `-` |
| ParserNom.PointFirst | asgn2/src/parser/nom.rs:113 | digits, a point and optional digits are read whole by the first form |
| ParserNom.PointSecond | asgn2/src/parser/nom.rs:112-116 | a point followed by digits is read whole by the alternation |
| ParserNom.WholeOnly | asgn2/src/parser/nom.rs:112-116 | digits without a point are read whole by the alternation once a non-digit follows |
| ParserNom.UnsignedRealOf | asgn2/src/parser/nom.rs:112-116 | every well-formed unsigned number text followed by a separator is read back exactly |
| ParserNom.RecognizeRealOf | asgn2/src/parser/nom.rs:110-117 | every well-formed number text, signed or not, followed by a separator is read back exactly: printing and recognising are inverse |
| ParserNom.ExponentNotConsumed | asgn2/src/parser/nom.rs:109-119 | exponent notation is not part of the grammar: `1e5` reads as `1` and leaves `e5` |
| ParserNom.LonePointRejected | asgn2/src/parser/nom.rs:112-116 | a point with no digit on either side is not a number |
| ParserNom.IntegerAtEnd | asgn2/src/parser/nom.rs:113-115 | an integer at the very end of the input is `Incomplete`, since the first form waits for a point |
| ParserNom.NegativeExample | asgn2/src/parser/nom.rs:109-119 | `-1.5` reads as minus one and a half |
| ParserNom.FractionExample | asgn2/src/parser/nom.rs:109-119 | `.5` reads as one half |
| ParserNom.NaturalHasNoSign | asgn2/src/parser/nom.rs:120-121 | counts and indices take no sign |
| ParserNom.TagMismatch | asgn2/src/parser/nom.rs:30 | a tag whose first character differs from the input's is an `Error` |
| ParserNom.KeywordMismatch | asgn2/src/parser/nom.rs:29-107 | a directive whose keyword does not match fails with `Error`, so `alt!` moves on |
| ParserNom.NoRealAtUnderscore | asgn2/src/parser/nom.rs:109-119 | no real starts with `_` |
| ParserNom.NormalFailsOnUnderscore | asgn2/src/parser/nom.rs:51-53 | `normal` reads its keyword off `normal_triangle` and then fails with `Error` on the `_` |
| ParserNom.OtherLetterFails | asgn2/src/parser/nom.rs:29-107 | a directive whose keyword starts with a different letter than the line fails with `Error` |
| ParserNom.FirstEightReject | asgn2/src/parser/nom.rs:21-23 | on a `normal_` line every directive tried before `normal_triangle` fails with `Error` |
| ParserNom.SkipErrors | asgn2/src/parser/nom.rs:21-27 | `alt!` passes over alternatives that fail with `Error` |
| ParserNom.ReachesNormalTriangle | asgn2/src/parser/nom.rs:21-27 | a line the first eight directives reject gets the `normal_triangle` parser's answer unless that fails too |
| ParserNom.NormalTriangleReachesItsParser | asgn2/src/parser/nom.rs:21-27 | although `normal` is tried first, a `normal_triangle` line reaches the `normal_triangle` parser |
| SceneParser.ConvertColor | asgn2/src/parser/mod.rs:172-176 | the stored colour lies in `[0, 1]^3` and a colour already inside is kept as written |
| SceneParser.FromStr | asgn2/src/parser/mod.rs:21-169 | the `for` loop over the parsed lines, with its early returns, computes exactly the fold of the per-line step from the default scene, after the checks on the nom result |
| SceneParser.Step | asgn2/src/parser/mod.rs:36-167 | definition: one arm of `match line` on the scene, the vertices and normals so far and the current material, with the lookup failures of the triangle arms; its effects are stated by `StepAppends`, `StepDisplayable`, `TriangleLookup` and `MaterialLine` |
| SceneParser.Fetch | asgn2/src/parser/mod.rs:69-98 | `get(i)` with its error: succeeds exactly for a declared index, with that entry, and otherwise fails with the given `NoSuchVertex`/`NoSuchNormal` error, as the triangle arm does at mod.rs:143-157 too |
| SceneParser.AddLight | asgn2/src/parser/mod.rs:45-51 | definition: `scene.lights.push`; `SceneParser.StepAppends` proves a light line appends exactly one light and changes no earlier entry |
| SceneParser.AddObject | asgn2/src/parser/mod.rs:118-124 | definition: `scene.objects.push`, also for the sphere and triangle arms; `SceneParser.StepAppends` and `SceneParser.EarlierObjectsKept` prove one object is appended and the earlier ones are kept |
| SceneParser.AimCamera | asgn2/src/parser/mod.rs:39-44 | definition: the camera arm's four assignments; `SceneParser.CameraStored` proves only those four fields change and `SceneParser.CameraLine` that direction and up become unit vectors in their own directions |
| SceneParser.Fold | asgn2/src/parser/mod.rs:35-168 | definition: the lines applied from left to right, the first failure final; composed by `FoldAppend` |
| SceneParser.SceneFromStr | asgn2/src/parser/mod.rs:23-169 | definition: a nom error or leftover text is reported before any line is applied, then the fold from the default scene and material; `FromStr` is proved to compute it |
| SceneParser.EmptyInput | asgn2/src/parser/mod.rs:21-31 | an empty file gives the default scene |
| SceneParser.WhitespaceInput | asgn2/src/parser/mod.rs:24-29 | a non-empty file of only whitespace is reported as a nom error and gives no scene |
| SceneParser.LeftoverText | asgn2/src/parser/mod.rs:24-29 | text the grammar leaves over is reported as `Unparsed` with that text, and it starts with a line that does not parse |
| SceneParser.FirstMissing | asgn2/src/parser/mod.rs:143-157 | no index is reported exactly when all are declared; otherwise the reported index is undeclared and every index before it is declared |
| SceneParser.FirstMissingOfThree | asgn2/src/parser/mod.rs:143-157 | three lookups report the first of `v1, v2, v3` that is undeclared |
| SceneParser.TriangleLookup | asgn2/src/parser/mod.rs:142-164 | a `triangle` line reports its first undeclared vertex, else appends exactly one triangle with the points' normal and the current material and changes nothing else |
| SceneParser.NormalTriangleLookup | asgn2/src/parser/mod.rs:67-105 | a `normal_triangle` line reports the first undeclared vertex, else the first undeclared normal, else panics in `normal_from_normals`; it never yields a triangle |
| SceneParser.ForwardReference | asgn2/src/parser/mod.rs:142-165 | a triangle referring to a vertex declared only later is a `NoSuchVertex` error |
| SceneParser.BackwardReference | asgn2/src/parser/mod.rs:142-165 | the same vertices declared first give a triangle with those corners |
| SceneParser.FoldOne | asgn2/src/parser/mod.rs:35-167 | walking one line is that line's step |
| SceneParser.FoldTwo | asgn2/src/parser/mod.rs:35-167 | walking two lines is the second step after the first, unless the first fails |
| SceneParser.FoldAppend | asgn2/src/parser/mod.rs:35-167 | walking `a + b` walks `a` and then `b` from where it ended; a failure in `a` is final |
| SceneParser.StepAppends | asgn2/src/parser/mod.rs:36-166 | a successful line appends exactly one light, object, vertex or normal when it declares one, and keeps every earlier entry |
| SceneParser.FoldAppends | asgn2/src/parser/mod.rs:35-167 | over a successful walk every light and object line adds exactly one entry after the earlier ones, which stay as they were |
| SceneParser.EarlierObjectsKept | asgn2/src/parser/mod.rs:35-167 | later lines never change the lights and objects an earlier prefix built |
| SceneParser.NormalTriangleAborts | asgn2/src/parser/mod.rs:67-105 | no successful walk contains a `normal_triangle` line |
| SceneParser.MaterialLine | asgn2/src/parser/mod.rs:52-61 | a `material` line sets the current material from its clamped colours, phong and ior, and leaves the scene alone |
| SceneParser.ObjectTakesCurrentMaterial | asgn2/src/parser/mod.rs:118-131 | a plane, sphere or triangle stores a copy of the current material and leaves the material as it was |
| SceneParser.MaterialAffectsOnlyLater | asgn2/src/parser/mod.rs:52-61 | a material line keeps the objects built before it and gives the next object the new material |
| SceneParser.LaterSettingWins | asgn2/src/parser/mod.rs:37-116 | of two lines setting the same scene value, the later wins |
| SceneParser.WithoutLimits | asgn2/src/parser/mod.rs:63-65 | dropping the `max_vertices` and `max_normals` lines never lengthens the list |
| SceneParser.LimitsIgnored | asgn2/src/parser/mod.rs:63-65 | `max_vertices` and `max_normals` lines have no effect at all |
| SceneParser.StartDisplayable | asgn2/src/scene.rs:86-103 | the default scene and material hold only colours in `[0, 1]^3` |
| SceneParser.StepDisplayable | asgn2/src/parser/mod.rs:36-166 | every line keeps every stored colour displayable, since each one goes through `convert_color` |
| SceneParser.FoldDisplayable | asgn2/src/parser/mod.rs:35-167 | a successful walk keeps every stored colour displayable |
| SceneParser.ParsedSceneDisplayable | asgn2/src/parser/mod.rs:21-169 | every colour of a parsed scene, lights and materials included, lies in `[0, 1]^3` |
| SceneParser.CameraStored | asgn2/src/parser/mod.rs:39-44 | a camera line changes the four camera fields and nothing else |
| SceneParser.CameraLine | asgn2/src/parser/mod.rs:39-44 | the camera keeps its position, normalises non-zero direction and up vectors to unit length in their own direction, and stores `tan` of the half angle in degrees |
| SceneParser.NormalizedUnit | asgn2/src/parser/mod.rs:41-42 | a non-zero vector normalises to unit length |
| SceneParser.RawDirections | asgn2/src/parser/mod.rs:45-51 | plane normals and directional-light directions are stored as written, not normalised |
| SceneParser.NormalizeAxis | asgn2/src/parser/mod.rs:41-42 | a unit vector normalises to itself |
| SceneParser.AimDefaultCamera | asgn2/src/parser/mod.rs:39-44 | a camera line restating the default camera with a 45-degree half angle leaves the default scene unchanged |
| SceneParser.CameraOfSphereScene | asgn2/src/parser/mod.rs:39-44 | the integration scene's camera line leaves the starting state unchanged |
| SceneParser.SphereLinesScene | asgn2/src/parser/tests.rs:8-38 | the lines of the integration scene walk to the scene the test expects |
| SceneParser.FoldThree | asgn2/src/parser/mod.rs:35-167 | walking three lines is three steps in order, the first failure being final |
| CommandLine.Parse | asgn1/src/args.rs:21-50 | the token loop returns exactly the parse of the whole argument list: `None` unless `-input PATH` follows the program name, and otherwise the input path and the filters in command-line order, or `None` at the first unknown token, missing argument or unparsable factor |
| CommandLine.Parsed | asgn1/src/args.rs:21-50 | definition: the value `parse` returns for the whole argument list; `CommandLine.Parse` proves the loop computes it, and `InputRequired`, `UnknownToken`, `MissingArgument`, `NonNumericScale` and `CommandLineRoundTrip` state its behaviour |
| CommandLine.ParseFilters | asgn1/src/args.rs:31-49 | definition: the filters the token loop collects, `None` at the first unknown token, missing argument or unparsable factor; `ParseOutput`, `ParseScale` and `TokensRoundTrip` state it |
| CommandLine.ExtendStep | asgn1/src/args.rs:31-49 | moving one parsed filter from the pending result onto the collected filters keeps the final answer |
| CommandLine.ParseOutput | asgn1/src/args.rs:35-38 | `-output PATH` adds an `Output` filter and parsing continues after the path |
| CommandLine.ParseScale | asgn1/src/args.rs:39-43 | `-scale X Y` with two numbers adds a `Scale` filter with those factors and parsing continues after them |
| CommandLine.ConcatPrepend | asgn1/src/args.rs:31-49 | putting a filter in front of a list in front of a result is putting the longer list in front |
| CommandLine.TokensThen | asgn1/src/args.rs:31-49 | spelt-out filters are read back in order, and what follows them is parsed after them |
| CommandLine.OutputThen | asgn1/src/args.rs:35-38 | an `Output` filter spelt out in front of others is read back in front |
| CommandLine.ScaleThen | asgn1/src/args.rs:39-43 | a `Scale` filter spelt out in front of others is read back in front, given factors that print and parse back |
| CommandLine.TokensRoundTrip | asgn1/src/args.rs:31-49 | spelling filters out and parsing them gives the same filters |
| CommandLine.CommandLineRoundTrip | asgn1/src/args.rs:21-50 | a full command line parses to its input path and its filters in order; no filters give an empty list |
| CommandLine.InputRequired | asgn1/src/args.rs:22-28 | a result needs `-input PATH` in the first two places after the program name and takes its input from there; the program name is never read |
| CommandLine.UnknownToken | asgn1/src/args.rs:44 | an unknown token after valid filters makes the whole parse fail |
| CommandLine.MissingArgument | asgn1/src/args.rs:36-41 | a flag at the end without all its arguments makes the whole parse fail |
| CommandLine.NonNumericScale | asgn1/src/args.rs:40-41 | a `-scale` factor that does not parse as a number makes the whole parse fail |
| Sampling.Round | asgn1/src/util.rs:17-18 | the rounded value is within one half of the input, and non-negative for a non-negative input |
| Sampling.RoundIntegral | asgn1/src/util.rs:17-18 | an integer rounds to itself |
| Sampling.RoundHalfAwayFromZero | asgn1/src/util.rs:17-18 | halves round away from zero, as `f32::round` does |
| Sampling.RoundMonotone | asgn1/src/util.rs:17-18 | rounding never reverses the order of two values |
| Sampling.RoundNearest | asgn1/src/util.rs:17-18 | no integer is nearer to the input than the rounded value |
| Sampling.RoundAboveMinusHalf | asgn1/src/util.rs:17-18 | values above `-0.5` round to a natural number |
| Sampling.SaturateU32 | asgn1/src/util.rs:17-18 | the `as u32` cast keeps values in range and saturates below zero to 0 and above `u32::MAX` to `u32::MAX` |
| Sampling.TruncU32 | asgn1/src/scale.rs:6-7 | the `as u32` cast of a real is at most `u32::MAX`, 0 for non-positive values, and the integer part of a value in range |
| Sampling.Sample | asgn1/src/util.rs:12-23 | Bilinear and Gaussian are `unimplemented!()`; Point succeeds exactly when the rounded, saturated coordinates lie inside the image, and otherwise the index panics |
| Sampling.PointIndex | asgn1/src/util.rs:17-18 | definition: `v.round() as u32`, the rounding and saturating cast of `Round` and `SaturateU32` |
| Sampling.SampleAtPixel | asgn1/src/util.rs:16-21 | sampling at a pixel's own coordinates gives that pixel |
| Sampling.SampleNearestPixel | asgn1/src/util.rs:16-21 | a point within half a pixel of the image reads the pixel whose centre is nearest |
| Sampling.SamplePastEdge | asgn1/src/util.rs:16-21 | a coordinate at least half a pixel past the last column is read outside the image and panics |
| Sampling.SampleNegativeClamps | asgn1/src/util.rs:16-21 | negative coordinates are not rejected: the saturating cast makes them read the first column and row |
| Scaling.ScaledSize | asgn1/src/scale.rs:6-7 | the scaled dimension fits in a `u32` |
| Scaling.ScaledSizePositive | asgn1/src/scale.rs:6-7 | a non-empty scaled dimension needs a positive factor |
| Scaling.SourceCoordinate | asgn1/src/scale.rs:10-11 | every output coordinate maps back to a non-negative source coordinate |
| Scaling.SourceCoordinateInside | asgn1/src/scale.rs:6-11 | every back-mapped coordinate lies before the end of the source |
| Scaling.Scale | asgn1/src/scale.rs:5-14 | the output has the scaled size and row `y` holds the samples of its back-mapped points; it fails exactly when some row has a sample that panics, and with that sample's panic |
| Scaling.ScaledRow | asgn1/src/scale.rs:9-13 | a row succeeds exactly when every sample in it does, and then it holds those samples in order; otherwise it reports one of their panics |
| Scaling.ScaledSample | asgn1/src/scale.rs:10-12 | definition: output pixel `(x, y)` is the source sampled at `(x / f_x, y / f_y)` |
| Scaling.ScalePixels | asgn1/src/scale.rs:9-13 | a successful scaling holds the sample of every output pixel |
| Scaling.ScaleSucceeds | asgn1/src/scale.rs:9-13 | scaling succeeds as soon as no sample panics |
| Scaling.ScaleFailure | asgn1/src/scale.rs:9-13 | a failed scaling reports the panic of one of its samples |
| Scaling.ScaleByOne | asgn1/src/scale.rs:5-14 | scaling by one with Point sampling copies the image |
| Scaling.ScaleUnimplementedModes | asgn1/src/util.rs:14-15 | Bilinear and Gaussian scaling to a non-empty size is `unimplemented!()` |
| Scaling.ScaleByTwoPanics | asgn1/src/scale.rs:9-13 | doubling a non-empty image with Point sampling panics: the last column maps back to `w - 0.5`, which rounds to `w` |
| Scaling.ClampIndex | asgn1/src/util.rs:16-21 | the rounded Point index kept inside the image: always a valid index |
| Scaling.ClampIndexNearest | asgn1/src/util.rs:16-21 | for a non-negative coordinate, no index inside the image is nearer than the clamped index |
| Scaling.ScaleClamped | asgn1/src/scale.rs:5-14 | the clamped Point scaling has the scaled size, and every pixel reads the source at the clamped indices of its back-mapped point |
| Scaling.ScaleClampedNearest | asgn1/src/scale.rs:9-13 | every pixel of the clamped scaling reads a source pixel with no nearer column and no nearer row to the back-mapped point |
| Scaling.ScaleClampedAgrees | asgn1/src/scale.rs:5-14 | wherever Point scaling succeeds, the clamped version gives the same image |
| Scaling.ScaleClampedDoublesOnePixel | asgn1/src/scale.rs:5-14 | clamped doubling of a one-pixel image gives four copies of that pixel |
| Scaling.ScaleFixed | asgn1/src/scale.rs:5-14 | the corrected filter: Point scaling never panics, has the scaled size and agrees with the original wherever the original succeeds; on a non-empty image Point scaling is the clamped scaling, whose pixels are nearest ones (`Scaling.ScaleClampedNearest`); the other modes are unchanged |
| Scaling.ScaleEmpty | asgn1/src/scale.rs:5-14 | an empty image scales without sampling and so without panicking |
| Convolution.ConvolveAt | asgn1/src/convolve.rs:8-14 | the two nested `for` loops accumulate exactly the weighted 3×3 window of the output pixel |
| Convolution.WindowSum | asgn1/src/convolve.rs:8-12 | definition: the weighted terms of the first `n` columns of the window |
| Convolution.Weighted | asgn1/src/convolve.rs:7-13 | definition: the whole weighted 3×3 window of an output pixel |
| Convolution.Convolve | asgn1/src/convolve.rs:4-15 | the `w - 2` and `h - 2` subtractions underflow exactly on images narrower or lower than two pixels; otherwise the output is `(w - 2)×(h - 2)` and each pixel is the weighted window at its position |
| Convolution.WindowWeightTotal | asgn1/src/convolve.rs:9-13 | adding the weights column by column gives all nine of them |
| Convolution.WindowSumAdditive | asgn1/src/convolve.rs:9-13 | the window of a sum of images is the sum of the windows |
| Convolution.WindowSumHomogeneous | asgn1/src/convolve.rs:9-13 | the window of a scaled image is the scaled window |
| Convolution.ConvolveAdditive | asgn1/src/convolve.rs:4-15 | convolution is additive: `filter(a + b) = filter(a) + filter(b)` |
| Convolution.ConvolveHomogeneous | asgn1/src/convolve.rs:4-15 | convolution is homogeneous: `filter(c a) = c filter(a)` |
| Convolution.WindowSumConstant | asgn1/src/convolve.rs:9-13 | on a constant image a partial window is the colour times the partial weight |
| Convolution.ConvolveConstant | asgn1/src/convolve.rs:4-15 | a constant image convolves to the constant times the total weight, two pixels smaller each way |
| Convolution.WindowSumWithin | asgn1/src/convolve.rs:9-13 | with non-negative weights and channels in `[0, 1]` the partial window stays within its partial weight |
| Convolution.ConvolveKeepsUnitRange | asgn1/src/convolve.rs:4-15 | with non-negative weights summing to one an image with channels in `[0, 1]` convolves to one |
| Blurring.BlurKernelShape | asgn1/src/blur.rs:7-11 | the blur kernel is 3×3 with non-negative weights summing to one |
| Blurring.Blur | asgn1/src/blur.rs:3-13 | the blur underflows exactly on images narrower or lower than two pixels; otherwise it is `(w - 2)×(h - 2)` and every pixel is the window weighted by the blur kernel |
| Blurring.BlurKernelSymmetric | asgn1/src/blur.rs:7-11 | the kernel is unchanged by transposition and by flipping either axis, so the index order `convolve::filter` uses does not matter |
| Blurring.BlurConstant | asgn1/src/blur.rs:3-13 | a constant image blurs to the same constant, one pixel trimmed from each edge |
| Blurring.BlurKeepsUnitRange | asgn1/src/blur.rs:3-13 | an image with channels in `[0, 1]` blurs to one |
| Blurring.BlurTooSmall | asgn1/src/blur.rs:3-13 | an image narrower or lower than two pixels makes the blur underflow |
| Filters.LuminosityOfGrey | asgn1/src/main.rs:85 | the luminosity of a grey pixel is its grey level, since the weights sum to one |
| Filters.Luminosity | asgn1/src/main.rs:85 | definition: `0.3 r + 0.6 g + 0.1 b`; its weights sum to one by `LuminosityOfGrey` |
| Filters.LuminosityInUnitRange | asgn1/src/main.rs:85 | a pixel with channels in `[0, 1]` has luminosity in `[0, 1]` |
| Filters.Brighten | asgn1/src/main.rs:93-99 | brightening keeps the dimensions, multiplies the red, green and blue of every pixel by the factor and keeps alpha |
| Filters.BrightenPixel | asgn1/src/main.rs:96-97 | definition: the colour channels times the factor, alpha kept |
| Filters.BrightenTwice | asgn1/src/main.rs:93-99 | brightening by `f` and then `g` is brightening by `f * g` |
| Filters.BrightenByOne | asgn1/src/main.rs:93-99 | brightening by one leaves the image unchanged |
| Filters.Channel | asgn1/src/main.rs:105-113 | `m[ch] = 1.0` panics exactly when the channel is not 0, 1 or 2 and there is a pixel to compute; otherwise the dimensions are kept |
| Filters.KeepChannel | asgn1/src/main.rs:108-111 | definition: the channels times the mask `m` with `m[ch] = 1`, alpha kept; stated by `ChannelKeepsOne` |
| Filters.ChannelKeepsOne | asgn1/src/main.rs:105-113 | the chosen colour channel is kept, the other two become 0 and alpha is kept |
| Filters.ChannelIdempotent | asgn1/src/main.rs:105-113 | extracting the same channel twice is extracting it once |
| Filters.Grayscale | asgn1/src/main.rs:171-178 | grayscale keeps the dimensions, sets red, green and blue of every pixel to `0.3 r + 0.6 g + 0.1 b` and keeps alpha |
| Filters.GreyPixel | asgn1/src/main.rs:174-176 | definition: all three colour channels set to the luminosity, alpha kept |
| Filters.GrayscaleIdempotent | asgn1/src/main.rs:171-178 | every grey pixel has equal red, green and blue, and grayscale applied twice is grayscale once |
| Filters.BlackWhite | asgn1/src/main.rs:81-89 | the black-and-white filter keeps the image's dimensions |
| Filters.BlackWhitePixel | asgn1/src/main.rs:84-87 | definition: white above the cutoff, black otherwise, alpha kept; stated by `BlackWhiteThreshold` |
| Filters.BlackWhiteThreshold | asgn1/src/main.rs:81-89 | every pixel becomes white exactly when its luminosity is above the cutoff and black exactly when it is not, with alpha kept |
| Filters.BlackWhiteAfterGrayscale | asgn1/src/main.rs:81-89 | grayscale before black-and-white changes nothing, since grey keeps the luminosity |
| Filters.BlackWhiteIdempotent | asgn1/src/main.rs:81-89 | with a cutoff in `[0, 1)` black-and-white applied twice is applied once |
| Filters.Pow2 | asgn1/src/main.rs:146 | `exp2` of a whole number is at least 1, and at least 2 for a positive one |
| Filters.Levels | asgn1/src/main.rs:186 | `2^bits - 1` is at least 1 for a positive bit count |
| Filters.Quantize | asgn1/src/main.rs:184-194 | zero bits make every level `0 / 0`, reported exactly when there is a pixel to compute; otherwise the dimensions are kept and every pixel is quantized to `2^bits - 1` steps with alpha kept |
| Filters.Steps | asgn1/src/main.rs:189-191 | definition: `(v * max).round()`, the nearest whole number of steps |
| Filters.Level | asgn1/src/main.rs:189-191 | definition: `(v * max).round() / max`; stated by `LevelIsStep`, `LevelNearest` and `LevelError` |
| Filters.QuantizePixel | asgn1/src/main.rs:188-192 | definition: every colour channel at its level, alpha kept |
| Filters.LevelIsStep | asgn1/src/main.rs:189-191 | every quantized channel is a whole number of steps of `1 / max` |
| Filters.LevelNearest | asgn1/src/main.rs:189-191 | the quantized channel is the nearest multiple of `1 / max` to the input |
| Filters.LevelError | asgn1/src/main.rs:189-191 | quantizing moves a channel by at most half a step |
| Filters.LevelIdempotent | asgn1/src/main.rs:189-191 | quantizing a quantized channel changes nothing |
| Filters.LevelInUnitRange | asgn1/src/main.rs:189-191 | a channel in `[0, 1]` quantizes to a channel in `[0, 1]` |
| Filters.QuantizeIdempotent | asgn1/src/main.rs:184-194 | quantizing an image twice with the same bit count is quantizing it once |
| Dithering.Set | asgn1/src/main.rs:154 | the assignment changes exactly the one pixel |
| Dithering.Spread | asgn1/src/main.rs:156-160 | the `add` closure adds the share to exactly the pixel at `(x + xo - 1, y + yo - 1)` when that lies inside the image, and changes nothing else |
| Dithering.QuantizationError | asgn1/src/main.rs:162 | definition: the colour channels' quantization error with alpha one |
| Dithering.Diverted | asgn1/src/main.rs:164 | definition: 3/16 of the error of the pixel up and to the right, the one share that survives |
| Dithering.Current | asgn1/src/main.rs:148-166 | definition: the value a finished pixel holds before a given step of the scan |
| Dithering.Scanned | asgn1/src/main.rs:148-166 | the loop invariant: every pixel before the current step holds its current value |
| Dithering.Dithered | asgn1/src/main.rs:144-168 | the finished image holds at every pixel the value the scan leaves there |
| Dithering.DitherFilter | asgn1/src/main.rs:144-168 | zero bits fail exactly when there is a pixel to compute; otherwise the dithered image has the input's dimensions |
| Dithering.FloydSteinberg | asgn1/src/main.rs:145-168 | the nested column-by-column scan computes exactly the closed form |
| Dithering.Visit | asgn1/src/main.rs:150-166 | one step of the scan keeps every finished pixel at its final value and finishes the current one |
| Dithering.ScanStep | asgn1/src/main.rs:150-166 | writing the quantized pixel and the one surviving share finishes one more pixel of the scan |
| Dithering.NextColumn | asgn1/src/main.rs:148-149 | a finished column is a finished scan up to the top of the next one |
| Dithering.ScanComplete | asgn1/src/main.rs:148-168 | a finished scan is the closed form |
| Dithering.DitherQuantizesEdges | asgn1/src/main.rs:144-168 | in the last column and the top row the dither gives exactly the quantized pixel |
| Dithering.DitherDivertsError | asgn1/src/main.rs:156-166 | every other pixel is the quantized pixel plus 3/16 of the error of its up-right neighbour, so its alpha rises by 3/16 |
| Dithering.SharesSumToError | asgn1/src/main.rs:162-166 | the four shares of the error add up to the whole error |
| Pipeline.Step | asgn1/src/main.rs:80-215 | one arm of the `match filter`: each filter keeps the image well formed; only `Sample` changes the sampling mode, and only `Output` saves, appending the current image and its path; `Scale` calls `scale::filter` as written |
| Pipeline.Run | asgn1/src/main.rs:77-224 | the filters applied in command-line order to the previous filter's output, the first panic ending the run; the image stays well formed |
| Pipeline.ApplyFilters | asgn1/src/main.rs:74-224 | the `for` loop over the filters computes exactly the fold of the filter arms from the input image in Point mode, stopping at the first panic |
| Pipeline.ApplyFilter | asgn1/src/main.rs:80-215 | the body of the loop is exactly one filter step |
| Pipeline.RunUnfold | asgn1/src/main.rs:77-80 | running a non-empty list is the first step followed by the rest, unless it panics |
| Pipeline.RunAppend | asgn1/src/main.rs:77-80 | filters are applied left to right: running `a + b` runs `a` and then `b` on its result; a panic in `a` is final |
| Pipeline.RunSample | asgn1/src/main.rs:208 | a `Sample` filter only changes the mode used by the filters after it |
| Pipeline.StepSample | asgn1/src/main.rs:208 | a `Sample` step sets the mode and keeps the image |
| Pipeline.RunMode | asgn1/src/main.rs:75-208 | after a successful run the mode is the one set by the last `Sample` filter, or the starting mode without one |
| Pipeline.PointUnlessSampled | asgn1/src/main.rs:75 | without `Sample` filters the mode stays Point |
| Pipeline.PointIsLast | asgn1/src/main.rs:75 | without `Sample` filters the last mode set is the starting one |
| Pipeline.Paths | asgn1/src/main.rs:179-182 | one path per saved image, in order |
| Pipeline.RunWrites | asgn1/src/main.rs:179-182 | a run keeps everything saved before it and saves exactly once per `Output` filter, to its paths, in command-line order |
| Pipeline.StepScale | asgn1/src/main.rs:215 | the `Scale` arm replaces the image by `scale::filter` of it in the current mode, or stops with that call's panic |
| Pipeline.ScaleFirst | asgn1/src/main.rs:75-215 | a `Scale` first thing samples in the initial Point mode: the run holds the Point-scaled input, or stops with the scaling's panic |
| Pipeline.ScaleByOneFirst | asgn1/src/main.rs:75-215 | `-scale 1 1` alone leaves the input image and the Point mode as they are |
| Pipeline.ScaleByTwoFirstPanics | asgn1/src/main.rs:75-215 | `-scale 2 2` alone panics on every non-empty input, since `scale::filter` reads past the last column |
| Pipeline.Start | asgn1/src/main.rs:74-75 | definition: the loop starts from the input image in Point mode with nothing saved |

## Left out

- `f32` arithmetic: rounding, NaN, infinities and `FloatOrd` are not modelled. Channels, coordinates and distances are reals. The one infinite value the tracer uses, the distance to a directional light or a missed shadow ray, is the `Lights.Distance` case `Infinite`.
- Vectors.Normalize: the zero vector normalises to zero, where `f32` gives NaN. `CosAngle` with a zero vector is 1.
- Renderables.SphereCollides: a ray with a zero direction makes `a = 0`. The model reports `Degenerate` where `f32` would divide by zero.
- Lights.IntensityAt: a point light queried at its own position is `Degenerate`, where `f32` gives infinity.
- Filters.Quantize, Dithering.DitherFilter: zero bits make every level `0 / 0`, which is NaN in `f32`. The model reports `Degenerate` instead.
- `sqrt`, and the tangent of an angle in degrees, come from the `Libm.Libm` parameter record. `sqrt` is constrained by the record's `Valid` predicate, and `tanDegrees` is unconstrained. The reals have no provable square root to define them by.
- Trace.F32ToU8: models a debug build, where the `debug_assert!`s are checked and a channel outside `[0, 1]` panics. In a release build they are compiled out and `(x * 255.0) as u8` saturates to 0 or 255 instead.
- `Ray::collide_plane` is not part of this model. Plane collision is the `PlaneHit` parameter, and `Plane::collides_with` is proved to delegate to it.
- The triangle collision and normal (`asgn2/src/renderable/triangle.rs`), the spot light's `intensity_at` and `normal_from_normals` are `unimplemented!()` in the source. They are modelled as `Unimplemented` panics, with no barycentric test and no falloff curve.
- Bilinear and Gaussian sampling are `unimplemented!()`. They are `Unimplemented` panics.
- The rayon variant of `render_rays` is left out. It computes the same ordered pixels, and only the sequential variant is modelled.
- The `unsafe` reinterpretation of the pixel vector as bytes is modelled as flattening the three bytes of each pixel in order.
- Logging, timing and the `warn!` messages are left out.
- `asgn2/src/bin/` and the GUI are left out, because they are file I/O, image saving and a display subprocess.
- nom: the combinator library is not part of this model. Its behaviour is written out with nom 3 streaming semantics (`Done`/`Error`/`Incomplete`), because the grammar matches on `IResult::Done`.
- `parse_to!(f32)` on a real token is taken as the token's exact decimal value. `parse_to!` on an integer token fails above the target type's range.
- CommandLine.Parse: `str::parse::<f32>` is the `parseF32` parameter, so which strings count as numbers is not modelled.
- The material's specular, transmissive, phong and ior fields and `Scene.max_collisions` are stored but never read by the tracer. Reflection and refraction are not modelled.
- `Image::normalize`, used after the dither, is not part of this model. It is the `normalize` parameter of `Pipeline.Run`, assumed only to keep images well formed (`Pipeline.Normalizes`).
- The definitions of `Image` and `Pixel` are not part of this model. `Pixel` is taken as four real channels with channel-wise arithmetic, and an image as a grid of pixels.
- The Crop, Contrast, EdgeDetectBase, Pipe, RandomNoise, Rotate, Saturation and Sharpen arms of the driver are left out, together with `asgn1/src/pipe.rs` and `asgn1/src/rotate.rs`. They use trigonometry, randomness, a parallel sum, a shell pipe, or helpers outside the modelled files.
- The `Output` arm's conversion to `RgbaImage` and the `save` call are left out. Each `Output` records the current image and its path as a `Pipeline.Written` entry.
- The `Filter` enum in `asgn1/src/args.rs` has only `Output` and `Scale`, while `asgn1/src/main.rs` matches on many more filters. `CommandLine` follows `args.rs`, and the `Pipeline.Filter` type lists the arms the driver model handles.
- The dither's `x + 2` cannot overflow `u32` in the model. It could only overflow at a width of `2^32 - 1`.
- The SDL/OpenGL programs (asgn0, common) are left out.

## Findings

| source | as written | input that shows it | evidently intended | confidence | as-written member | corrected member |
|---|---|---|---|---|---|---|
| asgn1/src/scale.rs:9-13 with asgn1/src/util.rs:17-20 | Point upscaling samples the last output column at `x / f_x`. That is `w - 0.5` when `f_x = 2`, which rounds half away from zero to `w`, one past the last column, so the image index panics | any non-empty image scaled by `2 2` with Point sampling | every output pixel reads a pixel inside the image, one nearest to the back-mapped point; `ScaleFixed` is `ScaleClamped` in Point mode, and `Scaling.ScaleClampedNearest` proves the nearest-pixel property | not executed | Scaling.ScaleByTwoPanics | Scaling.ScaleFixed |

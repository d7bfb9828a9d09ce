/**
  Camera rays through pixels (asgn2/src/trace/to_ray.rs).  Pixel
  coordinates map linearly to normalised device coordinates scaled by the
  tangent of the half angle; the vertical axis is flipped so that row 0 is
  the top of the frustum.
 */
module Camera {
  import opened Vectors
  import opened Rays
  import opened Scenes

  /** The image has at least one pixel, as every traced pixel's scene does. */
  predicate HasPixels(s: Scene) {
    s.width > 0 && s.height > 0
  }

  /** The camera's frame is orthonormal, as the field documentation says. */
  predicate Orthonormal(s: Scene) {
    Magnitude2(s.cameraDirection) == 1.0 && Magnitude2(s.cameraUp) == 1.0
      && Dot(s.cameraDirection, s.cameraUp) == 0.0
  }

  /** `aspect_ratio`: width over height. */
  function AspectRatio(s: Scene): (r: real)
    requires s.height > 0
    ensures r * (s.height as real) == s.width as real
    ensures r >= 0.0
  {
    (s.width as real) / (s.height as real)
  }

  /** `camera_right`: `up x direction`. */
  function CameraRight(s: Scene): Vec3 {
    Cross(s.cameraUp, s.cameraDirection)
  }

  /** `x_to_ray`. */
  function XToRay(s: Scene, x: nat): real
    requires HasPixels(s)
  {
    var u := (2.0 * (x as real) / (s.width as real)) - 1.0;
    u * s.cameraHalfAngleTan * AspectRatio(s)
  }

  /** `y_to_ray`. */
  function YToRay(s: Scene, y: nat): real
    requires s.height > 0
  {
    var v := 1.0 - (2.0 * (y as real) / (s.height as real));
    v * s.cameraHalfAngleTan
  }

  /**
    `make_camera_ray`: a ray from the camera position along
    `direction + x * right + y * up`, not normalised.
   */
  function MakeCameraRay(s: Scene, x: nat, y: nat): (r: Ray)
    requires HasPixels(s)
    ensures r.origin == s.cameraPosition
    ensures Sub(r.direction, s.cameraDirection)
         == Add(Scale(XToRay(s, x), CameraRight(s)), Scale(YToRay(s, y), s.cameraUp))
  {
    Ray(s.cameraPosition,
        Add(Add(s.cameraDirection, Scale(XToRay(s, x), CameraRight(s))), Scale(YToRay(s, y), s.cameraUp)))
  }

  /** The right vector is orthogonal to both the up vector and the viewing direction. */
  lemma CameraRightOrthogonal(s: Scene)
    ensures Dot(CameraRight(s), s.cameraUp) == 0.0
    ensures Dot(CameraRight(s), s.cameraDirection) == 0.0
  {
    CrossOrthogonal(s.cameraUp, s.cameraDirection);
  }

  /** With an orthonormal camera frame the right vector has unit length. */
  lemma CameraRightUnit(s: Scene)
    requires Orthonormal(s)
    ensures Magnitude2(CameraRight(s)) == 1.0
  {
    Lagrange(s.cameraUp, s.cameraDirection);
    calc {
      Magnitude2(CameraRight(s));
    ==
      Magnitude2(s.cameraUp) * Magnitude2(s.cameraDirection)
        - Dot(s.cameraUp, s.cameraDirection) * Dot(s.cameraUp, s.cameraDirection);
    == { assert Dot(s.cameraUp, s.cameraDirection) == Dot(s.cameraDirection, s.cameraUp); }
      1.0 * 1.0 - 0.0 * 0.0;
    ==
      1.0;
    }
  }

  /**
    `|a + x b + y c|^2` for pairwise orthogonal `a`, `b`, `c` is
    `|a|^2 + x^2 |b|^2 + y^2 |c|^2`.
   */
  lemma PythagorasThree(a: Vec3, b: Vec3, c: Vec3, x: real, y: real)
    requires Dot(a, b) == 0.0 && Dot(a, c) == 0.0 && Dot(b, c) == 0.0
    ensures Magnitude2(Add(Add(a, Scale(x, b)), Scale(y, c)))
         == Magnitude2(a) + x * x * Magnitude2(b) + y * y * Magnitude2(c)
  {
    var xb := Scale(x, b);
    var yc := Scale(y, c);
    DotScaleZero(a, b, x);
    DotScaleZero(a, c, y);
    assert Dot(c, b) == Dot(b, c);
    DotScaleZero(c, b, x);
    assert Dot(xb, c) == Dot(c, xb);
    DotScaleZero(xb, c, y);
    assert Dot(Add(a, xb), yc) == Dot(a, yc) + Dot(xb, yc);
    calc {
      Magnitude2(Add(Add(a, xb), yc));
    == { Magnitude2Add(Add(a, xb), yc); }
      Magnitude2(Add(a, xb)) + 2.0 * Dot(Add(a, xb), yc) + Magnitude2(yc);
    == { Magnitude2Add(a, xb); }
      Magnitude2(a) + 2.0 * Dot(a, xb) + Magnitude2(xb) + 2.0 * Dot(Add(a, xb), yc) + Magnitude2(yc);
    == { Magnitude2Scale(x, b); Magnitude2Scale(y, c); }
      Magnitude2(a) + x * x * Magnitude2(b) + y * y * Magnitude2(c);
    }
  }

  /** `|u + w|^2 = |u|^2 + 2 u.w + |w|^2`. */
  lemma Magnitude2Add(u: Vec3, w: Vec3)
    ensures Magnitude2(Add(u, w)) == Magnitude2(u) + 2.0 * Dot(u, w) + Magnitude2(w)
  {
  }

  /** Scaling one side of a zero dot product keeps it zero. */
  lemma DotScaleZero(u: Vec3, w: Vec3, k: real)
    requires Dot(u, w) == 0.0
    ensures Dot(u, Scale(k, w)) == 0.0
  {
    assert Dot(u, Scale(k, w)) == k * Dot(u, w);
  }

  /**
    The camera ray is not normalised: with an orthonormal camera frame its
    squared length is `1 + x^2 + y^2`, at least 1.
   */
  lemma CameraRayLength(s: Scene, x: nat, y: nat)
    requires HasPixels(s) && Orthonormal(s)
    ensures var X := XToRay(s, x); var Y := YToRay(s, y);
      Magnitude2(MakeCameraRay(s, x, y).direction) == 1.0 + X * X + Y * Y
    ensures Magnitude2(MakeCameraRay(s, x, y).direction) >= 1.0
  {
    var X := XToRay(s, x);
    var Y := YToRay(s, y);
    var r := CameraRight(s);
    CameraRightOrthogonal(s);
    CameraRightUnit(s);
    assert Dot(s.cameraDirection, r) == 0.0;
    assert Dot(r, s.cameraUp) == 0.0;
    PythagorasThree(s.cameraDirection, r, s.cameraUp, X, Y);
    calc {
      Magnitude2(MakeCameraRay(s, x, y).direction);
    ==
      Magnitude2(s.cameraDirection) + X * X * Magnitude2(r) + Y * Y * Magnitude2(s.cameraUp);
    ==
      1.0 + X * X * 1.0 + Y * Y * 1.0;
    ==
      1.0 + X * X + Y * Y;
    }
    Square(X);
    Square(Y);
  }

  /**
    Column 0 maps to the left edge `-tan * aspect`, the centre column to 0;
    for a positive tangent the map is strictly increasing and every column
    stays left of the right edge `tan * aspect`.
   */
  lemma XToRayRange(s: Scene, x1: nat, x2: nat)
    requires HasPixels(s)
    ensures XToRay(s, 0) == -s.cameraHalfAngleTan * AspectRatio(s)
    ensures 2 * x1 == s.width ==> XToRay(s, x1) == 0.0
    ensures s.cameraHalfAngleTan > 0.0 && x1 < x2 ==> XToRay(s, x1) < XToRay(s, x2)
    ensures s.cameraHalfAngleTan > 0.0 && x1 < s.width ==> XToRay(s, x1) < s.cameraHalfAngleTan * AspectRatio(s)
  {
    var w := s.width as real;
    var k := s.cameraHalfAngleTan * AspectRatio(s);
    assert AspectRatio(s) > 0.0;
    assert XToRay(s, x1) == (2.0 * (x1 as real) / w - 1.0) * k;
    assert XToRay(s, x2) == (2.0 * (x2 as real) / w - 1.0) * k;
    if s.cameraHalfAngleTan > 0.0 {
      assert k > 0.0;
      if x1 < x2 {
        assert 2.0 * (x1 as real) / w < 2.0 * (x2 as real) / w;
      }
      if x1 < s.width {
        assert 2.0 * (x1 as real) / w < 2.0;
      }
    }
  }

  /**
    Row 0 maps to the top of the frustum `tan`; for a positive tangent the
    map is strictly decreasing and every row stays above `-tan`.
   */
  lemma YToRayRange(s: Scene, y1: nat, y2: nat)
    requires s.height > 0
    ensures YToRay(s, 0) == s.cameraHalfAngleTan
    ensures 2 * y1 == s.height ==> YToRay(s, y1) == 0.0
    ensures s.cameraHalfAngleTan > 0.0 && y1 < y2 ==> YToRay(s, y1) > YToRay(s, y2)
    ensures s.cameraHalfAngleTan > 0.0 && y1 < s.height ==> YToRay(s, y1) > -s.cameraHalfAngleTan
  {
    var h := s.height as real;
    var t := s.cameraHalfAngleTan;
    if t > 0.0 {
      if y1 < y2 {
        assert 2.0 * (y1 as real) / h < 2.0 * (y2 as real) / h;
      }
      if y1 < s.height {
        assert 2.0 * (y1 as real) / h < 2.0;
      }
    }
  }
}

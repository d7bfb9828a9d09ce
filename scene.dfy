/** A renderable scene (asgn2/src/scene.rs). */
module Scenes {
  import opened Vectors
  import opened Wrappers
  import opened Colors
  import opened Lights
  import opened Renderables

  /**
    `Scene`.  `cameraDirection` and `cameraUp` are documented as normalised;
    `width` and `height` are the `u32` image size.
   */
  datatype Scene = Scene(
    cameraPosition: Vec3,
    cameraDirection: Vec3,
    cameraUp: Vec3,
    cameraHalfAngleTan: real,
    width: nat,
    height: nat,
    outputImage: Option<string>,
    ambientLight: Rgb,
    background: Rgb,
    lights: seq<DynamicLight>,
    objects: seq<DynamicRenderable>,
    maxCollisions: nat)

  /** `Scene::default()`. */
  const DefaultScene: Scene := Scene(
    Zero, Vec3(0.0, 0.0, 1.0), Vec3(0.0, 1.0, 0.0), 1.0,
    640, 480, None, Black, Black, [], [], 5)

  /**
    The default camera sits at the origin looking along `+z` with `+y` up,
    both unit and orthogonal as the field documentation asks, with a
    half-angle tangent of 1.
   */
  lemma DefaultCamera()
    ensures DefaultScene.cameraPosition == Vec3(0.0, 0.0, 0.0)
    ensures Magnitude2(DefaultScene.cameraDirection) == 1.0
    ensures Magnitude2(DefaultScene.cameraUp) == 1.0
    ensures Dot(DefaultScene.cameraDirection, DefaultScene.cameraUp) == 0.0
    ensures DefaultScene.cameraHalfAngleTan == 1.0
  {
    DefaultDirectionUnit();
    DefaultUpUnit();
    DefaultCameraOrthogonal();
  }

  lemma DefaultDirectionUnit()
    ensures Magnitude2(DefaultScene.cameraDirection) == 1.0
  {
    assert DefaultScene.cameraDirection == Vec3(0.0, 0.0, 1.0);
  }

  lemma DefaultUpUnit()
    ensures Magnitude2(DefaultScene.cameraUp) == 1.0
  {
    assert DefaultScene.cameraUp == Vec3(0.0, 1.0, 0.0);
  }

  lemma DefaultCameraOrthogonal()
    ensures Dot(DefaultScene.cameraDirection, DefaultScene.cameraUp) == 0.0
  {
    assert DefaultScene.cameraDirection == Vec3(0.0, 0.0, 1.0);
    assert DefaultScene.cameraUp == Vec3(0.0, 1.0, 0.0);
  }

  /**
    The rest of the default scene: 640 by 480 pixels, no output path, black
    ambient light and background, no lights or objects, five collisions.
   */
  lemma DefaultSceneValues()
    ensures DefaultScene.width == 640 && DefaultScene.height == 480
    ensures DefaultScene.outputImage.None?
    ensures DefaultScene.ambientLight == Rgb(0.0, 0.0, 0.0)
    ensures DefaultScene.background == Rgb(0.0, 0.0, 0.0)
    ensures |DefaultScene.lights| == 0 && |DefaultScene.objects| == 0
    ensures DefaultScene.maxCollisions == 5
  {
  }
}

/** The pinhole camera: a fixed origin and a viewport spanned by two edge
    vectors from its lower-left corner. */
module Cameras {
  import opened Vectors
  import opened Rays

  datatype Camera = Camera(origin: Vec3, lowerLeft: Vec3, horizontal: Vec3, vertical: Vec3)
  {
    /** The ray from the origin through the viewport point at fractions
        `(u, v)` of its width and height. There is no lens: every ray starts
        at the origin. */
    function GetRay(u: real, v: real): (r: Ray)
      ensures r.origin == origin
      ensures Add(origin, r.direction) ==
        Add(Add(lowerLeft, Scale(u, horizontal)), Scale(v, vertical))
    {
      Ray(origin, Sub(Add(Add(lowerLeft, Scale(u, horizontal)), Scale(v, vertical)), origin))
    }
  }

  /** The default constructor's viewport for a given aspect ratio, focal
      length and viewport height. */
  function Pinhole(aspectRatio: real, focalLength: real, viewportHeight: real): Camera
  {
    var viewportWidth := viewportHeight * aspectRatio;
    var origin := Zero;
    var horizontal := Vec3(viewportWidth, 0.0, 0.0);
    var vertical := Vec3(0.0, viewportHeight, 0.0);
    var lowerLeft := Sub(Sub(Sub(origin, Div(horizontal, 2.0)), Div(vertical, 2.0)),
                         Vec3(0.0, 0.0, focalLength));
    Camera(origin, lowerLeft, horizontal, vertical)
  }

  /** The camera the renderer uses: a 16:9 viewport two units high, one unit
      in front of the origin. */
  function DefaultCamera(): Camera {
    Pinhole(16.0 / 9.0, 1.0, 2.0)
  }

  /** The viewport sits `focalLength` in front of the origin along -z,
      centred on the axis, with orthogonal edges and a width `aspectRatio`
      times its height: the centre ray points straight ahead and the corner
      rays at the corners. */
  lemma PinholeRays(aspectRatio: real, focalLength: real, viewportHeight: real)
    ensures Pinhole(aspectRatio, focalLength, viewportHeight).origin == Zero
    ensures Pinhole(aspectRatio, focalLength, viewportHeight).GetRay(0.5, 0.5).direction ==
      Vec3(0.0, 0.0, -focalLength)
    ensures Pinhole(aspectRatio, focalLength, viewportHeight).GetRay(0.0, 0.0).direction ==
      Vec3(-viewportHeight * aspectRatio / 2.0, -viewportHeight / 2.0, -focalLength)
    ensures Pinhole(aspectRatio, focalLength, viewportHeight).GetRay(1.0, 1.0).direction ==
      Vec3(viewportHeight * aspectRatio / 2.0, viewportHeight / 2.0, -focalLength)
    ensures Dot(Pinhole(aspectRatio, focalLength, viewportHeight).horizontal,
                Pinhole(aspectRatio, focalLength, viewportHeight).vertical) == 0.0
    ensures Pinhole(aspectRatio, focalLength, viewportHeight).horizontal.x ==
      aspectRatio * Pinhole(aspectRatio, focalLength, viewportHeight).vertical.y
  {
  }

  /** The viewport in closed form: its edges are `w = viewportHeight *
      aspectRatio` wide and `viewportHeight` high, and its lower-left corner
      lies half an edge left of and below the point `focalLength` in front of
      the origin. */
  lemma PinholeFields(aspectRatio: real, focalLength: real, viewportHeight: real, w: real)
    requires w == viewportHeight * aspectRatio
    ensures Pinhole(aspectRatio, focalLength, viewportHeight) ==
      Camera(Zero, Vec3(-w / 2.0, -viewportHeight / 2.0, -focalLength),
             Vec3(w, 0.0, 0.0), Vec3(0.0, viewportHeight, 0.0))
  {
  }

  /** The default camera: origin at zero, lower-left corner `(-16/9, -1, -1)`,
      horizontal edge `(32/9, 0, 0)` and vertical edge `(0, 2, 0)`. The
      parameters stand for the default constructor's constants. */
  lemma DefaultViewport(aspectRatio: real, focalLength: real, viewportHeight: real)
    requires aspectRatio == 16.0 / 9.0 && focalLength == 1.0 && viewportHeight == 2.0
    ensures Pinhole(aspectRatio, focalLength, viewportHeight) ==
      Camera(Zero, Vec3(-16.0 / 9.0, -1.0, -1.0), Vec3(32.0 / 9.0, 0.0, 0.0), Vec3(0.0, 2.0, 0.0))
  {
    var w := viewportHeight * aspectRatio;
    DefaultWidth(aspectRatio, viewportHeight);
    PinholeFields(aspectRatio, focalLength, viewportHeight, w);
    DefaultCorner(w, focalLength, viewportHeight);
  }

  lemma DefaultWidth(aspectRatio: real, viewportHeight: real)
    requires aspectRatio == 16.0 / 9.0 && viewportHeight == 2.0
    ensures viewportHeight * aspectRatio == 32.0 / 9.0
  {
  }

  lemma DefaultCorner(w: real, focalLength: real, viewportHeight: real)
    requires w == 32.0 / 9.0 && focalLength == 1.0 && viewportHeight == 2.0
    ensures Camera(Zero, Vec3(-w / 2.0, -viewportHeight / 2.0, -focalLength),
                   Vec3(w, 0.0, 0.0), Vec3(0.0, viewportHeight, 0.0)) ==
            Camera(Zero, Vec3(-16.0 / 9.0, -1.0, -1.0), Vec3(32.0 / 9.0, 0.0, 0.0), Vec3(0.0, 2.0, 0.0))
  {
  }

  /** Moving the viewport point by `(du, dv)` moves the direction by
      `du * horizontal + dv * vertical`. */
  lemma GetRayAffine(c: Camera, u: real, v: real, du: real, dv: real)
    ensures c.GetRay(u + du, v + dv).direction ==
      Add(c.GetRay(u, v).direction, Add(Scale(du, c.horizontal), Scale(dv, c.vertical)))
  {
  }

  /** `GetRay(0, 0)` points at the lower-left corner. */
  lemma GetRayCorner(c: Camera)
    ensures Add(c.origin, c.GetRay(0.0, 0.0).direction) == c.lowerLeft
  {
  }
}

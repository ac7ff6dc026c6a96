/** The renderer: the recursive colour of a ray, the pixel loop with its
    per-pixel sampling, the packed image buffer and the fixed demo scene.

    The random numbers the source draws from its shared generator are
    parameters: a `Draw` holds what one scatter consumes, a `SampleDraw`
    what one sample consumes. */
module Scenes {
  import opened Wrappers
  import opened Arith
  import opened Vectors
  import opened Rays
  import opened Hittables
  import opened Spheres
  import opened HittableLists
  import opened Materials
  import opened Utils
  import opened Cameras
  import LambertianMaterial
  import MetalMaterial
  import DielectricMaterial

  /** The random values one scatter may consume: the vector of
      `RandomVec3()` (diffuse), the point of `RandomInUnitSphere()` (metal)
      and the number of `RandomFloat()` (glass). */
  datatype Draw = Draw(randomVec: Vec3, inUnitSphere: Vec3, unitFloat: real)

  /** The random stream of one ray path: the draw used at each remaining
      bounce count. */
  type Draws = int -> Draw

  /** The near end of the interval the world is queried with; the far end
      is +infinity. */
  const TMin: real := 0.001

  /** A material whose scatter rule is defined: a glass index of 0 or -1
      would divide by zero. */
  predicate Usable(material: Material) {
    material.Dielectric? ==> material.refractionIndex != 0.0 && material.refractionIndex != -1.0
  }

  /** Every sphere has a non-zero radius and a usable material. */
  predicate WellFormed(world: seq<Sphere>) {
    NonDegenerate(world) && forall i :: 0 <= i < |world| ==> Usable(world[i].material)
  }

  /** The hit the scan reports carries the material of one of the objects. */
  lemma {:induction false} HitMaterialFromWorld(m: MathLib, objects: seq<Sphere>, ray: Ray, tMin: real, tMax: UpperBound)
    requires NonDegenerate(objects)
    ensures ListHit(m, objects, ray, tMin, tMax).Some? ==>
      exists i :: 0 <= i < |objects| && ListHit(m, objects, ray, tMin, tMax).value.material == objects[i].material
    decreases |objects|
  {
    if objects != [] {
      var n := |objects| - 1;
      var pre := objects[..n];
      HitMaterialFromWorld(m, pre, ray, tMin, tMax);
      var prev := ListHit(m, pre, ray, tMin, tMax);
      var h := objects[n].Intersect(m, ray, tMin, ClosestSoFar(prev, tMax));
      if h.Some? {
        assert h.value.material == objects[n].material;
      } else if prev.Some? {
        var i :| 0 <= i < n && prev.value.material == pre[i].material;
        assert pre[i] == objects[i];
      }
    }
  }

  /** `record.material->Scatter(...)`: the rule of the hit's material, each
      fed the random value it draws. */
  function ScatterBy(m: MathLib, material: Material, ray: Ray, record: HitInfo, draw: Draw): (r: ScatterResult)
    requires Usable(material)
    ensures r.scattered.origin == record.point
    ensures !material.Metal? ==> r.scatters
    ensures material.Dielectric? ==> r.attenuation == White
    ensures !material.Dielectric? ==> r.attenuation == material.albedo
  {
    match material
    case Lambertian(albedo) => LambertianMaterial.Scatter(m, albedo, ray, record, draw.randomVec)
    case Metal(fuzz, albedo) => MetalMaterial.Scatter(m, fuzz, albedo, ray, record, draw.inUnitSphere)
    case Dielectric(index) => DielectricMaterial.Scatter(m, index, ray, record, draw.unitFloat)
  }

  /** All three components lie in [0, 1]. */
  predicate InUnitBox(v: Vec3) {
    0.0 <= v.x <= 1.0 && 0.0 <= v.y <= 1.0 && 0.0 <= v.z <= 1.0
  }

  /** The background gradient at height `y` of the unit direction: the blend
      `(1 - t) * white + t * (0.5, 0.7, 1)` with `t = (y + 1) / 2`. Looking
      straight down gives white, straight up gives the sky blue, and every
      height in between gives a colour between the two. */
  function SkyBlend(y: real): (c: Vec3)
    ensures y == -1.0 ==> c == White
    ensures y == 1.0 ==> c == Vec3(0.5, 0.7, 1.0)
    ensures -1.0 <= y <= 1.0 ==> 0.5 <= c.x <= 1.0 && 0.7 <= c.y <= 1.0 && c.z == 1.0
  {
    var t := 0.5 * (y + 1.0);
    Add(Scale(1.0 - t, White), Scale(t, Vec3(0.5, 0.7, 1.0)))
  }

  /** The colour of a ray that meets nothing. */
  function SkyColor(m: MathLib, ray: Ray): Vec3 {
    SkyBlend(Normalize(m, ray.direction).y)
  }

  /** The sky colour of any ray lies in the unit box. */
  lemma SkyInUnitBox(m: MathLib, ray: Ray)
    requires Lawful(m)
    ensures InUnitBox(SkyColor(m, ray))
  {
    NormalizeBounded(m, ray.direction);
  }

  /** `Scene::RayColor`: black once the bounce budget is spent; otherwise the
      world is queried over `[0.001, +infinity]`; a miss gives the sky, an
      absorbed ray gives black, and a scattered ray gives the attenuation
      times the colour of the scattered ray with one bounce fewer. */
  function RayColor(m: MathLib, world: seq<Sphere>, ray: Ray, bounce: int, draws: Draws): (c: Vec3)
    requires WellFormed(world)
    ensures bounce <= 0 ==> c == Zero
    ensures bounce > 0 && ListHit(m, world, ray, TMin, Unbounded).None? ==> c == SkyColor(m, ray)
    decreases bounce
  {
    if bounce <= 0 then Zero
    else
      var hit := ListHit(m, world, ray, TMin, Unbounded);
      if hit.None? then SkyColor(m, ray)
      else
        HitMaterialFromWorld(m, world, ray, TMin, Unbounded);
        var s := ScatterBy(m, hit.value.material, ray, hit.value, draws(bounce));
        if s.scatters then Mul(s.attenuation, RayColor(m, world, s.scattered, bounce - 1, draws))
        else Zero
  }

  /** Every material's albedo lies in the unit box. */
  predicate AlbedosInUnitBox(world: seq<Sphere>) {
    forall i :: 0 <= i < |world| && !world[i].material.Dielectric? ==> InUnitBox(world[i].material.albedo)
  }

  /** The componentwise product of two colours in the unit box stays there. */
  lemma MulInUnitBox(a: Vec3, b: Vec3)
    requires InUnitBox(a) && InUnitBox(b)
    ensures InUnitBox(Mul(a, b))
  {
    ProductUnitInterval(a.x, b.x);
    ProductUnitInterval(a.y, b.y);
    ProductUnitInterval(a.z, b.z);
  }

  /** With albedos in the unit box, every ray colour is in the unit box:
      attenuation only darkens, and the sky is in the box. */
  lemma {:induction false} RayColorBounded(m: MathLib, world: seq<Sphere>, ray: Ray, bounce: int, draws: Draws)
    requires Lawful(m) && WellFormed(world) && AlbedosInUnitBox(world)
    ensures InUnitBox(RayColor(m, world, ray, bounce, draws))
    decreases bounce
  {
    if bounce > 0 {
      var hit := ListHit(m, world, ray, TMin, Unbounded);
      if hit.None? {
        SkyInUnitBox(m, ray);
      } else {
        HitMaterialFromWorld(m, world, ray, TMin, Unbounded);
        var s := ScatterBy(m, hit.value.material, ray, hit.value, draws(bounce));
        if s.scatters {
          RayColorBounded(m, world, s.scattered, bounce - 1, draws);
          MulInUnitBox(s.attenuation, RayColor(m, world, s.scattered, bounce - 1, draws));
        }
      }
    }
  }

  /** The colour only depends on the draws for bounce counts `1..bounce`:
      each call consumes the draw of its own count and recurses with one
      fewer, so a path scatters at most `bounce` times. */
  lemma {:induction false} RayColorUsesOnlyBounceDraws(m: MathLib, world: seq<Sphere>, ray: Ray, bounce: int,
                                                        draws: Draws, other: Draws)
    requires WellFormed(world)
    requires forall k :: 1 <= k <= bounce ==> draws(k) == other(k)
    ensures RayColor(m, world, ray, bounce, draws) == RayColor(m, world, ray, bounce, other)
    decreases bounce
  {
    if bounce > 0 {
      var hit := ListHit(m, world, ray, TMin, Unbounded);
      if hit.Some? {
        HitMaterialFromWorld(m, world, ray, TMin, Unbounded);
        assert draws(bounce) == other(bounce);
        var s := ScatterBy(m, hit.value.material, ray, hit.value, draws(bounce));
        RayColorUsesOnlyBounceDraws(m, world, s.scattered, bounce - 1, draws, other);
        assert RayColor(m, world, ray, bounce, other) ==
          (if s.scatters then Mul(s.attenuation, RayColor(m, world, s.scattered, bounce - 1, other)) else Zero);
      }
    }
  }

  /** The random values one sample consumes: the two jitters drawn with
      `RandomFloat()` and the draws of its ray path. */
  datatype SampleDraw = SampleDraw(du: real, dv: real, path: Draws)

  /** The random stream of a frame, by pixel column, pixel row and sample
      number. */
  type Stream = (nat, nat, int) -> SampleDraw

  /** The viewport fractions of a sample in pixel `(x, y)`: the jittered
      column over `width - 1`, and one minus the jittered row over
      `height - 1`, so that row 0 is the top of the image. */
  function ViewportPoint(x: nat, y: nat, width: nat, height: nat, du: real, dv: real): (uv: (real, real))
    requires width >= 2 && height >= 2
    ensures uv.0 * (width - 1) as real == x as real + du
    ensures (1.0 - uv.1) * (height - 1) as real == y as real + dv
  {
    ((x as real + du) / (width - 1) as real, 1.0 - (y as real + dv) / (height - 1) as real)
  }

  /** A jitter in [0, 1) keeps the sample inside the pixel's cell: column
      `x` covers `[x, x + 1)` in units of `1 / (width - 1)`, and likewise for
      rows counted from the top. */
  lemma ViewportPointInCell(x: nat, y: nat, width: nat, height: nat, du: real, dv: real)
    requires width >= 2 && height >= 2
    requires 0.0 <= du < 1.0 && 0.0 <= dv < 1.0
    ensures var uv := ViewportPoint(x, y, width, height, du, dv);
      && x as real <= uv.0 * (width - 1) as real < x as real + 1.0
      && y as real <= (1.0 - uv.1) * (height - 1) as real < y as real + 1.0
  {
  }

  /** The row-major position `y * width + x` of pixel `(x, y)` in the
      buffer of a `width` by `height` image: inside the buffer, and inside
      the stretch of row `y`. */
  function PixelIndex(x: nat, y: nat, width: nat, height: nat): (k: nat)
    requires x < width && y < height
    ensures y * width <= k < y * width + width
    ensures k < width * height
  {
    MulMonotone(y + 1, height, width);
    assert (y + 1) * width == y * width + width;
    assert height * width == width * height;
    y * width + x
  }

  /** Distinct pixels have distinct cells. */
  lemma PixelIndexInjective(x: nat, y: nat, x2: nat, y2: nat, width: nat, height: nat)
    requires x < width && x2 < width && y < height && y2 < height
    requires PixelIndex(x, y, width, height) == PixelIndex(x2, y2, width, height)
    ensures x == x2 && y == y2
  {
    if y < y2 {
      RowsApart(y, y2, width);
    } else if y2 < y {
      RowsApart(y2, y, width);
    }
  }

  /** A later row starts at least one full row further on. */
  lemma RowsApart(y: nat, y2: nat, width: nat)
    requires y < y2
    ensures y * width + width <= y2 * width
  {
    MulMonotone(y + 1, y2, width);
    assert (y + 1) * width == y * width + width;
  }

  /** Multiplying by a natural number keeps the order. */
  lemma {:induction false} MulMonotone(a: nat, b: nat, w: nat)
    requires a <= b
    ensures a * w <= b * w
    decreases b - a
  {
    if a < b {
      MulMonotone(a, b - 1, w);
      assert b * w == (b - 1) * w + w;
    }
  }

  /** Everything the colour of a pixel depends on. */
  datatype Frame = Frame(m: MathLib, world: seq<Sphere>, camera: Camera, width: nat, height: nat,
                         samplesPerPixel: int, bounceLimit: int, gamma: real, stream: Stream)
  {
    /** The settings under which every pixel is defined: a zero sample count
        or gamma would divide by zero, and a height below 2 or a width of 1
        would divide by zero in the viewport fractions. */
    predicate Ready() {
      WellFormed(world) && width != 1 && height >= 2 && samplesPerPixel != 0 && gamma != 0.0
    }

    /** The colour of sample `s` of pixel `(x, y)`. */
    function SampleColor(x: nat, y: nat, s: int): Vec3
      requires Ready() && x < width && y < height
    {
      var d := stream(x, y, s);
      var uv := ViewportPoint(x, y, width, height, d.du, d.dv);
      RayColor(m, world, camera.GetRay(uv.0, uv.1), bounceLimit, d.path)
    }

    /** The sum of the first `n` sample colours of pixel `(x, y)`. */
    function PixelSum(x: nat, y: nat, n: int): Vec3
      requires Ready() && x < width && y < height
      decreases n
    {
      if n <= 0 then Zero else Add(PixelSum(x, y, n - 1), SampleColor(x, y, n - 1))
    }

    /** The packed colour written for pixel `(x, y)`. */
    function Pixel(x: nat, y: nat): bv32
      requires Ready() && x < width && y < height
    {
      GetColor(m, PixelSum(x, y, samplesPerPixel), samplesPerPixel, gamma)
    }

    /** The sum of `n` sample colours has every component in `[0, n]`. */
    lemma {:induction false} PixelSumBounded(x: nat, y: nat, n: nat)
      requires Ready() && x < width && y < height
      requires Lawful(m) && AlbedosInUnitBox(world)
      ensures var c := PixelSum(x, y, n);
        0.0 <= c.x <= n as real && 0.0 <= c.y <= n as real && 0.0 <= c.z <= n as real
    {
      if n > 0 {
        PixelSumBounded(x, y, n - 1);
        var d := stream(x, y, n - 1);
        var uv := ViewportPoint(x, y, width, height, d.du, d.dv);
        RayColorBounded(m, world, camera.GetRay(uv.0, uv.1), bounceLimit, d.path);
      }
    }

    /** With albedos in the unit box, the average over the samples lies in
        the unit box, so the clamp in `GetColor` leaves it unchanged. */
    lemma AverageInUnitBox(x: nat, y: nat)
      requires Ready() && x < width && y < height
      requires Lawful(m) && AlbedosInUnitBox(world) && samplesPerPixel > 0
      ensures InUnitBox(Scale(1.0 / samplesPerPixel as real, PixelSum(x, y, samplesPerPixel)))
    {
      PixelSumBounded(x, y, samplesPerPixel);
      AverageInBox(PixelSum(x, y, samplesPerPixel), samplesPerPixel as real);
    }
  }

  /** A colour with components in `[0, n]`, scaled by `1 / n`. */
  lemma AverageInBox(c: Vec3, n: real)
    requires n > 0.0
    requires 0.0 <= c.x <= n && 0.0 <= c.y <= n && 0.0 <= c.z <= n
    ensures InUnitBox(Scale(1.0 / n, c))
  {
    AverageOfBounded(c.x, n);
    AverageOfBounded(c.y, n);
    AverageOfBounded(c.z, n);
  }

  /** A value in `[0, n]` divided by `n` lies in [0, 1]. */
  lemma AverageOfBounded(c: real, n: real)
    requires n > 0.0 && 0.0 <= c <= n
    ensures 0.0 <= (1.0 / n) * c <= 1.0
  {
    var k := 1.0 / n;
    assert Product(k, n) == 1.0;
    if k <= 0.0 {
      ProductSign(n, k);
      assert false;
    }
    ProductNonNegative(k, c);
    ProductNonNegative(k, n - c);
    assert Product(k, n - c) == Product(k, n) - Product(k, c);
  }

  /** The inner sample loop of the pixel loop: it adds up
      `samples_per_pixel` sample colours. */
  method SamplePixel(frame: Frame, x: nat, y: nat) returns (color: Vec3)
    requires frame.Ready() && x < frame.width && y < frame.height
    ensures color == frame.PixelSum(x, y, frame.samplesPerPixel)
  {
    color := Zero;
    var s := 0;
    while s < frame.samplesPerPixel
      invariant 0 <= s && (s == 0 || s <= frame.samplesPerPixel)
      invariant color == frame.PixelSum(x, y, s)
    {
      color := Add(color, frame.SampleColor(x, y, s));
      s := s + 1;
    }
  }

  /** The four spheres of the demo scene, in the order they are added: the
      ground, a diffuse sphere on the left, a mirror on the right and a
      glass sphere in the middle. */
  function DemoWorld(): seq<Sphere> {
    [ Sphere(Vec3(0.0, -1000.0, 0.0), 1000.0, Lambertian(Vec3(0.5, 0.5, 0.5))),
      Sphere(Vec3(-4.0, 1.0, 0.0), 1.0, Lambertian(Vec3(0.4, 0.2, 0.1))),
      Sphere(Vec3(4.0, 1.0, 0.0), 1.0, Metal(0.0, Vec3(0.7, 0.6, 0.5))),
      Sphere(Vec3(0.0, 1.0, 0.0), 1.0, Dielectric(1.5)) ]
  }

  /** The demo scene can be rendered and never brightens a ray. */
  lemma DemoWorldWellFormed()
    ensures WellFormed(DemoWorld()) && AlbedosInUnitBox(DemoWorld())
  {
  }

  /** `Scene::RandomScene`: a new list holding the four demo spheres. */
  method RandomScene() returns (world: HittableList)
    ensures fresh(world)
    ensures world.objects == DemoWorld()
  {
    world := new HittableList();
    world.Add(Sphere(Vec3(0.0, -1000.0, 0.0), 1000.0, Lambertian(Vec3(0.5, 0.5, 0.5))));
    world.Add(Sphere(Vec3(-4.0, 1.0, 0.0), 1.0, Lambertian(Vec3(0.4, 0.2, 0.1))));
    world.Add(Sphere(Vec3(4.0, 1.0, 0.0), 1.0, Metal(0.0, Vec3(0.7, 0.6, 0.5))));
    world.Add(Sphere(Vec3(0.0, 1.0, 0.0), 1.0, Dielectric(1.5)));
  }

  /** The indices `0, 1, ..., n - 1`. */
  function Range(n: nat): (r: seq<nat>)
    ensures |r| == n && forall i :: 0 <= i < n ==> r[i] == i
  {
    seq(n, i requires 0 <= i => i as nat)
  }

  /** The index lists as the source keeps them: each reallocation appends
      `0, ..., n - 1` to the previous list, which is never cleared. */
  function AppendedIndices(previous: seq<nat>, n: nat): (r: seq<nat>)
    ensures |r| == |previous| + n
    ensures forall i :: 0 <= i < |previous| ==> r[i] == previous[i]
    ensures r[|previous|..] == Range(n)
  {
    previous + Range(n)
  }

  /** As written, a frame of `w0` by `h0` pixels followed by one of `w1` by
      `h1` with `w1 < w0` leaves column `w0 - 1` in the column list next to
      row `h1 - 1` in the row list, and the cell `(h1 - 1) * w1 + w0 - 1` the
      loop writes for that pair lies beyond the new buffer of `w1 * h1`
      cells. */
  lemma AppendedIndicesOverrun(w0: nat, h0: nat, w1: nat, h1: nat)
    requires w1 < w0 && 0 < h1
    ensures var columns := AppendedIndices(AppendedIndices([], w0), w1);
      var rows := AppendedIndices(AppendedIndices([], h0), h1);
      && columns[w0 - 1] == w0 - 1 && rows[h0 + h1 - 1] == h1 - 1
      && (h1 - 1) * w1 + (w0 - 1) >= w1 * h1
  {
    assert h1 * w1 == (h1 - 1) * w1 + w1;
    assert w1 * h1 == h1 * w1;
  }

  /** The smallest instance: a 2 by 2 frame, then a 1 by 1 frame. Both lists
      become `[0, 1, 0]`, and pixel `(1, 1)` is written to cell 2 of a
      one-cell buffer. */
  lemma ShrinkTwoToOne()
    ensures AppendedIndices(AppendedIndices([], 2), 1) == [0, 1, 0]
  {
    assert AppendedIndices([], 2) == [0, 1];
  }

  /** With the lists rebuilt from scratch, as `Scene.Render` does, every
      listed pair addresses a cell inside the buffer. */
  lemma RebuiltIndicesInBounds(width: nat, height: nat)
    ensures forall i, j :: 0 <= i < |Range(width)| && 0 <= j < |Range(height)| ==>
      Range(height)[j] * width + Range(width)[i] < width * height
  {
    forall i, j | 0 <= i < width && 0 <= j < height
      ensures Range(height)[j] * width + Range(width)[i] < width * height
    {
      var k := PixelIndex(i, j, width, height);
    }
  }

  /** The scene viewport: its size, the image buffer with the size it was
      allocated for (absent before the first frame), the row and column
      index lists the pixel loop walks, and the render settings. */
  class Scene {
    var width: nat
    var height: nat
    var imageSize: Option<(nat, nat)>
    var imageData: array<bv32>
    var horizontal: seq<nat>
    var vertical: seq<nat>
    var samplesPerPixel: int
    var bounceLimit: int
    var gamma: real

    /** Once an image exists, the buffer has one cell per pixel of it and the
        index lists enumerate its columns and rows. */
    predicate Valid()
      reads this
    {
      imageSize.Some? ==>
        && imageData.Length == imageSize.value.0 * imageSize.value.1
        && horizontal == Range(imageSize.value.0)
        && vertical == Range(imageSize.value.1)
    }

    /** A fresh scene: no image yet, 64 samples, 10 bounces, gamma 1.05. */
    constructor ()
      ensures Valid()
      ensures width == 0 && height == 0 && imageSize == None
      ensures horizontal == [] && vertical == []
      ensures samplesPerPixel == 64 && bounceLimit == 10 && gamma == 1.05
    {
      width := 0;
      height := 0;
      imageSize := None;
      imageData := new bv32[0];
      horizontal := [];
      vertical := [];
      samplesPerPixel := 64;
      bounceLimit := 10;
      gamma := 1.05;
    }

    /** The viewport size is the available content region, truncated to
        `uint32_t`. */
    method SetViewport(availableX: real, availableY: real)
      requires Valid()
      modifies this`width, this`height
      ensures Valid()
      ensures width == ToUint32(availableX) && height == ToUint32(availableY)
    {
      width := ToUint32(availableX);
      height := ToUint32(availableY);
    }

    /** The three sliders: samples and bounces are clamped into `[1, 1000]`,
        gamma into `[0, 10]`; a value already in range is kept. */
    method SetSettings(samples: int, bounces: int, newGamma: real)
      requires Valid()
      modifies this`samplesPerPixel, this`bounceLimit, this`gamma
      ensures Valid()
      ensures 1 <= samplesPerPixel <= 1000 && 1 <= bounceLimit <= 1000 && 0.0 <= gamma <= 10.0
      ensures samplesPerPixel == ClampInt(samples, 1, 1000)
      ensures bounceLimit == ClampInt(bounces, 1, 1000)
      ensures gamma == Clamp(newGamma, 0.0, 10.0)
    {
      samplesPerPixel := ClampInt(samples, 1, 1000);
      bounceLimit := ClampInt(bounces, 1, 1000);
      gamma := Clamp(newGamma, 0.0, 10.0);
    }

    /** The frame `Render` draws: the demo world seen through the camera the
        lens builds for the integer aspect ratio `width / height`. */
    function CurrentFrame(m: MathLib, lens: real -> Camera, stream: Stream): Frame
      reads this
      requires height != 0
    {
      Frame(m, DemoWorld(), lens((width / height) as real), width, height,
            samplesPerPixel, bounceLimit, gamma, stream)
    }

    /** `Scene::Render`. When there is no image or its size differs from the
        viewport, a new buffer of `width * height` cells is allocated and the
        index lists are rebuilt; then every pixel `(x, y)` gets the packed
        average of its samples at cell `y * width + x`. */
    method Render(m: MathLib, lens: real -> Camera, stream: Stream)
      requires Valid()
      requires width != 1 && height >= 2 && samplesPerPixel != 0 && gamma != 0.0
      requires width * height < Uint32Limit
      modifies this, imageData
      ensures Valid()
      ensures imageSize == Some((width, height))
      ensures width == old(width) && height == old(height)
      ensures samplesPerPixel == old(samplesPerPixel) && bounceLimit == old(bounceLimit)
      ensures gamma == old(gamma)
      ensures old(imageSize) == Some((width, height)) ==> imageData == old(imageData)
      ensures old(imageSize) != Some((width, height)) ==> fresh(imageData)
      ensures CurrentFrame(m, lens, stream).Ready()
      ensures forall y, x :: 0 <= y < height && 0 <= x < width ==>
        imageData[PixelIndex(x, y, width, height)] == CurrentFrame(m, lens, stream).Pixel(x, y)
    {
      if imageSize.None? || width != imageSize.value.0 || height != imageSize.value.1 {
        imageSize := Some((width, height));
        imageData := new bv32[width * height];
        var columns: seq<nat> := [];
        for i := 0 to width
          invariant columns == Range(i)
        {
          columns := columns + [i];
        }
        var rows: seq<nat> := [];
        for i := 0 to height
          invariant rows == Range(i)
        {
          rows := rows + [i];
        }
        horizontal := columns;
        vertical := rows;
      }
      DemoWorldWellFormed();
      var camera := lens((width / height) as real);
      var world := RandomScene();
      var objects := world.GetObjects();
      var frame := Frame(m, objects, camera, width, height, samplesPerPixel, bounceLimit, gamma, stream);
      assert frame == CurrentFrame(m, lens, stream);
      Paint(frame, horizontal, vertical, imageData);
    }
  }

  /** The parallel pixel loop over the row list and the column list, as a
      sequential loop: every pixel gets the packed average of its samples. */
  method Paint(frame: Frame, columns: seq<nat>, rows: seq<nat>, data: array<bv32>)
    requires frame.Ready() && frame.width * frame.height == data.Length
    requires columns == Range(frame.width) && rows == Range(frame.height)
    modifies data
    ensures forall y, x :: 0 <= y < frame.height && 0 <= x < frame.width ==>
      data[PixelIndex(x, y, frame.width, frame.height)] == frame.Pixel(x, y)
  {
    for j := 0 to |rows|
      invariant forall y, x :: 0 <= y < j && 0 <= x < frame.width ==>
        data[PixelIndex(x, y, frame.width, frame.height)] == frame.Pixel(x, y)
    {
      forall y, x | 0 <= y < j && 0 <= x < frame.width
        ensures PixelIndex(x, y, frame.width, frame.height) < j * frame.width
      {
        RowsApart(y, j, frame.width);
      }
      PaintRow(frame, columns, rows[j], data);
    }
  }

  /** One row of the pixel loop; the cells of other rows keep their values. */
  method PaintRow(frame: Frame, columns: seq<nat>, y: nat, data: array<bv32>)
    requires frame.Ready() && frame.width * frame.height == data.Length
    requires columns == Range(frame.width) && y < frame.height
    modifies data
    ensures forall x :: 0 <= x < frame.width ==>
      data[PixelIndex(x, y, frame.width, frame.height)] == frame.Pixel(x, y)
    ensures forall k :: 0 <= k < data.Length && !(y * frame.width <= k < y * frame.width + frame.width) ==>
      data[k] == old(data[k])
  {
    for i := 0 to |columns|
      invariant forall x :: 0 <= x < i ==> data[PixelIndex(x, y, frame.width, frame.height)] == frame.Pixel(x, y)
      invariant forall k :: 0 <= k < data.Length && !(y * frame.width <= k < y * frame.width + frame.width) ==>
        data[k] == old(data[k])
    {
      PaintPixel(frame, columns[i], y, data);
    }
  }

  /** The body of the pixel loop: the samples of pixel `(x, y)` are added up
      and packed into its cell; no other cell changes. */
  method PaintPixel(frame: Frame, x: nat, y: nat, data: array<bv32>)
    requires frame.Ready() && frame.width * frame.height == data.Length
    requires x < frame.width && y < frame.height
    modifies data
    ensures data[PixelIndex(x, y, frame.width, frame.height)] == frame.Pixel(x, y)
    ensures forall k :: 0 <= k < data.Length && k != PixelIndex(x, y, frame.width, frame.height) ==>
      data[k] == old(data[k])
  {
    var color := SamplePixel(frame, x, y);
    var packed := GetColor(frame.m, color, frame.samplesPerPixel, frame.gamma);
    assert packed == frame.Pixel(x, y);
    var k := PixelIndex(x, y, frame.width, frame.height);
    assert k == y * frame.width + x;
    data[k] := packed;
  }
}

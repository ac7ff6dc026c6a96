# A verified model of the ray tracer's core

This project models the CPU path tracer of `maoz233/ray-tracing` in Dafny, together with the small selection rules of its Vulkan front end, and proves properties of that model.

The model is made of these parts:

- **Rays.** A ray is an origin and a direction, and `At(t)` is the point `origin + t * direction`.
- **Hit records.** The face-normal convention makes the stored normal point against the incoming ray.
- **Sphere hit test.** It prefers the nearer root of the ray-sphere quadratic and falls back to the farther one. A root counts only when it lies in the closed interval `[tMin, tMax]`.
- **World scan.** The nearest-hit scan narrows `closest_so_far` as it goes.
- **Three materials.** Lambertian (diffuse), metal and dielectric (glass, with Schlick's reflectance).
- **Pinhole camera.** `GetRay(u, v)` through the default camera's viewport.
- **Renderer.**
  - The bounce-bounded recursive ray colour with a sky gradient.
  - The pixel loop, which averages `samples_per_pixel` samples and writes each pixel into a `width * height` buffer of packed `0xAABBGGRR` words.
  - The four-sphere demo scene.
- **Random helpers.**
  - A `RandomFloat` whose `static` distribution is fixed by its first call.
  - The rejection loops for points in the unit ball, the hemisphere and the unit disk.
- **Vulkan front end.**
  - Device scoring and picking, queue-family discovery and memory-type matching.
  - Surface format, present mode, extent, image count and sharing mode for the swap chain.
  - The frame index and the resize flag that one frame of `DrawFrame` updates.

Floating-point numbers are modelled as Dafny `real`, and integer widths are written out where they matter.

`sqrt` and `pow` are carried by a `MathLib` value. The predicate `Lawful` states the laws the proofs use, and every lemma that relies on them assumes `Lawful(m)`. `normalize`, `reflect` and `refract` are written out as glm defines them.

The renderer does not call a random generator. The values it would draw are parameters:

- A `Draw` holds what one scatter consumes.
- A `SampleDraw` holds what one sample consumes.
- A `Stream` supplies them by pixel and by sample.

Vulkan, GLFW and window-system calls are also replaced by the values they return: device reports, surface capabilities, framebuffer sizes, and the result codes of acquire, submit and present.

The files follow the source's structure:

| file | models |
|---|---|
| `vectors.dfy` | glm vectors, `normalize`, `reflect`, `refract` |
| `arith.dfy` | arithmetic facts over reals and integers |
| `wrappers.dfy` | `Option` and `Result` |
| `rays.dfy` | `src/ray.cc` |
| `materials.dfy` | the material variants and the scatter result |
| `hittables.dfy` | `include/hittable.h` |
| `spheres.dfy` | `src/sphere.cc` |
| `hittable_lists.dfy` | `src/hittable_list.cc` |
| `lambertian.dfy`, `metal.dfy`, `dielectric.dfy` | the three `Scatter` rules |
| `cameras.dfy` | `src/camera.cc` |
| `utils.dfy` | the numeric and random helpers of `src/utils.cc` |
| `scenes.dfy` | `src/scene.cc` |
| `vulkan_utils.dfy` | the selection helpers of `src/utils.cc` |
| `applications.dfy` | `src/application.cc` |

## Model

| member | source | states |
|---|---|---|
| Rays.Ray.At | src/ray.cc:22 | the point minus the origin is `t` times the direction |
| Rays.AtZero | src/ray.cc:22 | at parameter 0 the ray is at its origin |
| Rays.AtDifference | src/ray.cc:22 | `At(s) - At(t) = (s - t) * direction` for all `s`, `t` |
| Hittables.OrientNormal | include/hittable.h:27-28 | the stored normal never points along the ray; it is the outward normal or its negation with the same length; a grazing ray (dot 0) gets the negated normal |
| Hittables.HitRecord.constructor | src/hittable_list.cc:37 | a value-initialised record is all zero with no material |
| Hittables.HitRecord.SetFaceNormal | include/hittable.h:26-29 | `front_face` iff `dot(direction, outward) < 0`; the normal is oriented against the ray; `t`, `point` and the material are unchanged |
| Hittables.HitRecord.CopyFrom | src/hittable_list.cc:43 | record assignment copies every field |
| Spheres.Sphere.OutwardNormal | src/sphere.cc:58 | `(point - center) / radius` is a unit vector for a point on the sphere; it points outward for a positive radius and inward for a negative one |
| Spheres.Sphere.HitAt | src/sphere.cc:55-61 | the record holds `t`, `ray.At(t)` and the sphere's material; its normal is `(point - center) / radius` oriented against the ray by `SetFaceNormal`, so it is a unit vector for a point on the sphere |
| Spheres.Sphere.Intersect | src/sphere.cc:29-52 | a reported hit lies in the closed interval `[tMin, tMax]` and is the record filled for that root |
| Spheres.Sphere.Hit | src/sphere.cc:27-64 | returns true iff the value-level test finds a hit; on a hit the record holds it; otherwise the record is untouched |
| Spheres.ContainsIffRoot | src/sphere.cc:29-34 | `ray.At(t)` is on the sphere iff `t` is a root of the computed quadratic |
| Spheres.RootsAreCandidates | src/sphere.cc:42-47 | for `a > 0` and a non-negative discriminant, the roots are exactly `(-half_b -+ sqrtd) / a` |
| Spheres.NoRootsWhenDiscriminantNegative | src/sphere.cc:34-39 | a negative discriminant means no parameter reaches the sphere |
| Spheres.NearNotBeyondFar | src/sphere.cc:43-47 | the first candidate tried is never beyond the second |
| Spheres.IntersectIsFirstContact | src/sphere.cc:29-56 | for a non-zero direction: no hit iff no point of the interval is on the sphere; a hit is on the sphere and no smaller parameter in the interval reaches it |
| Spheres.IntersectNarrowed | src/sphere.cc:46-51 | querying with a smaller bound `b` keeps the hit if it is at or before `b` and loses it otherwise |
| HittableLists.ListHit | src/hittable_list.cc:33-48 | the scan's hit lies in `[tMin, tMax]` |
| HittableLists.ListHitNone | src/hittable_list.cc:35-47 | the scan finds nothing iff no object has a hit in the interval |
| HittableLists.ListHitNearest | src/hittable_list.cc:39-44 | the result is some object's own hit over the full interval; no object has a nearer hit; every later object's hit is strictly farther, so ties go to the object added last |
| HittableLists.ListHitPrefix | src/hittable_list.cc:36-42 | scanning more objects never loses a hit and never moves it farther: `closest_so_far` never grows |
| HittableLists.NearestVisibleSurface | src/hittable_list.cc:33-48 | for a non-zero direction the scan returns a point on some sphere, no sphere is met earlier in the interval, and no hit means no sphere is met at all |
| HittableLists.HittableList.constructor | include/hittable_list.h:24 | a new list is empty |
| HittableLists.HittableList.Single | src/hittable_list.cc:21 | the one-object constructor yields exactly that object |
| HittableLists.HittableList.GetObjects | src/hittable_list.cc:23-25 | returns the objects unchanged |
| HittableLists.HittableList.Add | src/hittable_list.cc:27-29 | appends at the end and keeps the earlier order |
| HittableLists.HittableList.Clear | src/hittable_list.cc:31 | the list becomes empty |
| HittableLists.HittableList.Hit | src/hittable_list.cc:33-48 | the loop returns true iff the scan has a hit and leaves the scan's hit in the record; with no hit the record is unchanged |
| LambertianMaterial.Scatter | src/lambertian.cc:24-38 | always scatters from the hit point with the albedo; the direction is the candidate exactly when the candidate is not near zero, and the normal otherwise; it is near zero only if the normal is |
| MetalMaterial.Scatter | src/metal.cc:25-35 | the attenuation is the albedo even when absorbed; the direction is the reflected unit direction offset by `fuzz` times the random point; it scatters iff `dot(direction, normal) > 0` |
| MetalMaterial.FuzzWithinRadius | src/metal.cc:27-31 | with the random point inside the unit ball, the scattered direction lies within `fuzz` of the mirror direction, strictly for a non-zero fuzz |
| MetalMaterial.FuzzBelowCosineScatters | src/metal.cc:27-34 | with a unit normal, an incoming ray against it, a point inside the unit ball and `0 <= fuzz <= cos(incidence)`, the ray always scatters |
| MetalMaterial.MirrorAlwaysScatters | src/metal.cc:27-34 | with `fuzz = 0`, a unit normal and an incoming ray against it, the ray always scatters along the mirror direction |
| DielectricMaterial.RefractionRatio | src/dielectric.cc:32-33 | `1 / index` on a front face, `index` on a back face |
| DielectricMaterial.CosTheta | src/dielectric.cc:36 | the cosine is at most 1 and at most `dot(-unit, normal)`, and equals one of them |
| DielectricMaterial.ReflectanceAtNormalIncidence | src/dielectric.cc:57-62 | `Reflectance(1, k) = r0 = ((1 - k) / (1 + k))^2` |
| DielectricMaterial.ReflectanceMatchedIndex | src/dielectric.cc:57-62 | `Reflectance(c, 1) = (1 - c)^5` |
| DielectricMaterial.ReflectanceIsProbability | src/dielectric.cc:57-62 | for a cosine in [0, 1] and a positive ratio the reflectance is in [0, 1] |
| DielectricMaterial.ChooseDirection | src/dielectric.cc:36-47 | when refraction is impossible the mirror direction whatever the draw; otherwise the mirror direction iff the Schlick reflectance exceeds the draw, and the refracted direction iff it does not |
| DielectricMaterial.Scatter | src/dielectric.cc:28-55 | always scatters from the hit point, untinted; the direction is `refract` applied again to the mirror direction under total internal reflection or when the reflectance exceeds the draw, and to the refracted direction otherwise |
| DielectricMaterial.CosineAndSineInUnitInterval | src/dielectric.cc:36-37 | for a face-oriented normal, cosine and sine both lie in [0, 1] |
| DielectricMaterial.FrontFaceNeverTotallyReflects | src/dielectric.cc:32-39 | entering glass of index at least 1 through the front face never takes the total-reflection branch |
| DielectricMaterial.PassThroughWhenIndexOne | src/dielectric.cc:42-52 | with index 1 and a draw at or above the reflectance, the ray leaves along its unit direction |
| DielectricMaterial.IndexOneIsTransparent | src/dielectric.cc:28-55 | at index 1 with a unit normal and any draw, the scattered direction is the unit incoming direction: the second `refract` reflects the mirror branch back |
| DielectricMaterial.ReflectionRefractedAgain | src/dielectric.cc:42-52 | a ray straight down onto glass of index 1.5 with draw 0 chooses the mirror direction, yet the second `refract` sends it on straight down |
| DielectricMaterial.StraightDownReflects | src/dielectric.cc:36-44 | at normal incidence with draw 0 the reflect branch is chosen |
| DielectricMaterial.GlassAtNormalIncidence | src/dielectric.cc:32-62 | glass of index 1.5 entered head-on can refract and reflects with probability 0.04 |
| DielectricMaterial.RefractAlongNormal | src/dielectric.cc:49-50 | refracting a unit normal about itself reverses it, at any ratio |
| Cameras.Camera.GetRay | src/camera.cc:30-32 | the ray starts at the origin with no lens offset and passes through `lower_left + u * horizontal + v * vertical` |
| Cameras.PinholeRays | src/camera.cc:17-28 | the centre ray points straight ahead at the focal length; the corner rays point at the viewport corners; the edges are orthogonal, with width equal to the aspect ratio times the height |
| Cameras.PinholeFields | src/camera.cc:21-27 | the viewport's edges and lower-left corner in closed form |
| Cameras.DefaultViewport | src/camera.cc:17-28 | the default camera: origin 0, lower-left `(-16/9, -1, -1)`, horizontal `(32/9, 0, 0)`, vertical `(0, 2, 0)` |
| Cameras.GetRayAffine | src/camera.cc:31 | moving `(u, v)` by `(du, dv)` moves the direction by `du * horizontal + dv * vertical` |
| Cameras.GetRayCorner | src/camera.cc:31 | `GetRay(0, 0)` points at the lower-left corner |
| Scenes.HitMaterialFromWorld | src/sphere.cc:61 | the material in the scan's hit is the material of one of the world's spheres |
| Scenes.ScatterBy | src/scene.cc:290 | dispatches to the hit material's rule: only metal can absorb, glass is untinted, the others use their albedo |
| Scenes.SkyBlend | src/scene.cc:298-301 | `y = -1` gives white, `y = 1` gives `(0.5, 0.7, 1)`, and every height in between blends the two |
| Scenes.SkyInUnitBox | src/scene.cc:298-303 | the sky colour of any ray lies in the unit box |
| Scenes.RayColor | src/scene.cc:276-304 | black when `bounce <= 0`; the sky on a miss over `[0.001, +inf]` |
| Scenes.RayColorBounded | src/scene.cc:276-304 | with albedos in the unit box every ray colour lies in the unit box |
| Scenes.RayColorUsesOnlyBounceDraws | src/scene.cc:281-291 | the colour depends only on the draws for counts `1..bounce`, so a path scatters at most `bounce` times |
| Scenes.ViewportPoint | src/scene.cc:228-231 | `u * (width - 1) = x + du` and `(1 - v) * (height - 1) = y + dv` |
| Scenes.ViewportPointInCell | src/scene.cc:228-231 | jitters in [0, 1) keep each sample inside its pixel's cell |
| Scenes.PixelIndex | src/scene.cc:237 | `y * width + x` lies inside row `y` and inside the `width * height` buffer |
| Scenes.PixelIndexInjective | src/scene.cc:237 | distinct pixels get distinct cells |
| Scenes.Frame.PixelSumBounded | src/scene.cc:227-235 | the sum of `n` samples has every component in `[0, n]` |
| Scenes.Frame.AverageInUnitBox | src/scene.cc:227-238 | the average over the samples lies in the unit box, so the clamp in `GetColor` does not change it |
| Scenes.SamplePixel | src/scene.cc:225-235 | the sample loop's sum is `PixelSum` over `samples_per_pixel` samples |
| Scenes.DemoWorldWellFormed | src/scene.cc:306-364 | the demo scene has non-zero radii, usable materials and albedos in the unit box |
| Scenes.RandomScene | src/scene.cc:306-364 | a new list holding the four demo spheres in order |
| Scenes.AppendedIndices | src/scene.cc:200-205 | each reallocation appends `0..n-1` after the old entries, which stay |
| Scenes.AppendedIndicesOverrun | src/scene.cc:200-237 | after a frame of width `w0` and then a narrower frame, the loop writes a cell beyond the new buffer |
| Scenes.ShrinkTwoToOne | src/scene.cc:200-205 | a 2 by 2 frame followed by a 1 by 1 frame leaves both lists as `[0, 1, 0]` |
| Scenes.RebuiltIndicesInBounds | src/scene.cc:219-238 | with the lists rebuilt, every listed pair addresses a cell inside the buffer |
| Scenes.Scene.constructor | include/scene.h:46-62 | no image yet; 64 samples, 10 bounces, gamma 1.05 |
| Scenes.Scene.SetViewport | src/scene.cc:58-59 | the viewport size is the available region truncated to `uint32_t` |
| Scenes.Scene.SetSettings | src/scene.cc:110-125 | samples and bounces are clamped into `[1, 1000]` and gamma into `[0, 10]` |
| Scenes.Scene.Render | src/scene.cc:186-274 | the corrected render of the first row under Findings (the index lists are rebuilt on a size change instead of appended to): every pixel `(x, y)` ends up holding the packed average of its samples at `y * width + x`, and the buffer and index lists stay consistent |
| Scenes.Paint | src/scene.cc:219-240 | the sequential pixel loop writes every pixel's packed colour |
| Scenes.PaintRow | src/scene.cc:222-239 | one row is written and the cells of other rows keep their values |
| Scenes.PaintPixel | src/scene.cc:225-238 | one pixel's cell gets its packed colour and no other cell changes |
| Utils.NearZeroIsShort | src/utils.cc:694-699 | a near-zero vector has squared length below `3e-16`, and the zero vector is near zero |
| Utils.ToUint32 | src/utils.cc:661-663 | truncation toward zero into `[0, 2^32)` |
| Utils.Clamp | src/utils.cc:659 | the result lies in `[lo, hi]`; it is `x` when `x` is already there, `lo` below the range and `hi` above it |
| Utils.Channel | src/utils.cc:657-663 | a `uint32_t` value; with `gamma >= 1` at most 255; with `gamma = 1` exactly `floor(clamp(c / samples, 0, 1) * 255)`, so a saturated channel is 255 |
| Utils.GetColor | src/utils.cc:655-666 | the top byte is always `0xFF` |
| Utils.PackedBytes | src/utils.cc:665 | channels below 256 land in bytes 0, 1 and 2 |
| Utils.GetColorLayout | src/utils.cc:655-666 | with `gamma >= 1`, red, green and blue are bytes 0, 1 and 2 |
| Utils.GammaBelowOneBleeds | src/utils.cc:655-666 | with gamma 0.5, which the slider allows, pure red encodes as 65025 and sets the green byte to `0xFE` |
| Utils.DegreesToRadians | src/utils.cc:736 | the map is proportional, and 180 degrees is `PI` |
| Utils.FlipToHemisphere | src/utils.cc:717-721 | the result is on the normal's side and has the same length as the point |
| Utils.Uniform | src/utils.cc:682-687 | an engine output in [0, 1) maps into `[min, max)` |
| Utils.FixedOn | src/utils.cc:683 | the static distribution is built on the first call and kept afterwards |
| Utils.RandomSource.constructor | src/utils.cc:684 | a fresh generator has drawn nothing and has no distribution yet |
| Utils.RandomSource.RandomFloat | src/utils.cc:682-687 | one engine output, mapped through the distribution of the first call |
| Utils.RandomSource.RandomVec3 | src/utils.cc:689-692 | three consecutive draws through the first call's distribution, read left to right as x, y and z |
| Utils.RandomSource.RandomInUnitSphere | src/utils.cc:701-711 | a returned point is the first of the three-output draws inside the unit ball, every earlier draw lies outside it, and the engine has advanced by three outputs per draw; the point lies in the box of the fixed distribution; `None` means all `fuel` draws lay outside |
| Utils.RandomSource.RandomInHemiSphere | src/utils.cc:713-722 | a returned point is the first draw inside the unit ball, flipped onto the normal's side, with the earlier draws outside; `None` means all `fuel` draws lay outside |
| Utils.RandomSource.RandomInUnitDisk | src/utils.cc:724-734 | a returned point has `z = 0` and is the first of the two-output draws inside the unit disk, with every earlier draw outside it and the engine advanced by two outputs per draw; `None` means all `fuel` draws lay outside |
| VulkanUtils.CheckVulkanResult | src/utils.cc:52-56 | success iff the result is `VK_SUCCESS`; otherwise it fails with the given message |
| VulkanUtils.QueryQueueFamilies | src/utils.cc:230-262 | each reported index can play its role; a role stays empty iff no family can play it; complete iff both roles can be filled |
| VulkanUtils.ChooseSwapSurfaceFormat | src/utils.cc:331-341 | the RGBA8 sRGB format when offered, else the first one |
| VulkanUtils.ChooseSwapPresentMode | src/utils.cc:343-352 | MAILBOX iff it is offered, otherwise FIFO |
| VulkanUtils.AsUint32 | src/utils.cc:363-364 | the `uint32_t` cast of an `int` is its value modulo `2^32` |
| VulkanUtils.ChooseSwapExtent | src/utils.cc:354-375 | `currentExtent` unless its width is `UINT32_MAX`; otherwise, per axis, the framebuffer size read as `uint32_t`: kept when within the limits, `minImageExtent` below them (a minimised window) and `maxImageExtent` above them |
| VulkanUtils.FindMemoryType | src/utils.cc:480-496 | the least suitable index; 0 when none qualifies, with no error raised |
| VulkanUtils.RequiredDeviceExtensions | src/utils.cc:195-198 | the swapchain extension always, the portability subset exactly on Apple |
| VulkanUtils.MissingExtensions | src/utils.cc:207-211 | an extension is missing iff it is required and not offered |
| VulkanUtils.EvaluatePhysicalDevice | src/utils.cc:169-228 | the score equals the scoring rule `Score` |
| VulkanUtils.IncompleteQueuesScoreLow | src/utils.cc:189-223 | incomplete queue families reset the score to -1000, discarding the bonuses; the later penalties still apply |
| VulkanUtils.PositiveScoreHasQueues | src/utils.cc:189-223 | a positive score implies complete queue families |
| VulkanUtils.PenaltiesDoNotDisqualify | src/utils.cc:176-223 | with complete queues, a large enough `maxImageDimension2D` outweighs every penalty |
| VulkanUtils.DiscreteOutranksIntegrated | src/utils.cc:176-178 | a discrete GPU scores 1000 more than the same device integrated |
| Applications.BestCandidate | src/application.cc:232-240 | `rbegin()` of the score multimap: a maximal score, and the last one among equal maxima |
| Applications.BestCandidateExtended | src/application.cc:232-236 | inserting a score moves the best candidate to it iff it is at least as high |
| Applications.Scores | src/application.cc:232-236 | every device's score, in enumeration order |
| Applications.PickedDeviceHasQueues | src/application.cc:238-240 | a device picked with a positive score has complete queue families |
| Applications.UniqueQueueFamilies | src/application.cc:253-267 | the set `{graphics, present}` in ascending order: one entry when they are equal, two otherwise; an absent index throws |
| Applications.ImageCount | src/application.cc:320-324 | `minImageCount + 1`, lowered to `maxImageCount` only when that is positive and smaller |
| Applications.ImageSharing | src/application.cc:336-347 | CONCURRENT with both indices iff the families differ, otherwise EXCLUSIVE with none |
| Applications.SwapChainSettings | src/application.cc:310-347 | format, present mode, extent, image count and sharing follow the rules above; it fails iff a queue family is absent |
| Applications.DrawFrameStep | src/application.cc:587-727 | the frame is skipped, keeping the state, iff the acquire is out of date; it fails with the acquire, submit or present message exactly when that call fails; otherwise the index advances modulo 2 and stays in {0, 1}; the corrected present path clears the resize flag |
| Applications.DrawFrameAsWritten | src/application.cc:716-726 | the source's frame: the same outcome and frame index as `DrawFrameStep`, but the resize flag is left as it was |
| Applications.AsWrittenRebuildsEveryFrame | src/application.cc:716-726 | once the flag is set, every fully successful frame rebuilds the swap chain and the flag stays set |
| Applications.ResizeRebuildsOnce | src/application.cc:716-726 | with the flag cleared on rebuild, one resize rebuilds once and the next frame presents |
| Applications.Application.constructor | include/application.h:82-110 | no device, frame 0, flag clear |
| Applications.Application.PickPhysicalDevice | src/application.cc:218-245 | throws on zero devices; takes the best candidate when its score is positive and otherwise keeps the earlier handle; throws "no suitable GPU" exactly when the handle is then still null |
| Applications.Application.DrawFrame | src/application.cc:587-727 | the corrected frame of the second row under Findings (the resize flag is cleared when the swap chain is rebuilt after present): the fields move as `DrawFrameStep` says, and the frame index stays below 2 |
| Applications.Application.SetFramebufferResized | src/application.cc:794-796 | sets the flag to the argument and changes nothing else |
| Applications.FramebufferResizeCallback | src/utils.cc:472-478 | sets the flag iff both sizes are non-zero |

## Left out

- Floating point: rounding, NaN and infinity are not modelled. Reals stand for floats throughout.
- `Normalize` of the zero vector returns the vector; the source produces NaN.
- Spheres.Sphere.Intersect: a ray with a zero direction (`a = 0`) is reported as a miss; the source divides by zero.
- Utils.ToUint32: the undefined float-to-`uint32_t` cast of a value outside `(-1, 2^32)` is mapped to 0.
- Scenes.Scene.Render:
  - requires `width != 1` and `height >= 2`: the source divides by `width - 1` and `height - 1` in floating point, and a zero height already fails at the integer division `width_ / height_` of the camera's aspect ratio (src/scene.cc:214);
  - requires a non-zero sample count and gamma, which `GetColor` divides by;
  - requires `width * height < 2^32`: the source's `uint32_t` product wraps.
- Scenes.Scene.Render: the camera is built by a `lens` parameter from the integer aspect ratio `width / height`. The seven-argument camera constructor it calls has no definition in the repository, and the default camera is modelled in `cameras.dfy`.
- Scenes.Scene.Render:
  - the parallel `std::for_each` is modelled as a sequential loop;
  - the timing code is left out;
  - the GPU upload of the buffer (`Image::SetData`) is left out;
  - the `Image` object itself is reduced to the size it was allocated for.
- Utils.RandomSource.RandomInUnitSphere: it gives up after `fuel` rejected draws and then returns `None`. The source loops until it succeeds, which happens only with probability 1. The same holds for `RandomInHemiSphere` and `RandomInUnitDisk`.
- Utils.RandomSource.RandomVec3: the model evaluates the three `RandomFloat` arguments of the `glm::vec3` constructor left to right, so x, y and z are consecutive engine outputs. C++ leaves the evaluation order of function arguments unspecified, and a compiler may assign them in another order. The same holds for `RandomInUnitSphere`, `RandomInHemiSphere` and `RandomInUnitDisk` (src/utils.cc:690-691, 726). Only which output becomes which coordinate of the returned point is affected. The rejection test `dot(p, p) >= 1` does not depend on the order.
- Utils.RandomSource.RandomInUnitSphere: the `static` distribution takes its range from the first call of `RandomFloat`. In the renderer that is the argument-less call of src/scene.cc:228, so the `RandomVec3(-1, 1)` of src/utils.cc:702 draws from the default range of that call and not from [-1, 1). The model keeps this behaviour and states only that the point lies in the box of the fixed distribution. It is not listed under Findings because the model has no corrected generator.
- Utils.Channel: a gamma below 1, which the slider of src/scene.cc:110-125 allows, raises a channel above 255, and the excess spills into the next byte of the packed word (src/utils.cc:660-665). The model keeps this behaviour and `Utils.GammaBelowOneBleeds` exhibits it. It is not listed under Findings because the model has no corrected encoder.
- `std::mt19937` is an arbitrary stream of outputs in [0, 1). Uniformity and other statistics of the sampling are not modelled.
- The shared generator's thread safety is not modelled.
- Utils.GetColor (the overload for `glm::vec4`) is not modelled; the renderer uses the `vec3` one.
- Vulkan, GLFW and ImGui calls are not modelled: creation of instances, devices, swap chains, images, pipelines and commands, and queue submission. Their results are parameters.
- `RecreateSwapChain` is one outcome of `DrawFrame`, not modelled further. This includes its wait for a non-zero framebuffer size.
- `src/image.cc`, `src/entry_point.cc` and `include/layer.h` are not part of this model.
- The ImGui panel of `Scene::OnUIRender` is not modelled; its three sliders are the clamps of `Scene.SetSettings`.
- VulkanUtils.EvaluatePhysicalDevice: `maxImageDimension2D` is a natural number added to an unbounded score. The source's `int`/`uint32_t` arithmetic would wrap for dimensions above `2^31`.
- VulkanUtils.QueryQueueFamilies: does not state which capable family is reported when several qualify. The loop keeps the last capable index seen before both roles are filled.
- VulkanUtils.ChooseSwapSurfaceFormat: requires a non-empty list. The source reads the first element unconditionally, which is undefined behaviour on an empty list.
- VulkanUtils.ChooseSwapExtent: requires `min <= max` on each axis when the extent is chosen by clamping; `std::clamp` is undefined otherwise.
- Applications.DrawFrameStep: does not model fences, semaphores, command recording or the ImGui frame; only the result codes and the two fields they move.
- HittableLists.HittableList: the objects are spheres, not any `Hittable` behind a `shared_ptr`. The renderer only ever adds spheres. With every child a sphere, each child's hit lies in the interval it is asked about, which the nearest-hit property relies on; the model does not state that premise for other kinds of object.
- Headers that disagree with the `.cc` files are not followed: `include/sphere.h` and `include/hittable.h` lack the material, and `include/camera.h` declares an unused constructor.

## Findings

| source | as written | input that shows it | evidently intended | confidence | as-written member | corrected member |
|---|---|---|---|---|---|---|
| src/scene.cc:200-205 | on every size change the row and column lists are appended to and never cleared, while the buffer is reallocated to `width * height` cells | a 2 by 2 frame followed by a 1 by 1 frame: both lists become `[0, 1, 0]` and pixel `(1, 1)` is written to cell 2 of a one-cell buffer | the lists are rebuilt as `0..width-1` and `0..height-1` on every reallocation | high (not executed) | Scenes.AppendedIndicesOverrun | Scenes.Scene.Render |
| src/application.cc:719-721 | `framebuffer_resized_` is only ever set to true, so once a resize has been seen every later present recreates the swap chain | a resize to a non-zero size, then frames whose acquire, submit and present all return `VK_SUCCESS`: each one rebuilds the swap chain | the flag is cleared when the swap chain is rebuilt after present, so one resize causes one rebuild | high (not executed) | Applications.AsWrittenRebuildsEveryFrame | Applications.DrawFrameStep |

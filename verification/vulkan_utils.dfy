/** The device-selection helpers of the Vulkan front end: how a physical
    device is scored, which queue families and memory type it offers, and
    which surface format, present mode and extent the swap chain uses.

    The values the Vulkan and GLFW queries would return are parameters here:
    a device is described by a `DeviceReport`, a surface by its
    `SwapChainSupport`, a window by its framebuffer size. */
module VulkanUtils {
  import opened Wrappers
  import opened Arith

  /** `VK_SUCCESS`. */
  const VkSuccess := 0

  /** A Vulkan call's result turned into an outcome: anything but success
      throws the given message. */
  function CheckVulkanResult(result: int, message: string): (r: Result<(), string>)
    ensures r.Success? <==> result == VkSuccess
    ensures r.Failure? ==> r.error == message
  {
    if result != VkSuccess then Failure(message) else Success(())
  }

  // ---------------------------------------------------------------------
  // Queue families

  /** `VK_QUEUE_GRAPHICS_BIT`. */
  const QueueGraphicsBit: bv32 := 1

  /** One queue family as reported for a device, together with whether it
      can present to the window's surface. */
  datatype QueueFamilyProperties = QueueFamilyProperties(queueCount: nat, queueFlags: bv32, presentSupport: bool)

  predicate SupportsGraphics(f: QueueFamilyProperties) {
    f.queueCount > 0 && f.queueFlags & QueueGraphicsBit != 0
  }

  predicate SupportsPresent(f: QueueFamilyProperties) {
    f.queueCount > 0 && f.presentSupport
  }

  /** The indices of the families chosen for drawing and for presenting. */
  datatype QueueFamilies = QueueFamilies(graphicsFamily: Option<nat>, presentFamily: Option<nat>)
  {
    predicate IsCompleted() {
      graphicsFamily.Some? && presentFamily.Some?
    }
  }

  /** Some family can draw and some family can present. */
  predicate HasQueueSupport(families: seq<QueueFamilyProperties>) {
    (exists i :: 0 <= i < |families| && SupportsGraphics(families[i])) &&
    (exists j :: 0 <= j < |families| && SupportsPresent(families[j]))
  }

  /** The scan over the device's queue families, stopping as soon as both
      roles are filled. Every index reported names a family able to play its
      role; a role stays empty exactly when no family can play it; the
      result is complete exactly when both roles can be filled. */
  method QueryQueueFamilies(families: seq<QueueFamilyProperties>) returns (indices: QueueFamilies)
    ensures indices.graphicsFamily.Some? ==>
      indices.graphicsFamily.value < |families| && SupportsGraphics(families[indices.graphicsFamily.value])
    ensures indices.presentFamily.Some? ==>
      indices.presentFamily.value < |families| && SupportsPresent(families[indices.presentFamily.value])
    ensures indices.graphicsFamily.None? <==> forall i :: 0 <= i < |families| ==> !SupportsGraphics(families[i])
    ensures indices.presentFamily.None? <==> forall i :: 0 <= i < |families| ==> !SupportsPresent(families[i])
    ensures indices.IsCompleted() <==> HasQueueSupport(families)
  {
    indices := QueueFamilies(None, None);
    var i := 0;
    while i < |families|
      invariant 0 <= i <= |families|
      invariant indices.graphicsFamily.Some? ==>
        indices.graphicsFamily.value < i && SupportsGraphics(families[indices.graphicsFamily.value])
      invariant indices.presentFamily.Some? ==>
        indices.presentFamily.value < i && SupportsPresent(families[indices.presentFamily.value])
      invariant indices.graphicsFamily.None? <==> forall k :: 0 <= k < i ==> !SupportsGraphics(families[k])
      invariant indices.presentFamily.None? <==> forall k :: 0 <= k < i ==> !SupportsPresent(families[k])
    {
      if SupportsGraphics(families[i]) {
        indices := indices.(graphicsFamily := Some(i));
      }
      if SupportsPresent(families[i]) {
        indices := indices.(presentFamily := Some(i));
      }
      if indices.IsCompleted() {
        break;
      }
      i := i + 1;
    }
  }

  // ---------------------------------------------------------------------
  // Swap chain support

  datatype Extent = Extent(width: nat, height: nat)

  /** The part of `VkSurfaceCapabilitiesKHR` the front end reads. */
  datatype Capabilities = Capabilities(
    minImageCount: nat, maxImageCount: nat,
    currentExtent: Extent, minImageExtent: Extent, maxImageExtent: Extent)

  datatype SurfaceFormat = SurfaceFormat(format: nat, colorSpace: nat)

  /** What a surface offers a device's swap chain. */
  datatype SwapChainSupport = SwapChainSupport(
    capabilities: Capabilities, formats: seq<SurfaceFormat>, presentModes: seq<nat>)
  {
    /** At least one image, one format and one present mode. */
    predicate IsAdequate() {
      capabilities.minImageCount > 0 && formats != [] && presentModes != []
    }
  }

  /** `VK_FORMAT_R8G8B8A8_UNORM` and `VK_COLOR_SPACE_SRGB_NONLINEAR_KHR`. */
  const FormatR8G8B8A8Unorm := 37
  const ColorSpaceSrgbNonlinear := 0

  /** `VK_PRESENT_MODE_MAILBOX_KHR` and `VK_PRESENT_MODE_FIFO_KHR`. */
  const PresentModeMailbox := 1
  const PresentModeFifo := 2

  const PreferredFormat := SurfaceFormat(FormatR8G8B8A8Unorm, ColorSpaceSrgbNonlinear)

  /** The preferred 8-bit RGBA sRGB format when the surface offers it,
      otherwise the first format offered. The source reads the first element
      unconditionally, so the list must not be empty. */
  method ChooseSwapSurfaceFormat(available: seq<SurfaceFormat>) returns (r: SurfaceFormat)
    requires available != []
    ensures PreferredFormat in available ==> r == PreferredFormat
    ensures PreferredFormat !in available ==> r == available[0]
    ensures r in available
  {
    for i := 0 to |available|
      invariant PreferredFormat !in available[..i]
    {
      if available[i].format == FormatR8G8B8A8Unorm && available[i].colorSpace == ColorSpaceSrgbNonlinear {
        return available[i];
      }
    }
    assert available[..|available|] == available;
    return available[0];
  }

  /** Mailbox when the surface offers it, FIFO (which every surface
      supports) otherwise. */
  method ChooseSwapPresentMode(available: seq<nat>) returns (r: nat)
    ensures r == PresentModeMailbox <==> PresentModeMailbox in available
    ensures r != PresentModeMailbox ==> r == PresentModeFifo
  {
    for i := 0 to |available|
      invariant PresentModeMailbox !in available[..i]
    {
      if available[i] == PresentModeMailbox {
        return available[i];
      }
    }
    assert available[..|available|] == available;
    return PresentModeFifo;
  }

  /** `std::numeric_limits<uint32_t>::max()`, the marker of a surface whose
      extent follows the swap chain. */
  const Uint32Max := 0xFFFF_FFFF

  /** `static_cast<uint32_t>` of an `int`: the value modulo 2^32. */
  function AsUint32(x: int): (r: nat)
    ensures r <= Uint32Max
    ensures 0 <= x <= Uint32Max ==> r == x
  {
    x % (Uint32Max + 1)
  }

  /** The surface's own extent when it has one; otherwise the framebuffer
      size, read as unsigned, clamped into the surface's extent limits.
      `std::clamp` requires its lower limit not to exceed its upper one. */
  function ChooseSwapExtent(capabilities: Capabilities, framebufferWidth: int, framebufferHeight: int): (r: Extent)
    requires capabilities.currentExtent.width == Uint32Max ==>
      capabilities.minImageExtent.width <= capabilities.maxImageExtent.width &&
      capabilities.minImageExtent.height <= capabilities.maxImageExtent.height
    ensures capabilities.currentExtent.width != Uint32Max ==> r == capabilities.currentExtent
    ensures capabilities.currentExtent.width == Uint32Max ==>
      capabilities.minImageExtent.width <= r.width <= capabilities.maxImageExtent.width &&
      capabilities.minImageExtent.height <= r.height <= capabilities.maxImageExtent.height
    ensures (capabilities.currentExtent.width == Uint32Max && framebufferWidth <= Uint32Max &&
             capabilities.minImageExtent.width <= framebufferWidth <= capabilities.maxImageExtent.width) ==>
      r.width == framebufferWidth
    ensures (capabilities.currentExtent.width == Uint32Max && framebufferHeight <= Uint32Max &&
             capabilities.minImageExtent.height <= framebufferHeight <= capabilities.maxImageExtent.height) ==>
      r.height == framebufferHeight
    ensures capabilities.currentExtent.width == Uint32Max &&
            AsUint32(framebufferWidth) < capabilities.minImageExtent.width ==>
      r.width == capabilities.minImageExtent.width
    ensures capabilities.currentExtent.width == Uint32Max &&
            capabilities.maxImageExtent.width < AsUint32(framebufferWidth) ==>
      r.width == capabilities.maxImageExtent.width
    ensures capabilities.currentExtent.width == Uint32Max &&
            AsUint32(framebufferHeight) < capabilities.minImageExtent.height ==>
      r.height == capabilities.minImageExtent.height
    ensures capabilities.currentExtent.width == Uint32Max &&
            capabilities.maxImageExtent.height < AsUint32(framebufferHeight) ==>
      r.height == capabilities.maxImageExtent.height
  {
    if capabilities.currentExtent.width != Uint32Max then capabilities.currentExtent
    else
      var width := ClampInt(AsUint32(framebufferWidth),
                            capabilities.minImageExtent.width, capabilities.maxImageExtent.width);
      var height := ClampInt(AsUint32(framebufferHeight),
                             capabilities.minImageExtent.height, capabilities.maxImageExtent.height);
      Extent(width, height)
  }

  // ---------------------------------------------------------------------
  // Memory types

  /** `VK_MAX_MEMORY_TYPES`. */
  const MaxMemoryTypes := 32

  /** Memory type `i` is allowed by the filter's bit `i` and has every
      requested property flag. */
  predicate SuitableMemory(typeFilter: bv32, properties: bv32, memoryTypes: seq<bv32>, i: nat)
    requires i < |memoryTypes| <= MaxMemoryTypes
  {
    typeFilter & ((1 as bv32) << i) != 0 && memoryTypes[i] & properties == properties
  }

  /** The first suitable memory type. When there is none the source checks
      a literal success code, which never throws, and answers 0. */
  method FindMemoryType(typeFilter: bv32, properties: bv32, memoryTypes: seq<bv32>)
    returns (index: nat)
    requires |memoryTypes| <= MaxMemoryTypes
    ensures (exists i :: 0 <= i < |memoryTypes| && SuitableMemory(typeFilter, properties, memoryTypes, i)) ==>
      index < |memoryTypes| && SuitableMemory(typeFilter, properties, memoryTypes, index)
    ensures index < |memoryTypes| ==>
      forall j :: 0 <= j < index ==> !SuitableMemory(typeFilter, properties, memoryTypes, j)
    ensures (forall i :: 0 <= i < |memoryTypes| ==> !SuitableMemory(typeFilter, properties, memoryTypes, i)) ==>
      index == 0
  {
    for i := 0 to |memoryTypes|
      invariant forall j :: 0 <= j < i ==> !SuitableMemory(typeFilter, properties, memoryTypes, j)
    {
      if typeFilter & ((1 as bv32) << i) != 0 && memoryTypes[i] & properties == properties {
        assert SuitableMemory(typeFilter, properties, memoryTypes, i);
        return i;
      }
    }
    var check := CheckVulkanResult(0, "Error::Vulkan: Failed to find suitable memory type!");
    assert check.Success?;
    return 0;
  }

  // ---------------------------------------------------------------------
  // Device scoring

  /** What the scoring reads about one physical device. */
  datatype DeviceReport = DeviceReport(
    discreteGpu: bool,
    maxImageDimension2D: nat,
    geometryShader: bool,
    queueFamilies: seq<QueueFamilyProperties>,
    extensions: seq<string>,
    swapChain: SwapChainSupport)

  const SwapchainExtension := "VK_KHR_swapchain"
  const PortabilitySubsetExtension := "VK_KHR_portability_subset"

  /** The device extensions a device must offer; Apple platforms add the
      portability subset. */
  function RequiredDeviceExtensions(apple: bool): (r: set<string>)
    ensures SwapchainExtension in r
    ensures apple <==> PortabilitySubsetExtension in r
  {
    if apple then {SwapchainExtension, PortabilitySubsetExtension} else {SwapchainExtension}
  }

  /** The required extensions the device does not list. */
  function MissingExtensions(required: set<string>, available: seq<string>): (r: set<string>)
    ensures forall e :: e in r <==> e in required && e !in available
  {
    set e | e in required && e !in available
  }

  /** The score before the extension and swap-chain penalties: a bonus of
      1000 for a discrete GPU, plus the largest 2D image size, minus 1000
      without geometry shaders; a device whose queue families cannot both
      draw and present is set to -1000 instead. */
  function BaseScore(d: DeviceReport): int {
    if !HasQueueSupport(d.queueFamilies) then -1000
    else (if d.discreteGpu then 1000 else 0) + d.maxImageDimension2D - (if d.geometryShader then 0 else 1000)
  }

  /** The device's score: the base score minus 1000 for missing required
      extensions and minus 1000 for an inadequate swap chain. */
  function Score(d: DeviceReport, required: set<string>): int {
    BaseScore(d)
      - (if MissingExtensions(required, d.extensions) != {} then 1000 else 0)
      - (if d.swapChain.IsAdequate() then 0 else 1000)
  }

  /** The scoring as the source performs it, step by step, with the
      extension check done by erasing every listed extension from the
      required set. */
  method EvaluatePhysicalDevice(d: DeviceReport, required: set<string>) returns (score: int)
    ensures score == Score(d, required)
  {
    score := 0;
    if d.discreteGpu {
      score := score + 1000;
    }
    score := score + d.maxImageDimension2D;
    if !d.geometryShader {
      score := score - 1000;
    }
    var queueFamilies := QueryQueueFamilies(d.queueFamilies);
    if !queueFamilies.IsCompleted() {
      score := -1000;
    }
    var extensions := required;
    for i := 0 to |d.extensions|
      invariant extensions == set e | e in required && e !in d.extensions[..i]
    {
      extensions := extensions - {d.extensions[i]};
    }
    assert d.extensions[..|d.extensions|] == d.extensions;
    if extensions != {} {
      score := score - 1000;
    }
    if !d.swapChain.IsAdequate() {
      score := score - 1000;
    }
  }

  /** A device whose queue families cannot both draw and present never
      scores above -1000, so it is never picked. */
  lemma IncompleteQueuesScoreLow(d: DeviceReport, required: set<string>)
    requires !HasQueueSupport(d.queueFamilies)
    ensures Score(d, required) <= -1000
  {
  }

  /** A positive score implies the device's queue families can both draw
      and present. */
  lemma PositiveScoreHasQueues(d: DeviceReport, required: set<string>)
    requires Score(d, required) > 0
    ensures HasQueueSupport(d.queueFamilies)
  {
    if !HasQueueSupport(d.queueFamilies) {
      IncompleteQueuesScoreLow(d, required);
    }
  }

  /** The extension and swap-chain checks are penalties, not vetoes: a
      device that has usable queues but lacks a required extension, lacks
      geometry shaders and has no adequate swap chain still scores
      positively once its largest image size exceeds 3000 (2000 for a
      discrete GPU). */
  lemma PenaltiesDoNotDisqualify(d: DeviceReport, required: set<string>)
    requires HasQueueSupport(d.queueFamilies)
    requires d.maxImageDimension2D > (if d.discreteGpu then 2000 else 3000)
    ensures Score(d, required) > 0
  {
  }

  /** Of two devices that differ only in what the score rewards, a discrete
      GPU outranks an integrated one. */
  lemma DiscreteOutranksIntegrated(d: DeviceReport, required: set<string>)
    requires HasQueueSupport(d.queueFamilies)
    ensures Score(d.(discreteGpu := true), required) == Score(d.(discreteGpu := false), required) + 1000
  {
  }
}

/** The application's own bookkeeping around Vulkan: which physical device
    it picks, which queues and swap-chain settings it asks for, and how one
    frame's acquire, submit and present results move its frame index and
    its resize flag. The Vulkan objects themselves are not modelled; their
    result codes are parameters. */
module Applications {
  import opened Wrappers
  import opened VulkanUtils

  /** `MAX_FRAMES_IN_FLIGHT`. */
  const MaxFramesInFlight := 2

  /** `VK_SUBOPTIMAL_KHR` and `VK_ERROR_OUT_OF_DATE_KHR`. */
  const VkSuboptimal := 1000001003
  const VkErrorOutOfDate := -1000001004

  // ---------------------------------------------------------------------
  // Picking a physical device

  /** The index a `std::multimap` keyed by score yields from `rbegin()`: the
      highest score, and among equal highest scores the one inserted last. */
  function BestCandidate(scores: seq<int>): (i: nat)
    requires scores != []
    ensures i < |scores|
    ensures forall j :: 0 <= j < |scores| ==> scores[j] <= scores[i]
    ensures forall j :: i < j < |scores| ==> scores[j] < scores[i]
    decreases |scores|
  {
    if |scores| == 1 then 0
    else
      var k := BestCandidate(scores[..|scores| - 1]);
      if scores[k] <= scores[|scores| - 1] then |scores| - 1 else k
  }

  /** Appending a score moves the best candidate to the new entry exactly
      when it is at least as high. */
  lemma BestCandidateExtended(scores: seq<int>, score: int)
    requires scores != []
    ensures BestCandidate(scores + [score]) ==
      (if scores[BestCandidate(scores)] <= score then |scores| else BestCandidate(scores))
  {
    assert (scores + [score])[..|scores|] == scores;
  }

  /** Every device's score, in enumeration order. */
  function Scores(devices: seq<DeviceReport>, required: set<string>): (r: seq<int>)
    ensures |r| == |devices|
    ensures forall i :: 0 <= i < |devices| ==> r[i] == Score(devices[i], required)
  {
    seq(|devices|, i requires 0 <= i < |devices| => Score(devices[i], required))
  }

  /** A device picked by its score has queue families that can both draw and
      present. */
  lemma PickedDeviceHasQueues(devices: seq<DeviceReport>, required: set<string>)
    requires devices != []
    requires Scores(devices, required)[BestCandidate(Scores(devices, required))] > 0
    ensures HasQueueSupport(devices[BestCandidate(Scores(devices, required))].queueFamilies)
  {
    PositiveScoreHasQueues(devices[BestCandidate(Scores(devices, required))], required);
  }

  // ---------------------------------------------------------------------
  // Logical device and swap chain settings

  const BadOptionalAccess := "bad optional access"

  /** The families that get a queue: the set `{graphics, present}` in
      ascending order, one entry when both roles share a family. Reading an
      absent index throws. */
  function UniqueQueueFamilies(families: QueueFamilies): (r: Result<seq<nat>, string>)
    ensures r.Success? <==> families.IsCompleted()
    ensures r.Failure? ==> r.error == BadOptionalAccess
    ensures r.Success? ==>
      (forall i, j :: 0 <= i < j < |r.value| ==> r.value[i] < r.value[j]) &&
      (forall x :: x in r.value <==> x == families.graphicsFamily.value || x == families.presentFamily.value)
    ensures r.Success? ==>
      |r.value| == (if families.graphicsFamily == families.presentFamily then 1 else 2)
  {
    if families.graphicsFamily.None? || families.presentFamily.None? then Failure(BadOptionalAccess)
    else
      var g := families.graphicsFamily.value;
      var p := families.presentFamily.value;
      if g < p then Success([g, p]) else if p < g then Success([p, g]) else Success([g])
  }

  /** One image more than the surface's minimum, lowered to its maximum when
      it has one; the addition is on `uint32_t`. */
  function ImageCount(capabilities: Capabilities): (n: nat)
    ensures n <= Uint32Max
    ensures (capabilities.minImageCount < Uint32Max &&
             (capabilities.maxImageCount == 0 || capabilities.minImageCount < capabilities.maxImageCount)) ==>
      n == capabilities.minImageCount + 1
    ensures capabilities.minImageCount < Uint32Max && 0 < capabilities.maxImageCount ==>
      n <= capabilities.maxImageCount
    ensures (capabilities.minImageCount < Uint32Max &&
             capabilities.minImageCount <= capabilities.maxImageCount) ==>
      capabilities.minImageCount <= n
  {
    var count := AsUint32(capabilities.minImageCount + 1);
    if capabilities.maxImageCount > 0 && count > capabilities.maxImageCount then capabilities.maxImageCount
    else count
  }

  datatype SharingMode = Exclusive | Concurrent

  /** The swap chain's images are shared between the two families when they
      differ, and owned by the single family otherwise. */
  function ImageSharing(graphics: nat, present: nat): (r: (SharingMode, seq<nat>))
    ensures r.0 == Concurrent <==> graphics != present
    ensures r.0 == Concurrent ==> r.1 == [graphics, present]
    ensures r.0 == Exclusive ==> r.1 == []
  {
    if graphics != present then (Concurrent, [graphics, present]) else (Exclusive, [])
  }

  /** The settings the swap chain is created with. */
  datatype SwapChainInfo = SwapChainInfo(
    minImageCount: nat, format: SurfaceFormat, presentMode: nat, extent: Extent,
    sharingMode: SharingMode, queueFamilyIndices: seq<nat>)

  /** The swap chain settings for a surface, a framebuffer size and the
      chosen queue families. */
  method SwapChainSettings(support: SwapChainSupport, framebufferWidth: int, framebufferHeight: int,
                           families: QueueFamilies)
    returns (r: Result<SwapChainInfo, string>)
    requires support.formats != []
    requires support.capabilities.currentExtent.width == Uint32Max ==>
      support.capabilities.minImageExtent.width <= support.capabilities.maxImageExtent.width &&
      support.capabilities.minImageExtent.height <= support.capabilities.maxImageExtent.height
    ensures r.Success? <==> families.IsCompleted()
    ensures r.Failure? ==> r.error == BadOptionalAccess
    ensures r.Success? ==> r.value.format in support.formats
    ensures r.Success? && PreferredFormat in support.formats ==> r.value.format == PreferredFormat
    ensures r.Success? ==>
      (r.value.presentMode == PresentModeMailbox <==> PresentModeMailbox in support.presentModes)
    ensures r.Success? ==> r.value.presentMode in {PresentModeMailbox, PresentModeFifo}
    ensures r.Success? ==> r.value.extent == ChooseSwapExtent(support.capabilities, framebufferWidth, framebufferHeight)
    ensures r.Success? ==> r.value.minImageCount == ImageCount(support.capabilities)
    ensures r.Success? ==>
      (r.value.sharingMode, r.value.queueFamilyIndices) ==
      ImageSharing(families.graphicsFamily.value, families.presentFamily.value)
  {
    var format := ChooseSwapSurfaceFormat(support.formats);
    var presentMode := ChooseSwapPresentMode(support.presentModes);
    var extent := ChooseSwapExtent(support.capabilities, framebufferWidth, framebufferHeight);
    var imageCount := ImageCount(support.capabilities);
    if families.graphicsFamily.None? || families.presentFamily.None? {
      return Failure(BadOptionalAccess);
    }
    var sharing := ImageSharing(families.graphicsFamily.value, families.presentFamily.value);
    r := Success(SwapChainInfo(imageCount, format, presentMode, extent, sharing.0, sharing.1));
  }

  // ---------------------------------------------------------------------
  // Drawing a frame

  const AcquireFailed := "----- Error::Vulkan: Failed to acquire swap chain image -----"
  const SubmitFailed := "Error::Vulkan: Failed to submit draw command buffer!"
  const PresentFailed := "Error::Vulkan: Failed to present image1"

  /** How a frame that did not throw ended. */
  datatype FrameEnd =
    | RecreatedAfterAcquire   // the image could not be acquired; the frame was skipped
    | RecreatedAfterPresent   // the frame was shown and the swap chain rebuilt
    | Presented

  /** The state a frame reads and writes. */
  datatype FrameState = FrameState(currentFrame: nat, framebufferResized: bool)

  /** One frame, given the results of acquiring an image, submitting the
      command buffer and presenting. An out-of-date image skips the frame;
      any other acquire error, a failed submit or a failed present throws;
      an out-of-date or suboptimal present, or a pending resize, rebuilds
      the swap chain and clears the resize flag. The frame index advances,
      modulo the frames in flight, exactly when the frame was presented. */
  function DrawFrameStep(s: FrameState, acquire: int, submit: int, present: int)
    : (r: (Result<FrameEnd, string>, FrameState))
    ensures s.currentFrame < MaxFramesInFlight ==> r.1.currentFrame < MaxFramesInFlight
    ensures r.0.Failure? || r.0 == Success(RecreatedAfterAcquire) ==> r.1 == s
    ensures r.0.Success? && r.0.value != RecreatedAfterAcquire ==>
      r.1.currentFrame == (s.currentFrame + 1) % MaxFramesInFlight
    ensures r.0 == Success(RecreatedAfterPresent) ==> !r.1.framebufferResized
    ensures r.0 == Success(Presented) ==> r.1.framebufferResized == s.framebufferResized
    ensures r.0.Success? <==>
      acquire == VkErrorOutOfDate ||
      (acquire in {VkSuccess, VkSuboptimal} && submit == VkSuccess &&
       (present in {VkSuccess, VkErrorOutOfDate, VkSuboptimal} || s.framebufferResized))
    ensures r.0 == Success(Presented) <==>
      acquire in {VkSuccess, VkSuboptimal} && submit == VkSuccess && present == VkSuccess &&
      !s.framebufferResized
    ensures r.0 == Success(RecreatedAfterAcquire) <==> acquire == VkErrorOutOfDate
    ensures r.0 == Success(RecreatedAfterPresent) <==>
      acquire in {VkSuccess, VkSuboptimal} && submit == VkSuccess &&
      (present in {VkErrorOutOfDate, VkSuboptimal} || s.framebufferResized)
    ensures r.0 == Failure(AcquireFailed) <==>
      acquire !in {VkErrorOutOfDate, VkSuccess, VkSuboptimal}
    ensures r.0 == Failure(SubmitFailed) <==>
      acquire in {VkSuccess, VkSuboptimal} && submit != VkSuccess
    ensures r.0 == Failure(PresentFailed) <==>
      acquire in {VkSuccess, VkSuboptimal} && submit == VkSuccess &&
      present !in {VkSuccess, VkErrorOutOfDate, VkSuboptimal} && !s.framebufferResized
  {
    var advanced := (s.currentFrame + 1) % MaxFramesInFlight;
    if acquire == VkErrorOutOfDate then (Success(RecreatedAfterAcquire), s)
    else if acquire != VkSuccess && acquire != VkSuboptimal then (Failure(AcquireFailed), s)
    else
      var submitted := CheckVulkanResult(submit, SubmitFailed);
      if submitted.Failure? then (Failure(submitted.error), s)
      else if present == VkErrorOutOfDate || present == VkSuboptimal || s.framebufferResized then
        (Success(RecreatedAfterPresent), FrameState(advanced, false))
      else
        var presented := CheckVulkanResult(present, PresentFailed);
        if presented.Failure? then (Failure(presented.error), s)
        else (Success(Presented), s.(currentFrame := advanced))
  }

  /** The frame as the source writes it: identical, except that nothing ever
      clears the resize flag. */
  function DrawFrameAsWritten(s: FrameState, acquire: int, submit: int, present: int)
    : (r: (Result<FrameEnd, string>, FrameState))
    ensures r.0 == DrawFrameStep(s, acquire, submit, present).0
    ensures r.1.currentFrame == DrawFrameStep(s, acquire, submit, present).1.currentFrame
    ensures r.1.framebufferResized == s.framebufferResized
  {
    var (outcome, next) := DrawFrameStep(s, acquire, submit, present);
    (outcome, next.(framebufferResized := s.framebufferResized))
  }

  /** As written, once the window has been resized every frame whose calls
      all succeed rebuilds the swap chain, and the flag that causes it stays
      set, so no later frame is ever presented without a rebuild. */
  lemma AsWrittenRebuildsEveryFrame(s: FrameState)
    requires s.framebufferResized
    ensures DrawFrameAsWritten(s, VkSuccess, VkSuccess, VkSuccess).0 == Success(RecreatedAfterPresent)
    ensures DrawFrameAsWritten(s, VkSuccess, VkSuccess, VkSuccess).1.framebufferResized
  {
  }

  /** With the flag cleared on rebuild, a resize costs one rebuild: the next
      frame whose calls all succeed is presented normally. */
  lemma ResizeRebuildsOnce(s: FrameState)
    requires s.framebufferResized
    ensures DrawFrameStep(s, VkSuccess, VkSuccess, VkSuccess).0 == Success(RecreatedAfterPresent)
    ensures DrawFrameStep(DrawFrameStep(s, VkSuccess, VkSuccess, VkSuccess).1, VkSuccess, VkSuccess, VkSuccess).0
      == Success(Presented)
  {
  }

  // ---------------------------------------------------------------------
  // The application object

  const NoGpus := "Error::Vulkan: Failed to find GPUs width Vulkan support!"
  const NoSuitableGpu := "Error::Vulkan: Failed to find a suitable GPU!"

  class Application {
    /** The index of the chosen device among those enumerated; `None` is
        the null handle. */
    var physicalDevice: Option<nat>
    var currentFrame: nat
    var framebufferResized: bool

    /** The frame index always names one of the frames in flight. */
    predicate Valid()
      reads this
    {
      currentFrame < MaxFramesInFlight
    }

    constructor ()
      ensures Valid()
      ensures physicalDevice == None && currentFrame == 0 && !framebufferResized
    {
      physicalDevice := None;
      currentFrame := 0;
      framebufferResized := false;
    }

    /** Scores every enumerated device and keeps the best one when its score
        is positive. No device at all, or no device chosen, throws. */
    method PickPhysicalDevice(devices: seq<DeviceReport>, required: set<string>)
      returns (r: Result<(), string>)
      modifies this`physicalDevice
      ensures devices == [] ==> r == Failure(NoGpus) && physicalDevice == old(physicalDevice)
      ensures devices != [] ==>
        physicalDevice ==
          (if Scores(devices, required)[BestCandidate(Scores(devices, required))] > 0
           then Some(BestCandidate(Scores(devices, required)))
           else old(physicalDevice))
      ensures devices != [] ==> (r.Success? <==> physicalDevice.Some?)
      ensures r.Failure? && devices != [] ==> r.error == NoSuitableGpu
    {
      if devices == [] {
        return Failure(NoGpus);
      }
      var scores: seq<int> := [];
      var best := 0;
      for i := 0 to |devices|
        invariant |scores| == i
        invariant physicalDevice == old(physicalDevice)
        invariant forall k :: 0 <= k < i ==> scores[k] == Score(devices[k], required)
        invariant i > 0 ==> best == BestCandidate(scores)
      {
        var score := EvaluatePhysicalDevice(devices[i], required);
        if i == 0 {
          best := 0;
        } else {
          BestCandidateExtended(scores, score);
          if scores[best] <= score {
            best := i;
          }
        }
        scores := scores + [score];
      }
      assert scores == Scores(devices, required);
      if scores[best] > 0 {
        physicalDevice := Some(best);
      }
      if physicalDevice.None? {
        return Failure(NoSuitableGpu);
      }
      return Success(());
    }

    /** One frame: the result and the new frame index and resize flag are
        those of `DrawFrameStep`. Rebuilding the swap chain is Vulkan work
        and is not modelled beyond the flag it clears. */
    method DrawFrame(acquire: int, submit: int, present: int) returns (r: Result<FrameEnd, string>)
      requires Valid()
      modifies this`currentFrame, this`framebufferResized
      ensures Valid()
      ensures (r, FrameState(currentFrame, framebufferResized)) ==
        DrawFrameStep(FrameState(old(currentFrame), old(framebufferResized)), acquire, submit, present)
    {
      if acquire == VkErrorOutOfDate {
        return Success(RecreatedAfterAcquire);
      } else if acquire != VkSuccess && acquire != VkSuboptimal {
        return Failure(AcquireFailed);
      }
      var submitted := CheckVulkanResult(submit, SubmitFailed);
      if submitted.Failure? {
        return Failure(submitted.error);
      }
      if present == VkErrorOutOfDate || present == VkSuboptimal || framebufferResized {
        framebufferResized := false;
        r := Success(RecreatedAfterPresent);
      } else {
        var presented := CheckVulkanResult(present, PresentFailed);
        if presented.Failure? {
          return Failure(presented.error);
        }
        r := Success(Presented);
      }
      currentFrame := (currentFrame + 1) % MaxFramesInFlight;
    }

    method SetFramebufferResized(resized: bool)
      modifies this`framebufferResized
      ensures framebufferResized == resized
    {
      framebufferResized := resized;
    }
  }

  /** GLFW's framebuffer-size callback: a resize to a non-empty framebuffer
      marks the application's swap chain as stale; a minimised window (a
      zero side) leaves the flag alone. */
  method FramebufferResizeCallback(app: Application, width: int, height: int)
    modifies app`framebufferResized
    ensures width != 0 && height != 0 ==> app.framebufferResized
    ensures width == 0 || height == 0 ==> app.framebufferResized == old(app.framebufferResized)
  {
    if width != 0 && height != 0 {
      app.SetFramebufferResized(true);
    }
  }
}

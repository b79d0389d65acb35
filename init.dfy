/**
 * One-time configuration choices made while setting up the renderer: which
 * physical device and queue families to use, which queue families to request,
 * how the swapchain is configured, one framebuffer per swapchain image, and the
 * label printed for a validation-layer message.
 *
 * The graphics library's objects are reduced to the records these choices read.
 */
module Init {
  import opened Wrappers

  // ---------------------------------------------------------------------------
  // Physical devices and queue families
  // ---------------------------------------------------------------------------

  /** Why asking a surface whether a queue family can present to it may fail. */
  datatype QueryError = SupportQueryFailed

  /**
   * A queue family of a physical device: its id, whether it supports graphics
   * work, and the answer of the surface's `is_supported` query for it.
   */
  datatype QueueFamily = QueueFamily(id: nat, graphics: bool, presentQuery: Result<bool, QueryError>)

  /** A physical device, reduced to its queue families in enumeration order. */
  datatype PhysicalDevice = PhysicalDevice(families: seq<QueueFamily>)

  /** The families chosen for graphics and for presentation, both of device `device`. */
  datatype QueuePair = QueuePair(device: nat, graphics: QueueFamily, present: QueueFamily)

  datatype PickError = NoSuitableDevice

  predicate SupportsGraphics(q: QueueFamily) {
    q.graphics
  }

  /** A failing `is_supported` query counts as "cannot present". */
  predicate PresentSupported(q: QueueFamily) {
    q.presentQuery.GetOr(false)
  }

  /** `i` is the position of the first element of `s` that satisfies `p`. */
  predicate IsFirst<T>(s: seq<T>, p: T -> bool, i: int) {
    0 <= i < |s| && p(s[i]) && forall j :: 0 <= j < i ==> !p(s[j])
  }

  predicate HasFamily(d: PhysicalDevice, p: QueueFamily -> bool) {
    exists j :: 0 <= j < |d.families| && p(d.families[j])
  }

  /** A device is usable when some family draws and some family presents. */
  predicate Suitable(d: PhysicalDevice) {
    HasFamily(d, SupportsGraphics) && HasFamily(d, PresentSupported)
  }

  /** Iterator `find`: the position of the first element satisfying `p`, if any. */
  function FirstIndex<T>(s: seq<T>, p: T -> bool): (r: Option<nat>)
    ensures r.Some? ==> IsFirst(s, p, r.value)
    ensures r.None? <==> forall j :: 0 <= j < |s| ==> !p(s[j])
  {
    if |s| == 0 then None
    else if p(s[0]) then Some(0)
    else match FirstIndex(s[1..], p)
      case None => None
      case Some(k) => Some(k + 1)
  }

  /**
   * Searches the devices in enumeration order and stops at the first one that
   * has both a graphics family and a presenting family; from it, takes the
   * first family of each kind.
   */
  method PickQueueFamilies(devices: seq<PhysicalDevice>) returns (r: Result<QueuePair, PickError>)
    ensures r.Err? <==> forall d :: 0 <= d < |devices| ==> !Suitable(devices[d])
    ensures r.Ok? ==>
      && r.value.device < |devices|
      && Suitable(devices[r.value.device])
      && (forall d :: 0 <= d < r.value.device ==> !Suitable(devices[d]))
      && (exists i :: IsFirst(devices[r.value.device].families, SupportsGraphics, i)
                      && devices[r.value.device].families[i] == r.value.graphics)
      && (exists i :: IsFirst(devices[r.value.device].families, PresentSupported, i)
                      && devices[r.value.device].families[i] == r.value.present)
  {
    var n := 0;
    while n < |devices|
      invariant 0 <= n <= |devices|
      invariant forall d :: 0 <= d < n ==> !Suitable(devices[d])
    {
      var families := devices[n].families;
      var g := FirstIndex(families, SupportsGraphics);
      var p := FirstIndex(families, PresentSupported);
      if g.Some? && p.Some? {
        return Ok(QueuePair(n, families[g.value], families[p.value]));
      }
      n := n + 1;
    }
    return Err(NoSuitableDevice);
  }

  // ---------------------------------------------------------------------------
  // Logical device creation
  // ---------------------------------------------------------------------------

  /** How swapchain images are shared between the graphics and present queues. */
  datatype SharingMode = Exclusive | Concurrent(familyIds: seq<nat>)

  /**
   * The queue families requested from `Device::new`: the graphics family, and
   * the present family as well when it is a different one.
   */
  method QueueRequests(graphics: QueueFamily, present: QueueFamily) returns (requests: seq<QueueFamily>)
    ensures 1 <= |requests| <= 2
    ensures requests[0] == graphics
    ensures requests[|requests| - 1].id == present.id
    ensures |requests| == 2 <==> graphics.id != present.id
    ensures |requests| == 2 <==> ChooseSharingMode(graphics, present).Concurrent?
    ensures |requests| == 2 ==> ChooseSharingMode(graphics, present).familyIds == [requests[0].id, requests[1].id]
  {
    requests := [graphics];
    if graphics.id != present.id {
      requests := requests + [present];
    }
  }

  // ---------------------------------------------------------------------------
  // Swapchain configuration
  // ---------------------------------------------------------------------------

  newtype u32 = x: int | 0 <= x < 0x1_0000_0000

  const U32_MAX: u32 := 0xFFFF_FFFF

  datatype Format = B8G8R8A8Srgb | OtherFormat(code: nat)
  datatype ColorSpace = SrgbNonLinear | OtherColorSpace(code: nat)
  datatype SurfaceFormat = SurfaceFormat(format: Format, colorSpace: ColorSpace)

  /** The format and colour space the renderer prefers. */
  const PreferredFormat := SurfaceFormat(B8G8R8A8Srgb, SrgbNonLinear)

  datatype PresentMode = Fifo | Immediate | Mailbox

  /** The optional present modes a surface reports; FIFO is always available. */
  datatype PresentModes = PresentModes(mailbox: bool, immediate: bool)

  datatype Capabilities = Capabilities(
    minImageCount: u32,
    maxImageCount: Option<u32>,
    supportedFormats: seq<SurfaceFormat>,
    presentModes: PresentModes)

  /** The parameters handed to `Swapchain::new`. */
  datatype SwapchainConfig = SwapchainConfig(
    imageCount: u32,
    surfaceFormat: SurfaceFormat,
    presentMode: PresentMode,
    sharing: SharingMode)

  /** Concurrent sharing over [graphics, present] when the families differ. */
  function ChooseSharingMode(graphics: QueueFamily, present: QueueFamily): (m: SharingMode)
    ensures m.Concurrent? <==> graphics.id != present.id
    ensures m.Concurrent? ==> m.familyIds == [graphics.id, present.id]
  {
    if graphics.id != present.id then Concurrent([graphics.id, present.id]) else Exclusive
  }

  /**
   * One image more than the minimum, capped by the maximum (no maximum means
   * `u32::MAX`). `None` stands for the panic of the `+ 1` on `u32` when the
   * minimum is already `u32::MAX`.
   */
  function ImageCount(minCount: u32, maxCount: Option<u32>): (r: Option<u32>)
    ensures r.None? <==> minCount == U32_MAX
    ensures r.Some? ==> r.value as int <= minCount as int + 1
    ensures r.Some? && maxCount.Some? ==> r.value <= maxCount.value
    ensures r.Some? ==> r.value as int == minCount as int + 1 || (maxCount.Some? && r.value == maxCount.value)
    ensures r.Some? && maxCount.Some? && minCount <= maxCount.value ==> minCount <= r.value
  {
    if minCount == U32_MAX then None
    else
      var wanted := minCount + 1;
      var cap := maxCount.GetOr(U32_MAX);
      Some(if wanted <= cap then wanted else cap)
  }

  /**
   * The preferred format when the surface supports it, otherwise the first
   * supported one; `None` stands for the panic on an empty list.
   */
  function ChooseSurfaceFormat(formats: seq<SurfaceFormat>): (r: Option<SurfaceFormat>)
    ensures r.None? <==> |formats| == 0
    ensures r.Some? ==> r.value in formats
    ensures PreferredFormat in formats ==> r == Some(PreferredFormat)
    ensures PreferredFormat !in formats && |formats| > 0 ==> r == Some(formats[0])
  {
    if |formats| == 0 then None
    else if PreferredFormat in formats then Some(PreferredFormat)
    else Some(formats[0])
  }

  predicate PresentModeSupported(modes: PresentModes, m: PresentMode) {
    match m
    case Fifo => true
    case Immediate => modes.immediate
    case Mailbox => modes.mailbox
  }

  /** Preference order: Mailbox over Immediate over FIFO. */
  function PresentModeRank(m: PresentMode): nat {
    match m
    case Fifo => 0
    case Immediate => 1
    case Mailbox => 2
  }

  /** The most preferred present mode the surface supports. */
  function ChoosePresentMode(modes: PresentModes): (m: PresentMode)
    ensures PresentModeSupported(modes, m)
    ensures forall other :: PresentModeSupported(modes, other) ==> PresentModeRank(other) <= PresentModeRank(m)
  {
    if modes.mailbox then Mailbox
    else if modes.immediate then Immediate
    else Fifo
  }

  /**
   * The choices `create_swapchain` makes before calling `Swapchain::new`;
   * `None` when one of them panics.
   */
  function ChooseSwapchainConfig(caps: Capabilities, graphics: QueueFamily, present: QueueFamily): (r: Option<SwapchainConfig>)
    ensures r.Some? <==> caps.minImageCount < U32_MAX && |caps.supportedFormats| > 0
    ensures r.Some? ==>
      && r.value.imageCount as int <= caps.minImageCount as int + 1
      && (caps.maxImageCount.Some? ==> r.value.imageCount <= caps.maxImageCount.value)
      && r.value.surfaceFormat in caps.supportedFormats
      && PresentModeSupported(caps.presentModes, r.value.presentMode)
      && (r.value.sharing == Exclusive <==> graphics.id == present.id)
    ensures r.Some? ==> r.value.imageCount == ImageCount(caps.minImageCount, caps.maxImageCount).value
    ensures r.Some? && PreferredFormat in caps.supportedFormats ==> r.value.surfaceFormat == PreferredFormat
    ensures r.Some? && PreferredFormat !in caps.supportedFormats ==> r.value.surfaceFormat == caps.supportedFormats[0]
    ensures r.Some? ==> forall m :: PresentModeSupported(caps.presentModes, m) ==>
      PresentModeRank(m) <= PresentModeRank(r.value.presentMode)
    ensures r.Some? ==> r.value.sharing == ChooseSharingMode(graphics, present)
  {
    var count := ImageCount(caps.minImageCount, caps.maxImageCount);
    var format := ChooseSurfaceFormat(caps.supportedFormats);
    if count.None? || format.None? then None
    else Some(SwapchainConfig(count.value, format.value,
                              ChoosePresentMode(caps.presentModes),
                              ChooseSharingMode(graphics, present)))
  }

  // ---------------------------------------------------------------------------
  // Framebuffers
  // ---------------------------------------------------------------------------

  /** A swapchain image: an identity and its dimensions in pixels. */
  datatype Image = Image(id: nat, width: nat, height: nat)

  /** The transient depth image (format D32Sfloat) shared by every framebuffer. */
  datatype DepthBuffer = DepthBuffer(width: nat, height: nat)

  /** A render target: a swapchain image as colour attachment plus the depth buffer. */
  datatype Framebuffer = Framebuffer(color: Image, depth: DepthBuffer)

  /** The framebuffer set for `images`: one per image, all sharing one depth buffer sized from image 0. */
  function FramebuffersFor(images: seq<Image>): (fbs: seq<Framebuffer>)
    requires |images| > 0
    ensures |fbs| == |images|
    ensures forall i :: 0 <= i < |images| ==> fbs[i].color == images[i]
    ensures forall i :: 0 <= i < |images| ==> fbs[i].depth == DepthBuffer(images[0].width, images[0].height)
  {
    var depth := DepthBuffer(images[0].width, images[0].height);
    seq(|images|, i requires 0 <= i < |images| => Framebuffer(images[i], depth))
  }

  /**
   * Builds one framebuffer per swapchain image, in image order. `None` stands
   * for the panic when there is no image to size the depth buffer from.
   */
  method CreateFramebuffers(images: seq<Image>) returns (r: Option<seq<Framebuffer>>)
    ensures r.None? <==> |images| == 0
    ensures r.Some? ==> r.value == FramebuffersFor(images)
  {
    if |images| == 0 {
      return None;
    }
    var depth := DepthBuffer(images[0].width, images[0].height);
    var framebuffers: seq<Framebuffer> := [];
    for i := 0 to |images|
      invariant |framebuffers| == i
      invariant forall k :: 0 <= k < i ==> framebuffers[k] == Framebuffer(images[k], depth)
    {
      framebuffers := framebuffers + [Framebuffer(images[i], depth)];
    }
    return Some(framebuffers);
  }

  // ---------------------------------------------------------------------------
  // Validation-layer messages
  // ---------------------------------------------------------------------------

  /** The severity flags of a validation-layer message. */
  datatype MessageSeverity = MessageSeverity(error: bool, warning: bool, information: bool, verbose: bool)

  datatype Level = Verbose | Information | Warning | Error

  predicate IsSet(s: MessageSeverity, l: Level) {
    match l
    case Error => s.error
    case Warning => s.warning
    case Information => s.information
    case Verbose => s.verbose
  }

  function LevelRank(l: Level): nat {
    match l
    case Verbose => 0
    case Information => 1
    case Warning => 2
    case Error => 3
  }

  function LevelName(l: Level): string {
    match l
    case Error => "error"
    case Warning => "warning"
    case Information => "information"
    case Verbose => "verbose"
  }

  /**
   * The label printed with a message: the name of its most severe flag.
   * `None` stands for the `unimplemented!()` panic when no flag is set.
   */
  function SeverityLabel(s: MessageSeverity): (r: Option<string>)
    ensures r.None? <==> forall l :: !IsSet(s, l)
    ensures r.Some? ==> exists l :: IsSet(s, l) && r.value == LevelName(l)
                                    && forall other :: IsSet(s, other) ==> LevelRank(other) <= LevelRank(l)
  {
    if s.error then assert IsSet(s, Error); Some("error")
    else if s.warning then assert IsSet(s, Warning); Some("warning")
    else if s.information then assert IsSet(s, Information); Some("information")
    else if s.verbose then assert IsSet(s, Verbose); Some("verbose")
    else None
  }
}

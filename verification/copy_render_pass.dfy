/** DxvkMetaCopyRenderPass: the per-copy render pass and framebuffer built
    around one destination image view, and their teardown. */
module MetaCopyRenderPass {

  import opened Wrappers
  import opened Vulkan
  import opened Driver
  import opened MetaCopyAttachment

  /** What the session reads from an image view: the view's own format and
      aspect (`info()`), the image's sample count, current layout and declared
      stage/access usage (`imageInfo()`), the extent of the view's first mip
      level and the view's layer count. */
  datatype ImageViewInfo = ImageViewInfo(
    handle: Handle,
    format: Format,
    aspect: AspectFlags,
    samples: SampleCount,
    layout: ImageLayout,
    stages: StageFlags,
    access: AccessFlags,
    mipWidth: nat,
    mipHeight: nat,
    layerCount: nat)

  datatype Session = Session(
    dstView: ImageViewInfo,
    srcView: ImageViewInfo,
    renderPass: Handle,
    framebuffer: Handle)

  const RENDER_PASS_ERROR := "DxvkMetaCopyRenderPass: Failed to create render pass"
  // The class name in this message is the source's own.
  const FRAMEBUFFER_ERROR := "DxvkMetaMipGenRenderPass: Failed to create target framebuffer"

  /** The entry dependency waits for the destination's declared stages before
      colour output; the exit dependency makes colour writes visible to the
      destination's declared stages and accesses. */
  ghost predicate ChainsAroundDestination(deps: seq<SubpassDependency>, dst: ImageViewInfo) {
    && |deps| == 2
    && deps[0] == SubpassDependency(SUBPASS_EXTERNAL, 0, dst.stages,
         STAGE_COLOR_ATTACHMENT_OUTPUT_BIT, 0, ACCESS_COLOR_ATTACHMENT_WRITE_BIT, 0)
    && deps[1] == SubpassDependency(0, SUBPASS_EXTERNAL, STAGE_COLOR_ATTACHMENT_OUTPUT_BIT,
         dst.stages, ACCESS_COLOR_ATTACHMENT_WRITE_BIT, dst.access, 0)
  }

  /** The render pass create-info of `createRenderPass(discard)`. */
  function RenderPassInfoFor(dst: ImageViewInfo, discard: bool): (info: RenderPassCreateInfo)
    ensures |info.attachments| == 1 && |info.subpasses| == 1
    ensures info.attachments[0].format == dst.format
    ensures info.attachments[0].samples == dst.samples
    ensures info.attachments[0].storeOp == StoreOpStore
    ensures info.attachments[0].finalLayout == dst.layout
    ensures discard ==> info.attachments[0].loadOp == LoadOpDontCare
                        && info.attachments[0].initialLayout == LAYOUT_UNDEFINED
    ensures !discard ==> info.attachments[0].loadOp == LoadOpLoad
                         && info.attachments[0].initialLayout == dst.layout
    ensures info.attachments[0].stencilLoadOp == LoadOpDontCare
    ensures info.attachments[0].stencilStoreOp == StoreOpDontCare
    ensures WiresOneAttachment(info.subpasses[0])
    ensures info.subpasses[0].colorAttachments != [] <==> HasColor(dst.aspect)
    ensures info.subpasses[0].depthStencilAttachment.Some? <==> !HasColor(dst.aspect)
    ensures ChainsAroundDestination(info.dependencies, dst)
  {
    var deps := [
      SubpassDependency(SUBPASS_EXTERNAL, 0, dst.stages,
        STAGE_COLOR_ATTACHMENT_OUTPUT_BIT, 0, ACCESS_COLOR_ATTACHMENT_WRITE_BIT, 0),
      SubpassDependency(0, SUBPASS_EXTERNAL, STAGE_COLOR_ATTACHMENT_OUTPUT_BIT,
        dst.stages, ACCESS_COLOR_ATTACHMENT_WRITE_BIT, dst.access, 0)];
    var attachment := AttachmentDescription(
      dst.format, dst.samples,
      if discard then LoadOpDontCare else LoadOpLoad,
      StoreOpStore, LoadOpDontCare, StoreOpDontCare,
      if discard then LAYOUT_UNDEFINED else dst.layout,
      dst.layout);
    RenderPassCreateInfo([attachment], [SingleAttachmentSubpass(dst.aspect)], deps)
  }

  /** The framebuffer create-info of `createFramebuffer()`. */
  function FramebufferInfoFor(dst: ImageViewInfo, renderPass: Handle): (info: FramebufferCreateInfo)
    ensures info.renderPass == renderPass
    ensures info.attachments == [dst.handle]
    ensures info.width == dst.mipWidth && info.height == dst.mipHeight
    ensures info.layers == dst.layerCount
  {
    FramebufferCreateInfo(renderPass, [dst.handle], dst.mipWidth, dst.mipHeight, dst.layerCount)
  }

  /** A framebuffer matches a render pass when it binds one view per
      attachment of the pass, each view having the format and sample count of
      its attachment (the Vulkan specification's valid-usage rules for
      VkFramebufferCreateInfo). */
  ghost predicate FramebufferMatches(fb: FramebufferCreateInfo, rp: RenderPassCreateInfo, views: seq<ImageViewInfo>) {
    && |fb.attachments| == |rp.attachments| == |views|
    && forall i :: 0 <= i < |views| ==>
         && fb.attachments[i] == views[i].handle
         && views[i].format == rp.attachments[i].format
         && views[i].samples == rp.attachments[i].samples
  }

  /** The session's framebuffer matches the session's render pass: its one
      attachment is the destination view, whose format and sample count are
      those of the pass's one attachment, whether or not the copy discards. */
  lemma FramebufferMatchesRenderPass(dst: ImageViewInfo, discard: bool, renderPass: Handle)
    ensures FramebufferMatches(FramebufferInfoFor(dst, renderPass), RenderPassInfoFor(dst, discard), [dst])
  {
  }

  /** The constructor: the render pass first, then the framebuffer bound to it.
      A failure throws; a render pass created before a failing framebuffer is
      not released. */
  function NewSession(dev: Device, dst: ImageViewInfo, src: ImageViewInfo, discard: bool): (r: Step<Session>)
    ensures Extends(dev, r.dev)
    ensures |dev.log| < |r.dev.log| <= |dev.log| + 2
    ensures r.out.Ok? ==>
      var s := r.out.value;
      && s.dstView == dst && s.srcView == src
      && |r.dev.log| == |dev.log| + 2
      && IssuedAs(r.dev, s.renderPass, RenderPassInfo(RenderPassInfoFor(dst, discard)))
      && IssuedAs(r.dev, s.framebuffer, FramebufferInfo(FramebufferInfoFor(dst, s.renderPass)))
      && |dev.log| < s.renderPass < s.framebuffer
    ensures r.out.Err? <==> |dev.log| in dev.refused || |dev.log| + 1 in dev.refused
    // Construction stops at the refused call: every earlier call was accepted.
    ensures forall n :: |dev.log| <= n < |r.dev.log| - 1 ==> n !in dev.refused
    ensures r.out.Err? ==> |r.dev.log| - 1 in r.dev.refused
    ensures r.out.Err? ==>
      r.out.error == Error(if |dev.log| in dev.refused then RENDER_PASS_ERROR else FRAMEBUFFER_ERROR)
  {
    var rp := Create(dev, RenderPassInfo(RenderPassInfoFor(dst, discard)), RENDER_PASS_ERROR);
    if rp.out.Err? then Step(Err(rp.out.error), rp.dev)
    else
      var fb := Create(rp.dev, FramebufferInfo(FramebufferInfoFor(dst, rp.out.value)), FRAMEBUFFER_ERROR);
      ExtendsTransitive(dev, rp.dev, fb.dev);
      IssuedPersists(rp.dev, fb.dev, rp.out.value, RenderPassInfo(RenderPassInfoFor(dst, discard)));
      if fb.out.Err? then Step(Err(fb.out.error), fb.dev)
      else Step(Ok(Session(dst, src, rp.out.value, fb.out.value)), fb.dev)
  }

  /** The destructor: framebuffer, then render pass. */
  function Teardown(s: Session): (d: seq<Destroy>)
    ensures |d| == 2
    ensures d[0] == Destroy(FramebufferObject, s.framebuffer)
    ensures d[1] == Destroy(RenderPassObject, s.renderPass)
  {
    [Destroy(FramebufferObject, s.framebuffer), Destroy(RenderPassObject, s.renderPass)]
  }

  /** A session built by `NewSession` destroys exactly the two objects it
      created (the two calls it made), each once, with the matching destroy
    call, newest first. */
  lemma TeardownReleasesSession(dev: Device, dst: ImageViewInfo, src: ImageViewInfo, discard: bool)
    requires NewSession(dev, dst, src, discard).out.Ok?
    ensures var r := NewSession(dev, dst, src, discard);
      var d := Teardown(r.out.value);
      && |d| == 2
      && (forall e :: e in d ==> Issued(r.dev, e.handle, e.kind))
      && d[0].handle > d[1].handle
      && |r.dev.log| == |dev.log| + 2
      && d[1].handle == |dev.log| + 1 && d[0].handle == |dev.log| + 2
  {
  }
}

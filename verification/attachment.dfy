/** The single-attachment subpass both render passes of the meta copy code
    declare, the attachment compatibility of two such passes, and the fit of
    a pipeline built against the factory's render pass to a session's subpass. */
module MetaCopyAttachment {

  import opened Wrappers
  import opened Vulkan

  /** The subpass draws to attachment 0 either as its one colour attachment or
      as its depth/stencil attachment, never both, and uses nothing else. */
  ghost predicate WiresOneAttachment(sp: SubpassDescription) {
    && sp.inputAttachments == []
    && sp.resolveAttachments == []
    && sp.preserveAttachments == []
    && (|| (sp.colorAttachments == [AttachmentReference(0, LAYOUT_COLOR_ATTACHMENT_OPTIMAL)]
            && sp.depthStencilAttachment.None?)
        || (sp.colorAttachments == []
            && sp.depthStencilAttachment == Some(AttachmentReference(0, LAYOUT_DEPTH_STENCIL_ATTACHMENT_OPTIMAL))))
  }

  /** The subpass description both createRenderPass functions build from the
      attachment's aspect mask. */
  function SingleAttachmentSubpass(aspect: AspectFlags): (sp: SubpassDescription)
    ensures WiresOneAttachment(sp)
    ensures sp.colorAttachments != [] <==> HasColor(aspect)
    ensures sp.depthStencilAttachment.Some? <==> !HasColor(aspect)
  {
    var ref := AttachmentReference(0,
      if HasColor(aspect) then LAYOUT_COLOR_ATTACHMENT_OPTIMAL
      else LAYOUT_DEPTH_STENCIL_ATTACHMENT_OPTIMAL);
    if HasColor(aspect) then
      SubpassDescription([], [ref], [], None, [])
    else
      SubpassDescription([], [], [], Some(ref), [])
  }

  /** Attachment compatibility of two render passes: the same attachments by
      format and sample count, and subpasses that reference them in the same
      slots. Load/store operations and layouts may differ. This is the
      attachment part of the Vulkan specification's "Render Pass
      Compatibility" section only: that section also wants the passes to be
      otherwise identical, which includes their subpass dependencies, and
      this predicate does not compare those. */
  ghost predicate AttachmentCompatible(a: RenderPassCreateInfo, b: RenderPassCreateInfo) {
    && |a.attachments| == |b.attachments|
    && (forall i :: 0 <= i < |a.attachments| ==>
          a.attachments[i].format == b.attachments[i].format
          && a.attachments[i].samples == b.attachments[i].samples)
    && |a.subpasses| == |b.subpasses|
    && (forall i :: 0 <= i < |a.subpasses| ==>
          SameSlots(a.subpasses[i], b.subpasses[i]))
  }

  ghost predicate SameSlots(x: SubpassDescription, y: SubpassDescription) {
    && |x.colorAttachments| == |y.colorAttachments|
    && (forall j :: 0 <= j < |x.colorAttachments| ==>
          x.colorAttachments[j].attachment == y.colorAttachments[j].attachment)
    && x.depthStencilAttachment.Some? == y.depthStencilAttachment.Some?
    && (x.depthStencilAttachment.Some? ==>
          x.depthStencilAttachment.value.attachment == y.depthStencilAttachment.value.attachment)
    && |x.inputAttachments| == |y.inputAttachments|
    && |x.resolveAttachments| == |y.resolveAttachments|
  }

  /** A graphics pipeline may be used in subpass `p.subpass` of `rp`: colour-blend
      state is present exactly when the subpass has colour attachments (one
      blend attachment per colour attachment), depth/stencil state exactly
      when it has a depth/stencil attachment, and the rasterization sample
      count equals the sample count of every attachment the subpass uses.
      The Vulkan specification's valid-usage rules for
      VkGraphicsPipelineCreateInfo only ask for the state when the subpass
      uses such an attachment, and ignore it otherwise; this predicate also
      asks for the converse, which the meta copy pipelines meet. */
  ghost predicate PipelineFits(p: GraphicsPipelineCreateInfo, rp: RenderPassCreateInfo) {
    && p.subpass < |rp.subpasses|
    && var sp := rp.subpasses[p.subpass];
    && (p.colorBlend.Some? <==> sp.colorAttachments != [])
    && (p.colorBlend.Some? ==> |p.colorBlend.value.attachments| == |sp.colorAttachments|)
    && (p.depthStencil.Some? <==> sp.depthStencilAttachment.Some?)
    && (forall r :: r in sp.colorAttachments ==>
          r.attachment < |rp.attachments|
          && rp.attachments[r.attachment].samples == p.multisample.rasterizationSamples)
    && (sp.depthStencilAttachment.Some? ==>
          sp.depthStencilAttachment.value.attachment < |rp.attachments|
          && rp.attachments[sp.depthStencilAttachment.value.attachment].samples
             == p.multisample.rasterizationSamples)
  }
}

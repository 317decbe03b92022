/** The create-info records DxvkMetaCopyObjects builds for one cached pipeline:
    its render pass, descriptor-set layout, pipeline layout and graphics
    pipeline, and the sampler every pipeline bakes in. Each is a total
    function of the pipeline key, the aspect mask of the key's format and the
    handles it refers to. */
module MetaCopyPipeline {

  import opened Wrappers
  import opened Vulkan
  import opened MetaCopyAttachment

  /** DxvkMetaCopyPipelineKey */
  datatype PipelineKey = PipelineKey(viewType: ImageViewType, format: Format, samples: SampleCount)

  /** DxvkMetaCopyPipeline: the four objects one cache entry owns. */
  datatype Pipeline = Pipeline(renderPass: Handle, setLayout: Handle, pipelineLayout: Handle, pipeline: Handle)

  /** One family of fragment shaders: 1D, 2D single-sample, multisampled. */
  datatype ShaderSet = ShaderSet(frag1D: Handle, frag2D: Handle, fragMs: Handle)

  /** The objects the factory creates once and shares between all pipelines. */
  datatype SharedObjects = SharedObjects(
    sampler: Handle,
    vert: Handle,
    geom: Handle,
    color: ShaderSet,
    depth: ShaderSet)

  /** The two-level fragment shader choice: family by aspect, variant by view
      type and sample count. */
  datatype Family = ColorFamily | DepthFamily
  datatype Variant = Variant1D | Variant2D | VariantMs

  function FamilyOf(aspect: AspectFlags): (f: Family)
    ensures f == ColorFamily <==> HasColor(aspect)
  {
    if HasColor(aspect) then ColorFamily else DepthFamily
  }

  /** Only a view type of exactly 1D selects the 1D variant (a 1D array view
      does not); otherwise the sample count decides. */
  function VariantOf(key: PipelineKey): (v: Variant)
    ensures v == Variant1D <==> key.viewType == ViewType1D
    ensures v == Variant2D <==> key.viewType != ViewType1D && key.samples == SAMPLE_COUNT_1
    ensures v == VariantMs <==> key.viewType != ViewType1D && key.samples != SAMPLE_COUNT_1
  {
    if key.viewType == ViewType1D then Variant1D
    else if key.samples == SAMPLE_COUNT_1 then Variant2D
    else VariantMs
  }

  /** The SPIR-V blob each (family, variant) pair is built from. */
  function FragmentCode(family: Family, variant: Variant): ShaderCode {
    match (family, variant)
    case (ColorFamily, Variant1D) => CopyColor1D
    case (ColorFamily, Variant2D) => CopyColor2D
    case (ColorFamily, VariantMs) => CopyColorMs
    case (DepthFamily, Variant1D) => CopyDepth1D
    case (DepthFamily, Variant2D) => CopyDepth2D
    case (DepthFamily, VariantMs) => CopyDepthMs
  }

  /** The six variants are six different blobs, none of them the shared
      vertex or geometry shader. */
  lemma FragmentCodesDistinct(f1: Family, v1: Variant, f2: Family, v2: Variant)
    ensures FragmentCode(f1, v1) == FragmentCode(f2, v2) <==> f1 == f2 && v1 == v2
    ensures FragmentCode(f1, v1) != ResolveVert && FragmentCode(f1, v1) != ResolveGeom
  {
  }

  /** The fragment module `createPipelineObject` picks, written as the source
      picks it: a shader set by the colour bit, then a member of that set. */
  function FragmentModule(shared: SharedObjects, key: PipelineKey, aspect: AspectFlags): (m: Handle)
    ensures HasColor(aspect) ==> m in {shared.color.frag1D, shared.color.frag2D, shared.color.fragMs}
    ensures !HasColor(aspect) ==> m in {shared.depth.frag1D, shared.depth.frag2D, shared.depth.fragMs}
  {
    var shaderSet := if HasColor(aspect) then shared.color else shared.depth;
    if key.viewType == ViewType1D then shaderSet.frag1D
    else if key.samples == SAMPLE_COUNT_1 then shaderSet.frag2D
    else shaderSet.fragMs
  }

  /** The handle of a (family, variant) pair in the shared objects. */
  function ModuleFor(shared: SharedObjects, family: Family, variant: Variant): Handle {
    var shaderSet := if family == ColorFamily then shared.color else shared.depth;
    match variant
    case Variant1D => shaderSet.frag1D
    case Variant2D => shaderSet.frag2D
    case VariantMs => shaderSet.fragMs
  }

  /** The source's nested choice agrees with the (family, variant) table. */
  lemma FragmentModuleIsTableEntry(shared: SharedObjects, key: PipelineKey, aspect: AspectFlags)
    ensures FragmentModule(shared, key, aspect) == ModuleFor(shared, FamilyOf(aspect), VariantOf(key))
  {
  }

  /** The sampler of `createSampler()`: nearest filtering, clamp to edge,
      no anisotropy, no comparison. */
  const COPY_SAMPLER := SamplerCreateInfo(
    FilterNearest, FilterNearest, MipmapNearest,
    AddressClampToEdge, AddressClampToEdge, AddressClampToEdge,
    false, false, CompareAlways, BorderFloatTransparentBlack, false)

  /** sizeof(VkOffset2D): two 32-bit signed integers. */
  const OFFSET_2D_SIZE: nat := 8

  /** The render pass of `createRenderPass(key)`: one attachment of the key's
      format and sample count that is always loaded and stored in the general
      layout, and no external dependencies. */
  function RenderPassInfoFor(key: PipelineKey, aspect: AspectFlags): (info: RenderPassCreateInfo)
    ensures info.attachments == [AttachmentDescription(key.format, key.samples,
      LoadOpLoad, StoreOpStore, LoadOpDontCare, StoreOpDontCare, LAYOUT_GENERAL, LAYOUT_GENERAL)]
    ensures |info.subpasses| == 1 && WiresOneAttachment(info.subpasses[0])
    ensures info.subpasses[0].colorAttachments != [] <==> HasColor(aspect)
    ensures info.subpasses[0].depthStencilAttachment.Some? <==> !HasColor(aspect)
    ensures info.dependencies == []
  {
    RenderPassCreateInfo(
      [AttachmentDescription(key.format, key.samples, LoadOpLoad, StoreOpStore,
         LoadOpDontCare, StoreOpDontCare, LAYOUT_GENERAL, LAYOUT_GENERAL)],
      [SingleAttachmentSubpass(aspect)],
      [])
  }

  /** The layout of `createDescriptorSetLayout()`: binding 0 is one combined
      image/sampler for the fragment stage with `sampler` baked in. */
  function SetLayoutInfoFor(sampler: Handle): (info: DescriptorSetLayoutCreateInfo)
    ensures |info.bindings| == 1
    ensures info.bindings[0].binding == 0 && info.bindings[0].descriptorCount == 1
    ensures info.bindings[0].descriptorType == DescriptorCombinedImageSampler
    ensures info.bindings[0].stageFlags == SHADER_STAGE_FRAGMENT_BIT
    ensures info.bindings[0].immutableSamplers == [sampler]
  {
    DescriptorSetLayoutCreateInfo([
      DescriptorSetLayoutBinding(0, DescriptorCombinedImageSampler, 1, SHADER_STAGE_FRAGMENT_BIT, [sampler])])
  }

  /** The layout of `createPipelineLayout(setLayout)`: that one set layout and
      a fragment-stage push constant range holding a 2D offset. */
  function PipelineLayoutInfoFor(setLayout: Handle): (info: PipelineLayoutCreateInfo)
    ensures info.setLayouts == [setLayout]
    ensures info.pushConstantRanges == [PushConstantRange(SHADER_STAGE_FRAGMENT_BIT, 0, OFFSET_2D_SIZE)]
  {
    PipelineLayoutCreateInfo([setLayout], [PushConstantRange(SHADER_STAGE_FRAGMENT_BIT, 0, OFFSET_2D_SIZE)])
  }

  /** The entry point of every stage. */
  const ENTRY_POINT := "main"

  const NO_BLEND := ColorBlendAttachment(false, BlendOne, BlendZero, BlendOpAdd,
    BlendOne, BlendZero, BlendOpAdd, COLOR_COMPONENT_RGBA)

  const KEEP_ALWAYS := StencilOpState(StencilKeep, StencilKeep, StencilKeep, CompareAlways,
    0xFFFF_FFFF, 0xFFFF_FFFF, 0)

  /** The graphics pipeline of `createPipelineObject(key, layout, renderPass)`. */
  function PipelineInfoFor(shared: SharedObjects, key: PipelineKey, aspect: AspectFlags,
                           layout: Handle, renderPass: Handle): (info: GraphicsPipelineCreateInfo)
    // Vertex and geometry stages are the shared modules; the fragment stage is the selected variant.
    ensures |info.stages| == 3
    ensures info.stages[0] == ShaderStageInfo(SHADER_STAGE_VERTEX_BIT, shared.vert, ENTRY_POINT)
    ensures info.stages[1] == ShaderStageInfo(SHADER_STAGE_GEOMETRY_BIT, shared.geom, ENTRY_POINT)
    ensures info.stages[2] == ShaderStageInfo(SHADER_STAGE_FRAGMENT_BIT, FragmentModule(shared, key, aspect), ENTRY_POINT)
    // Exactly one of colour-blend and depth/stencil state, chosen by the colour bit.
    ensures info.colorBlend.Some? <==> HasColor(aspect)
    ensures info.depthStencil.Some? <==> !HasColor(aspect)
    ensures info.colorBlend.Some? ==> !info.colorBlend.value.logicOpEnable
                                      && info.colorBlend.value.attachments == [NO_BLEND]
    ensures info.depthStencil.Some? ==>
      var ds := info.depthStencil.value;
      ds.depthTestEnable && ds.depthWriteEnable && ds.depthCompareOp == CompareAlways
      && !ds.stencilTestEnable && !ds.depthBoundsTestEnable
    // Per-sample shading exactly when the key is multisampled.
    ensures info.multisample.rasterizationSamples == key.samples
    ensures info.multisample.sampleShadingEnable <==> key.samples != SAMPLE_COUNT_1
    ensures info.multisample.sampleMask == 0xFFFF_FFFF
    // Points expanded by the geometry stage, dynamic viewport and scissor.
    ensures info.topology == TopologyPointList && info.vertexBindingCount == 0
    ensures info.dynamicStates == [DynamicViewport, DynamicScissor]
    ensures info.rasterization == RasterizationState(true, false, PolygonFill, CullNone,
                                                     FrontFaceCounterClockwise, false)
    ensures info.layout == layout && info.renderPass == renderPass && info.subpass == 0
  {
    var stages := [
      ShaderStageInfo(SHADER_STAGE_VERTEX_BIT, shared.vert, ENTRY_POINT),
      ShaderStageInfo(SHADER_STAGE_GEOMETRY_BIT, shared.geom, ENTRY_POINT),
      ShaderStageInfo(SHADER_STAGE_FRAGMENT_BIT, FragmentModule(shared, key, aspect), ENTRY_POINT)];
    var rs := RasterizationState(true, false, PolygonFill, CullNone, FrontFaceCounterClockwise, false);
    var ms := MultisampleState(key.samples, key.samples != SAMPLE_COUNT_1, 0xFFFF_FFFF, false, false);
    var cb := ColorBlendState(false, LogicOpNoOp, [NO_BLEND]);
    var ds := DepthStencilState(true, true, CompareAlways, false, false, KEEP_ALWAYS, KEEP_ALWAYS);
    GraphicsPipelineCreateInfo(
      stages, 0, 0, TopologyPointList, false, 1, 1, rs, ms,
      if HasColor(aspect) then Some(cb) else None,
      if HasColor(aspect) then None else Some(ds),
      [DynamicViewport, DynamicScissor],
      layout, renderPass, 0, NULL_HANDLE, -1)
  }

  /** Every pipeline the factory builds may be used in the render pass built
      for the same key. */
  lemma PipelineFitsOwnRenderPass(shared: SharedObjects, key: PipelineKey, aspect: AspectFlags,
                                  layout: Handle, renderPass: Handle)
    ensures PipelineFits(PipelineInfoFor(shared, key, aspect, layout, renderPass), RenderPassInfoFor(key, aspect))
  {
  }
}

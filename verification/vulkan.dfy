/** The slice of the Vulkan API that the meta copy objects touch: enumerations,
    bit masks and the create-info records they fill in. Handles are opaque
    numbers; the driver behind them is modelled in module `Driver`.
    Constants carry the values of the Vulkan headers. Floating-point fields
    (LOD, anisotropy, line width, depth bias, blend constants, sample shading
    minimum, depth bounds) are not represented. */
module Vulkan {

  import opened Wrappers

  /** An opaque non-dispatchable handle; 0 is VK_NULL_HANDLE. */
  type Handle = nat

  const NULL_HANDLE: Handle := 0

  /** VkFormat: an open 32-bit enumeration. */
  newtype Format = x: int | 0 <= x < 0x8000_0000

  const FORMAT_UNDEFINED: Format := 0
  const FORMAT_R16_UNORM: Format := 70
  const FORMAT_R32_SFLOAT: Format := 100
  const FORMAT_D16_UNORM: Format := 124
  const FORMAT_D32_SFLOAT: Format := 126

  /** VkImageLayout: an open 32-bit enumeration. */
  newtype ImageLayout = x: int | 0 <= x < 0x8000_0000

  const LAYOUT_UNDEFINED: ImageLayout := 0
  const LAYOUT_GENERAL: ImageLayout := 1
  const LAYOUT_COLOR_ATTACHMENT_OPTIMAL: ImageLayout := 2
  const LAYOUT_DEPTH_STENCIL_ATTACHMENT_OPTIMAL: ImageLayout := 3

  /** VkImageAspectFlags */
  type AspectFlags = bv32

  const ASPECT_COLOR_BIT: AspectFlags := 0x1
  const ASPECT_DEPTH_BIT: AspectFlags := 0x2
  const ASPECT_STENCIL_BIT: AspectFlags := 0x4

  /** The test `aspect & VK_IMAGE_ASPECT_COLOR_BIT` every colour/depth branch uses. */
  predicate HasColor(aspect: AspectFlags) {
    aspect & ASPECT_COLOR_BIT != 0
  }

  /** VkSampleCountFlagBits */
  type SampleCount = bv32

  const SAMPLE_COUNT_1: SampleCount := 0x1

  /** VkPipelineStageFlags and VkAccessFlags */
  type StageFlags = bv32
  type AccessFlags = bv32

  const STAGE_COLOR_ATTACHMENT_OUTPUT_BIT: StageFlags := 0x400
  const ACCESS_COLOR_ATTACHMENT_WRITE_BIT: AccessFlags := 0x100

  /** VkShaderStageFlags */
  type ShaderStageFlags = bv32

  const SHADER_STAGE_VERTEX_BIT: ShaderStageFlags := 0x1
  const SHADER_STAGE_GEOMETRY_BIT: ShaderStageFlags := 0x8
  const SHADER_STAGE_FRAGMENT_BIT: ShaderStageFlags := 0x10

  /** VkColorComponentFlags */
  const COLOR_COMPONENT_RGBA: bv32 := 0x1 | 0x2 | 0x4 | 0x8

  /** VK_SUBPASS_EXTERNAL, i.e. ~0U */
  const SUBPASS_EXTERNAL: bv32 := 0xFFFF_FFFF

  datatype ImageViewType =
    | ViewType1D | ViewType2D | ViewType3D | ViewTypeCube
    | ViewType1DArray | ViewType2DArray | ViewTypeCubeArray

  datatype LoadOp = LoadOpLoad | LoadOpClear | LoadOpDontCare
  datatype StoreOp = StoreOpStore | StoreOpDontCare

  datatype Filter = FilterNearest | FilterLinear
  datatype MipmapMode = MipmapNearest | MipmapLinear
  datatype AddressMode =
    | AddressRepeat | AddressMirroredRepeat | AddressClampToEdge | AddressClampToBorder
  datatype BorderColor =
    | BorderFloatTransparentBlack | BorderIntTransparentBlack
    | BorderFloatOpaqueBlack | BorderIntOpaqueBlack
    | BorderFloatOpaqueWhite | BorderIntOpaqueWhite
  datatype CompareOp =
    | CompareNever | CompareLess | CompareEqual | CompareLessOrEqual
    | CompareGreater | CompareNotEqual | CompareGreaterOrEqual | CompareAlways
  datatype DescriptorType =
    | DescriptorSampler | DescriptorCombinedImageSampler | DescriptorSampledImage
    | DescriptorStorageImage | DescriptorUniformBuffer | DescriptorStorageBuffer
  datatype DynamicState = DynamicViewport | DynamicScissor
  datatype PrimitiveTopology =
    | TopologyPointList | TopologyLineList | TopologyLineStrip
    | TopologyTriangleList | TopologyTriangleStrip | TopologyTriangleFan
  datatype PolygonMode = PolygonFill | PolygonLine | PolygonPoint
  datatype CullMode = CullNone | CullFront | CullBack | CullFrontAndBack
  datatype FrontFace = FrontFaceCounterClockwise | FrontFaceClockwise
  datatype BlendFactor = BlendZero | BlendOne
  datatype BlendOp = BlendOpAdd | BlendOpSubtract
  datatype LogicOp = LogicOpClear | LogicOpNoOp | LogicOpCopy
  datatype StencilOp =
    | StencilKeep | StencilZero | StencilReplace | StencilIncrementAndClamp
    | StencilDecrementAndClamp | StencilInvert | StencilIncrementAndWrap
    | StencilDecrementAndWrap

  /** Render pass create-info (VkRenderPassCreateInfo and its parts). */
  datatype AttachmentDescription = AttachmentDescription(
    format: Format,
    samples: SampleCount,
    loadOp: LoadOp,
    storeOp: StoreOp,
    stencilLoadOp: LoadOp,
    stencilStoreOp: StoreOp,
    initialLayout: ImageLayout,
    finalLayout: ImageLayout)

  datatype AttachmentReference = AttachmentReference(attachment: nat, layout: ImageLayout)

  datatype SubpassDescription = SubpassDescription(
    inputAttachments: seq<AttachmentReference>,
    colorAttachments: seq<AttachmentReference>,
    resolveAttachments: seq<AttachmentReference>,
    depthStencilAttachment: Option<AttachmentReference>,
    preserveAttachments: seq<nat>)

  datatype SubpassDependency = SubpassDependency(
    srcSubpass: bv32,
    dstSubpass: bv32,
    srcStageMask: StageFlags,
    dstStageMask: StageFlags,
    srcAccessMask: AccessFlags,
    dstAccessMask: AccessFlags,
    dependencyFlags: bv32)

  datatype RenderPassCreateInfo = RenderPassCreateInfo(
    attachments: seq<AttachmentDescription>,
    subpasses: seq<SubpassDescription>,
    dependencies: seq<SubpassDependency>)

  datatype FramebufferCreateInfo = FramebufferCreateInfo(
    renderPass: Handle,
    attachments: seq<Handle>,
    width: nat,
    height: nat,
    layers: nat)

  /** VkSamplerCreateInfo without its floating-point fields. */
  datatype SamplerCreateInfo = SamplerCreateInfo(
    magFilter: Filter,
    minFilter: Filter,
    mipmapMode: MipmapMode,
    addressModeU: AddressMode,
    addressModeV: AddressMode,
    addressModeW: AddressMode,
    anisotropyEnable: bool,
    compareEnable: bool,
    compareOp: CompareOp,
    borderColor: BorderColor,
    unnormalizedCoordinates: bool)

  /** The precompiled SPIR-V blobs linked into the factory; their contents are opaque. */
  datatype ShaderCode =
    | ResolveVert | ResolveGeom
    | CopyColor1D | CopyColor2D | CopyColorMs
    | CopyDepth1D | CopyDepth2D | CopyDepthMs

  datatype DescriptorSetLayoutBinding = DescriptorSetLayoutBinding(
    binding: nat,
    descriptorType: DescriptorType,
    descriptorCount: nat,
    stageFlags: ShaderStageFlags,
    immutableSamplers: seq<Handle>)

  datatype DescriptorSetLayoutCreateInfo = DescriptorSetLayoutCreateInfo(
    bindings: seq<DescriptorSetLayoutBinding>)

  datatype PushConstantRange = PushConstantRange(stageFlags: ShaderStageFlags, offset: nat, size: nat)

  datatype PipelineLayoutCreateInfo = PipelineLayoutCreateInfo(
    setLayouts: seq<Handle>,
    pushConstantRanges: seq<PushConstantRange>)

  /** Graphics pipeline create-info (VkGraphicsPipelineCreateInfo and its parts). */
  datatype ShaderStageInfo = ShaderStageInfo(stage: ShaderStageFlags, shaderModule: Handle, entryPoint: string)

  datatype RasterizationState = RasterizationState(
    depthClampEnable: bool,
    rasterizerDiscardEnable: bool,
    polygonMode: PolygonMode,
    cullMode: CullMode,
    frontFace: FrontFace,
    depthBiasEnable: bool)

  datatype MultisampleState = MultisampleState(
    rasterizationSamples: SampleCount,
    sampleShadingEnable: bool,
    sampleMask: bv32,
    alphaToCoverageEnable: bool,
    alphaToOneEnable: bool)

  datatype ColorBlendAttachment = ColorBlendAttachment(
    blendEnable: bool,
    srcColorBlendFactor: BlendFactor,
    dstColorBlendFactor: BlendFactor,
    colorBlendOp: BlendOp,
    srcAlphaBlendFactor: BlendFactor,
    dstAlphaBlendFactor: BlendFactor,
    alphaBlendOp: BlendOp,
    colorWriteMask: bv32)

  datatype ColorBlendState = ColorBlendState(
    logicOpEnable: bool,
    logicOp: LogicOp,
    attachments: seq<ColorBlendAttachment>)

  datatype StencilOpState = StencilOpState(
    failOp: StencilOp,
    passOp: StencilOp,
    depthFailOp: StencilOp,
    compareOp: CompareOp,
    compareMask: bv32,
    writeMask: bv32,
    reference: bv32)

  datatype DepthStencilState = DepthStencilState(
    depthTestEnable: bool,
    depthWriteEnable: bool,
    depthCompareOp: CompareOp,
    depthBoundsTestEnable: bool,
    stencilTestEnable: bool,
    front: StencilOpState,
    back: StencilOpState)

  datatype GraphicsPipelineCreateInfo = GraphicsPipelineCreateInfo(
    stages: seq<ShaderStageInfo>,
    vertexBindingCount: nat,
    vertexAttributeCount: nat,
    topology: PrimitiveTopology,
    primitiveRestartEnable: bool,
    viewportCount: nat,
    scissorCount: nat,
    rasterization: RasterizationState,
    multisample: MultisampleState,
    colorBlend: Option<ColorBlendState>,
    depthStencil: Option<DepthStencilState>,
    dynamicStates: seq<DynamicState>,
    layout: Handle,
    renderPass: Handle,
    subpass: nat,
    basePipelineHandle: Handle,
    basePipelineIndex: int)

  /** The kinds of object the meta copy code creates, one vkDestroy* each. */
  datatype ObjectKind =
    | RenderPassObject | FramebufferObject | SamplerObject | ShaderModuleObject
    | DescriptorSetLayoutObject | PipelineLayoutObject | PipelineObject

  /** One vkCreate* call, identified by the record it was given. */
  datatype CreateInfo =
    | RenderPassInfo(renderPass: RenderPassCreateInfo)
    | FramebufferInfo(framebuffer: FramebufferCreateInfo)
    | SamplerInfo(sampler: SamplerCreateInfo)
    | ShaderModuleInfo(code: ShaderCode)
    | DescriptorSetLayoutInfo(setLayout: DescriptorSetLayoutCreateInfo)
    | PipelineLayoutInfo(pipelineLayout: PipelineLayoutCreateInfo)
    | GraphicsPipelineInfo(pipeline: GraphicsPipelineCreateInfo)
  {
    /** The kind of object this call creates. */
    function Kind(): ObjectKind {
      match this
      case RenderPassInfo(_) => RenderPassObject
      case FramebufferInfo(_) => FramebufferObject
      case SamplerInfo(_) => SamplerObject
      case ShaderModuleInfo(_) => ShaderModuleObject
      case DescriptorSetLayoutInfo(_) => DescriptorSetLayoutObject
      case PipelineLayoutInfo(_) => PipelineLayoutObject
      case GraphicsPipelineInfo(_) => PipelineObject
    }
  }

  /** One vkDestroy* call. */
  datatype Destroy = Destroy(kind: ObjectKind, handle: Handle)
}

# DXVK meta copy objects, modelled in Dafny

DXVK implements some image-to-image copies by drawing. The source is
sampled through a shader, and the destination is bound as the single
attachment of a render pass. This project models the part of
`src/dxvk/dxvk_meta_copy.cpp` that sets up those draws. The code is
modelled as it is written.

- **The copy-format resolver** (`getCopyDestinationFormat`). It picks the
  format of the destination view. Within one aspect the format is kept.
  Across aspects it maps through the two depth/colour alias pairs
  D16_UNORM/R16_UNORM and D32_SFLOAT/R32_SFLOAT. Otherwise it returns
  `VK_FORMAT_UNDEFINED`.
- **The per-copy session** (`DxvkMetaCopyRenderPass`). This is a render pass
  around the destination view, with its two external subpass dependencies,
  plus a framebuffer on it. The destructor tears both down, newest first.
- **The factory** (`DxvkMetaCopyObjects`):
  - the sampler and eight shader modules its constructor creates;
  - the key → pipeline cache behind `getPipeline`;
  - the four create calls of `createPipeline`: render pass, descriptor-set
    layout, pipeline layout and graphics pipeline;
  - the destructor's destroy calls.

The Vulkan driver is a log of create calls (`Driver.Device`). Call `n`
either returns handle `n + 1` or is refused; a refusal becomes the
source's `DxvkError` as an `Err` result. A handle therefore names the
create-info it was built from. Handles are also ordered by creation time,
so "destroyed in reverse creation order" is a statement about handles.
A format's aspect mask (`imageFormatInfo(format)->aspectMask`) comes from
outside this file. It is a parameter `aspectOf`.

Modules follow the source's structure:

| file | module | contents |
|---|---|---|
| `wrappers.dfy` | `Wrappers` | `Option`, `Result`, `Error` |
| `vulkan.dfy` | `Vulkan` | the slice of the Vulkan API used: enumerations, flag words, create-info records, object kinds |
| `driver.dfy` | `Driver` | the device as a create log; one `vkCreate*` call |
| `attachment.dfy` | `MetaCopyAttachment` | the single-attachment subpass; attachment compatibility of render passes; pipeline/render pass fit |
| `copy_format.dfy` | `MetaCopyFormat` | the copy-format resolver and its alias table |
| `copy_render_pass.dfy` | `MetaCopyRenderPass` | the per-copy session |
| `copy_pipeline.dfy` | `MetaCopyPipeline` | keys, shader selection, the four create-info records of a cached pipeline |
| `copy_objects.dfy` | `MetaCopyObjects` | the factory constructor, `createPipeline`, `getPipeline`, the cache invariant |
| `teardown.dfy` | `MetaCopyTeardown` | the factory destructor |

## Model

| member | source | states |
|---|---|---|
| Driver.Create | src/dxvk/dxvk_meta_copy.cpp:241-244 | A create call appends its record to the log. On success it returns a fresh handle that names exactly that record. On refusal it returns the call's error message, and no handle is issued. |
| MetaCopyFormat.CopyDestinationFormat | src/dxvk/dxvk_meta_copy.cpp:170-196 | A same-aspect copy keeps the source format. Depth→colour is supported exactly for D16_UNORM and D32_SFLOAT. Colour→depth is supported exactly for R16_UNORM and R32_SFLOAT. Every other pair of aspects yields UNDEFINED. |
| MetaCopyFormat.DepthToColorFollowsTable | src/dxvk/dxvk_meta_copy.cpp:177-184 | The depth→colour switch is a lookup of the depth/colour alias table, read left to right. A missing entry means UNDEFINED. |
| MetaCopyFormat.ColorToDepthFollowsTable | src/dxvk/dxvk_meta_copy.cpp:186-193 | The colour→depth switch is a lookup of the same alias table, read right to left. So the two switches are inverse readings of one table. |
| MetaCopyFormat.CrossAspectRoundTrip | src/dxvk/dxvk_meta_copy.cpp:177-193 | Resolving a supported format across aspects and back gives the original format, in both directions. |
| MetaCopyFormat.DepthStencilToColorUnsupported | src/dxvk/dxvk_meta_copy.cpp:177-195 | A combined depth+stencil mask matches neither cross-aspect test, so copies between it and colour are unsupported both ways. |
| MetaCopyAttachment.SingleAttachmentSubpass | src/dxvk/dxvk_meta_copy.cpp:290-313 | The subpass uses attachment 0 either as its one colour attachment or as its depth/stencil attachment, chosen by the colour bit, and uses nothing else. |
| MetaCopyRenderPass.RenderPassInfoFor | src/dxvk/dxvk_meta_copy.cpp:35-100 | The session's one attachment has the view's format and the image's sample count. A discard makes it DONT_CARE/UNDEFINED on entry; otherwise it is loaded in the image's layout. It is stored and left in the image's layout. The two dependencies chain the image's declared stages and accesses around colour output. |
| MetaCopyRenderPass.FramebufferInfoFor | src/dxvk/dxvk_meta_copy.cpp:109-123 | The framebuffer binds the destination view to the session's render pass, with the extent of the view's first mip level and the view's layer count. |
| MetaCopyRenderPass.FramebufferMatchesRenderPass | src/dxvk/dxvk_meta_copy.cpp:109-123 | The framebuffer fits the session's render pass: one attachment on each side, and that attachment is the destination view, whose format and sample count are the ones the pass declares. |
| MetaCopyRenderPass.NewSession | src/dxvk/dxvk_meta_copy.cpp:15-26 | The render pass is created first, then a framebuffer that refers to it. The session fails exactly when one of the two calls is refused, with that call's message. Construction stops at the refused call, so a refused render pass means no framebuffer call. |
| MetaCopyRenderPass.Teardown | src/dxvk/dxvk_meta_copy.cpp:29-32 | The destructor makes two destroy calls: the framebuffer, then the render pass. `TeardownReleasesSession` ties them to the objects the constructor created. |
| MetaCopyRenderPass.TeardownReleasesSession | src/dxvk/dxvk_meta_copy.cpp:29-32 | The destructor destroys exactly the two objects the constructor created, each live and of the kind its destroy call expects, in reverse creation order. |
| MetaCopyPipeline.FamilyOf | src/dxvk/dxvk_meta_copy.cpp:413 | The colour shader set is chosen exactly when the aspect mask has the colour bit. |
| MetaCopyPipeline.VariantOf | src/dxvk/dxvk_meta_copy.cpp:415-420 | The 1D variant is chosen exactly for a 1D view type. Otherwise single-sample gives 2D and multisample gives MS. The three cases partition all keys. |
| MetaCopyPipeline.FragmentModule | src/dxvk/dxvk_meta_copy.cpp:413-420 | The fragment module always comes from the shader set of the format's aspect. |
| MetaCopyPipeline.FragmentModuleIsTableEntry | src/dxvk/dxvk_meta_copy.cpp:413-420 | The source's nested choice equals the (family, variant) table entry. |
| MetaCopyPipeline.FragmentCodesDistinct | src/dxvk/dxvk_meta_copy.cpp:137-144 | The six fragment shaders are six different blobs, and none is the vertex or geometry shader. |
| MetaCopyPipeline.RenderPassInfoFor | src/dxvk/dxvk_meta_copy.cpp:275-324 | The factory's render pass has one attachment of the key's format and sample count, loaded, stored and kept in GENERAL. It has one subpass wired by the colour bit and no dependencies. |
| MetaCopyPipeline.SetLayoutInfoFor | src/dxvk/dxvk_meta_copy.cpp:333-346 | The set layout has a single binding 0: one combined image/sampler, fragment stage only, with the factory's sampler immutable. |
| MetaCopyPipeline.PipelineLayoutInfoFor | src/dxvk/dxvk_meta_copy.cpp:355-369 | The pipeline layout has that one set layout, plus a fragment push-constant range the size of a VkOffset2D. |
| MetaCopyPipeline.PipelineInfoFor | src/dxvk/dxvk_meta_copy.cpp:378-552 | There are three stages: the shared vertex and geometry modules and the selected fragment module. Exactly one of colour-blend and depth/stencil state is present, chosen by the colour bit. Sample shading is on exactly for multisampled keys. Topology is point list, viewport and scissor are dynamic, and the given layout and render pass are used at subpass 0. |
| MetaCopyPipeline.PipelineFitsOwnRenderPass | src/dxvk/dxvk_meta_copy.cpp:479-550 | Every pipeline may be used in the render pass built for its key. Blend or depth state matches the subpass's attachment, and the rasterization sample count equals the attachment's. |
| MetaCopyObjects.CreateShaderModules | src/dxvk/dxvk_meta_copy.cpp:135-144 | The eight modules are created in the constructor's order, each from its own blob, with consecutive handles. Every call before the last was accepted. The run succeeds exactly when every call is accepted, and otherwise stops at the first refused call with the shader-module error. |
| MetaCopyObjects.NewFactory | src/dxvk/dxvk_meta_copy.cpp:132-146 | The constructor makes nine create calls: the sampler, then the eight modules. It starts with an empty cache. Every call before the last was accepted. On success every call was accepted; on failure the last call was refused, with the sampler's or a module's message. |
| MetaCopyObjects.ConstructedSharedValid | src/dxvk/dxvk_meta_copy.cpp:134-144 | A sampler and eight modules created from the constructor's records, in its order, satisfy the shared-objects invariant. |
| MetaCopyObjects.NewFactoryValid | src/dxvk/dxvk_meta_copy.cpp:132-146 | A successfully constructed factory satisfies the cache invariant. |
| MetaCopyObjects.CreatePipeline | src/dxvk/dxvk_meta_copy.cpp:264-272 | There are four create calls in order. Each record refers to the handles made before it: the layout to the set layout, the pipeline to the layout and the render pass. The first refused call ends the build with that step's message. |
| MetaCopyObjects.CreatePipelineKinds | src/dxvk/dxvk_meta_copy.cpp:267-270 | The calls made by a build, successful or not, create a render pass, a set layout, a pipeline layout and a pipeline, in that order. |
| MetaCopyObjects.GetPipeline | src/dxvk/dxvk_meta_copy.cpp:199-217 | A hit returns the stored entry and changes neither the cache nor the device. A miss builds once. Every call of the build before its last was accepted. A success had its last call accepted, and a failure ends at a refused call with that step's message. Only a successful build is inserted, under its key, and every other entry is unchanged. |
| MetaCopyObjects.MissSucceedsIffAccepted | src/dxvk/dxvk_meta_copy.cpp:214-216 | On a miss, `getPipeline` returns a pipeline exactly when the driver accepts every create call of the build. Otherwise it throws. |
| MetaCopyObjects.InsertPreservesValid | src/dxvk/dxvk_meta_copy.cpp:214-215 | Inserting an entry built after everything the factory owns keeps the invariant, including that no two entries share an object. |
| MetaCopyObjects.GetPipelinePreservesValid | src/dxvk/dxvk_meta_copy.cpp:199-217 | `getPipeline` keeps the cache invariant on a hit, a successful miss and a failed miss. |
| MetaCopyObjects.GetPipelineTwice | src/dxvk/dxvk_meta_copy.cpp:210-212 | Asking again for a key that was just served returns the same pipeline and creates nothing. |
| MetaCopyObjects.DistinctKeysDistinctPipelines | src/dxvk/dxvk_meta_copy.cpp:214-215 | Two different cached keys never share a pipeline or any of its four objects. |
| MetaCopyObjects.CachedPipelineShaders | src/dxvk/dxvk_meta_copy.cpp:386-420 | A cached pipeline was built from its key's record. Its vertex and geometry stages run modules built from the shared blobs. Its fragment stage runs the module built from the blob the (family, variant) table names. |
| MetaCopyObjects.SessionAttachmentsCompatible | src/dxvk/dxvk_meta_copy.cpp:38-89 | A session's render pass and the factory's render pass for the matching key have the same attachment format and sample count and the same subpass slots, whatever the load/store and layout choices. So the cached pipeline fits the session's subpass. Their dependencies differ: two in the session's pass, none in the factory's. |
| MetaCopyObjects.StoredEntriesStay | src/dxvk/dxvk_meta_copy.cpp:210-212 | Over any sequence of lookups, a stored entry is never replaced. Every lookup of its key returns it and makes no create call. |
| MetaCopyObjects.LookupsAgreePerKey | src/dxvk/dxvk_meta_copy.cpp:210-216 | Over any sequence of lookups, once a key has been served successfully, every later lookup of it returns the same pipeline and makes no create call. So each key is successfully built at most once. |
| MetaCopyObjects.FailedBuildIsRetried | src/dxvk/dxvk_meta_copy.cpp:214-215 | A failed build throws before the insert, so nothing is remembered. From an empty cache with the first create call refused, a second lookup of the same key builds again with all four calls, and only that build is cached. |
| MetaCopyTeardown.SharedTeardown | src/dxvk/dxvk_meta_copy.cpp:157-166 | The shared objects are destroyed in exactly the reverse of the constructor's creation order. |
| MetaCopyTeardown.EntryTeardown | src/dxvk/dxvk_meta_copy.cpp:151-154 | An entry's four destroy calls each name one of that entry's objects. |
| MetaCopyTeardown.FactoryTeardown | src/dxvk/dxvk_meta_copy.cpp:149-167 | The destructor makes four calls per cached entry, plus nine. |
| MetaCopyTeardown.ValidIsSound | src/dxvk/dxvk_meta_copy.cpp:149-167 | The cache invariant gives what the destructor relies on: every owned object is alive, each group was created in order, and no two entries share an object. |
| MetaCopyTeardown.TeardownDestroysLiveObjects | src/dxvk/dxvk_meta_copy.cpp:149-167 | Every destroy call names a live object, with the destroy function that matches its creation. |
| MetaCopyTeardown.TeardownDestroysOnce | src/dxvk/dxvk_meta_copy.cpp:149-167 | No object is destroyed twice, for every iteration order of the cache. |
| MetaCopyTeardown.TeardownReleasesOwned | src/dxvk/dxvk_meta_copy.cpp:149-167 | The destructor releases exactly the objects the factory owns: the nine shared objects and every entry's four. |
| MetaCopyTeardown.TeardownReverseOrder | src/dxvk/dxvk_meta_copy.cpp:150-166 | The `n`-th group of four calls is the `n`-th visited entry's teardown: pipeline, layout, set layout, render pass, newest first. Every call comes before the shared objects' calls, and all objects are newer than the shared objects. |
| MetaCopyTeardown.FailedBuildLeaks | src/dxvk/dxvk_meta_copy.cpp:264-272 | When a build fails after its first step, every object made before the failing call stays alive, but the factory does not own it. So the destructor never releases it. |

## Left out

- The mutex in `getPipeline`: each lookup is one atomic step of the model, and concurrent callers are not modelled.
- Floating-point fields of the create-infos (mip LOD bias, anisotropy, LOD range, depth bias, line width, minimum sample shading, blend constants, depth bounds): they are constants in the source and are not represented.
- The driver: a `vkCreate*` call is modelled as "record it and return the next handle, unless refused". Which calls are refused is a parameter (`Device.refused`). Allocation callbacks and the device handle are not modelled.
- SPIR-V contents: each precompiled shader is an opaque, named blob (`ShaderCode`). The geometry shader's layer expansion is not modelled.
- `imageFormatInfo`: the format → aspect-mask table is defined elsewhere and enters as the parameter `aspectOf`.
- `dxvk_meta_copy.h` is not part of this model. The model takes the header's member declaration order to be the order the source initialises them in. For the session this order is needed for the code to work, since the framebuffer is built from the render pass; elsewhere it is an assumption about the header. Three places rely on this:
  - the factory constructor's creation order, read from its mem-initializer list;
  - the session constructor, where `m_renderPass` must be declared before `m_framebuffer`, because `createFramebuffer` reads it;
  - `ShaderSet(frag1D, frag2D, fragMs)`, which assumes that field order in the fragment-shader struct.
- `src/d3d11/d3d11_shader.cpp` is not part of this model: it is environment-variable lookup, shader file dumping and reading, and a call into the external DXBC compiler, none of which is meta copy logic.
- Hash-map iteration order in the destructor: any enumeration of the keys is allowed (`order`). Properties are proved for all of them.
- Cleanup on failure: the source releases nothing when a constructor or `createPipeline` step throws. The model keeps that behaviour, and `FailedBuildLeaks` exhibits the resulting leak rather than claiming cleanup.
- MetaCopyObjects.SessionAttachmentsCompatible: states attachment compatibility only, not full render pass compatibility in the sense of the Vulkan specification's "Render Pass Compatibility" section, which also asks for otherwise identical passes. The session's pass declares two external dependencies (src/dxvk/dxvk_meta_copy.cpp:38-48) and the factory's declares none (src/dxvk/dxvk_meta_copy.cpp:323-324); the lemma states that difference.
- MetaCopyTeardown.TeardownReverseOrder: does not order one entry's objects against another entry's, because the hash map visits entries in no particular order.
- MetaCopyPipeline.VariantOf: a `VK_IMAGE_VIEW_TYPE_1D_ARRAY` view selects the 2D or multisampled variant, because only an exact 1D view type selects the 1D shader. This is modelled as written.
- MetaCopyRenderPass.NewSession: the framebuffer error message names `DxvkMetaMipGenRenderPass`, as in the source; it is kept verbatim.
- `DxvkMetaCopyRenderPass` also stores the source view; the model keeps it in the session but nothing reads it.

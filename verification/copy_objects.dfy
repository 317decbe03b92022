/** DxvkMetaCopyObjects: the shared sampler and shader modules built by the
    constructor, and the key -> pipeline cache behind `getPipeline`.
    The factory is a value; each operation returns the factory and device
    after it. The aspect mask of a format (`imageFormatInfo(f)->aspectMask`)
    is the parameter `aspectOf`. The cache lock is not modelled: a lookup,
    together with the build and insertion on a miss, is one step. */
module MetaCopyObjects {

  import opened Wrappers
  import opened Vulkan
  import opened Driver
  import opened MetaCopyAttachment
  import opened MetaCopyPipeline
  import MetaCopyRenderPass

  datatype Factory = Factory(shared: SharedObjects, pipelines: map<PipelineKey, Pipeline>)

  /** The result of `getPipeline`, with the factory and device after it. */
  datatype Served = Served(out: Result<Pipeline>, factory: Factory, dev: Device)

  const SAMPLER_ERROR := "DxvkMetaCopyObjects: Failed to create sampler"
  const SHADER_MODULE_ERROR := "DxvkMetaCopyObjects: Failed to create shader module"
  const RENDER_PASS_ERROR := "DxvkMetaCopyObjects: Failed to create render pass"
  const SET_LAYOUT_ERROR := "DxvkMetaCopyObjects: Failed to create descriptor set layout"
  const PIPELINE_LAYOUT_ERROR := "DxvkMetaCopyObjects: Failed to create pipeline layout"
  const PIPELINE_ERROR := "DxvkMetaCopyObjects: Failed to create graphics pipeline"

  /** The error of each of the four creation steps of `createPipeline`, in order. */
  const BUILD_ERRORS := [RENDER_PASS_ERROR, SET_LAYOUT_ERROR, PIPELINE_LAYOUT_ERROR, PIPELINE_ERROR]

  /** The kind of object each of those steps creates. */
  const BUILD_KINDS := [RenderPassObject, DescriptorSetLayoutObject, PipelineLayoutObject, PipelineObject]

  /** The blob of the constructor's `i`-th shader module, in construction order. */
  function ModuleCode(i: nat): ShaderCode
    requires i < 8
  {
    match i
    case 0 => ResolveVert
    case 1 => ResolveGeom
    case 2 => CopyColor1D
    case 3 => CopyColor2D
    case 4 => CopyColorMs
    case 5 => CopyDepth1D
    case 6 => CopyDepth2D
    case _ => CopyDepthMs
  }

  /** The shared objects in construction order. */
  function SharedHandles(s: SharedObjects): seq<Handle> {
    [s.sampler, s.vert, s.geom, s.color.frag1D, s.color.frag2D, s.color.fragMs,
     s.depth.frag1D, s.depth.frag2D, s.depth.fragMs]
  }

  /** The shared objects were created from their records, in construction order. */
  ghost predicate ValidShared(s: SharedObjects, dev: Device) {
    && IssuedAs(dev, s.sampler, SamplerInfo(COPY_SAMPLER))
    && IssuedAs(dev, s.vert, ShaderModuleInfo(ResolveVert))
    && IssuedAs(dev, s.geom, ShaderModuleInfo(ResolveGeom))
    && IssuedAs(dev, s.color.frag1D, ShaderModuleInfo(CopyColor1D))
    && IssuedAs(dev, s.color.frag2D, ShaderModuleInfo(CopyColor2D))
    && IssuedAs(dev, s.color.fragMs, ShaderModuleInfo(CopyColorMs))
    && IssuedAs(dev, s.depth.frag1D, ShaderModuleInfo(CopyDepth1D))
    && IssuedAs(dev, s.depth.frag2D, ShaderModuleInfo(CopyDepth2D))
    && IssuedAs(dev, s.depth.fragMs, ShaderModuleInfo(CopyDepthMs))
    && s.sampler < s.vert < s.geom
       < s.color.frag1D < s.color.frag2D < s.color.fragMs
       < s.depth.frag1D < s.depth.frag2D < s.depth.fragMs
  }

  /** A cache entry's four objects were created, in this order, from the records
      derived from its key, each referring to the ones before it and to the
      shared objects. */
  ghost predicate ValidEntry(shared: SharedObjects, key: PipelineKey, p: Pipeline, dev: Device, aspect: AspectFlags) {
    && IssuedAs(dev, p.renderPass, RenderPassInfo(RenderPassInfoFor(key, aspect)))
    && IssuedAs(dev, p.setLayout, DescriptorSetLayoutInfo(SetLayoutInfoFor(shared.sampler)))
    && IssuedAs(dev, p.pipelineLayout, PipelineLayoutInfo(PipelineLayoutInfoFor(p.setLayout)))
    && IssuedAs(dev, p.pipeline,
         GraphicsPipelineInfo(PipelineInfoFor(shared, key, aspect, p.pipelineLayout, p.renderPass)))
    && p.renderPass < p.setLayout < p.pipelineLayout < p.pipeline
  }

  ghost function EntryHandles(p: Pipeline): set<Handle> {
    {p.renderPass, p.setLayout, p.pipelineLayout, p.pipeline}
  }

  /** The factory invariant: shared objects as built by the constructor, every
      entry built for its own key after them, and no object shared by two entries. */
  ghost predicate Valid(f: Factory, dev: Device, aspectOf: Format -> AspectFlags) {
    && ValidShared(f.shared, dev)
    && (forall k :: k in f.pipelines ==>
          ValidEntry(f.shared, k, f.pipelines[k], dev, aspectOf(k.format))
          && f.shared.depth.fragMs < f.pipelines[k].renderPass)
    && (forall k1, k2 :: k1 in f.pipelines && k2 in f.pipelines && k1 != k2 ==>
          EntryHandles(f.pipelines[k1]) !! EntryHandles(f.pipelines[k2]))
  }

  /** `createShaderModule` for the constructor's modules `i`, `i + 1`, ..., 7,
      stopping at the first failure. */
  function CreateShaderModules(dev: Device, i: nat): (r: Step<seq<Handle>>)
    requires i <= 8
    ensures Extends(dev, r.dev) && |r.dev.log| <= |dev.log| + (8 - i)
    // Every call before the last one was accepted; the last is refused exactly on failure.
    ensures forall n :: |dev.log| <= n < |r.dev.log| - 1 ==> n !in dev.refused
    ensures r.out.Ok? ==> forall n :: |dev.log| <= n < |r.dev.log| ==> n !in dev.refused
    ensures r.out.Ok? ==>
      && |r.out.value| == 8 - i && |r.dev.log| == |dev.log| + (8 - i)
      && forall j :: 0 <= j < 8 - i ==>
           r.out.value[j] == |dev.log| + j + 1 && IssuedAs(r.dev, r.out.value[j], ShaderModuleInfo(ModuleCode(i + j)))
    ensures r.out.Err? ==>
      && r.out.error == Error(SHADER_MODULE_ERROR)
      && |dev.log| < |r.dev.log| && |r.dev.log| - 1 in r.dev.refused
    decreases 8 - i
  {
    if i == 8 then Step(Ok([]), dev)
    else
      var m := Create(dev, ShaderModuleInfo(ModuleCode(i)), SHADER_MODULE_ERROR);
      if m.out.Err? then Step(Err(m.out.error), m.dev)
      else
        var rest := CreateShaderModules(m.dev, i + 1);
        ExtendsTransitive(dev, m.dev, rest.dev);
        // This call was accepted; the rest of the run follows it.
        assert |m.dev.log| == |dev.log| + 1 && m.dev.refused == dev.refused && |dev.log| !in dev.refused;
        if rest.out.Err? then rest
        else
          IssuedPersists(m.dev, rest.dev, m.out.value, ShaderModuleInfo(ModuleCode(i)));
          var h := [m.out.value] + rest.out.value;
          assert forall j :: 0 < j < |h| ==> h[j] == rest.out.value[j - 1];
          Step(Ok(h), rest.dev)
  }

  /** The constructor: the sampler, then the vertex and geometry modules, then
      the colour and depth fragment modules. A failure throws, releasing
      nothing created before it. */
  function NewFactory(dev: Device): (r: Step<Factory>)
    ensures Extends(dev, r.dev) && |dev.log| < |r.dev.log| <= |dev.log| + 9
    // Construction stops at the first refused call.
    ensures forall n :: |dev.log| <= n < |r.dev.log| - 1 ==> n !in dev.refused
    ensures r.out.Ok? ==> forall n :: |dev.log| <= n < |r.dev.log| ==> n !in dev.refused
    // Nine consecutive handles, in construction order, and an empty cache.
    ensures r.out.Ok? ==>
      && r.out.value.pipelines == map[]
      && |r.dev.log| == |dev.log| + 9
      && forall i :: 0 <= i < 9 ==> SharedHandles(r.out.value.shared)[i] == |dev.log| + 1 + i
    ensures r.out.Err? ==>
      && |r.dev.log| - 1 in r.dev.refused
      && r.out.error == Error(if |dev.log| in dev.refused then SAMPLER_ERROR else SHADER_MODULE_ERROR)
  {
    var s := Create(dev, SamplerInfo(COPY_SAMPLER), SAMPLER_ERROR);
    if s.out.Err? then Step(Err(s.out.error), s.dev)
    else
      var ms := CreateShaderModules(s.dev, 0);
      ExtendsTransitive(dev, s.dev, ms.dev);
      // The sampler call was accepted; the module calls follow it.
      assert |s.dev.log| == |dev.log| + 1 && s.dev.refused == dev.refused && |dev.log| !in dev.refused;
      if ms.out.Err? then Step(Err(ms.out.error), ms.dev)
      else
        ConstructedSharedConsecutive(|dev.log|, s.out.value, ms.out.value);
        Step(Ok(Factory(SharedOf(s.out.value, ms.out.value), map[])), ms.dev)
  }

  /** The sampler and the eight modules, in the constructor's order, as the
      shared objects. */
  function SharedOf(sampler: Handle, h: seq<Handle>): (s: SharedObjects)
    requires |h| == 8
    ensures SharedHandles(s) == [sampler] + h
  {
    SharedObjects(sampler, h[0], h[1], ShaderSet(h[2], h[3], h[4]), ShaderSet(h[5], h[6], h[7]))
  }

  /** A sampler and eight modules created in the constructor's order, one
      after the other, satisfy `ValidShared`. */
  lemma ConstructedSharedValid(dev: Device, sampler: Handle, h: seq<Handle>)
    requires IssuedAs(dev, sampler, SamplerInfo(COPY_SAMPLER))
    requires |h| == 8
    requires forall i :: 0 <= i < 8 ==> h[i] == sampler + 1 + i && IssuedAs(dev, h[i], ShaderModuleInfo(ModuleCode(i)))
    ensures ValidShared(SharedOf(sampler, h), dev)
  {
    assert IssuedAs(dev, h[0], ShaderModuleInfo(ModuleCode(0)));
    assert IssuedAs(dev, h[1], ShaderModuleInfo(ModuleCode(1)));
    assert IssuedAs(dev, h[2], ShaderModuleInfo(ModuleCode(2)));
    assert IssuedAs(dev, h[3], ShaderModuleInfo(ModuleCode(3)));
    assert IssuedAs(dev, h[4], ShaderModuleInfo(ModuleCode(4)));
    assert IssuedAs(dev, h[5], ShaderModuleInfo(ModuleCode(5)));
    assert IssuedAs(dev, h[6], ShaderModuleInfo(ModuleCode(6)));
    assert IssuedAs(dev, h[7], ShaderModuleInfo(ModuleCode(7)));
  }

  /** A sampler and eight modules created one after the other get consecutive handles. */
  lemma ConstructedSharedConsecutive(base: nat, sampler: Handle, h: seq<Handle>)
    requires sampler == base + 1
    requires |h| == 8 && forall i :: 0 <= i < 8 ==> h[i] == base + 2 + i
    ensures forall i :: 0 <= i < 9 ==> SharedHandles(SharedOf(sampler, h))[i] == base + 1 + i
  {
    var x := SharedHandles(SharedOf(sampler, h));
    forall i | 0 <= i < 9 ensures x[i] == base + 1 + i {
      if i > 0 { assert x[i] == h[i - 1]; }
    }
  }

  /** `createPipeline(key)`: render pass, descriptor-set layout, pipeline layout,
      graphics pipeline, stopping at the first failure. Objects created before
      a failure are not released. */
  function CreatePipeline(shared: SharedObjects, dev: Device, key: PipelineKey, aspect: AspectFlags): (r: Step<Pipeline>)
    ensures Extends(dev, r.dev) && |dev.log| < |r.dev.log| <= |dev.log| + 4
    ensures forall n :: |dev.log| <= n < |r.dev.log| - 1 ==> n !in dev.refused
    ensures r.out.Ok? ==>
      && |r.dev.log| == |dev.log| + 4 && |r.dev.log| - 1 !in dev.refused
      && ValidEntry(shared, key, r.out.value, r.dev, aspect)
      && r.out.value.renderPass == |dev.log| + 1
    ensures r.out.Err? ==>
      && |r.dev.log| - 1 in r.dev.refused
      && r.out.error == Error(BUILD_ERRORS[|r.dev.log| - |dev.log| - 1])
  {
    var rpInfo := RenderPassInfo(RenderPassInfoFor(key, aspect));
    var rp := Create(dev, rpInfo, RENDER_PASS_ERROR);
    if rp.out.Err? then Step(Err(rp.out.error), rp.dev)
    else
      var slInfo := DescriptorSetLayoutInfo(SetLayoutInfoFor(shared.sampler));
      var sl := Create(rp.dev, slInfo, SET_LAYOUT_ERROR);
      ExtendsTransitive(dev, rp.dev, sl.dev);
      if sl.out.Err? then Step(Err(sl.out.error), sl.dev)
      else
        var plInfo := PipelineLayoutInfo(PipelineLayoutInfoFor(sl.out.value));
        var pl := Create(sl.dev, plInfo, PIPELINE_LAYOUT_ERROR);
        ExtendsTransitive(dev, sl.dev, pl.dev);
        if pl.out.Err? then Step(Err(pl.out.error), pl.dev)
        else
          var pipeInfo := GraphicsPipelineInfo(PipelineInfoFor(shared, key, aspect, pl.out.value, rp.out.value));
          var pipe := Create(pl.dev, pipeInfo, PIPELINE_ERROR);
          ExtendsTransitive(dev, pl.dev, pipe.dev);
          if pipe.out.Err? then Step(Err(pipe.out.error), pipe.dev)
          else
            IssuedPersists(rp.dev, pipe.dev, rp.out.value, rpInfo);
            IssuedPersists(sl.dev, pipe.dev, sl.out.value, slInfo);
            IssuedPersists(pl.dev, pipe.dev, pl.out.value, plInfo);
            Step(Ok(Pipeline(rp.out.value, sl.out.value, pl.out.value, pipe.out.value)), pipe.dev)
  }

  /** The calls `createPipeline` makes create, in order, a render pass, a
      descriptor-set layout, a pipeline layout and a pipeline. */
  lemma CreatePipelineKinds(shared: SharedObjects, dev: Device, key: PipelineKey, aspect: AspectFlags)
    ensures var r := CreatePipeline(shared, dev, key, aspect);
      forall n :: |dev.log| <= n < |r.dev.log| ==> r.dev.log[n].Kind() == BUILD_KINDS[n - |dev.log|]
  {
    var r := CreatePipeline(shared, dev, key, aspect);
    var rp := Create(dev, RenderPassInfo(RenderPassInfoFor(key, aspect)), RENDER_PASS_ERROR);
    assert rp.dev.log[|dev.log|].Kind() == RenderPassObject;
    if rp.out.Ok? {
      var sl := Create(rp.dev, DescriptorSetLayoutInfo(SetLayoutInfoFor(shared.sampler)), SET_LAYOUT_ERROR);
      assert sl.dev.log[|dev.log|] == rp.dev.log[|dev.log|];
      if sl.out.Ok? {
        var pl := Create(sl.dev, PipelineLayoutInfo(PipelineLayoutInfoFor(sl.out.value)), PIPELINE_LAYOUT_ERROR);
        assert pl.dev.log[|dev.log|] == rp.dev.log[|dev.log|];
        assert pl.dev.log[|dev.log| + 1] == sl.dev.log[|dev.log| + 1];
        if pl.out.Ok? {
          var pipe := Create(pl.dev,
            GraphicsPipelineInfo(PipelineInfoFor(shared, key, aspect, pl.out.value, rp.out.value)), PIPELINE_ERROR);
          assert pipe.dev.log[|dev.log|] == rp.dev.log[|dev.log|];
          assert pipe.dev.log[|dev.log| + 1] == sl.dev.log[|dev.log| + 1];
          assert pipe.dev.log[|dev.log| + 2] == pl.dev.log[|dev.log| + 2];
          assert r.dev == pipe.dev;
        } else {
          assert r.dev == pl.dev;
        }
      } else {
        assert r.dev == sl.dev;
      }
    } else {
      assert r.dev == rp.dev;
    }
  }

  /** `getPipeline(viewType, format, samples)`. */
  function GetPipeline(f: Factory, dev: Device, aspectOf: Format -> AspectFlags,
                       viewType: ImageViewType, format: Format, samples: SampleCount): (r: Served)
    ensures Extends(dev, r.dev) && r.factory.shared == f.shared
    // A hit returns the stored entry and touches neither the cache nor the driver.
    ensures PipelineKey(viewType, format, samples) in f.pipelines ==>
      r == Served(Ok(f.pipelines[PipelineKey(viewType, format, samples)]), f, dev)
    // A miss attempts one build: at most four create calls, one of them the pipeline.
    ensures PipelineKey(viewType, format, samples) !in f.pipelines ==>
      && |dev.log| < |r.dev.log| <= |dev.log| + 4
      && (forall n :: |dev.log| <= n < |r.dev.log| - 1 ==> n !in dev.refused)
    // The last call of a miss decides it: a successful build had it accepted,
    // and a failed one ends at it, with the message of that step.
    ensures PipelineKey(viewType, format, samples) !in f.pipelines && r.out.Ok? ==>
      |r.dev.log| - 1 !in dev.refused
    ensures r.out.Err? ==>
      && |r.dev.log| - 1 in r.dev.refused
      && r.out.error == Error(BUILD_ERRORS[|r.dev.log| - |dev.log| - 1])
    // A successful build is inserted under the key; every other entry is unchanged.
    ensures PipelineKey(viewType, format, samples) !in f.pipelines && r.out.Ok? ==>
      && r.factory.pipelines == f.pipelines[PipelineKey(viewType, format, samples) := r.out.value]
      && |r.dev.log| == |dev.log| + 4
      && ValidEntry(f.shared, PipelineKey(viewType, format, samples), r.out.value, r.dev, aspectOf(format))
      && r.out.value.renderPass == |dev.log| + 1
    // A failed build inserts nothing.
    ensures r.out.Err? ==> r.factory == f && PipelineKey(viewType, format, samples) !in r.factory.pipelines
    ensures r.out.Ok? ==>
      PipelineKey(viewType, format, samples) in r.factory.pipelines
      && r.factory.pipelines[PipelineKey(viewType, format, samples)] == r.out.value
    ensures forall k :: k in f.pipelines ==> k in r.factory.pipelines && r.factory.pipelines[k] == f.pipelines[k]
  {
    var key := PipelineKey(viewType, format, samples);
    if key in f.pipelines then Served(Ok(f.pipelines[key]), f, dev)
    else
      var built := CreatePipeline(f.shared, dev, key, aspectOf(format));
      if built.out.Err? then Served(Err(built.out.error), f, built.dev)
      else Served(Ok(built.out.value), Factory(f.shared, f.pipelines[key := built.out.value]), built.dev)
  }

  /** A miss succeeds exactly when the driver accepts every create call the
      build makes. */
  lemma MissSucceedsIffAccepted(f: Factory, dev: Device, aspectOf: Format -> AspectFlags,
                                viewType: ImageViewType, format: Format, samples: SampleCount)
    requires PipelineKey(viewType, format, samples) !in f.pipelines
    ensures var r := GetPipeline(f, dev, aspectOf, viewType, format, samples);
      r.out.Ok? <==> forall n :: |dev.log| <= n < |r.dev.log| ==> n !in dev.refused
  {
  }

  lemma ValidSharedPersists(s: SharedObjects, before: Device, after: Device)
    requires ValidShared(s, before) && Extends(before, after)
    ensures ValidShared(s, after)
  {
    IssuedPersists(before, after, s.sampler, SamplerInfo(COPY_SAMPLER));
    IssuedPersists(before, after, s.vert, ShaderModuleInfo(ResolveVert));
    IssuedPersists(before, after, s.geom, ShaderModuleInfo(ResolveGeom));
    IssuedPersists(before, after, s.color.frag1D, ShaderModuleInfo(CopyColor1D));
    IssuedPersists(before, after, s.color.frag2D, ShaderModuleInfo(CopyColor2D));
    IssuedPersists(before, after, s.color.fragMs, ShaderModuleInfo(CopyColorMs));
    IssuedPersists(before, after, s.depth.frag1D, ShaderModuleInfo(CopyDepth1D));
    IssuedPersists(before, after, s.depth.frag2D, ShaderModuleInfo(CopyDepth2D));
    IssuedPersists(before, after, s.depth.fragMs, ShaderModuleInfo(CopyDepthMs));
  }

  lemma ValidEntryPersists(shared: SharedObjects, key: PipelineKey, p: Pipeline, before: Device, after: Device, aspect: AspectFlags)
    requires ValidEntry(shared, key, p, before, aspect) && Extends(before, after)
    ensures ValidEntry(shared, key, p, after, aspect)
  {
    IssuedPersists(before, after, p.renderPass, RenderPassInfo(RenderPassInfoFor(key, aspect)));
    IssuedPersists(before, after, p.setLayout, DescriptorSetLayoutInfo(SetLayoutInfoFor(shared.sampler)));
    IssuedPersists(before, after, p.pipelineLayout, PipelineLayoutInfo(PipelineLayoutInfoFor(p.setLayout)));
    IssuedPersists(before, after, p.pipeline,
      GraphicsPipelineInfo(PipelineInfoFor(shared, key, aspect, p.pipelineLayout, p.renderPass)));
  }

  /** A freshly constructed factory satisfies the invariant. */
  lemma NewFactoryValid(dev: Device, aspectOf: Format -> AspectFlags)
    requires NewFactory(dev).out.Ok?
    ensures Valid(NewFactory(dev).out.value, NewFactory(dev).dev, aspectOf)
  {
    var s := Create(dev, SamplerInfo(COPY_SAMPLER), SAMPLER_ERROR);
    var ms := CreateShaderModules(s.dev, 0);
    IssuedPersists(s.dev, ms.dev, s.out.value, SamplerInfo(COPY_SAMPLER));
    ConstructedSharedValid(ms.dev, s.out.value, ms.out.value);
  }

  /** Inserting an entry built after everything the factory already owns
      keeps the invariant. */
  lemma InsertPreservesValid(f: Factory, dev: Device, after: Device, aspectOf: Format -> AspectFlags,
                             key: PipelineKey, p: Pipeline)
    requires Valid(f, dev, aspectOf) && Extends(dev, after) && key !in f.pipelines
    requires ValidEntry(f.shared, key, p, after, aspectOf(key.format)) && p.renderPass > |dev.log|
    ensures Valid(Factory(f.shared, f.pipelines[key := p]), after, aspectOf)
  {
    ValidSharedPersists(f.shared, dev, after);
    InsertKeepsEntries(f, dev, after, aspectOf, key, p);
    InsertKeepsDisjoint(f, dev, aspectOf, key, p);
  }

  /** After an insert every entry, old or new, is still valid on the later device. */
  lemma InsertKeepsEntries(f: Factory, dev: Device, after: Device, aspectOf: Format -> AspectFlags,
                           key: PipelineKey, p: Pipeline)
    requires Valid(f, dev, aspectOf) && Extends(dev, after)
    requires ValidEntry(f.shared, key, p, after, aspectOf(key.format)) && p.renderPass > |dev.log|
    ensures var m := f.pipelines[key := p];
      forall k :: k in m ==>
        ValidEntry(f.shared, k, m[k], after, aspectOf(k.format)) && f.shared.depth.fragMs < m[k].renderPass
  {
    var m := f.pipelines[key := p];
    forall k | k in m
      ensures ValidEntry(f.shared, k, m[k], after, aspectOf(k.format))
      ensures f.shared.depth.fragMs < m[k].renderPass
    {
      if k != key {
        assert m[k] == f.pipelines[k];
        ValidEntryPersists(f.shared, k, f.pipelines[k], dev, after, aspectOf(k.format));
      } else {
        assert m[k] == p;
      }
    }
  }

  /** After inserting an entry built after `dev`, no two entries share an object. */
  lemma InsertKeepsDisjoint(f: Factory, dev: Device, aspectOf: Format -> AspectFlags, key: PipelineKey, p: Pipeline)
    requires Valid(f, dev, aspectOf) && key !in f.pipelines
    requires |dev.log| < p.renderPass < p.setLayout < p.pipelineLayout < p.pipeline
    ensures var m := f.pipelines[key := p];
      forall k1, k2 :: k1 in m && k2 in m && k1 != k2 ==> EntryHandles(m[k1]) !! EntryHandles(m[k2])
  {
    var m := f.pipelines[key := p];
    forall k1, k2 | k1 in m && k2 in m && k1 != k2
      ensures EntryHandles(m[k1]) !! EntryHandles(m[k2])
    {
      if k1 == key {
        OlderEntryDisjoint(f.shared, k2, f.pipelines[k2], dev, aspectOf(k2.format), p);
      } else if k2 == key {
        OlderEntryDisjoint(f.shared, k1, f.pipelines[k1], dev, aspectOf(k1.format), p);
      } else {
        assert m[k1] == f.pipelines[k1] && m[k2] == f.pipelines[k2];
      }
    }
  }

  /** An entry valid on `dev` shares no object with one built after `dev`. */
  lemma OlderEntryDisjoint(shared: SharedObjects, key: PipelineKey, q: Pipeline, dev: Device, aspect: AspectFlags, p: Pipeline)
    requires ValidEntry(shared, key, q, dev, aspect)
    requires |dev.log| < p.renderPass < p.setLayout < p.pipelineLayout < p.pipeline
    ensures EntryHandles(q) !! EntryHandles(p)
  {
  }

  /** `getPipeline` preserves the factory invariant, hit or miss, success or failure. */
  lemma GetPipelinePreservesValid(f: Factory, dev: Device, aspectOf: Format -> AspectFlags,
                                  viewType: ImageViewType, format: Format, samples: SampleCount)
    requires Valid(f, dev, aspectOf)
    ensures var r := GetPipeline(f, dev, aspectOf, viewType, format, samples);
            Valid(r.factory, r.dev, aspectOf)
  {
    var r := GetPipeline(f, dev, aspectOf, viewType, format, samples);
    var key := PipelineKey(viewType, format, samples);
    if key !in f.pipelines && r.out.Ok? {
      InsertPreservesValid(f, dev, r.dev, aspectOf, key, r.out.value);
    } else if key !in f.pipelines {
      ValidSharedPersists(f.shared, dev, r.dev);
      forall k | k in f.pipelines
        ensures ValidEntry(f.shared, k, f.pipelines[k], r.dev, aspectOf(k.format))
      {
        ValidEntryPersists(f.shared, k, f.pipelines[k], dev, r.dev, aspectOf(k.format));
      }
    }
  }

  /** Asking twice for the same key: the second call returns what the first
      returned and builds nothing. */
  lemma GetPipelineTwice(f: Factory, dev: Device, aspectOf: Format -> AspectFlags,
                         viewType: ImageViewType, format: Format, samples: SampleCount)
    ensures var r1 := GetPipeline(f, dev, aspectOf, viewType, format, samples);
            var r2 := GetPipeline(r1.factory, r1.dev, aspectOf, viewType, format, samples);
            r1.out.Ok? ==> r2 == Served(r1.out, r1.factory, r1.dev)
  {
  }

  /** Different keys never share a pipeline or any object it owns. */
  lemma DistinctKeysDistinctPipelines(f: Factory, dev: Device, aspectOf: Format -> AspectFlags,
                                      k1: PipelineKey, k2: PipelineKey)
    requires Valid(f, dev, aspectOf) && k1 in f.pipelines && k2 in f.pipelines && k1 != k2
    ensures f.pipelines[k1].pipeline != f.pipelines[k2].pipeline
    ensures EntryHandles(f.pipelines[k1]) !! EntryHandles(f.pipelines[k2])
  {
    var p1, p2 := f.pipelines[k1], f.pipelines[k2];
    assert EntryHandles(p1) !! EntryHandles(p2);
    assert p1.pipeline in EntryHandles(p1) && p2.pipeline in EntryHandles(p2);
  }

  /** In a cached pipeline the vertex and geometry stages run the shared
      modules, and the fragment stage runs the module built from the blob the
      (family, variant) table names for the key. */
  lemma CachedPipelineShaders(f: Factory, dev: Device, aspectOf: Format -> AspectFlags, key: PipelineKey)
    requires Valid(f, dev, aspectOf) && key in f.pipelines
    ensures var p := f.pipelines[key];
            var info := PipelineInfoFor(f.shared, key, aspectOf(key.format), p.pipelineLayout, p.renderPass);
            && IssuedAs(dev, p.pipeline, GraphicsPipelineInfo(info))
            && IssuedAs(dev, info.stages[0].shaderModule, ShaderModuleInfo(ResolveVert))
            && IssuedAs(dev, info.stages[1].shaderModule, ShaderModuleInfo(ResolveGeom))
            && IssuedAs(dev, info.stages[2].shaderModule,
                        ShaderModuleInfo(FragmentCode(FamilyOf(aspectOf(key.format)), VariantOf(key))))
  {
    var s := f.shared;
    var aspect := aspectOf(key.format);
    FragmentModuleIsTableEntry(s, key, aspect);
  }

  /** The render pass a session builds for a destination view has the same
      attachments and subpass slots as the factory's render pass for the key
      of that view, and the cached pipeline fits the session's subpass. The
      two passes are not identical otherwise: the session's declares two
      external dependencies and the factory's declares none. */
  lemma SessionAttachmentsCompatible(dst: MetaCopyRenderPass.ImageViewInfo, discard: bool,
                                    shared: SharedObjects, key: PipelineKey, aspect: AspectFlags,
                                    layout: Handle, renderPass: Handle)
    requires dst.format == key.format && dst.samples == key.samples
    requires HasColor(dst.aspect) == HasColor(aspect)
    ensures AttachmentCompatible(MetaCopyRenderPass.RenderPassInfoFor(dst, discard), RenderPassInfoFor(key, aspect))
    ensures |MetaCopyRenderPass.RenderPassInfoFor(dst, discard).dependencies| == 2
    ensures RenderPassInfoFor(key, aspect).dependencies == []
    ensures PipelineFits(PipelineInfoFor(shared, key, aspect, layout, renderPass),
                         MetaCopyRenderPass.RenderPassInfoFor(dst, discard))
  {
  }

  /** A sequence of `getPipeline` calls: each call's result and the number of
      create calls it made, then the factory and device after the last one. */
  datatype Trace = Trace(results: seq<Result<Pipeline>>, creates: seq<nat>, factory: Factory, dev: Device)

  function RunLookups(f: Factory, dev: Device, aspectOf: Format -> AspectFlags, keys: seq<PipelineKey>): (t: Trace)
    ensures |t.results| == |keys| && |t.creates| == |keys|
    decreases |keys|
  {
    if |keys| == 0 then Trace([], [], f, dev)
    else
      var l := GetPipeline(f, dev, aspectOf, keys[0].viewType, keys[0].format, keys[0].samples);
      var rest := RunLookups(l.factory, l.dev, aspectOf, keys[1..]);
      Trace([l.out] + rest.results, [|l.dev.log| - |dev.log|] + rest.creates, rest.factory, rest.dev)
  }

  /** An entry present at the start of a run stays, and every lookup of its key
      in the run returns it without a single create call. */
  lemma {:induction false} StoredEntriesStay(f: Factory, dev: Device, aspectOf: Format -> AspectFlags, keys: seq<PipelineKey>)
    ensures var t := RunLookups(f, dev, aspectOf, keys);
      && (forall k :: k in f.pipelines ==> k in t.factory.pipelines && t.factory.pipelines[k] == f.pipelines[k])
      && (forall j :: 0 <= j < |keys| && keys[j] in f.pipelines ==>
            t.results[j] == Ok(f.pipelines[keys[j]]) && t.creates[j] == 0)
    decreases |keys|
  {
    if |keys| > 0 {
      var l := GetPipeline(f, dev, aspectOf, keys[0].viewType, keys[0].format, keys[0].samples);
      StoredEntriesStay(l.factory, l.dev, aspectOf, keys[1..]);
      var t := RunLookups(f, dev, aspectOf, keys);
      forall j | 0 <= j < |keys| && keys[j] in f.pipelines
        ensures t.results[j] == Ok(f.pipelines[keys[j]]) && t.creates[j] == 0
      {
        if j > 0 {
          assert keys[1..][j - 1] == keys[j];
        }
      }
    }
  }

  /** In a run over `keys`, a lookup after a successful lookup of the same key
      returns the same result and makes no create call. */
  ghost predicate AgreesPerKey(keys: seq<PipelineKey>, t: Trace) {
    |t.results| == |keys| && |t.creates| == |keys| &&
    forall i, j :: 0 <= i < j < |keys| && keys[i] == keys[j] && t.results[i].Ok? ==>
      t.results[j] == t.results[i] && t.creates[j] == 0
  }

  /** Over any run of lookups, once a key has been served every later lookup of
      it returns the same pipeline and makes no create call: each key is
      successfully built at most once. A failed build inserts nothing, so the
      next lookup of that key builds again. */
  lemma {:induction false} LookupsAgreePerKey(f: Factory, dev: Device, aspectOf: Format -> AspectFlags, keys: seq<PipelineKey>)
    ensures AgreesPerKey(keys, RunLookups(f, dev, aspectOf, keys))
    decreases |keys|
  {
    if |keys| > 0 {
      var first, c, f', dev' := FirstLookup(f, dev, aspectOf, keys);
      LookupsAgreePerKey(f', dev', aspectOf, keys[1..]);
      StoredEntriesStay(f', dev', aspectOf, keys[1..]);
      AgreementExtends(keys, RunLookups(f, dev, aspectOf, keys), first, c,
                       RunLookups(f', dev', aspectOf, keys[1..]), f'.pipelines);
    }
  }

  /** The first step of a run: its lookup's result and create count, and the
      factory and device the rest of the run starts from. A successful first
      lookup leaves its result in the cache under its key. */
  lemma FirstLookup(f: Factory, dev: Device, aspectOf: Format -> AspectFlags, keys: seq<PipelineKey>)
    returns (first: Result<Pipeline>, c: nat, f': Factory, dev': Device)
    requires |keys| > 0
    ensures var t, rest := RunLookups(f, dev, aspectOf, keys), RunLookups(f', dev', aspectOf, keys[1..]);
      t.results == [first] + rest.results && t.creates == [c] + rest.creates
    ensures first.Ok? ==> keys[0] in f'.pipelines && f'.pipelines[keys[0]] == first.value
  {
    var l := GetPipeline(f, dev, aspectOf, keys[0].viewType, keys[0].format, keys[0].samples);
    assert keys[0] == PipelineKey(keys[0].viewType, keys[0].format, keys[0].samples);
    first, c, f', dev' := l.out, |l.dev.log| - |dev.log|, l.factory, l.dev;
  }

  /** The index shift behind `LookupsAgreePerKey`: a first lookup whose
      success is stored, followed by a run that serves the stored entries and
      agrees per key, makes a run that agrees per key. */
  lemma AgreementExtends(keys: seq<PipelineKey>, t: Trace, first: Result<Pipeline>, c: nat, rest: Trace,
                         stored: map<PipelineKey, Pipeline>)
    requires |keys| > 0 && |t.results| == |keys| && |t.creates| == |keys|
    requires t.results == [first] + rest.results && t.creates == [c] + rest.creates
    requires first.Ok? ==> keys[0] in stored && stored[keys[0]] == first.value
    requires forall j :: 0 <= j < |keys[1..]| && keys[1..][j] in stored ==>
      rest.results[j] == Ok(stored[keys[1..][j]]) && rest.creates[j] == 0
    requires AgreesPerKey(keys[1..], rest)
    ensures AgreesPerKey(keys, t)
  {
    forall i, j | 0 <= i < j < |keys| && keys[i] == keys[j] && t.results[i].Ok?
      ensures t.results[j] == t.results[i] && t.creates[j] == 0
    {
      assert keys[1..][j - 1] == keys[j] && t.results[j] == rest.results[j - 1] && t.creates[j] == rest.creates[j - 1];
      if i > 0 {
        assert keys[1..][i - 1] == keys[i] && t.results[i] == rest.results[i - 1];
      }
    }
  }

  /** A failed build is not remembered: when the first create call is refused,
      a second lookup of the same key from an empty cache builds again, with
      all four calls, and only that second build is cached. */
  lemma FailedBuildIsRetried(shared: SharedObjects, aspectOf: Format -> AspectFlags, key: PipelineKey)
    ensures var t := RunLookups(Factory(shared, map[]), Device([], {0}), aspectOf, [key, key]);
      && t.results[0] == Err(Error(RENDER_PASS_ERROR)) && t.creates[0] == 1
      && t.results[1].Ok? && t.creates[1] == 4
      && t.factory.pipelines == map[key := t.results[1].value]
  {
    var f := Factory(shared, map[]);
    var first := GetPipeline(f, Device([], {0}), aspectOf, key.viewType, key.format, key.samples);
    RefusedFirstCall(f, aspectOf, key);
    var second := GetPipeline(f, first.dev, aspectOf, key.viewType, key.format, key.samples);
    AcceptedCalls(f, first.dev, aspectOf, key);
    assert [key, key][1..] == [key] && [key][1..] == [];
    assert RunLookups(f, first.dev, aspectOf, [key]).results == [second.out];
  }

  /** The lookup whose render pass call is refused. */
  lemma RefusedFirstCall(f: Factory, aspectOf: Format -> AspectFlags, key: PipelineKey)
    requires f.pipelines == map[]
    ensures var r := GetPipeline(f, Device([], {0}), aspectOf, key.viewType, key.format, key.samples);
      && r.out == Err(Error(RENDER_PASS_ERROR)) && r.factory == f
      && |r.dev.log| == 1 && r.dev.refused == {0}
  {
    assert key == PipelineKey(key.viewType, key.format, key.samples);
  }

  /** The lookup after it, on a device that refuses nothing more. */
  lemma AcceptedCalls(f: Factory, dev: Device, aspectOf: Format -> AspectFlags, key: PipelineKey)
    requires f.pipelines == map[] && |dev.log| == 1 && dev.refused == {0}
    ensures var r := GetPipeline(f, dev, aspectOf, key.viewType, key.format, key.samples);
      && r.out.Ok? && |r.dev.log| == 5
      && r.factory.pipelines == map[key := r.out.value]
  {
    assert key == PipelineKey(key.viewType, key.format, key.samples);
  }
}

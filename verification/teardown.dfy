/** ~DxvkMetaCopyObjects: the destroy calls the destructor makes. Every cached
    pipeline is released first, its four objects in the reverse of the order
    `createPipeline` made them, visiting the entries in the hash map's
    iteration order (a parameter here: any enumeration of the keys); then the
    eight shader modules and the sampler, in the reverse of the constructor's
    order. */
module MetaCopyTeardown {

  import opened Vulkan
  import opened Driver
  import opened MetaCopyPipeline
  import opened MetaCopyObjects

  /** The shared objects' destroy calls. */
  function SharedTeardown(s: SharedObjects): (d: seq<Destroy>)
    ensures |d| == |SharedHandles(s)|
    // Construction order read backwards.
    ensures forall i :: 0 <= i < |d| ==> d[i].handle == SharedHandles(s)[|d| - 1 - i]
  {
    [Destroy(ShaderModuleObject, s.depth.fragMs),
     Destroy(ShaderModuleObject, s.depth.frag2D),
     Destroy(ShaderModuleObject, s.depth.frag1D),
     Destroy(ShaderModuleObject, s.color.fragMs),
     Destroy(ShaderModuleObject, s.color.frag2D),
     Destroy(ShaderModuleObject, s.color.frag1D),
     Destroy(ShaderModuleObject, s.geom),
     Destroy(ShaderModuleObject, s.vert),
     Destroy(SamplerObject, s.sampler)]
  }

  /** The destroy calls of one cache entry. */
  function EntryTeardown(p: Pipeline): (d: seq<Destroy>)
    ensures |d| == 4
    ensures forall i :: 0 <= i < 4 ==> d[i].handle in EntryHandles(p)
  {
    [Destroy(PipelineObject, p.pipeline),
     Destroy(PipelineLayoutObject, p.pipelineLayout),
     Destroy(DescriptorSetLayoutObject, p.setLayout),
     Destroy(RenderPassObject, p.renderPass)]
  }

  /** `order` visits every key of `m` exactly once, as iterating the map does. */
  ghost predicate Enumerates(order: seq<PipelineKey>, m: map<PipelineKey, Pipeline>) {
    && (forall i, j :: 0 <= i < j < |order| ==> order[i] != order[j])
    && (forall k :: k in m <==> k in order)
  }

  /** The loop over the cache, entry after entry in `order`. */
  function EntriesTeardown(m: map<PipelineKey, Pipeline>, order: seq<PipelineKey>): (d: seq<Destroy>)
    requires forall i :: 0 <= i < |order| ==> order[i] in m
    ensures |d| == 4 * |order|
    decreases |order|
  {
    if |order| == 0 then []
    else EntryTeardown(m[order[0]]) + EntriesTeardown(m, order[1..])
  }

  /** The whole destructor. */
  function FactoryTeardown(f: Factory, order: seq<PipelineKey>): (d: seq<Destroy>)
    requires Enumerates(order, f.pipelines)
    ensures |d| == 4 * |f.pipelines| + 9
  {
    EnumerationLength(order, f.pipelines);
    EntriesTeardown(f.pipelines, order) + SharedTeardown(f.shared)
  }

  /** An enumeration of a map's keys is as long as the map is large. */
  lemma {:induction false} EnumerationLength(order: seq<PipelineKey>, m: map<PipelineKey, Pipeline>)
    requires Enumerates(order, m)
    ensures |order| == |m|
    decreases |order|
  {
    if |order| > 0 {
      var rest := map k | k in m && k != order[0] :: m[k];
      forall k ensures k in rest <==> k in order[1..] {
        if k in order[1..] {
          var j :| 0 <= j < |order[1..]| && order[1..][j] == k;
          assert order[j + 1] == k;
        }
        if k in rest {
          var j :| 0 <= j < |order| && order[j] == k;
          assert order[1..][j - 1] == k;
        }
      }
      forall i, j | 0 <= i < j < |order[1..]| ensures order[1..][i] != order[1..][j] {
        assert order[1..][i] == order[i + 1] && order[1..][j] == order[j + 1];
      }
      EnumerationLength(order[1..], rest);
      assert m.Keys == rest.Keys + {order[0]};
    }
  }

  // ---------------------------------------------------------------------------
  // What a sequence of destroy calls does.

  /** Every call names a live object of the kind the call destroys. */
  ghost predicate AllIssued(dev: Device, d: seq<Destroy>) {
    forall i :: 0 <= i < |d| ==> Issued(dev, d[i].handle, d[i].kind)
  }

  /** No object is destroyed twice. */
  ghost predicate NoRepeats(d: seq<Destroy>) {
    forall i, j :: 0 <= i < j < |d| ==> d[i].handle != d[j].handle
  }

  /** Each call destroys an object created before the one destroyed by the
      call preceding it. */
  ghost predicate NewestFirst(d: seq<Destroy>) {
    forall i, j :: 0 <= i < j < |d| ==> d[i].handle > d[j].handle
  }

  /** The objects released. */
  ghost function Released(d: seq<Destroy>): set<Handle> {
    set i | 0 <= i < |d| :: d[i].handle
  }

  /** The four calls the loop makes for its `n`-th entry. */
  function Chunk(d: seq<Destroy>, n: nat): seq<Destroy>
    requires 4 * n + 4 <= |d|
  {
    d[4 * n .. 4 * n + 4]
  }

  lemma Concat(dev: Device, a: seq<Destroy>, b: seq<Destroy>)
    ensures Released(a + b) == Released(a) + Released(b)
    ensures AllIssued(dev, a) && AllIssued(dev, b) ==> AllIssued(dev, a + b)
    ensures NoRepeats(a) && NoRepeats(b) && Released(a) !! Released(b) ==> NoRepeats(a + b)
  {
    var c := a + b;
    forall h | h in Released(a) ensures h in Released(c) {
      var i :| 0 <= i < |a| && a[i].handle == h;
      assert c[i] == a[i];
    }
    forall h | h in Released(c) ensures h in Released(a) + Released(b) {
      var i :| 0 <= i < |c| && c[i].handle == h;
      if i >= |a| { assert b[i - |a|] == c[i]; }
    }
    forall h | h in Released(b) ensures h in Released(c) {
      var i :| 0 <= i < |b| && b[i].handle == h;
      assert c[i + |a|] == b[i];
    }
    if NoRepeats(a) && NoRepeats(b) && Released(a) !! Released(b) {
      forall i, j | 0 <= i < j < |c| ensures c[i].handle != c[j].handle {
        if j < |a| {
        } else if i >= |a| {
          assert c[i] == b[i - |a|] && c[j] == b[j - |a|];
        } else {
          assert c[i].handle in Released(a);
          assert c[j] == b[j - |a|] && c[j].handle in Released(b);
        }
      }
    }
  }

  /** Calls on objects newer than `bound`, followed by newest-first calls on
      objects no newer than it: everything before a call of the tail destroys
      a newer object. */
  lemma OlderTailLast(a: seq<Destroy>, b: seq<Destroy>, bound: nat)
    requires forall i :: 0 <= i < |a| ==> a[i].handle > bound
    requires forall i :: 0 <= i < |b| ==> b[i].handle <= bound
    requires NewestFirst(b)
    ensures var c := a + b;
      forall i, j :: 0 <= i < j < |c| && |a| <= j ==> c[i].handle > c[j].handle
  {
    var c := a + b;
    forall i, j | 0 <= i < j < |c| && |a| <= j ensures c[i].handle > c[j].handle {
      assert c[j] == b[j - |a|];
      if i >= |a| { assert c[i] == b[i - |a|]; } else { assert c[i] == a[i]; }
    }
  }

  // ---------------------------------------------------------------------------
  // What the destructor relies on.

  /** The objects a factory owns: the shared objects and every entry's four. */
  ghost function Owned(f: Factory): set<Handle> {
    (set h | h in SharedHandles(f.shared))
    + (set k, h | k in f.pipelines && h in EntryHandles(f.pipelines[k]) :: h)
  }

  /** The objects of the entries `order` names. */
  ghost function EntriesOwned(m: map<PipelineKey, Pipeline>, order: seq<PipelineKey>): set<Handle>
    requires forall i :: 0 <= i < |order| ==> order[i] in m
    decreases |order|
  {
    if |order| == 0 then {} else EntryHandles(m[order[0]]) + EntriesOwned(m, order[1..])
  }

  /** Each owned object is alive and of the kind its destroy call expects. */
  ghost predicate Alive(f: Factory, dev: Device) {
    && SharedAlive(f.shared, dev)
    && (forall k :: k in f.pipelines ==> EntryAlive(f.pipelines[k], dev))
  }

  /** Each group was created in order, and every entry after the shared objects. */
  ghost predicate Ordered(f: Factory) {
    && SharedOrdered(f.shared)
    && (forall k :: k in f.pipelines ==> EntryOrdered(f.shared, f.pipelines[k]))
  }

  /** What the destructor relies on: live objects, created in order, no two
      entries sharing an object. */
  ghost predicate Sound(f: Factory, dev: Device) {
    Alive(f, dev) && Ordered(f) && Disjoint(f.pipelines)
  }

  ghost predicate SharedAlive(s: SharedObjects, dev: Device) {
    && Issued(dev, s.sampler, SamplerObject)
    && (forall i :: 1 <= i < 9 ==> Issued(dev, SharedHandles(s)[i], ShaderModuleObject))
  }

  ghost predicate SharedOrdered(s: SharedObjects) {
    forall i, j :: 0 <= i < j < 9 ==> SharedHandles(s)[i] < SharedHandles(s)[j]
  }

  ghost predicate EntryAlive(p: Pipeline, dev: Device) {
    && Issued(dev, p.renderPass, RenderPassObject)
    && Issued(dev, p.setLayout, DescriptorSetLayoutObject)
    && Issued(dev, p.pipelineLayout, PipelineLayoutObject)
    && Issued(dev, p.pipeline, PipelineObject)
  }

  ghost predicate EntryOrdered(s: SharedObjects, p: Pipeline) {
    s.depth.fragMs < p.renderPass < p.setLayout < p.pipelineLayout < p.pipeline
  }

  ghost predicate Disjoint(m: map<PipelineKey, Pipeline>) {
    forall k1, k2 :: k1 in m && k2 in m && k1 != k2 ==> EntryHandles(m[k1]) !! EntryHandles(m[k2])
  }

  /** The factory invariant gives everything the destructor relies on. */
  lemma ValidIsSound(f: Factory, dev: Device, aspectOf: Format -> AspectFlags)
    requires Valid(f, dev, aspectOf)
    ensures Sound(f, dev)
  {
    var s := f.shared;
    forall k | k in f.pipelines ensures EntryAlive(f.pipelines[k], dev) {
      ValidEntryAlive(s, k, f.pipelines[k], dev, aspectOf(k.format));
    }
    ValidSharedAlive(s, dev);
  }

  lemma ValidEntryAlive(s: SharedObjects, key: PipelineKey, p: Pipeline, dev: Device, aspect: AspectFlags)
    requires ValidEntry(s, key, p, dev, aspect)
    ensures EntryAlive(p, dev)
  {
    IssuedKind(dev, p.renderPass, RenderPassInfo(RenderPassInfoFor(key, aspect)));
    IssuedKind(dev, p.setLayout, DescriptorSetLayoutInfo(SetLayoutInfoFor(s.sampler)));
    IssuedKind(dev, p.pipelineLayout, PipelineLayoutInfo(PipelineLayoutInfoFor(p.setLayout)));
    IssuedKind(dev, p.pipeline, GraphicsPipelineInfo(PipelineInfoFor(s, key, aspect, p.pipelineLayout, p.renderPass)));
  }

  lemma ValidSharedAlive(s: SharedObjects, dev: Device)
    requires ValidShared(s, dev)
    ensures SharedAlive(s, dev)
  {
    IssuedKind(dev, s.sampler, SamplerInfo(COPY_SAMPLER));
    forall i | 1 <= i < 9 ensures Issued(dev, SharedHandles(s)[i], ShaderModuleObject) {
      var h := SharedHandles(s)[i];
      assert IssuedAs(dev, h, ShaderModuleInfo(ModuleCode(i - 1)));
    }
  }

  lemma IssuedKind(dev: Device, h: Handle, info: CreateInfo)
    requires IssuedAs(dev, h, info)
    ensures Issued(dev, h, info.Kind())
  {
  }

  // ---------------------------------------------------------------------------
  // The destructor's calls, group by group.

  lemma SharedTeardownIssued(s: SharedObjects, dev: Device)
    requires SharedAlive(s, dev)
    ensures AllIssued(dev, SharedTeardown(s))
  {
    var d := SharedTeardown(s);
    var h := SharedHandles(s);
    forall i | 0 <= i < 9 ensures Issued(dev, d[i].handle, d[i].kind) {
      assert d[i].handle == h[8 - i];
      if i < 8 { assert d[i].kind == ShaderModuleObject; }
    }
  }

  /** The shared objects go newest first, none newer than the last fragment module. */
  lemma SharedTeardownOrdered(s: SharedObjects)
    requires SharedOrdered(s)
    ensures var d := SharedTeardown(s);
      && NewestFirst(d) && NoRepeats(d)
      && forall i :: 0 <= i < |d| ==> d[i].handle <= s.depth.fragMs
  {
    var d := SharedTeardown(s);
    var h := SharedHandles(s);
    assert h[8] == s.depth.fragMs;
    forall i, j | 0 <= i < j < 9 ensures d[i].handle > d[j].handle {
      assert d[i].handle == h[8 - i] && d[j].handle == h[8 - j];
    }
  }

  /** The shared objects' calls release all of them. */
  lemma SharedTeardownReleased(s: SharedObjects)
    ensures Released(SharedTeardown(s)) == set h | h in SharedHandles(s)
  {
    var d := SharedTeardown(s);
    var h := SharedHandles(s);
    forall x | x in h ensures x in Released(d) {
      var j :| 0 <= j < 9 && h[j] == x;
      assert d[8 - j].handle == x;
    }
  }

  lemma EntryTeardownIssued(p: Pipeline, dev: Device)
    requires EntryAlive(p, dev)
    ensures AllIssued(dev, EntryTeardown(p))
  {
  }

  /** One entry's calls destroy its four objects, newest first, all of them
      newer than the shared objects. */
  lemma EntryTeardownOrdered(s: SharedObjects, p: Pipeline)
    requires EntryOrdered(s, p)
    ensures var d := EntryTeardown(p);
      && NewestFirst(d) && NoRepeats(d)
      && Released(d) == EntryHandles(p)
      && forall i :: 0 <= i < |d| ==> d[i].handle > s.depth.fragMs
  {
    var d := EntryTeardown(p);
    assert d[0].handle == p.pipeline && d[1].handle == p.pipelineLayout;
    assert d[2].handle == p.setLayout && d[3].handle == p.renderPass;
  }

  /** An entry outside `order` shares nothing with the entries in it. */
  lemma {:induction false} EntriesOwnedDisjoint(m: map<PipelineKey, Pipeline>, k: PipelineKey, order: seq<PipelineKey>)
    requires forall i :: 0 <= i < |order| ==> order[i] in m && order[i] != k
    requires k in m && Disjoint(m)
    ensures EntryHandles(m[k]) !! EntriesOwned(m, order)
    decreases |order|
  {
    if |order| > 0 {
      EntriesOwnedDisjoint(m, k, order[1..]);
    }
  }

  /** The loop destroys live objects. */
  lemma {:induction false} EntriesTeardownIssued(m: map<PipelineKey, Pipeline>, order: seq<PipelineKey>, dev: Device)
    requires forall i :: 0 <= i < |order| ==> order[i] in m
    requires forall k :: k in m ==> EntryAlive(m[k], dev)
    ensures AllIssued(dev, EntriesTeardown(m, order))
    decreases |order|
  {
    if |order| > 0 {
      EntriesTeardownIssued(m, order[1..], dev);
      EntryTeardownIssued(m[order[0]], dev);
      Concat(dev, EntryTeardown(m[order[0]]), EntriesTeardown(m, order[1..]));
    }
  }

  /** Everything the loop destroys is newer than the shared objects. */
  lemma {:induction false} EntriesTeardownNewer(s: SharedObjects, m: map<PipelineKey, Pipeline>, order: seq<PipelineKey>)
    requires forall i :: 0 <= i < |order| ==> order[i] in m
    requires forall k :: k in m ==> EntryOrdered(s, m[k])
    ensures forall i :: 0 <= i < 4 * |order| ==> EntriesTeardown(m, order)[i].handle > s.depth.fragMs
    decreases |order|
  {
    if |order| > 0 {
      var d := EntriesTeardown(m, order);
      var r := EntriesTeardown(m, order[1..]);
      EntriesTeardownNewer(s, m, order[1..]);
      EntryTeardownOrdered(s, m[order[0]]);
      assert d == EntryTeardown(m[order[0]]) + r;
      forall i | 4 <= i < 4 * |order| ensures d[i].handle > s.depth.fragMs {
        assert d[i] == r[i - 4];
      }
    }
  }

  /** The loop releases exactly the objects of the entries `order` names. */
  lemma {:induction false} EntriesTeardownReleased(m: map<PipelineKey, Pipeline>, order: seq<PipelineKey>)
    requires forall i :: 0 <= i < |order| ==> order[i] in m
    ensures Released(EntriesTeardown(m, order)) == EntriesOwned(m, order)
    decreases |order|
  {
    if |order| > 0 {
      var p := m[order[0]];
      var e := EntryTeardown(p);
      EntriesTeardownReleased(m, order[1..]);
      Concat(Device([], {}), e, EntriesTeardown(m, order[1..]));
      assert e[0].handle == p.pipeline && e[1].handle == p.pipelineLayout;
      assert e[2].handle == p.setLayout && e[3].handle == p.renderPass;
    }
  }

  /** The loop destroys no object twice. */
  lemma {:induction false} EntriesTeardownNoRepeats(s: SharedObjects, m: map<PipelineKey, Pipeline>, order: seq<PipelineKey>)
    requires forall i :: 0 <= i < |order| ==> order[i] in m
    requires forall i, j :: 0 <= i < j < |order| ==> order[i] != order[j]
    requires forall k :: k in m ==> EntryOrdered(s, m[k])
    requires Disjoint(m)
    ensures NoRepeats(EntriesTeardown(m, order))
    decreases |order|
  {
    if |order| > 0 {
      var rest := order[1..];
      forall i, j | 0 <= i < j < |rest| ensures rest[i] != rest[j] {
        assert rest[i] == order[i + 1] && rest[j] == order[j + 1];
      }
      forall i | 0 <= i < |rest| ensures rest[i] != order[0] {
        assert rest[i] == order[i + 1];
      }
      EntriesTeardownNoRepeats(s, m, rest);
      EntriesTeardownReleased(m, rest);
      EntryTeardownOrdered(s, m[order[0]]);
      EntriesOwnedDisjoint(m, order[0], rest);
      Concat(Device([], {}), EntryTeardown(m[order[0]]), EntriesTeardown(m, rest));
    }
  }

  /** The loop's `n`-th group of four calls is the `n`-th entry's teardown. */
  lemma {:induction false} EntriesTeardownChunks(m: map<PipelineKey, Pipeline>, order: seq<PipelineKey>)
    requires forall i :: 0 <= i < |order| ==> order[i] in m
    ensures forall n :: 0 <= n < |order| ==> Chunk(EntriesTeardown(m, order), n) == EntryTeardown(m[order[n]])
    decreases |order|
  {
    if |order| > 0 {
      var d := EntriesTeardown(m, order);
      var r := EntriesTeardown(m, order[1..]);
      EntriesTeardownChunks(m, order[1..]);
      forall n | 0 < n < |order| ensures Chunk(d, n) == EntryTeardown(m[order[n]]) {
        assert Chunk(d, n) == Chunk(r, n - 1);
        assert order[1..][n - 1] == order[n];
      }
    }
  }

  /** The entries `order` names own what the comprehension over `order` collects. */
  lemma {:induction false} EntriesOwnedAll(m: map<PipelineKey, Pipeline>, order: seq<PipelineKey>)
    requires forall i :: 0 <= i < |order| ==> order[i] in m
    ensures EntriesOwned(m, order) == set k, h | k in order && h in EntryHandles(m[k]) :: h
    decreases |order|
  {
    if |order| > 0 {
      EntriesOwnedAll(m, order[1..]);
      var here := set k, h | k in order && h in EntryHandles(m[k]) :: h;
      var there := set k, h | k in order[1..] && h in EntryHandles(m[k]) :: h;
      forall x | x in here ensures x in EntryHandles(m[order[0]]) + there {
        var k :| k in order && x in EntryHandles(m[k]);
        if k != order[0] {
          var j :| 0 <= j < |order| && order[j] == k;
          assert order[1..][j - 1] == k;
        }
      }
      forall x | x in there ensures x in here {
        var k :| k in order[1..] && x in EntryHandles(m[k]);
        var j :| 0 <= j < |order[1..]| && order[1..][j] == k;
        assert order[j + 1] == k;
      }
    }
  }

  /** Over an enumeration of the map, the entries' objects are all the entries own. */
  lemma EntriesOwnedIsMapOwned(m: map<PipelineKey, Pipeline>, order: seq<PipelineKey>)
    requires Enumerates(order, m)
    ensures EntriesOwned(m, order) == set k, h | k in m && h in EntryHandles(m[k]) :: h
  {
    EntriesOwnedAll(m, order);
    var byOrder := set k, h | k in order && h in EntryHandles(m[k]) :: h;
    var byMap := set k, h | k in m && h in EntryHandles(m[k]) :: h;
    forall x | x in byMap ensures x in byOrder {
      var k :| k in m && x in EntryHandles(m[k]);
      assert k in order;
    }
    forall x | x in byOrder ensures x in byMap {
      var k :| k in order && x in EntryHandles(m[k]);
      assert k in m;
    }
  }

  // ---------------------------------------------------------------------------
  // The destructor.

  /** Every destroy call names a live object, created by the matching vkCreate* call. */
  lemma TeardownDestroysLiveObjects(f: Factory, dev: Device, order: seq<PipelineKey>)
    requires Alive(f, dev) && Enumerates(order, f.pipelines)
    ensures AllIssued(dev, FactoryTeardown(f, order))
  {
    var e := EntriesTeardown(f.pipelines, order);
    var s := SharedTeardown(f.shared);
    EntriesTeardownIssued(f.pipelines, order, dev);
    SharedTeardownIssued(f.shared, dev);
    Concat(dev, e, s);
    assert FactoryTeardown(f, order) == e + s;
  }

  /** No object is destroyed twice. */
  lemma TeardownDestroysOnce(f: Factory, order: seq<PipelineKey>)
    requires Ordered(f) && Disjoint(f.pipelines) && Enumerates(order, f.pipelines)
    ensures NoRepeats(FactoryTeardown(f, order))
  {
    var e := EntriesTeardown(f.pipelines, order);
    var s := SharedTeardown(f.shared);
    EntriesTeardownNoRepeats(f.shared, f.pipelines, order);
    EntriesTeardownNewer(f.shared, f.pipelines, order);
    SharedTeardownOrdered(f.shared);
    forall h | h in Released(e) ensures h !in Released(s) {
      var i :| 0 <= i < |e| && e[i].handle == h;
    }
    Concat(Device([], {}), e, s);
    assert FactoryTeardown(f, order) == e + s;
  }

  /** The destructor releases exactly the objects the factory owns. */
  lemma TeardownReleasesOwned(f: Factory, order: seq<PipelineKey>)
    requires Enumerates(order, f.pipelines)
    ensures Released(FactoryTeardown(f, order)) == Owned(f)
  {
    var m := f.pipelines;
    var e := EntriesTeardown(m, order);
    var s := SharedTeardown(f.shared);
    EntriesTeardownReleased(m, order);
    SharedTeardownReleased(f.shared);
    EntriesOwnedIsMapOwned(m, order);
    Concat(Device([], {}), e, s);
    assert FactoryTeardown(f, order) == e + s;
  }

  /** Objects go in the reverse of their creation wherever one may refer to
      another: within each entry (its `n`-th group of four calls), and from
      anything to the shared objects, which go last. Entries are unordered
      among themselves, as the hash map is. */
  lemma TeardownReverseOrder(f: Factory, order: seq<PipelineKey>)
    requires Ordered(f) && Enumerates(order, f.pipelines)
    ensures var d := FactoryTeardown(f, order);
      && (forall n :: 0 <= n < |order| ==>
            Chunk(d, n) == EntryTeardown(f.pipelines[order[n]]) && NewestFirst(Chunk(d, n)))
      && (forall i, j :: 0 <= i < j < |d| && 4 * |order| <= j ==> d[i].handle > d[j].handle)
  {
    var d := FactoryTeardown(f, order);
    var e := EntriesTeardown(f.pipelines, order);
    var s := SharedTeardown(f.shared);
    assert d == e + s;
    EntriesTeardownChunks(f.pipelines, order);
    EntriesTeardownNewer(f.shared, f.pipelines, order);
    SharedTeardownOrdered(f.shared);
    forall c | 0 <= c < |order|
      ensures Chunk(d, c) == EntryTeardown(f.pipelines[order[c]]) && NewestFirst(Chunk(d, c))
    {
      assert Chunk(d, c) == Chunk(e, c);
      EntryTeardownOrdered(f.shared, f.pipelines[order[c]]);
    }
    OlderTailLast(e, s, f.shared.depth.fragMs);
  }

  /** Everything a factory owns whose objects are alive was created on `dev`. */
  lemma OwnedIsIssued(f: Factory, dev: Device)
    requires Alive(f, dev)
    ensures forall h :: h in Owned(f) ==> 1 <= h <= |dev.log|
  {
    forall h | h in Owned(f) ensures 1 <= h <= |dev.log| {
      if h in SharedHandles(f.shared) {
        var j :| 0 <= j < 9 && SharedHandles(f.shared)[j] == h;
        assert j == 0 || Issued(dev, SharedHandles(f.shared)[j], ShaderModuleObject);
      } else {
        var k :| k in f.pipelines && h in EntryHandles(f.pipelines[k]);
        assert EntryAlive(f.pipelines[k], dev);
      }
    }
  }

  /** A build that fails part way leaks: each object `createPipeline` made
      before the failing call (step `n` of the four makes handle
      `|dev.log| + 1 + n`) stays alive, yet the factory does not own it, so
      the destructor never releases it. */
  lemma FailedBuildLeaks(f: Factory, dev: Device, aspectOf: Format -> AspectFlags,
                         viewType: ImageViewType, format: Format, samples: SampleCount)
    requires Valid(f, dev, aspectOf) && PipelineKey(viewType, format, samples) !in f.pipelines
    ensures var r := GetPipeline(f, dev, aspectOf, viewType, format, samples);
      r.out.Err? ==>
        && r.factory == f
        && forall n :: 0 <= n < |r.dev.log| - |dev.log| - 1 ==>
             && Issued(r.dev, |dev.log| + 1 + n, BUILD_KINDS[n])
             && |dev.log| + 1 + n !in Owned(r.factory)
  {
    var r := GetPipeline(f, dev, aspectOf, viewType, format, samples);
    var key := PipelineKey(viewType, format, samples);
    CreatePipelineKinds(f.shared, dev, key, aspectOf(format));
    assert r.dev == CreatePipeline(f.shared, dev, key, aspectOf(format)).dev;
    ValidIsSound(f, dev, aspectOf);
    OwnedIsIssued(f, dev);
    if r.out.Err? {
      forall n | 0 <= n < |r.dev.log| - |dev.log| - 1
        ensures Issued(r.dev, |dev.log| + 1 + n, BUILD_KINDS[n])
      {
        assert r.dev.log[|dev.log| + n].Kind() == BUILD_KINDS[n];
      }
    }
  }
}

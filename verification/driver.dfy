/** The Vulkan driver, reduced to what the meta copy code relies on: each
    vkCreate* call either fails or returns a fresh handle. The device keeps
    every create call it has seen, in order, and a set of call numbers at which
    it answers with an error. Call number `n` that succeeds returns handle
    `n + 1`, so a larger handle always means a later creation and handle 0
    (VK_NULL_HANDLE) is never returned. */
module Driver {

  import opened Wrappers
  import opened Vulkan

  datatype Device = Device(log: seq<CreateInfo>, refused: set<nat>)

  /** The outcome of one step of object creation and the device after it. */
  datatype Step<+T> = Step(out: Result<T>, dev: Device)

  /** Handle `h` was returned by a successful create call given `info`. */
  ghost predicate IssuedAs(dev: Device, h: Handle, info: CreateInfo) {
    1 <= h <= |dev.log| && h - 1 !in dev.refused && dev.log[h - 1] == info
  }

  /** Handle `h` was returned by a successful create call for an object of kind `k`. */
  ghost predicate Issued(dev: Device, h: Handle, k: ObjectKind) {
    1 <= h <= |dev.log| && h - 1 !in dev.refused && dev.log[h - 1].Kind() == k
  }

  /** `after` is `before` with more create calls made. */
  ghost predicate Extends(before: Device, after: Device) {
    && after.refused == before.refused
    && before.log <= after.log
  }

  /** One vkCreate* call; on failure the source throws a DxvkError with `message`. */
  function Create(dev: Device, info: CreateInfo, message: string): (r: Step<Handle>)
    ensures Extends(dev, r.dev) && |r.dev.log| == |dev.log| + 1 && r.dev.log[|dev.log|] == info
    ensures r.out.Ok? <==> |dev.log| !in dev.refused
    ensures r.out.Ok? ==> IssuedAs(r.dev, r.out.value, info)
    ensures r.out.Ok? ==> r.out.value == |dev.log| + 1
    ensures r.out.Err? ==> r.out.error == Error(message)
  {
    var after := Device(dev.log + [info], dev.refused);
    if |dev.log| in dev.refused then Step(Err(Error(message)), after)
    else Step(Ok(|dev.log| + 1), after)
  }

  lemma ExtendsTransitive(a: Device, b: Device, c: Device)
    requires Extends(a, b) && Extends(b, c)
    ensures Extends(a, c)
  {
    assert c.log[..|a.log|] == c.log[..|b.log|][..|a.log|];
  }

  /** A handle, once issued, stays issued with the same create record. */
  lemma IssuedPersists(before: Device, after: Device, h: Handle, info: CreateInfo)
    requires Extends(before, after) && IssuedAs(before, h, info)
    ensures IssuedAs(after, h, info)
  {
    assert after.log[h - 1] == after.log[..|before.log|][h - 1];
  }
}

/** DxvkMetaCopyObjects::getCopyDestinationFormat: which format the destination
    view of a copy must use so that one single-attachment pipeline can service
    it, possibly across the colour/depth aspect boundary. */
module MetaCopyFormat {

  import opened Wrappers
  import opened Vulkan

  /** The depth formats that have a colour format with the same bit layout,
      as (depth, colour) pairs. */
  const DEPTH_COLOR_ALIASES: seq<(Format, Format)> :=
    [(FORMAT_D16_UNORM, FORMAT_R16_UNORM), (FORMAT_D32_SFLOAT, FORMAT_R32_SFLOAT)]

  /** First partner of `f` in a table of pairs. */
  function Lookup(table: seq<(Format, Format)>, f: Format): (r: Option<Format>)
    ensures r.Some? <==> exists i :: 0 <= i < |table| && table[i].0 == f
    ensures r.Some? ==> exists i :: 0 <= i < |table| && table[i] == (f, r.value)
  {
    if |table| == 0 then None
    else if table[0].0 == f then Some(table[0].1)
    else
      var r := Lookup(table[1..], f);
      assert forall i :: 0 < i < |table| ==> table[i] == table[1..][i - 1];
      r
  }

  /** The table read right to left. */
  function Flip(table: seq<(Format, Format)>): (r: seq<(Format, Format)>)
    ensures |r| == |table|
    ensures forall i :: 0 <= i < |table| ==> r[i] == (table[i].1, table[i].0)
  {
    if |table| == 0 then [] else [(table[0].1, table[0].0)] + Flip(table[1..])
  }

  /** The copy-format resolver. `FORMAT_UNDEFINED` means the copy is not supported. */
  function CopyDestinationFormat(dstAspect: AspectFlags, srcAspect: AspectFlags, srcFormat: Format): (r: Format)
    // Same aspect: the destination keeps the source format, whatever it is.
    ensures srcAspect == dstAspect ==> r == srcFormat
    // Across aspects only depth -> colour and colour -> depth with single-bit masks are served.
    ensures srcAspect != dstAspect
            && !(dstAspect == ASPECT_COLOR_BIT && srcAspect == ASPECT_DEPTH_BIT)
            && !(dstAspect == ASPECT_DEPTH_BIT && srcAspect == ASPECT_COLOR_BIT)
            ==> r == FORMAT_UNDEFINED
    ensures dstAspect == ASPECT_COLOR_BIT && srcAspect == ASPECT_DEPTH_BIT ==>
      (r != FORMAT_UNDEFINED <==> srcFormat == FORMAT_D16_UNORM || srcFormat == FORMAT_D32_SFLOAT)
    ensures dstAspect == ASPECT_DEPTH_BIT && srcAspect == ASPECT_COLOR_BIT ==>
      (r != FORMAT_UNDEFINED <==> srcFormat == FORMAT_R16_UNORM || srcFormat == FORMAT_R32_SFLOAT)
  {
    if srcAspect == dstAspect then srcFormat
    else if dstAspect == ASPECT_COLOR_BIT && srcAspect == ASPECT_DEPTH_BIT then
      if srcFormat == FORMAT_D16_UNORM then FORMAT_R16_UNORM
      else if srcFormat == FORMAT_D32_SFLOAT then FORMAT_R32_SFLOAT
      else FORMAT_UNDEFINED
    else if dstAspect == ASPECT_DEPTH_BIT && srcAspect == ASPECT_COLOR_BIT then
      if srcFormat == FORMAT_R16_UNORM then FORMAT_D16_UNORM
      else if srcFormat == FORMAT_R32_SFLOAT then FORMAT_D32_SFLOAT
      else FORMAT_UNDEFINED
    else FORMAT_UNDEFINED
  }

  /** Depth -> colour is exactly the alias table read left to right. */
  lemma DepthToColorFollowsTable(f: Format)
    ensures CopyDestinationFormat(ASPECT_COLOR_BIT, ASPECT_DEPTH_BIT, f)
            == match Lookup(DEPTH_COLOR_ALIASES, f) case Some(c) => c case None => FORMAT_UNDEFINED
  {
    assert DEPTH_COLOR_ALIASES[1..] == [(FORMAT_D32_SFLOAT, FORMAT_R32_SFLOAT)];
  }

  /** Colour -> depth is exactly the alias table read right to left. */
  lemma ColorToDepthFollowsTable(f: Format)
    ensures CopyDestinationFormat(ASPECT_DEPTH_BIT, ASPECT_COLOR_BIT, f)
            == match Lookup(Flip(DEPTH_COLOR_ALIASES), f) case Some(d) => d case None => FORMAT_UNDEFINED
  {
    var flipped := Flip(DEPTH_COLOR_ALIASES);
    assert flipped == [(FORMAT_R16_UNORM, FORMAT_D16_UNORM), (FORMAT_R32_SFLOAT, FORMAT_D32_SFLOAT)];
    assert flipped[1..] == [(FORMAT_R32_SFLOAT, FORMAT_D32_SFLOAT)];
  }

  /** Resolving depth -> colour and then colour -> depth gives back every
      supported depth format; the other direction likewise for colour formats. */
  lemma CrossAspectRoundTrip(f: Format)
    ensures var c := CopyDestinationFormat(ASPECT_COLOR_BIT, ASPECT_DEPTH_BIT, f);
            c != FORMAT_UNDEFINED ==> CopyDestinationFormat(ASPECT_DEPTH_BIT, ASPECT_COLOR_BIT, c) == f
    ensures var d := CopyDestinationFormat(ASPECT_DEPTH_BIT, ASPECT_COLOR_BIT, f);
            d != FORMAT_UNDEFINED ==> CopyDestinationFormat(ASPECT_COLOR_BIT, ASPECT_DEPTH_BIT, d) == f
  {
  }

  /** A combined depth/stencil mask is never an exact depth mask, so a copy
      between it and colour is unsupported in both directions. */
  lemma DepthStencilToColorUnsupported(f: Format)
    ensures CopyDestinationFormat(ASPECT_COLOR_BIT, ASPECT_DEPTH_BIT | ASPECT_STENCIL_BIT, f) == FORMAT_UNDEFINED
    ensures CopyDestinationFormat(ASPECT_DEPTH_BIT | ASPECT_STENCIL_BIT, ASPECT_COLOR_BIT, f) == FORMAT_UNDEFINED
  {
  }
}

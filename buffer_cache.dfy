/** The per-scale buffer cache: one pixel buffer and one dirty flag per output
    scale, and the bookkeeping a render request does on it. */
module BufferCache {
  import opened Basics

  /** A zero-initialised ARGB8888 memory buffer with the given device
      dimensions. Its pixels are not modelled. */
  datatype Buffer = Buffer(size: Size)

  /** A cached buffer and whether it must be rasterized again (`needs_redraw`). */
  datatype Slot = Slot(buffer: Buffer, needsRedraw: bool)

  type Buffers = map<Scale, Slot>

  /** The slot allocated for a scale: a new buffer at the device size, dirty. */
  function Fresh(size: Size, scale: Scale, deviceSize: DeviceSize): Slot {
    Slot(Buffer(deviceSize(size, scale)), true)
  }

  /** Every buffer has the device size of the logical size at its scale. */
  ghost predicate Sized(m: Buffers, size: Size, deviceSize: DeviceSize) {
    forall s :: s in m ==> m[s].buffer.size == deviceSize(size, s)
  }

  /** Every buffer is dirty. */
  ghost predicate AllNeedRedraw(m: Buffers) {
    forall s :: s in m ==> m[s].needsRedraw
  }

  /** `output_enter`: allocate a dirty buffer for the scale only when none exists. */
  function Entered(m: Buffers, scale: Scale, size: Size, deviceSize: DeviceSize): (r: Buffers)
    ensures r.Keys == m.Keys + {scale}
    ensures forall s :: s in m ==> r[s] == m[s]
    ensures scale !in m ==> r[scale] == Fresh(size, scale, deviceSize)
  {
    if scale in m then m else m[scale := Fresh(size, scale, deviceSize)]
  }

  /** `refresh`: keep the buffers whose scale is live, then allocate a dirty
      buffer for every live scale still without one. */
  function Refreshed(m: Buffers, live: set<Scale>, size: Size, deviceSize: DeviceSize): (r: Buffers)
    ensures r.Keys == live
    ensures forall s :: s in live && s in m ==> r[s] == m[s]
    ensures forall s :: s in live && s !in m ==> r[s] == Fresh(size, s, deviceSize)
  {
    var retained := map s | s in m && s in live :: m[s];
    retained + map s | s in live && s !in retained :: Fresh(size, s, deviceSize)
  }

  /** `resize`: every tracked buffer replaced by a new dirty one at the new size. */
  function Reallocated(m: Buffers, size: Size, deviceSize: DeviceSize): (r: Buffers)
    ensures r.Keys == m.Keys
    ensures Sized(r, size, deviceSize)
    ensures AllNeedRedraw(r)
  {
    map s | s in m :: Fresh(size, s, deviceSize)
  }

  /** Every tracked buffer marked dirty, its pixels kept. */
  function AllDirty(m: Buffers): (r: Buffers)
    ensures r.Keys == m.Keys
    ensures forall s :: s in m ==> r[s].buffer == m[s].buffer
    ensures AllNeedRedraw(r)
  {
    map s | s in m :: m[s].(needsRedraw := true)
  }

  /** Filling in a fresh slot for every live scale missing from the retained
      buffers, in any order and any number of times, yields `Refreshed`. */
  lemma RefreshedByFilling(m: Buffers, live: set<Scale>, retained: Buffers, r: Buffers, size: Size, deviceSize: DeviceSize)
    requires retained == map s | s in m && s in live :: m[s]
    requires retained.Keys <= r.Keys <= live
    requires forall s :: s in live && s !in retained ==> s in r
    requires forall s :: s in r ==> r[s] == if s in retained then retained[s] else Fresh(size, s, deviceSize)
    ensures r == Refreshed(m, live, size, deviceSize)
  {
  }

  /** Resizing forgets the old buffers and flags: what it leaves depends only
      on which scales were tracked. */
  lemma ReallocatedForgetsContents(m1: Buffers, m2: Buffers, size: Size, deviceSize: DeviceSize)
    requires m1.Keys == m2.Keys
    ensures Reallocated(m1, size, deviceSize) == Reallocated(m2, size, deviceSize)
  {
  }

  /** Marking dirty keeps a correctly sized cache correctly sized, and marking
      twice is marking once. */
  lemma AllDirtyKeepsSized(m: Buffers, size: Size, deviceSize: DeviceSize)
    ensures Sized(m, size, deviceSize) ==> Sized(AllDirty(m), size, deviceSize)
    ensures AllDirty(AllDirty(m)) == AllDirty(m)
  {
  }

  /** Entering an output never leaves a buffer of the wrong size behind. */
  lemma EnteredKeepsSized(m: Buffers, scale: Scale, size: Size, deviceSize: DeviceSize)
    requires Sized(m, size, deviceSize)
    ensures Sized(Entered(m, scale, size, deviceSize), size, deviceSize)
  {
  }

  /** Refreshing never leaves a buffer of the wrong size behind. */
  lemma RefreshedKeepsSized(m: Buffers, live: set<Scale>, size: Size, deviceSize: DeviceSize)
    requires Sized(m, size, deviceSize)
    ensures Sized(Refreshed(m, live, size, deviceSize), size, deviceSize)
  {
  }

  /** A render element: the buffer placed at a physical location, blended with
      an alpha, showing the given device-pixel source rectangle (from the
      origin) at the element's logical size. */
  datatype RenderElement = RenderElement(location: PhysicalPoint, buffer: Buffer, alpha: real, source: Size, logicalSize: Size)

  /** What a render request leaves behind: the cache, the elements handed to
      the host, and whether the buffer was rasterized. */
  datatype Presentation = Presentation(buffers: Buffers, elements: seq<RenderElement>, drew: bool)

  /** The bookkeeping of a render request for one scale, after the update pass:
      look the buffer up, rasterize it when dirty and non-degenerate (clearing
      its flag), then wrap it when the host accepts it (`wrapped`). */
  function Present(m: Buffers, scale: Scale, size: Size, deviceSize: DeviceSize,
                   location: PhysicalPoint, alpha: real, wrapped: bool): (r: Presentation)
    ensures r.buffers.Keys == m.Keys
    ensures forall s :: s in m && s != scale ==> r.buffers[s] == m[s]
    ensures scale in m ==> r.buffers[scale].buffer == m[scale].buffer
    ensures scale in m ==>
      (r.buffers[scale].needsRedraw <==> m[scale].needsRedraw && !NonDegenerate(deviceSize(size, scale)))
    ensures r.drew <==> scale in m && m[scale].needsRedraw && NonDegenerate(deviceSize(size, scale))
    ensures r.elements != [] <==> scale in m && wrapped
    ensures r.elements != [] ==>
      r.elements == [RenderElement(location, m[scale].buffer, alpha, deviceSize(size, scale), size)]
  {
    if scale !in m then Presentation(m, [], false)
    else
      var slot := m[scale];
      var device := deviceSize(size, scale);
      var drew := slot.needsRedraw && NonDegenerate(device);
      var after := if drew then m[scale := slot.(needsRedraw := false)] else m;
      Presentation(after, if wrapped then [RenderElement(location, slot.buffer, alpha, device, size)] else [], drew)
  }

  /** A second render request at the same scale with nothing changed in between
      does not rasterize again, as long as the device size is non-degenerate. */
  lemma PresentTwiceDrawsOnce(m: Buffers, scale: Scale, size: Size, deviceSize: DeviceSize,
                              location: PhysicalPoint, alpha: real, wrapped: bool)
    requires scale in m && NonDegenerate(deviceSize(size, scale))
    ensures !Present(Present(m, scale, size, deviceSize, location, alpha, wrapped).buffers,
                     scale, size, deviceSize, location, alpha, wrapped).drew
  {
  }
}

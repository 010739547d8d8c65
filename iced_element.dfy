/** The embedded-UI element: the state behind the shared, locked handle, and
    every operation the host calls on it. A Dafny reference to an `Element`
    plays the part of the handle; two handles are equal exactly when they are
    the same reference. */
module IcedElement {
  import opened Basics
  import opened Input
  import opened Actions
  import opened BufferCache
  import opened ProgramHost

  /** A host output. Its scale may change while the element is shown on it,
      which is why the element recomputes its buffers in `Refresh`. */
  class Output {
    var scale: Scale

    constructor (scale: Scale)
      ensures this.scale == scale
    {
      this.scale := scale;
    }
  }

  /** The outputs other than `o`, in their order (`Vec::retain(|x| x != o)`). */
  function Without(outputs: seq<Output>, o: Output): (r: seq<Output>)
    ensures forall i :: 0 <= i < |r| ==> r[i] in outputs && r[i] != o
    ensures forall i :: 0 <= i < |outputs| && outputs[i] != o ==> outputs[i] in r
    ensures |r| <= |outputs|
    ensures o !in outputs ==> r == outputs
    ensures |outputs| == 1 ==> r == if outputs[0] == o then [] else outputs
  {
    if outputs == [] then []
    else if outputs[0] == o then Without(outputs[1..], o)
    else [outputs[0]] + Without(outputs[1..], o)
  }

  /** Removal distributes over concatenation, so the kept outputs stay in their
      order and keep their multiplicity. */
  lemma {:induction false} WithoutAppend(a: seq<Output>, b: seq<Output>, o: Output)
    ensures Without(a + b, o) == Without(a, o) + Without(b, o)
  {
    if a == [] {
      assert a + b == b;
    } else {
      assert (a + b)[1..] == a[1..] + b;
      WithoutAppend(a[1..], b, o);
    }
  }

  class Element {
    /** The logical-to-buffer size conversion. */
    const deviceSize: DeviceSize
    /** The program step (iced `State::update` on the wrapped program). */
    const step: ProgramStep

    var outputs: seq<Output>
    var buffers: Buffers
    var size: Size
    var cursorPos: Option<Point>
    var program: ProgramState
    /** Events and messages queued in the iced state for its next step. */
    var events: seq<Event>
    var messages: seq<Message>
    /** Results of futures delivered on the channel and not yet drained. */
    var channel: seq<Message>
    /** Every future handed to the scheduler, in order. */
    ghost var scheduled: seq<FutureTask>
    /** Every program step run, with its input, in order. */
    ghost var steps: seq<StepInput>
    /** The scale of every buffer rasterized, in order. */
    ghost var drawn: seq<Scale>

    ghost function View(): Core
      reads this
    {
      Core(program, events, messages, channel, buffers, size, cursorPos, scheduled, steps)
    }

    ghost predicate BuffersSized()
      reads this
    {
      Sized(buffers, size, deviceSize)
    }

    /** Between operations: no queued event or message and every buffer sized
        for the current logical size at its scale. */
    ghost predicate Valid()
      reads this
    {
      Settled(View()) && BuffersSized()
    }

    /** The current scales of the outputs the element is shown on. */
    function LiveScales(): set<Scale>
      reads this`outputs, outputs
    {
      set i | 0 <= i < |outputs| :: outputs[i].scale
    }

    /** The buffer-set invariant: one buffer per live scale, no more, no fewer. */
    ghost predicate CacheExact()
      reads this, outputs
    {
      buffers.Keys == LiveScales()
    }

    /** `IcedElement::new`: no outputs, no buffers, no cursor, and one forced
        update pass. */
    constructor (program: ProgramState, size: Size, step: ProgramStep, deviceSize: DeviceSize)
      ensures Valid() && CacheExact()
      ensures this.step == step && this.deviceSize == deviceSize
      ensures outputs == [] && drawn == []
      ensures View() == UpdatePass(Core(program, [], [], [], map[], size, None, [], []), true, step).0
    {
      this.deviceSize := deviceSize;
      this.step := step;
      outputs := [];
      buffers := map[];
      this.size := size;
      cursorPos := None;
      this.program := program;
      events := [];
      messages := [];
      channel := [];
      scheduled := [];
      steps := [];
      drawn := [];
      new;
      var _ := Update(true);
    }

    /** `IcedElementInternal::update`. */
    method Update(force: bool) returns (actions: seq<Action>)
      requires BuffersSized()
      modifies this`program, this`events, this`messages, this`channel, this`buffers, this`scheduled, this`steps
      ensures BuffersSized()
      ensures (View(), actions) == UpdatePass(old(View()), force, step)
      ensures outputs == old(outputs) && drawn == old(drawn)
    {
      var forced := DrainChannel(force);
      if !forced {
        assert old(messages) + old(channel) == old(messages);
        assert View() == old(View());
        return [];
      }
      UpdateAfterDrain(old(View()), force, step);
      actions := RunStep();
    }

    /** A forced pass once the channel is drained: one program step, every
        buffer dirty when it yields actions, futures scheduled, the rest returned. */
    method RunStep() returns (actions: seq<Action>)
      requires BuffersSized() && channel == []
      modifies this`program, this`events, this`messages, this`buffers, this`scheduled, this`steps
      ensures BuffersSized()
      ensures (View(), actions) == UpdatePass(old(View()), true, step)
    {
      ghost var before := old(View());
      var input := StepInput(program, events, messages, size, cursorPos.UnwrapOr(Offscreen));
      assert messages + channel == messages;
      assert input == PassInput(before);
      var out := step(input);
      steps := steps + [input];
      program, events, messages := out.state, [], [];
      if out.actions.Some? {
        MarkAllDirty();
        AllDirtyKeepsSized(before.buffers, size, deviceSize);
      }
      var futures;
      actions, futures := Split(out.actions.UnwrapOr([]));
      scheduled := scheduled + futures;
    }

    /** The `while let Ok(..) = rx.try_recv()` loop: every delivered message is
        queued for the program in arrival order, and any message forces the pass. */
    method DrainChannel(force: bool) returns (forced: bool)
      modifies this`messages, this`channel
      ensures messages == old(messages) + old(channel) && channel == []
      ensures forced == (force || old(channel) != [])
    {
      forced := force;
      while channel != []
        invariant messages + channel == old(messages) + old(channel)
        invariant forced == (force || |channel| < |old(channel)|)
        decreases |channel|
      {
        messages := messages + [channel[0]];
        channel := channel[1..];
        forced := true;
      }
      assert messages + channel == messages;
    }

    /** Sets every dirty flag, keeping every buffer. */
    method MarkAllDirty()
      modifies this`buffers
      ensures buffers == AllDirty(old(buffers))
    {
      var todo := buffers.Keys;
      while todo != {}
        invariant todo <= buffers.Keys
        invariant buffers.Keys == old(buffers).Keys
        invariant forall s :: s in buffers ==>
          buffers[s] == if s in todo then old(buffers)[s] else old(buffers)[s].(needsRedraw := true)
        decreases todo
      {
        var s :| s in todo;
        buffers := buffers[s := buffers[s].(needsRedraw := true)];
        todo := todo - {s};
      }
    }

    /** `IcedElement::resize`: nothing happens at the current size; otherwise
        every buffer is reallocated dirty at the new size and a forced pass runs. */
    method Resize(newSize: Size)
      requires Valid()
      modifies this
      ensures Valid()
      ensures outputs == old(outputs) && drawn == old(drawn)
      ensures buffers.Keys == old(buffers).Keys
      ensures newSize == old(size) ==> View() == old(View())
      ensures newSize != old(size) ==>
        View() == UpdatePass(old(View()).(size := newSize, buffers := Reallocated(old(buffers), newSize, deviceSize)), true, step).0
    {
      if size == newSize {
        return;
      }
      size := newSize;
      ReallocateAll();
      var _ := Update(true);
    }

    /** The reallocation loop of `resize`: every tracked buffer replaced by a
        new dirty one at the current size. */
    method ReallocateAll()
      modifies this`buffers
      ensures buffers == Reallocated(old(buffers), size, deviceSize)
    {
      var todo := buffers.Keys;
      while todo != {}
        invariant todo <= buffers.Keys
        invariant buffers.Keys == old(buffers).Keys
        invariant forall s :: s in buffers && s !in todo ==> buffers[s] == Fresh(size, s, deviceSize)
        decreases todo
      {
        var s :| s in todo;
        buffers := buffers[s := Fresh(size, s, deviceSize)];
        todo := todo - {s};
      }
    }

    /** `IcedElement::force_update`: every buffer dirty, then a forced pass. */
    method ForceUpdate()
      requires Valid()
      modifies this
      ensures Valid()
      ensures outputs == old(outputs) && drawn == old(drawn)
      ensures buffers.Keys == old(buffers).Keys && AllNeedRedraw(buffers)
      ensures View() == UpdatePass(old(View()).(buffers := AllDirty(old(buffers))), true, step).0
    {
      MarkAllDirty();
      var _ := Update(true);
      AllDirtyKeepsSized(old(buffers), size, deviceSize);
      UpdateDirtyFlags(old(View()).(buffers := AllDirty(old(buffers))), true, step);
    }

    /** The executor's callback: a finished future's message is sent on the channel. */
    method Deliver(message: Message)
      requires Valid()
      modifies this`channel
      ensures Valid()
      ensures channel == old(channel) + [message]
    {
      channel := channel + [message];
    }

    /** `SpaceElement::output_enter`. */
    method OutputEnter(output: Output)
      requires Valid()
      modifies this`outputs, this`buffers
      ensures Valid()
      ensures outputs == old(outputs) + [output]
      ensures buffers == Entered(old(buffers), output.scale, size, deviceSize)
      ensures LiveScales() == old(LiveScales()) + {output.scale}
      ensures old(CacheExact()) ==> CacheExact()
    {
      var scale := output.scale;
      if scale !in buffers {
        buffers := buffers[scale := Fresh(size, scale, deviceSize)];
      }
      outputs := outputs + [output];
      assert outputs[|outputs| - 1] == output;
      assert forall i :: 0 <= i < |old(outputs)| ==> outputs[i] == old(outputs)[i];
    }

    /** `SpaceElement::output_leave`: drop every occurrence of the output, then refresh. */
    method OutputLeave(output: Output)
      requires Valid()
      modifies this`outputs, this`buffers
      ensures Valid() && CacheExact()
      ensures outputs == Without(old(outputs), output)
      ensures buffers == Refreshed(old(buffers), LiveScales(), size, deviceSize)
    {
      outputs := Without(outputs, output);
      Refresh();
    }

    /** `SpaceElement::refresh`: drop the buffers of scales no output has any
        more, then allocate one for every output scale still without one. */
    method Refresh()
      requires Valid()
      modifies this`buffers
      ensures Valid() && CacheExact()
      ensures buffers == Refreshed(old(buffers), LiveScales(), size, deviceSize)
    {
      var live := LiveScales();
      buffers := map s | s in buffers && s in live :: buffers[s];
      ghost var retained := buffers;
      var missing := MissingScales();
      FillMissing(missing, retained, live);
      forall s | s in live && s !in retained ensures s in buffers {
        var k :| 0 <= k < |missing| && missing[k] == s;
      }
      RefreshedByFilling(old(buffers), live, retained, buffers, size, deviceSize);
      RefreshedKeepsSized(old(buffers), live, size, deviceSize);
      assert buffers.Keys == live;
    }

    /** Allocates a fresh dirty buffer for each of the given scales, keeping
        every buffer already there. */
    method FillMissing(missing: seq<Scale>, ghost retained: Buffers, ghost live: set<Scale>)
      requires buffers == retained && retained.Keys <= live
      requires forall k :: 0 <= k < |missing| ==> missing[k] in live && missing[k] !in retained
      modifies this`buffers
      ensures retained.Keys <= buffers.Keys <= live
      ensures forall k :: 0 <= k < |missing| ==> missing[k] in buffers
      ensures forall s :: s in buffers ==>
        buffers[s] == if s in retained then retained[s] else Fresh(size, s, deviceSize)
    {
      for k := 0 to |missing|
        invariant retained.Keys <= buffers.Keys <= live
        invariant forall j :: 0 <= j < k ==> missing[j] in buffers
        invariant forall s :: s in buffers ==>
          buffers[s] == if s in retained then retained[s] else Fresh(size, s, deviceSize)
      {
        buffers := buffers[missing[k] := Fresh(size, missing[k], deviceSize)];
      }
    }

    /** The scales of the outputs that have no buffer; a scale may occur more
        than once. */
    method MissingScales() returns (missing: seq<Scale>)
      ensures forall k :: 0 <= k < |missing| ==> missing[k] in LiveScales() && missing[k] !in buffers
      ensures forall s :: s in LiveScales() && s !in buffers ==> s in missing
    {
      missing := [];
      for i := 0 to |outputs|
        invariant forall k :: 0 <= k < |missing| ==> missing[k] in LiveScales() && missing[k] !in buffers
        invariant forall j :: 0 <= j < i && outputs[j].scale !in buffers ==> outputs[j].scale in missing
      {
        if outputs[i].scale !in buffers {
          missing := missing + [outputs[i].scale];
        }
      }
    }

    /** `AsRenderElements::render_elements`: a non-forced update pass, then the
        buffer bookkeeping for the requested scale. */
    method RenderElements(location: PhysicalPoint, scale: Scale, alpha: real, wrapped: bool) returns (elements: seq<RenderElement>)
      requires Valid()
      modifies this
      ensures Valid()
      ensures outputs == old(outputs) && buffers.Keys == old(buffers).Keys
      ensures var c := UpdatePass(old(View()), false, step).0;
        var p := Present(c.buffers, scale, size, deviceSize, location, alpha, wrapped);
        && View() == c.(buffers := p.buffers)
        && elements == p.elements
        && drawn == old(drawn) + (if p.drew then [scale] else [])
      ensures scale !in old(buffers) ==> elements == []
      ensures old(CacheExact()) && scale !in LiveScales() ==> elements == []
    {
      var _ := Update(false);
      elements := DrawBuffer(location, scale, alpha, wrapped);
    }

    /** The lookup, rasterization and wrapping half of `render_elements`. The
        pixels drawn are not modelled; a draw is recorded in `drawn`. */
    method DrawBuffer(location: PhysicalPoint, scale: Scale, alpha: real, wrapped: bool) returns (elements: seq<RenderElement>)
      requires Valid()
      modifies this`buffers, this`drawn
      ensures Valid()
      ensures var p := Present(old(buffers), scale, size, deviceSize, location, alpha, wrapped);
        && buffers == p.buffers
        && elements == p.elements
        && drawn == old(drawn) + (if p.drew then [scale] else [])
    {
      if scale in buffers {
        var slot := buffers[scale];
        var device := deviceSize(size, scale);
        if slot.needsRedraw && device.w > 0 && device.h > 0 {
          drawn := drawn + [scale];
          buffers := buffers[scale := slot.(needsRedraw := false)];
        }
        if wrapped {
          return [RenderElement(location, slot.buffer, alpha, device, size)];
        }
      }
      return [];
    }

    /** Queues events for the program, then runs a forced pass: the shape of
        every input handler. */
    method QueueAndUpdate(queued: seq<Event>)
      requires Valid()
      modifies this
      ensures Valid()
      ensures outputs == old(outputs) && drawn == old(drawn) && buffers.Keys == old(buffers).Keys
      ensures cursorPos == old(cursorPos)
      ensures steps == old(steps) + [StepInput(old(program), queued, old(channel), size, cursorPos.UnwrapOr(Offscreen))]
      ensures View() == UpdatePass(old(View()).(events := queued), true, step).0
    {
      events := events + queued;
      assert events == queued && old(messages) + old(channel) == old(channel);
      var _ := Update(true);
    }

    /** `PointerTarget::enter`: cursor entered, then cursor moved to the
        location; the position is remembered; a forced pass runs. */
    method PointerEnter(location: Point)
      requires Valid()
      modifies this
      ensures Valid()
      ensures outputs == old(outputs) && drawn == old(drawn) && buffers.Keys == old(buffers).Keys
      ensures cursorPos == Some(location)
      ensures steps == old(steps) + [StepInput(old(program), [Mouse(CursorEntered), Mouse(CursorMoved(location))], old(channel), size, location)]
      ensures View() == UpdatePass(old(View()).(events := [Mouse(CursorEntered), Mouse(CursorMoved(location))], cursor := Some(location)), true, step).0
    {
      cursorPos := Some(location);
      QueueAndUpdate([Mouse(CursorEntered), Mouse(CursorMoved(location))]);
    }

    /** `PointerTarget::motion`: cursor moved only; the position is remembered. */
    method PointerMotion(location: Point)
      requires Valid()
      modifies this
      ensures Valid()
      ensures outputs == old(outputs) && drawn == old(drawn) && buffers.Keys == old(buffers).Keys
      ensures cursorPos == Some(location)
      ensures steps == old(steps) + [StepInput(old(program), [Mouse(CursorMoved(location))], old(channel), size, location)]
      ensures View() == UpdatePass(old(View()).(events := [Mouse(CursorMoved(location))], cursor := Some(location)), true, step).0
    {
      cursorPos := Some(location);
      QueueAndUpdate([Mouse(CursorMoved(location))]);
    }

    /** `PointerTarget::button`. */
    method PointerButton(code: u32, state: ButtonState)
      requires Valid()
      modifies this
      ensures Valid()
      ensures outputs == old(outputs) && drawn == old(drawn) && buffers.Keys == old(buffers).Keys
      ensures cursorPos == old(cursorPos)
      ensures steps == old(steps) + [StepInput(old(program), [ButtonEvent(code, state)], old(channel), size, cursorPos.UnwrapOr(Offscreen))]
      ensures View() == UpdatePass(old(View()).(events := [ButtonEvent(code, state)]), true, step).0
    {
      QueueAndUpdate([ButtonEvent(code, state)]);
    }

    /** `PointerTarget::axis`. */
    method PointerAxis(frame: AxisFrame)
      requires Valid()
      modifies this
      ensures Valid()
      ensures outputs == old(outputs) && drawn == old(drawn) && buffers.Keys == old(buffers).Keys
      ensures cursorPos == old(cursorPos)
      ensures steps == old(steps) + [StepInput(old(program), [ScrollEvent(frame)], old(channel), size, cursorPos.UnwrapOr(Offscreen))]
      ensures View() == UpdatePass(old(View()).(events := [ScrollEvent(frame)]), true, step).0
    {
      QueueAndUpdate([ScrollEvent(frame)]);
    }

    /** `PointerTarget::leave`: cursor left; the remembered position is kept,
        so the step still sees the last location (or `Offscreen` if none). */
    method PointerLeave()
      requires Valid()
      modifies this
      ensures Valid()
      ensures outputs == old(outputs) && drawn == old(drawn) && buffers.Keys == old(buffers).Keys
      ensures cursorPos == old(cursorPos)
      ensures steps == old(steps) + [StepInput(old(program), [Mouse(CursorLeft)], old(channel), size, cursorPos.UnwrapOr(Offscreen))]
      ensures View() == UpdatePass(old(View()).(events := [Mouse(CursorLeft)]), true, step).0
    {
      QueueAndUpdate([Mouse(CursorLeft)]);
    }

    /** `KeyboardTarget::modifiers`. */
    method KeyboardModifiers(host: HostModifiers)
      requires Valid()
      modifies this
      ensures Valid()
      ensures outputs == old(outputs) && drawn == old(drawn) && buffers.Keys == old(buffers).Keys
      ensures cursorPos == old(cursorPos)
      ensures steps == old(steps) + [StepInput(old(program), [ModifiersEvent(host)], old(channel), size, cursorPos.UnwrapOr(Offscreen))]
      ensures View() == UpdatePass(old(View()).(events := [ModifiersEvent(host)]), true, step).0
    {
      QueueAndUpdate([ModifiersEvent(host)]);
    }

    /** `SpaceElement::set_activate`: focused or unfocused, then a forced pass. */
    method SetActivate(activated: bool)
      requires Valid()
      modifies this
      ensures Valid()
      ensures outputs == old(outputs) && drawn == old(drawn) && buffers.Keys == old(buffers).Keys
      ensures cursorPos == old(cursorPos)
      ensures View() == UpdatePass(old(View()).(events := [Window(if activated then Focused else Unfocused)]), true, step).0
    {
      QueueAndUpdate([Window(if activated then Focused else Unfocused)]);
    }
  }

  /** Two outputs at different scales: attaching both gives two buffers,
      detaching the first leaves only the second's, and a render request at the
      detached scale yields no element. */
  method AttachDetachScenario(one: Scale, two: Scale, program: ProgramState, size: Size,
                              step: ProgramStep, deviceSize: DeviceSize, wrapped: bool)
    requires one != two
  {
    var element, a, b := AttachTwo(one, two, program, size, step, deviceSize);
    element.OutputLeave(a);
    assert element.outputs == [b] by {
      assert Without([a, b], a) == Without([b], a);
    }
    assert element.LiveScales() == {two} by {
      assert element.outputs[0] == b;
    }
    assert element.buffers.Keys == {two};
    var rendered := element.RenderElements(PhysicalPoint(0, 0), one, 1.0, wrapped);
    assert rendered == [];
  }

  /** The first half of the scenario: a new element shown on an output at each
      of the two scales has one fresh dirty buffer per scale. */
  method AttachTwo(one: Scale, two: Scale, program: ProgramState, size: Size,
                   step: ProgramStep, deviceSize: DeviceSize) returns (element: Element, a: Output, b: Output)
    requires one != two
    ensures fresh(element) && fresh(a) && fresh(b)
    ensures element.Valid() && element.CacheExact()
    ensures element.outputs == [a, b] && a.scale == one && b.scale == two
    ensures element.buffers.Keys == {one, two}
    ensures element.buffers[one] == Fresh(size, one, deviceSize) && element.buffers[two] == Fresh(size, two, deviceSize)
  {
    element := new Element(program, size, step, deviceSize);
    a := new Output(one);
    b := new Output(two);
    element.OutputEnter(a);
    assert element.buffers.Keys == {one};
    element.OutputEnter(b);
    assert element.outputs == [a, b];
  }
}

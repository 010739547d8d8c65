/** One update pass of the hosted program, on a value snapshot of the element. */
module ProgramHost {
  import opened Basics
  import opened Input
  import opened Actions
  import opened BufferCache

  /** A message of the program (`Program::Message`). */
  type Message

  /** The iced program state: the program, its widget tree and its caches. */
  type ProgramState

  /** What one program step (iced `State::update`) is given: the state, every
      queued event and message, the logical bounds and the cursor position. */
  datatype StepInput = StepInput(state: ProgramState, events: seq<Event>, messages: seq<Message>, bounds: Size, cursor: Point)

  /** What one program step yields: the new state, and `Some(actions)` when the
      program produced a command (the view changed), `None` otherwise. */
  datatype StepOutput = StepOutput(state: ProgramState, actions: Option<seq<Action>>)

  /** The program step; its internals (layout, widget diffing) are not modelled. */
  type ProgramStep = StepInput -> StepOutput

  /** The position reported while the cursor has never entered the element. */
  const Offscreen := Point(-1.0, -1.0)

  /** The state of the element that an update pass reads or writes. `channel`
      holds results of futures delivered but not yet drained; `scheduled` and
      `steps` log every future handed to the scheduler and every program step
      run, in order. */
  datatype Core = Core(
    program: ProgramState,
    events: seq<Event>,
    messages: seq<Message>,
    channel: seq<Message>,
    buffers: Buffers,
    size: Size,
    cursor: Option<Point>,
    scheduled: seq<FutureTask>,
    steps: seq<StepInput>)

  /** The program queues are empty between public operations. */
  predicate Settled(c: Core) {
    c.events == [] && c.messages == []
  }

  /** The step input of a pass over `c`: queued messages followed by every
      drained one, and the cursor or `Offscreen` when there is none. */
  function PassInput(c: Core): StepInput {
    StepInput(c.program, c.events, c.messages + c.channel, c.size, c.cursor.UnwrapOr(Offscreen))
  }

  /** `IcedElementInternal::update`: drain the channel (any message makes the
      pass forced); without force do nothing; otherwise run one step, mark every
      buffer dirty when it yields actions, schedule the futures and return the
      other actions. */
  function UpdatePass(c: Core, force: bool, step: ProgramStep): (r: (Core, seq<Action>))
    ensures r.0.channel == []
    ensures r.0.buffers.Keys == c.buffers.Keys
    ensures r.0.size == c.size && r.0.cursor == c.cursor
    ensures !force && c.channel == [] ==> r == (c, [])
    ensures force || c.channel != [] ==>
      r.0.steps == c.steps + [PassInput(c)] && Settled(r.0) && r.0.program == step(PassInput(c)).state
    ensures forall i :: 0 <= i < |r.1| ==> r.1[i].Immediate?
  {
    if !force && c.channel == [] then
      assert c.messages + c.channel == c.messages;
      (c, [])
    else
      var input := PassInput(c);
      var out := step(input);
      var actions := out.actions.UnwrapOr([]);
      var after := c.(
        program := out.state,
        events := [],
        messages := [],
        channel := [],
        buffers := if out.actions.Some? then AllDirty(c.buffers) else c.buffers,
        scheduled := c.scheduled + Futures(actions),
        steps := c.steps + [input]);
      (after, Returned(actions))
  }

  /** A pass that drains at least one message, or is forced, is the forced
      pass over the snapshot with the channel already drained into the queue. */
  lemma UpdateAfterDrain(c: Core, force: bool, step: ProgramStep)
    requires force || c.channel != []
    ensures UpdatePass(c, force, step) == UpdatePass(c.(messages := c.messages + c.channel, channel := []), true, step)
  {
    var d := c.(messages := c.messages + c.channel, channel := []);
    assert d.messages + d.channel == c.messages + c.channel;
  }

  /** A forced pass whose step yields actions marks every buffer dirty; one
      whose step yields none changes no flag and returns nothing. Either way
      no buffer is reallocated. */
  lemma UpdateDirtyFlags(c: Core, force: bool, step: ProgramStep)
    requires force || c.channel != []
    ensures var r := UpdatePass(c, force, step);
      && (forall s :: s in c.buffers ==> r.0.buffers[s].buffer == c.buffers[s].buffer)
      && (step(PassInput(c)).actions.Some? ==> AllNeedRedraw(r.0.buffers))
      && (step(PassInput(c)).actions.None? ==> r.0.buffers == c.buffers && r.1 == [] && r.0.scheduled == c.scheduled)
  {
  }

  /** Of the actions a forced pass obtains, the futures are appended to the
      scheduler log and the rest are returned; together they are exactly the
      step's actions, each order kept. */
  lemma UpdateSplitsActions(c: Core, force: bool, step: ProgramStep)
    requires force || c.channel != []
    requires step(PassInput(c)).actions.Some?
    ensures var r := UpdatePass(c, force, step);
      var actions := step(PassInput(c)).actions.value;
      && r.1 == Returned(actions)
      && r.0.scheduled == c.scheduled + Futures(actions)
      && |r.1| + |r.0.scheduled| == |actions| + |c.scheduled|
  {
    SplitCounts(step(PassInput(c)).actions.value);
  }

  /** Draining hands every pending message to the step after the queued ones,
      in arrival order, even when the pass was not asked to be forced. */
  lemma UpdateDrainsInOrder(c: Core, step: ProgramStep)
    requires Settled(c) && c.channel != []
    ensures var r := UpdatePass(c, false, step);
      r.0.steps == c.steps + [StepInput(c.program, [], c.channel, c.size, c.cursor.UnwrapOr(Offscreen))]
  {
    assert c.messages + c.channel == c.channel;
  }

  /** A pass leaves a settled snapshot settled and a sized cache sized. */
  lemma UpdateKeepsInvariants(c: Core, force: bool, step: ProgramStep, deviceSize: DeviceSize)
    requires Settled(c) && Sized(c.buffers, c.size, deviceSize)
    ensures Settled(UpdatePass(c, force, step).0)
    ensures Sized(UpdatePass(c, force, step).0.buffers, c.size, deviceSize)
  {
  }
}

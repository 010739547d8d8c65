# Embedded iced element: a Dafny model

This project models the state logic of `IcedElement` in cosmic-comp. `IcedElement` lets an iced UI program live inside the compositor's scene graph as a single element. That element renders and receives input. It keeps one memory buffer per output scale, each with a `needs_redraw` flag. It runs the program's update step. It hands the program's futures to a scheduler, and it translates smithay pointer and keyboard events into iced events.

Modules:

- `Basics` holds the sizes and points. It also holds the opaque `Scale` key, which is compared by one equality throughout. The logical-to-buffer size conversion `DeviceSize` is passed in as an uninterpreted function.
- `Input` translates host input into program events: button codes, press and release, scroll frames and modifier flags.
- `Actions` splits a step's actions into futures, which are scheduled, and the other actions, which are returned in order.
- `BufferCache` holds the per-scale cache as a `map<Scale, Slot>`. It gives value-level definitions of what entering an output, refreshing, resizing and marking dirty do to that map. It also holds the bookkeeping of a render request (`Present`).
- `ProgramHost` defines `UpdatePass`, one update pass over a value snapshot (`Core`) of the element. The program step is an uninterpreted `StepInput -> StepOutput` function.
- `IcedElement` holds the `Element` class: the fields of `IcedElementInternal` and every operation the host calls on it, written imperatively. Each method is proved against the value-level definitions above. A reference to an `Element` plays the part of the shared handle, so handle equality is reference equality. `Output` is a class with a mutable `scale`, and outputs are compared by reference.

Between operations the element satisfies `Valid()`:
- the program's event and message queues are empty;
- every buffer has `deviceSize(size, scale)` for its scale.

The buffer-set invariant `CacheExact()` says that the buffer map's key set equals the set of current scales of the attached outputs. `Refresh` and `OutputLeave` establish it. `OutputEnter`, the update pass, `Resize`, `ForceUpdate`, rendering and every input handler preserve it. Outputs can change scale behind the element's back, which is why `refresh` exists; so `CacheExact()` is stated per operation rather than as part of `Valid()`.

Notes on the code:
- Buffers are sized with `to_i32_round()`, a rounding step. The model keeps the conversion abstract.
- An unnamed button code `c` reaches the program as `Other(c as u8)`, its low 8 bits. `Input.ButtonOf` keeps only the low byte. `Input.ButtonOfLowByte` shows that two codes sharing their low byte become the same button.
- Any drained message forces the pass, even when `force` was false.

One assumption about iced is built into the model: a program step consumes every queued event and message. This is what iced's `State::update` does.

## Model

| member | source | states |
|---|---|---|
| Input.ButtonOf | src/utils/iced.rs:340-345 | 0x110, 0x111 and 0x112 (and only they) give Left, Right and Middle; any other code gives `Other` of its low 8 bits |
| Input.ButtonEvent | src/utils/iced.rs:346-349 | a press queues `ButtonPressed` and a release `ButtonReleased`, of the translated button |
| Input.ScrollEvent | src/utils/iced.rs:360-374 | a line delta exactly when the host reports discrete steps (carrying them), otherwise a pixel delta carrying the axis values |
| Input.ModifiersOf | src/utils/iced.rs:433-445 | SHIFT, ALT, CTRL and LOGO are each in the set exactly when the host flag is set |
| Input.ModifiersEvent | src/utils/iced.rs:446-448 | one `ModifiersChanged` event carrying the translated set |
| Input.ButtonOfCodeOf | src/utils/iced.rs:340-345 | every program button is the translation of some host code |
| Input.ButtonOfLowByte | src/utils/iced.rs:344 | two unnamed codes that agree on their low byte give the same button (the `as u8` truncation) |
| Input.ModifiersOfDeterminedByFour | src/utils/iced.rs:433-445 | two host states give the same modifier set iff they agree on shift, alt, ctrl and logo; caps lock and num lock are dropped |
| Actions.Returned | src/utils/iced.rs:276-287 | the returned actions are non-future actions taken from the step's actions, no more of them than there were actions |
| Actions.Futures | src/utils/iced.rs:279-283 | the scheduled tasks are tasks of future actions of the step |
| Actions.SplitAppend | src/utils/iced.rs:277-287 | splitting distributes over concatenation, so both halves keep the original order |
| Actions.SplitCounts | src/utils/iced.rs:277-287 | the returned and scheduled counts add up to the number of actions |
| Actions.SplitIsPartition | src/utils/iced.rs:277-287 | every action is either returned or scheduled, exactly once (the multisets add up) |
| Actions.SplitStep | src/utils/iced.rs:277-287 | the first action goes exactly one way: the multisets of both halves grow by it and by nothing else |
| Actions.NoFuturesAllReturned | src/utils/iced.rs:277-287 | with no future among them, all actions are returned unchanged and nothing is scheduled |
| Actions.Split | src/utils/iced.rs:276-287 | the `filter_map` loop yields exactly the returned actions and the futures to schedule |
| BufferCache.Entered | src/utils/iced.rs:483-503 | the key set gains the output's scale; every existing buffer and its flag are unchanged; a new scale gets a fresh dirty buffer of the device size at that scale |
| BufferCache.Refreshed | src/utils/iced.rs:521-553 | the key set becomes exactly the live scales; surviving buffers are unchanged; new ones are fresh, dirty and sized for their scale |
| BufferCache.RefreshedByFilling | src/utils/iced.rs:527-553 | retaining and then inserting fresh buffers for the missing scales, in any order and with repeats, gives the refreshed map |
| BufferCache.Reallocated | src/utils/iced.rs:220-229 | resizing keeps the key set, sizes every buffer for the new size at its scale and marks all dirty |
| BufferCache.ReallocatedForgetsContents | src/utils/iced.rs:220-229 | what resizing leaves depends only on the tracked scales, not on the old buffers or flags |
| BufferCache.AllDirty | src/utils/iced.rs:272-274 | marking dirty keeps the keys and every buffer and sets every flag |
| BufferCache.AllDirtyKeepsSized | src/utils/iced.rs:271-275 | marking dirty keeps buffers correctly sized, and marking twice is marking once |
| BufferCache.EnteredKeepsSized | src/utils/iced.rs:485-502 | entering an output keeps every buffer at the device size of its scale |
| BufferCache.RefreshedKeepsSized | src/utils/iced.rs:533-552 | refreshing keeps every buffer at the device size of its scale |
| BufferCache.Present | src/utils/iced.rs:578-647 | no buffer gives no element and no change; the flag is cleared and a draw happens exactly when it was dirty and both device dimensions are positive; one element exactly when the buffer exists and wrapping succeeds |
| BufferCache.PresentTwiceDrawsOnce | src/utils/iced.rs:587-631 | a second render with nothing changed does not rasterize again when the device size is non-degenerate |
| ProgramHost.UpdatePass | src/utils/iced.rs:243-288 | unforced with nothing drained, nothing changes and nothing is returned; otherwise exactly one step runs on the queued and drained messages in order, the queues end empty, keys never change, and no returned action is a future |
| ProgramHost.UpdateDirtyFlags | src/utils/iced.rs:271-276 | `Some` actions mark every buffer dirty; `None` changes no flag, schedules nothing and returns nothing; no buffer is reallocated |
| ProgramHost.UpdateSplitsActions | src/utils/iced.rs:276-287 | futures are appended to the scheduler log and the rest returned, each in order, together accounting for every action |
| ProgramHost.UpdateDrainsInOrder | src/utils/iced.rs:244-253 | drained messages reach the step in arrival order even on an unforced pass, with the cursor or (-1, -1) |
| ProgramHost.UpdateKeepsInvariants | src/utils/iced.rs:243-288 | a pass keeps the queues empty and the buffers correctly sized |
| ProgramHost.UpdateAfterDrain | src/utils/iced.rs:244-251 | a pass that drains a message, or is forced, equals the forced pass over the snapshot whose channel has already been queued |
| IcedElement.Without | src/utils/iced.rs:508 | removes every occurrence of the output and keeps all others; nothing changes when it is absent; a one-output list is emptied exactly when it holds the output |
| IcedElement.WithoutAppend | src/utils/iced.rs:508 | removal distributes over concatenation, so kept outputs keep their order and multiplicity |
| IcedElement.Element.constructor | src/utils/iced.rs:160-201 | no outputs, no buffers, no cursor, and the state after one forced pass |
| IcedElement.Element.Update | src/utils/iced.rs:243-288 | the new state and the returned actions are those of `UpdatePass` on the old state |
| IcedElement.Element.RunStep | src/utils/iced.rs:253-287 | once the channel is drained, the new state and the returned actions are those of a forced `UpdatePass` |
| IcedElement.Element.DrainChannel | src/utils/iced.rs:244-247 | every delivered message is queued in arrival order; the pass is forced iff forced already or a message was drained |
| IcedElement.Element.MarkAllDirty | src/utils/iced.rs:272-274 | every flag set, every buffer kept |
| IcedElement.Element.Resize | src/utils/iced.rs:212-231 | at the current size nothing at all changes; otherwise the size is set, buffers are reallocated dirty at the new device size with the same keys, and a forced pass runs |
| IcedElement.Element.ReallocateAll | src/utils/iced.rs:220-229 | the buffers become `Reallocated` at the current size: same keys, every buffer new, sized and dirty |
| IcedElement.Element.ForceUpdate | src/utils/iced.rs:233-239 | every buffer dirty, then a forced pass |
| IcedElement.Element.Deliver | src/utils/iced.rs:178-181 | a finished future's message is appended to the channel |
| IcedElement.Element.OutputEnter | src/utils/iced.rs:481-505 | the output is always appended; a dirty buffer is added only for a new scale; the buffer-set invariant is preserved |
| IcedElement.Element.OutputLeave | src/utils/iced.rs:507-510 | every occurrence of the output is removed, then the cache is refreshed, so the buffer-set invariant holds |
| IcedElement.Element.Refresh | src/utils/iced.rs:517-554 | the buffers become `Refreshed` of the old ones over the live scales, so the buffer-set invariant holds |
| IcedElement.Element.FillMissing | src/utils/iced.rs:533-552 | each given scale gets a fresh dirty buffer; every buffer already there is kept |
| IcedElement.Element.MissingScales | src/utils/iced.rs:527-532 | the collected scales are exactly the live scales without a buffer |
| IcedElement.Element.RenderElements | src/utils/iced.rs:565-648 | an unforced pass, then `Present` on its buffers; a scale with no buffer, or with no attached output while the invariant holds, yields no element |
| IcedElement.Element.DrawBuffer | src/utils/iced.rs:576-647 | the buffers, elements and draw log are those of `Present` |
| IcedElement.Element.PointerEnter | src/utils/iced.rs:292-308 | the step sees exactly `CursorEntered` then `CursorMoved(location)` with cursor `location`; the position is remembered |
| IcedElement.Element.PointerMotion | src/utils/iced.rs:310-323 | the step sees exactly `CursorMoved(location)`; the position is remembered |
| IcedElement.Element.PointerButton | src/utils/iced.rs:333-351 | the step sees exactly the translated press or release |
| IcedElement.Element.PointerAxis | src/utils/iced.rs:353-376 | the step sees exactly the translated scroll |
| IcedElement.Element.PointerLeave | src/utils/iced.rs:378-390 | the step sees exactly `CursorLeft`; the remembered position is kept, and the step is given it (or (-1, -1)) |
| IcedElement.Element.KeyboardModifiers | src/utils/iced.rs:425-450 | the step sees exactly one `ModifiersChanged` with the translated set |
| IcedElement.Element.SetActivate | src/utils/iced.rs:468-479 | `Focused` or `Unfocused` is queued, then a forced pass runs |

`IcedElement.AttachDetachScenario` is a verified client of the class. Through `IcedElement.AttachTwo`, it attaches outputs at two different scales and gets one fresh dirty buffer for each. It detaches the first and keeps only the second scale's buffer. A render request at the detached scale then yields nothing.

## Left out

- Rasterization (src/utils/iced.rs:590-629): the raqote draw target, clearing, the clip rectangle, `draw_primitive` and the `background`/`foreground` hooks are pixel code. A draw is recorded in the ghost log `drawn`, and buffer contents are not modelled.
- iced internals: `State`, `Debug`, `Theme`, `Style` and the renderer are replaced by the uninterpreted program step. The dark theme and the text colour passed to it are not modelled.
- The calloop executor, the `mpsc` channel endpoints, the `RegistrationToken` and its removal in `Drop` (src/utils/iced.rs:153-157, 176-182) are event-loop plumbing. The channel is a queue of delivered messages and the scheduler is a ghost log. The failure of `executor()` or `insert_source` at construction is not modelled.
- `Arc<Mutex<..>>` locking, `Clone`, `PartialEq` and `Hash` (src/utils/iced.rs:54-77) are not modelled; every operation is atomic here.
- Floating point: the f64-to-f32 casts of positions, sizes and scroll values, and the `i32` range of sizes. Points and deltas are reals and sizes are unbounded integers.
- The logical-to-buffer size conversion is an uninterpreted function, so its rounding is not modelled.
- Whether `MemoryRenderBufferRenderElement::from_buffer` succeeds is a boolean parameter (`wrapped`).
- The keyboard `enter`, `leave` and `key` handlers and `relative_motion` do nothing in the source. `z_index`, `is_in_input_region` and `alive` return constants. `bbox` is the rectangle of the current `size` at the origin, a read of `size`. `with_program` and `loop_handle` are accessors.
- Scales are compared by one equality everywhere. In the code, `refresh`'s `retain` (src/utils/iced.rs:525) compares plain `f64` values while the map keys and `contains_key` (src/utils/iced.rs:531) use `OrderedFloat`. So a buffer at a NaN scale is never retained and is re-inserted fresh and dirty on every `refresh`. The model does not capture that behaviour; `BufferCache.Refreshed` keeps every surviving buffer unchanged.
- Changes of an output's scale come from the host. No operation of the model changes `Output.scale`.

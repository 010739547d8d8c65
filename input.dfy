/** Translation of host (smithay) input into program (iced) events. */
module Input {
  import opened Basics

  newtype u32 = x: int | 0 <= x < 0x1_0000_0000
  newtype u8 = x: int | 0 <= x < 0x100

  /** Linux input button codes the element gives a name to (BTN_LEFT, BTN_RIGHT, BTN_MIDDLE). */
  const BtnLeft: u32 := 0x110
  const BtnRight: u32 := 0x111
  const BtnMiddle: u32 := 0x112

  datatype MouseButton = Left | Right | Middle | Other(code: u8)

  datatype ButtonState = Pressed | Released

  datatype ScrollDelta = Lines(x: real, y: real) | Pixels(x: real, y: real)

  /** The four keyboard modifiers the program distinguishes; a set of them is
      iced's `Modifiers` bit set. */
  datatype ModifierFlag = Shift | Ctrl | Alt | Logo

  datatype MouseEvent =
    | CursorEntered
    | CursorMoved(position: Point)
    | CursorLeft
    | ButtonPressed(button: MouseButton)
    | ButtonReleased(button: MouseButton)
    | WheelScrolled(delta: ScrollDelta)

  datatype KeyboardEvent = ModifiersChanged(modifiers: set<ModifierFlag>)

  datatype WindowEvent = Focused | Unfocused

  /** An event queued for the program. */
  datatype Event = Mouse(mouse: MouseEvent) | Keyboard(keyboard: KeyboardEvent) | Window(window: WindowEvent)

  /** The host's modifier state (smithay `ModifiersState`). */
  datatype HostModifiers = HostModifiers(ctrl: bool, alt: bool, shift: bool, capsLock: bool, logo: bool, numLock: bool)

  /** The host's scroll frame: a discrete step count when the device has one,
      and the continuous axis values. */
  datatype AxisFrame = AxisFrame(discrete: Option<(int, int)>, axis: (real, real))

  /** The button a host button code stands for; an unnamed code keeps only its
      low 8 bits (`x as u8`). */
  function ButtonOf(code: u32): (b: MouseButton)
    ensures b == Left <==> code == BtnLeft
    ensures b == Right <==> code == BtnRight
    ensures b == Middle <==> code == BtnMiddle
    ensures b.Other? ==> b.code as int == code as int % 0x100
  {
    match code
    case 0x110 => Left
    case 0x111 => Right
    case 0x112 => Middle
    case x => Other((x as int % 0x100) as u8)
  }

  /** The event queued for a button press or release. */
  function ButtonEvent(code: u32, state: ButtonState): (e: Event)
    ensures e.Mouse? && (e.mouse.ButtonPressed? || e.mouse.ButtonReleased?)
    ensures e.mouse.ButtonPressed? <==> state == Pressed
    ensures e.mouse.button == ButtonOf(code)
  {
    Mouse(match state
      case Pressed => ButtonPressed(ButtonOf(code))
      case Released => ButtonReleased(ButtonOf(code)))
  }

  /** The event queued for a scroll frame: line-based when the host reports
      discrete steps, pixel-based otherwise. */
  function ScrollEvent(frame: AxisFrame): (e: Event)
    ensures e.Mouse? && e.mouse.WheelScrolled?
    ensures e.mouse.delta.Lines? <==> frame.discrete.Some?
    ensures frame.discrete.Some? ==>
      e.mouse.delta.x == frame.discrete.value.0 as real && e.mouse.delta.y == frame.discrete.value.1 as real
    ensures frame.discrete.None? ==> e.mouse.delta.x == frame.axis.0 && e.mouse.delta.y == frame.axis.1
  {
    Mouse(WheelScrolled(
      match frame.discrete
      case Some(d) => Lines(d.0 as real, d.1 as real)
      case None => Pixels(frame.axis.0, frame.axis.1)))
  }

  /** The modifier set built from the host state, one insert per set host flag. */
  function ModifiersOf(host: HostModifiers): (mods: set<ModifierFlag>)
    ensures Shift in mods <==> host.shift
    ensures Alt in mods <==> host.alt
    ensures Ctrl in mods <==> host.ctrl
    ensures Logo in mods <==> host.logo
  {
    var empty: set<ModifierFlag> := {};
    var withShift := if host.shift then empty + {Shift} else empty;
    var withAlt := if host.alt then withShift + {Alt} else withShift;
    var withCtrl := if host.ctrl then withAlt + {Ctrl} else withAlt;
    if host.logo then withCtrl + {Logo} else withCtrl
  }

  /** The single event queued for a change of modifiers. */
  function ModifiersEvent(host: HostModifiers): (e: Event)
    ensures e.Keyboard? && e.keyboard.modifiers == ModifiersOf(host)
  {
    Keyboard(ModifiersChanged(ModifiersOf(host)))
  }

  /** A host code for every button: the named codes for the named buttons and
      the byte itself for the others. */
  function CodeOf(b: MouseButton): u32 {
    match b
    case Left => BtnLeft
    case Right => BtnRight
    case Middle => BtnMiddle
    case Other(c) => c as int as u32
  }

  /** Every button the program can receive is produced by some host code, so
      the translation loses no button the program knows about. */
  lemma ButtonOfCodeOf(b: MouseButton)
    ensures ButtonOf(CodeOf(b)) == b
  {
  }

  /** Two unnamed codes that agree on their low byte reach the program as the
      same button: the translation is many-to-one. */
  lemma ButtonOfLowByte(c1: u32, c2: u32)
    requires c1 !in {BtnLeft, BtnRight, BtnMiddle} && c2 !in {BtnLeft, BtnRight, BtnMiddle}
    requires c1 as int % 0x100 == c2 as int % 0x100
    ensures ButtonOf(c1) == ButtonOf(c2)
  {
  }

  /** Caps lock and num lock do not reach the program, and the four other flags
      determine the modifier set: two host states that agree on them give the
      same set, and two that differ on one of them give different sets. */
  lemma ModifiersOfDeterminedByFour(h1: HostModifiers, h2: HostModifiers)
    ensures ModifiersOf(h1) == ModifiersOf(h2) <==>
      (h1.shift == h2.shift && h1.alt == h2.alt && h1.ctrl == h2.ctrl && h1.logo == h2.logo)
  {
  }
}

/**
 The raw SDL events the window receives, the callbacks it passes on to the
 application, and what each handler of `SDL2GameWindow` emits for one
 event. The handlers that depend only on the event are functions here; the
 gamepad-connection handler's effect on the device count is the function
 `DeviceTransition`, which the window's method follows.
 */
module Events {
  import opened Wrappers
  import Utf8
  import KeyTable

  /** SDL's `Uint8` fields: the same range as a byte of UTF-8 text. */
  type Uint8 = Utf8.Byte
  type Int16 = v: int | -0x8000 <= v < 0x8000
  type Int32 = v: int | -0x8000_0000 <= v < 0x8000_0000

  // SDL_RELEASED and SDL_PRESSED
  const Released: Uint8 := 0
  const Pressed: Uint8 := 1

  /** The three event types that carry an `SDL_ControllerDeviceEvent`. */
  datatype DeviceEventType = DeviceAdded | DeviceRemoved | DeviceRemapped

  /** The two event types that carry an `SDL_KeyboardEvent`. */
  datatype KeyEventType = KeyDown | KeyUp

  /**
   One entry of SDL's event queue, by the structure it carries. Controller
   button and mouse button events are read the same way whether their type
   is DOWN or UP, so their type is not recorded; `OtherEvent` stands for
   every event type the dispatcher does not list.
   */
  datatype RawEvent =
    | ControllerDeviceEvent(deviceType: DeviceEventType, which: Int32)
    | ControllerAxisEvent(axis: Uint8, value: Int16)
    | ControllerButtonEvent(button: Uint8, state: Uint8)
    | MouseMotionEvent(x: Int32, y: Int32, xrel: Int32, yrel: Int32)
    | MouseWheelEvent(x: Int32, y: Int32)
    | MouseButtonEvent(x: Int32, y: Int32, button: Uint8, state: Uint8)
    | KeyboardEvent(keyType: KeyEventType, state: Uint8, repeat: Uint8, scancode: int)
    | QuitEvent
    | OtherEvent

  datatype GamepadAxisId = LeftX | LeftY | RightX | RightY | LeftTrigger | RightTrigger

  datatype GamepadButtonId =
    | A | B | X | Y | Back | Start | Guide | LeftStick | RightStick | LB | RB
    | DpadUp | DpadDown | DpadLeft | DpadRight

  datatype KeyAction = Press | Release | Repeat

  datatype MouseButtonAction = MousePress | MouseRelease

  /** The application callbacks inherited from `GameWindow`, one constructor per `on*` call. */
  datatype Callback =
    | GamepadState(gamepad: int, connected: bool)
    | GamepadAxis(gamepad: int, axis: GamepadAxisId, deflection: real)
    | GamepadButton(gamepad: int, button: GamepadButtonId, pressed: bool)
    | MousePosition(x: int, y: int)
    | MouseRelativePosition(dx: int, dy: int)
    | MouseScroll(x: int, y: int, dx: int, dy: int)
    | MouseButton(x: int, y: int, mouseButton: int, mouseAction: MouseButtonAction)
    | KeyboardText(text: seq<Utf8.Byte>)
    | Keyboard(key: KeyTable.KeyCode, action: KeyAction)

  // ---------------------------------------------------------------------
  // Gamepad connection

  /** The device count and the callbacks after one connection event. */
  datatype DeviceOutcome = DeviceOutcome(count: int, callbacks: seq<Callback>)

  /**
   `handleControllerDeviceEvent`: an addition always counts (even when the
   controller cannot be opened); a removal with no known controller changes
   nothing; the application hears of the first connection and the last
   disconnection only, always as gamepad 0; other types change nothing.
   */
  function DeviceTransition(count: int, deviceType: DeviceEventType): (r: DeviceOutcome)
    ensures count >= 0 ==> r.count >= 0
    ensures deviceType == DeviceAdded ==> r.count == count + 1
    ensures deviceType == DeviceRemoved && count >= 1 ==> r.count == count - 1
    ensures deviceType == DeviceRemoved && count < 1 ==> r == DeviceOutcome(count, [])
    ensures deviceType == DeviceRemapped ==> r == DeviceOutcome(count, [])
    ensures |r.callbacks| <= 1
    ensures forall c <- r.callbacks :: c == GamepadState(0, deviceType == DeviceAdded)
    ensures count >= 0 ==>
      (r.callbacks == [GamepadState(0, true)] <==> deviceType == DeviceAdded && count == 0)
    ensures count >= 0 ==>
      (r.callbacks == [GamepadState(0, false)] <==> deviceType == DeviceRemoved && count == 1)
  {
    match deviceType
    case DeviceAdded =>
      var n := count + 1;
      DeviceOutcome(n, if n > 1 then [] else [GamepadState(0, true)])
    case DeviceRemoved =>
      if count < 1 then DeviceOutcome(count, [])
      else
        var n := count - 1;
        DeviceOutcome(n, if n > 0 then [] else [GamepadState(0, false)])
    case DeviceRemapped =>
      DeviceOutcome(count, [])
  }

  // ---------------------------------------------------------------------
  // Gamepad axis and button

  /** The axis switch of `handleControllerAxisEvent` (SDL_CONTROLLER_AXIS_LEFTX .. TRIGGERRIGHT are 0..5). */
  function AxisOf(axis: Uint8): (r: Option<GamepadAxisId>)
    ensures r.Some? <==> axis < 6
  {
    if axis == 0 then Some(LeftX)
    else if axis == 1 then Some(LeftY)
    else if axis == 2 then Some(RightX)
    else if axis == 3 then Some(RightY)
    else if axis == 4 then Some(LeftTrigger)
    else if axis == 5 then Some(RightTrigger)
    else None
  }

  /** SDL's number for an axis: the inverse of `AxisOf`. */
  function SdlAxis(id: GamepadAxisId): (axis: Uint8)
    ensures AxisOf(axis) == Some(id)
  {
    match id
    case LeftX => 0
    case LeftY => 1
    case RightX => 2
    case RightY => 3
    case LeftTrigger => 4
    case RightTrigger => 5
  }

  /** The button switch of `handleControllerButtonEvent` (SDL_CONTROLLER_BUTTON_A .. DPAD_RIGHT are 0..14). */
  function ButtonOf(button: Uint8): (r: Option<GamepadButtonId>)
    ensures r.Some? <==> button < 15
  {
    if button == 0 then Some(A)
    else if button == 1 then Some(B)
    else if button == 2 then Some(X)
    else if button == 3 then Some(Y)
    else if button == 4 then Some(Back)
    else if button == 5 then Some(Guide)
    else if button == 6 then Some(Start)
    else if button == 7 then Some(LeftStick)
    else if button == 8 then Some(RightStick)
    else if button == 9 then Some(LB)
    else if button == 10 then Some(RB)
    else if button == 11 then Some(DpadUp)
    else if button == 12 then Some(DpadDown)
    else if button == 13 then Some(DpadLeft)
    else if button == 14 then Some(DpadRight)
    else None
  }

  /** SDL's number for a button: the inverse of `ButtonOf`. */
  function SdlButton(id: GamepadButtonId): (button: Uint8)
    ensures ButtonOf(button) == Some(id)
  {
    match id
    case A => 0
    case B => 1
    case X => 2
    case Y => 3
    case Back => 4
    case Guide => 5
    case Start => 6
    case LeftStick => 7
    case RightStick => 8
    case LB => 9
    case RB => 10
    case DpadUp => 11
    case DpadDown => 12
    case DpadLeft => 13
    case DpadRight => 14
  }

  /** The axis and button tables are one-to-one on the ids they list. */
  lemma AxisAndButtonTablesInvert(axis: Uint8, button: Uint8)
    ensures AxisOf(axis).Some? ==> SdlAxis(AxisOf(axis).value) == axis
    ensures ButtonOf(button).Some? ==> SdlButton(ButtonOf(button).value) == button
  {
  }

  /** A raw 16-bit axis value divided by 32768: in [-1, 1), with the raw value's sign. */
  function Deflection(value: Int16): (d: real)
    ensures -1.0 <= d < 1.0
    ensures d * 32768.0 == value as real
    ensures d < 0.0 <==> value < 0
  {
    value as real / 32768.0
  }

  /** `handleControllerAxisEvent`: one axis callback for gamepad 0 for the six listed axes, nothing otherwise. */
  function AxisCallbacks(axis: Uint8, value: Int16): (r: seq<Callback>)
    ensures |r| <= 1
    ensures |r| == 1 <==> axis < 6
    ensures forall c <- r ::
      c.GamepadAxis? && c.gamepad == 0 && SdlAxis(c.axis) == axis && c.deflection * 32768.0 == value as real
  {
    match AxisOf(axis)
    case None => []
    case Some(id) => [GamepadAxis(0, id, Deflection(value))]
  }

  /** `handleControllerButtonEvent`: one button callback for gamepad 0 for the 15 listed buttons, pressed iff the state is SDL_PRESSED. */
  function ButtonCallbacks(button: Uint8, state: Uint8): (r: seq<Callback>)
    ensures |r| <= 1
    ensures |r| == 1 <==> button < 15
    ensures forall c <- r ::
      c.GamepadButton? && c.gamepad == 0 && SdlButton(c.button) == button && (c.pressed <==> state == Pressed)
  {
    match ButtonOf(button)
    case None => []
    case Some(id) => [GamepadButton(0, id, state == Pressed)]
  }

  // ---------------------------------------------------------------------
  // Mouse

  function Sign(n: int): int {
    if n < 0 then -1 else if n > 0 then 1 else 0
  }

  /**
   `handleMouseWheelEvent`: at most one scroll callback, whose direction is
   a unit step along one axis; horizontal scrolling wins over vertical and
   passes the raw amounts through, vertical scrolling reports zeros instead.
   */
  function WheelCallbacks(x: Int32, y: Int32): (r: seq<Callback>)
    ensures |r| <= 1
    ensures r == [] <==> x == 0 && y == 0
    ensures forall c <- r :: c.MouseScroll? && (c.dx == 0) != (c.dy == 0) && -1 <= c.dx <= 1 && -1 <= c.dy <= 1
    ensures x != 0 ==> r == [MouseScroll(x, y, Sign(x), 0)]
    ensures x == 0 && y != 0 ==> r == [MouseScroll(0, 0, 0, Sign(y))]
  {
    if x < 0 then [MouseScroll(x, y, -1, 0)]
    else if x > 0 then [MouseScroll(x, y, 1, 0)]
    else if y < 0 then [MouseScroll(0, 0, 0, -1)]
    else if y > 0 then [MouseScroll(0, 0, 0, 1)]
    else []
  }

  /** `handleMouseMotionEvent`: exactly one callback, relative to the last position iff the cursor is captured. */
  function MotionCallbacks(captured: bool, x: Int32, y: Int32, xrel: Int32, yrel: Int32): (r: seq<Callback>)
    ensures |r| == 1
    ensures r[0].MouseRelativePosition? <==> captured
    ensures r[0].MouseRelativePosition? || r[0].MousePosition?
    ensures captured ==> r[0].dx == xrel && r[0].dy == yrel
    ensures !captured ==> r[0].x == x && r[0].y == y
  {
    if captured then [MouseRelativePosition(xrel, yrel)] else [MousePosition(x, y)]
  }

  /** `handleMouseClickEvent`: exactly one callback passing position and button through, PRESS iff the state is SDL_PRESSED. */
  function ClickCallbacks(x: Int32, y: Int32, button: Uint8, state: Uint8): (r: seq<Callback>)
    ensures |r| == 1 && r[0].MouseButton?
    ensures r[0].x == x && r[0].y == y && r[0].mouseButton == button
    ensures r[0].mouseAction == MousePress <==> state == Pressed
  {
    [MouseButton(x, y, button, if state == Pressed then MousePress else MouseRelease)]
  }

  // ---------------------------------------------------------------------
  // Keyboard

  /**
   The texts of the four case labels of the text switch, in the order they
   are written: BACKSPACE, DELETE, ENTER, LEFT. The switch has no `break`,
   so a key entering at label i emits the texts of labels i, i + 1, ...
   and then the default text.
   */
  const CaseTexts: seq<seq<Utf8.Byte>> := [[0x08], [0x7F], [0x0A], [0x1B]]

  /** The label at which a key enters the text switch; 4 is `default`. */
  function CaseEntry(key: KeyTable.KeyCode): (i: nat)
    ensures i <= |CaseTexts|
  {
    match key
    case Backspace => 0
    case Delete => 1
    case Enter => 2
    case Left => 3
    case _ => 4
  }

  /**
   The conversion of the key's `int` value to `char32_t`, an unsigned 32-bit
   type: a non-negative value is kept, a negative one wraps to 2^32 plus it.
   */
  function Char32(n: int): (r: int)
    ensures 0 <= r < 0x1_0000_0000
    ensures 0 <= n < 0x1_0000_0000 ==> r == n
    ensures -0x8000_0000 <= n < 0 ==> r == n + 0x1_0000_0000
  {
    n % 0x1_0000_0000
  }

  /**
   The UTF-8 text `codecvt_utf8` makes of a key's value, or `None` when it
   cannot convert it (then `wstring_convert::to_bytes` throws). An `int`
   value that is a scalar value is encoded as itself; a negative one wraps
   past every code point and cannot be converted.
   */
  function KeyUtf8(key: KeyTable.KeyCode, enumValue: KeyTable.KeyCode -> int): (r: Option<seq<Utf8.Byte>>)
    ensures var n := KeyTable.Ordinal(key, enumValue);
      && (-0x8000_0000 <= n < 0 ==> r.None?)
      && (0 <= n < 0x8000_0000 ==> (r.Some? <==> Utf8.IsScalarValue(n)))
      && (0 <= n < 0x8000_0000 && r.Some? ==> Utf8.Decode(r.value) == Some(n))
  {
    var n := KeyTable.Ordinal(key, enumValue);
    if Utf8.IsScalarValue(Char32(n)) then
      Utf8.DecodeEncode(Char32(n));
      Utf8.Encode(Char32(n))
    else
      Utf8.Encode(Char32(n))
  }

  function TextCallbacks(texts: seq<seq<Utf8.Byte>>): (r: seq<Callback>)
    ensures |r| == |texts|
    ensures forall i :: 0 <= i < |r| ==> r[i] == KeyboardText(texts[i])
  {
    seq(|texts|, i requires 0 <= i < |texts| => KeyboardText(texts[i]))
  }

  /** The callbacks of one handler call, and whether it ended by throwing. */
  datatype Emission = Emission(callbacks: seq<Callback>, thrown: bool)

  /**
   `handleKeyboardEvent`: a repeat gives only (key, REPEAT); a release only
   (key, RELEASE); any other state nothing. A press gives the fall-through
   texts, then the key's own UTF-8 text, then (key, PRESS) last; if the key's
   value cannot be converted, the handler throws after the fall-through
   texts, before its own text and the key callback.
   */
  function KeyboardCallbacks(state: Uint8, repeat: Uint8, scancode: int, enumValue: KeyTable.KeyCode -> int): (r: Emission)
    ensures var key := KeyTable.GetKeyMinecraft(scancode);
      && (repeat != 0 ==> r == Emission([Keyboard(key, Repeat)], false))
      && (repeat == 0 && state == Released ==> r == Emission([Keyboard(key, Release)], false))
      && (repeat == 0 && state != Pressed && state != Released ==> r == Emission([], false))
      && (r.thrown <==> repeat == 0 && state == Pressed && KeyUtf8(key, enumValue).None?)
      && (repeat == 0 && state == Pressed && !r.thrown ==>
            && |r.callbacks| >= 2
            && r.callbacks[|r.callbacks| - 1] == Keyboard(key, Press)
            && (forall i :: 0 <= i < |r.callbacks| - 1 ==> r.callbacks[i].KeyboardText?))
    ensures forall c <- r.callbacks :: c.KeyboardText? || c.Keyboard?
    ensures r.thrown ==> r.callbacks == TextCallbacks(CaseTexts[CaseEntry(KeyTable.GetKeyMinecraft(scancode))..])
  {
    var key := KeyTable.GetKeyMinecraft(scancode);
    if repeat != 0 then
      Emission([Keyboard(key, Repeat)], false)
    else if state == Pressed then
      var texts := TextCallbacks(CaseTexts[CaseEntry(key)..]);
      match KeyUtf8(key, enumValue)
      case None => Emission(texts, true)
      case Some(bytes) => Emission(texts + [KeyboardText(bytes), Keyboard(key, Press)], false)
    else if state == Released then
      Emission([Keyboard(key, Release)], false)
    else
      Emission([], false)
  }

  /** The payloads of the text callbacks in a log, in order. */
  function Texts(log: seq<Callback>): seq<seq<Utf8.Byte>> {
    if log == [] then []
    else (if log[0].KeyboardText? then [log[0].text] else []) + Texts(log[1..])
  }

  lemma {:induction false} TextsAppend(a: seq<Callback>, b: seq<Callback>)
    ensures Texts(a + b) == Texts(a) + Texts(b)
  {
    if a == [] {
      assert a + b == b;
    } else {
      var head := if a[0].KeyboardText? then [a[0].text] else [];
      assert (a + b)[0] == a[0];
      assert (a + b)[1..] == a[1..] + b;
      TextsAppend(a[1..], b);
      calc {
        Texts(a + b);
        head + Texts(a[1..] + b);
        head + (Texts(a[1..]) + Texts(b));
        { assert head + (Texts(a[1..]) + Texts(b)) == (head + Texts(a[1..])) + Texts(b); }
        Texts(a) + Texts(b);
      }
    }
  }

  lemma {:induction false} TextsOfTextCallbacks(texts: seq<seq<Utf8.Byte>>)
    ensures Texts(TextCallbacks(texts)) == texts
  {
    if texts != [] {
      assert TextCallbacks(texts)[1..] == TextCallbacks(texts[1..]);
      TextsOfTextCallbacks(texts[1..]);
    }
  }

  /**
   The texts a non-repeat press emits, fall-through included: 08 7F 0A 1B
   and the key's own text for BACKSPACE, 7F 0A 1B and its own text for
   DELETE, 1B and its own text for LEFT, only its own text for every other
   key the table produces (ENTER never comes out of the table).
   */
  lemma PressTexts(scancode: int, enumValue: KeyTable.KeyCode -> int)
    requires KeyUtf8(KeyTable.GetKeyMinecraft(scancode), enumValue).Some?
    ensures var key := KeyTable.GetKeyMinecraft(scancode);
      var own := KeyUtf8(key, enumValue).value;
      var texts := Texts(KeyboardCallbacks(Pressed, 0, scancode, enumValue).callbacks);
      && (key == KeyTable.Backspace ==> texts == [[0x08], [0x7F], [0x0A], [0x1B], own])
      && (key == KeyTable.Delete ==> texts == [[0x7F], [0x0A], [0x1B], own])
      && (key == KeyTable.Left ==> texts == [[0x1B], own])
      && (key !in {KeyTable.Backspace, KeyTable.Delete, KeyTable.Left} ==> texts == [own])
  {
    var key := KeyTable.GetKeyMinecraft(scancode);
    PressTextsFallThrough(scancode, enumValue);
    if key == KeyTable.Backspace {
      assert CaseTexts[CaseEntry(key)..] == CaseTexts;
    } else if key == KeyTable.Delete {
      assert CaseTexts[CaseEntry(key)..] == [[0x7F], [0x0A], [0x1B]];
    } else if key == KeyTable.Left {
      assert CaseTexts[CaseEntry(key)..] == [[0x1B]];
    } else {
      assert CaseEntry(key) == 4;
    }
  }

  /** A letter key's own text is its capital letter, one ASCII byte. */
  lemma LetterText(key: KeyTable.KeyCode, enumValue: KeyTable.KeyCode -> int)
    requires key.Letter?
    ensures KeyUtf8(key, enumValue) == Some(['A' as int + key.index])
  {
    assert KeyTable.Ordinal(key, enumValue) == 'A' as int + key.index;
    assert Char32('A' as int + key.index) == 'A' as int + key.index;
  }

  /** A non-repeat press emits the texts from its entry label of the switch on, then its own text. */
  lemma PressTextsFallThrough(scancode: int, enumValue: KeyTable.KeyCode -> int)
    requires KeyUtf8(KeyTable.GetKeyMinecraft(scancode), enumValue).Some?
    ensures var key := KeyTable.GetKeyMinecraft(scancode);
      Texts(KeyboardCallbacks(Pressed, 0, scancode, enumValue).callbacks)
        == CaseTexts[CaseEntry(key)..] + [KeyUtf8(key, enumValue).value]
  {
    var key := KeyTable.GetKeyMinecraft(scancode);
    var own := KeyUtf8(key, enumValue).value;
    var fallThrough := CaseTexts[CaseEntry(key)..];
    var tail := [KeyboardText(own), Keyboard(key, Press)];
    assert KeyboardCallbacks(Pressed, 0, scancode, enumValue).callbacks == TextCallbacks(fallThrough) + tail;
    TextsAppend(TextCallbacks(fallThrough), tail);
    TextsOfTextCallbacks(fallThrough);
    assert tail[1..] == [Keyboard(key, Press)] && tail[1..][1..] == [];
    assert Texts(tail[1..]) == [] + Texts(tail[1..][1..]) == [];
    assert Texts(tail) == [own] + Texts(tail[1..]);
  }

  /**
   What the text switch evidently means to do, as a priority-ordered choice
   with one result: BACKSPACE 08, DELETE 7F, ENTER 0A, LEFT 1B, any other
   key its own UTF-8 text, or no text when that cannot be converted.
   */
  function SynthesizedText(key: KeyTable.KeyCode, enumValue: KeyTable.KeyCode -> int): Option<seq<Utf8.Byte>> {
    match key
    case Backspace => Some([0x08])
    case Delete => Some([0x7F])
    case Enter => Some([0x0A])
    case Left => Some([0x1B])
    case _ => KeyUtf8(key, enumValue)
  }

  /**
   On a non-repeat press, the first callback the handler emits is the text
   the single-choice version would emit; when that version emits nothing,
   neither does the handler (it throws).
   */
  lemma SynthesizedTextIsFirstText(scancode: int, enumValue: KeyTable.KeyCode -> int)
    ensures var key := KeyTable.GetKeyMinecraft(scancode);
      var r := KeyboardCallbacks(Pressed, 0, scancode, enumValue);
      match SynthesizedText(key, enumValue)
      case Some(text) => r.callbacks != [] && r.callbacks[0] == KeyboardText(text)
      case None => r == Emission([], true)
  {
    var key := KeyTable.GetKeyMinecraft(scancode);
    var fallThrough := CaseTexts[CaseEntry(key)..];
    if fallThrough != [] {
      assert TextCallbacks(fallThrough)[0] == KeyboardText(fallThrough[0]);
    }
  }
}

/**
 `SDL2GameWindow`'s input state and its event pump. `Step` and `Run` say
 what `pollEvents` does to a queue of raw events; the class
 `SdlGameWindow` holds the two state fields and the log of callbacks, and
 its methods are proved to follow them.
 */
module Window {
  import opened Events
  import KeyTable

  /** The window's input state: the `gamepad.count` and `captured` fields. */
  datatype InputState = InputState(gamepadCount: int, captured: bool)

  /** One dispatch: the new state, the callbacks in order, and whether a handler threw. */
  datatype StepResult = StepResult(state: InputState, callbacks: seq<Callback>, thrown: bool)

  /**
   A run of the pump over a queue: the final state, every callback in order,
   how many events were taken from the queue, and whether the loop ran to
   the end of the queue (rather than being left by an exception).
   */
  datatype RunResult = RunResult(state: InputState, callbacks: seq<Callback>, consumed: nat, completed: bool)

  /**
   The `switch (event.type)` of `pollEvents` for one event. Added and removed
   controllers go to the connection handler (remapped ones to `default`);
   SDL_KEYDOWN falls into SDL_KEYUP, so a key-down event runs the keyboard
   handler twice; SDL_QUIT and unlisted types emit nothing.
   */
  function Step(s: InputState, ev: RawEvent, enumValue: KeyTable.KeyCode -> int): (r: StepResult)
    ensures r.state.captured == s.captured
    ensures !ev.ControllerDeviceEvent? ==> r.state == s
    ensures r.thrown ==> ev.KeyboardEvent?
    ensures ev.QuitEvent? || ev.OtherEvent? ==> r == StepResult(s, [], false)
    ensures ev.MouseMotionEvent? ==> |r.callbacks| == 1
    ensures ev.MouseWheelEvent? ==> |r.callbacks| <= 1
    ensures ev.KeyboardEvent? ==>
      var once := KeyboardCallbacks(ev.state, ev.repeat, ev.scancode, enumValue);
      r == (if ev.keyType == KeyUp || once.thrown then StepResult(s, once.callbacks, once.thrown)
            else StepResult(s, once.callbacks + once.callbacks, false))
  {
    match ev
    case ControllerDeviceEvent(deviceType, _) =>
      if deviceType == DeviceRemapped then StepResult(s, [], false)
      else
        var d := DeviceTransition(s.gamepadCount, deviceType);
        StepResult(s.(gamepadCount := d.count), d.callbacks, false)
    case ControllerAxisEvent(axis, value) => StepResult(s, AxisCallbacks(axis, value), false)
    case ControllerButtonEvent(button, state) => StepResult(s, ButtonCallbacks(button, state), false)
    case MouseMotionEvent(x, y, xrel, yrel) => StepResult(s, MotionCallbacks(s.captured, x, y, xrel, yrel), false)
    case MouseWheelEvent(x, y) => StepResult(s, WheelCallbacks(x, y), false)
    case MouseButtonEvent(x, y, button, state) => StepResult(s, ClickCallbacks(x, y, button, state), false)
    case KeyboardEvent(keyType, state, repeat, scancode) =>
      var first := if keyType == KeyDown then KeyboardCallbacks(state, repeat, scancode, enumValue) else Emission([], false);
      if first.thrown then StepResult(s, first.callbacks, true)
      else
        var second := KeyboardCallbacks(state, repeat, scancode, enumValue);
        StepResult(s, first.callbacks + second.callbacks, second.thrown)
    case QuitEvent => StepResult(s, [], false)
    case OtherEvent => StepResult(s, [], false)
  }

  /**
   `pollEvents` over the events queued when it is called: each event is
   dispatched in arrival order and its callbacks follow those of the events
   before it; an exception from a handler leaves the loop.
   */
  function Run(s: InputState, queue: seq<RawEvent>, enumValue: KeyTable.KeyCode -> int): (r: RunResult)
    ensures r.consumed <= |queue|
    ensures r.completed ==> r.consumed == |queue|
    decreases |queue|
  {
    if queue == [] then RunResult(s, [], 0, true)
    else
      var step := Step(s, queue[0], enumValue);
      if step.thrown then RunResult(step.state, step.callbacks, 1, false)
      else
        var rest := Run(step.state, queue[1..], enumValue);
        RunResult(rest.state, step.callbacks + rest.callbacks, 1 + rest.consumed, rest.completed)
  }

  /** Running one more event of `queue` after a completed run over its first `i` events. */
  lemma RunExtend(s0: InputState, queue: seq<RawEvent>, i: nat, enumValue: KeyTable.KeyCode -> int)
    requires i < |queue|
    requires Run(s0, queue[..i], enumValue).completed
    ensures var r := Run(s0, queue[..i], enumValue);
      var step := Step(r.state, queue[i], enumValue);
      Run(s0, queue[..i + 1], enumValue) ==
        RunResult(step.state, r.callbacks + step.callbacks, i + 1, !step.thrown)
  {
    assert queue[..i + 1] == queue[..i] + [queue[i]];
    RunAppend(s0, queue[..i], [queue[i]], enumValue);
  }

  /** A run over a prefix that stopped early, or that covers the whole queue, is the run over the queue. */
  lemma RunPrefix(s0: InputState, queue: seq<RawEvent>, i: nat, enumValue: KeyTable.KeyCode -> int)
    requires i <= |queue|
    requires i == |queue| || !Run(s0, queue[..i], enumValue).completed
    ensures Run(s0, queue, enumValue) == Run(s0, queue[..i], enumValue)
  {
    assert queue == queue[..i] + queue[i..];
    RunAppend(s0, queue[..i], queue[i..], enumValue);
  }

  /** The run over `queue` after `emitted` callbacks and `consumed` events have already been handled. */
  function After(emitted: seq<Callback>, consumed: nat, r: RunResult): RunResult {
    RunResult(r.state, emitted + r.callbacks, consumed + r.consumed, r.completed)
  }

  /** Running over two queues one after the other is running over their concatenation. */
  lemma {:induction false} RunAppend(s: InputState, a: seq<RawEvent>, b: seq<RawEvent>, enumValue: KeyTable.KeyCode -> int)
    ensures var ra := Run(s, a, enumValue);
      Run(s, a + b, enumValue) ==
        if ra.completed then After(ra.callbacks, ra.consumed, Run(ra.state, b, enumValue)) else ra
    decreases |a|
  {
    if a == [] {
      assert a + b == b;
    } else {
      var step := Step(s, a[0], enumValue);
      assert (a + b)[0] == a[0] && (a + b)[1..] == a[1..] + b;
      if !step.thrown {
        RunAppend(step.state, a[1..], b, enumValue);
        var rest := Run(step.state, a[1..], enumValue);
        if rest.completed {
          AfterAfter(step.callbacks, 1, rest.callbacks, rest.consumed, Run(rest.state, b, enumValue));
        }
      }
    }
  }

  lemma AfterAfter(e1: seq<Callback>, c1: nat, e2: seq<Callback>, c2: nat, r: RunResult)
    ensures After(e1, c1, After(e2, c2, r)) == After(e1 + e2, c1 + c2, r)
  {
    assert e1 + (e2 + r.callbacks) == (e1 + e2) + r.callbacks;
  }

  /** The pump never changes whether the cursor is captured. */
  lemma {:induction false} RunKeepsCapture(s: InputState, queue: seq<RawEvent>, enumValue: KeyTable.KeyCode -> int)
    ensures Run(s, queue, enumValue).state.captured == s.captured
    decreases |queue|
  {
    if queue != [] {
      var step := Step(s, queue[0], enumValue);
      if !step.thrown {
        RunKeepsCapture(step.state, queue[1..], enumValue);
      }
    }
  }

  /** The gamepad count never goes negative. */
  lemma {:induction false} RunKeepsCountNonNegative(s: InputState, queue: seq<RawEvent>, enumValue: KeyTable.KeyCode -> int)
    requires s.gamepadCount >= 0
    ensures Run(s, queue, enumValue).state.gamepadCount >= 0
    decreases |queue|
  {
    if queue != [] {
      var step := Step(s, queue[0], enumValue);
      if !step.thrown {
        RunKeepsCountNonNegative(step.state, queue[1..], enumValue);
      }
    }
  }

  /** The `connected` flags of the gamepad-state callbacks in a log, in order. */
  function Availability(log: seq<Callback>): seq<bool> {
    if log == [] then []
    else (if log[0].GamepadState? then [log[0].connected] else []) + Availability(log[1..])
  }

  /**
   `flags` is a sequence of genuine edges: starting from `from`, each flag
   is the opposite of the one before, and the last one (or `from` itself,
   when there is none) is `to`.
   */
  predicate Edges(from: bool, flags: seq<bool>, to: bool)
    decreases |flags|
  {
    if flags == [] then from == to else flags[0] == !from && Edges(flags[0], flags[1..], to)
  }

  lemma {:induction false} AvailabilityAppend(a: seq<Callback>, b: seq<Callback>)
    ensures Availability(a + b) == Availability(a) + Availability(b)
  {
    if a == [] {
      assert a + b == b;
    } else {
      var head := if a[0].GamepadState? then [a[0].connected] else [];
      assert (a + b)[0] == a[0];
      assert (a + b)[1..] == a[1..] + b;
      AvailabilityAppend(a[1..], b);
      calc {
        Availability(a + b);
        head + Availability(a[1..] + b);
        head + (Availability(a[1..]) + Availability(b));
        { assert head + (Availability(a[1..]) + Availability(b)) == (head + Availability(a[1..])) + Availability(b); }
        Availability(a) + Availability(b);
      }
    }
  }

  lemma {:induction false} AvailabilityOfNoGamepad(log: seq<Callback>)
    requires forall c <- log :: !c.GamepadState?
    ensures Availability(log) == []
  {
    if log != [] {
      AvailabilityOfNoGamepad(log[1..]);
    }
  }

  lemma {:induction false} EdgesAppend(from: bool, a: seq<bool>, mid: bool, b: seq<bool>, to: bool)
    requires Edges(from, a, mid) && Edges(mid, b, to)
    ensures Edges(from, a + b, to)
    decreases |a|
  {
    if a != [] {
      assert (a + b)[0] == a[0] && (a + b)[1..] == a[1..] + b;
      EdgesAppend(a[0], a[1..], mid, b, to);
    } else {
      assert a + b == b;
    }
  }

  /** One dispatch notifies the application exactly of the edge it causes, if any. */
  lemma StepAvailabilityIsEdge(s: InputState, ev: RawEvent, enumValue: KeyTable.KeyCode -> int)
    requires s.gamepadCount >= 0
    ensures var r := Step(s, ev, enumValue);
      && r.state.gamepadCount >= 0
      && Availability(r.callbacks) ==
           (if (s.gamepadCount > 0) != (r.state.gamepadCount > 0) then [r.state.gamepadCount > 0] else [])
      && Edges(s.gamepadCount > 0, Availability(r.callbacks), r.state.gamepadCount > 0)
  {
    var r := Step(s, ev, enumValue);
    match ev
    case ControllerDeviceEvent(_, _) =>
      if r.callbacks != [] {
        assert r.callbacks[1..] == [];
        assert Availability(r.callbacks) == [r.callbacks[0].connected] + Availability([]);
      }
    case KeyboardEvent(_, _, _, _) =>
      AvailabilityOfNoGamepad(r.callbacks);
    case ControllerAxisEvent(_, _) =>
      AvailabilityOfNoGamepad(r.callbacks);
    case ControllerButtonEvent(_, _) =>
      AvailabilityOfNoGamepad(r.callbacks);
    case MouseMotionEvent(_, _, _, _) =>
      AvailabilityOfNoGamepad(r.callbacks);
    case MouseWheelEvent(_, _) =>
      AvailabilityOfNoGamepad(r.callbacks);
    case MouseButtonEvent(_, _, _, _) =>
      AvailabilityOfNoGamepad(r.callbacks);
    case QuitEvent =>
    case OtherEvent =>
  }

  /**
   Gamepad notifications alternate over any run: every one of them reverses
   the previous one (the first reverses "some gamepad connected" at the
   start), and the last one agrees with the final count. Which events
   notify is stated by `RunAvailabilityIsChanges`.
   */
  lemma {:induction false} RunAvailabilityIsEdges(s: InputState, queue: seq<RawEvent>, enumValue: KeyTable.KeyCode -> int)
    requires s.gamepadCount >= 0
    ensures var r := Run(s, queue, enumValue);
      Edges(s.gamepadCount > 0, Availability(r.callbacks), r.state.gamepadCount > 0)
    decreases |queue|
  {
    if queue != [] {
      var step := Step(s, queue[0], enumValue);
      StepAvailabilityIsEdge(s, queue[0], enumValue);
      if !step.thrown {
        var rest := Run(step.state, queue[1..], enumValue);
        RunAvailabilityIsEdges(step.state, queue[1..], enumValue);
        AvailabilityAppend(step.callbacks, rest.callbacks);
        EdgesAppend(s.gamepadCount > 0, Availability(step.callbacks), step.state.gamepadCount > 0,
                    Availability(rest.callbacks), rest.state.gamepadCount > 0);
      }
    }
  }

  /** The gamepad count after each event a run takes from `queue`, in order. */
  function CountTrace(s: InputState, queue: seq<RawEvent>, enumValue: KeyTable.KeyCode -> int): (r: seq<int>)
    ensures |r| == Run(s, queue, enumValue).consumed
    decreases |queue|
  {
    if queue == [] then []
    else
      var step := Step(s, queue[0], enumValue);
      [step.state.gamepadCount] + (if step.thrown then [] else CountTrace(step.state, queue[1..], enumValue))
  }

  /**
   For each count in `counts`, the new answer to "is some gamepad
   connected?" when it differs from the previous answer (`from` before the
   first count), and nothing when it does not.
   */
  function Changes(from: bool, counts: seq<int>): seq<bool>
    decreases |counts|
  {
    if counts == [] then []
    else
      var now := counts[0] > 0;
      (if now != from then [now] else []) + Changes(now, counts[1..])
  }

  /**
   Over any run, the gamepad-state callbacks are exactly one per event that
   takes the count from 0 to positive or from positive to 0, in order, each
   giving the new answer; an event that leaves the answer alone notifies
   nothing.
   */
  lemma {:induction false} RunAvailabilityIsChanges(s: InputState, queue: seq<RawEvent>, enumValue: KeyTable.KeyCode -> int)
    requires s.gamepadCount >= 0
    ensures Availability(Run(s, queue, enumValue).callbacks) == Changes(s.gamepadCount > 0, CountTrace(s, queue, enumValue))
    decreases |queue|
  {
    if queue != [] {
      var step := Step(s, queue[0], enumValue);
      var from := s.gamepadCount > 0;
      var now := step.state.gamepadCount > 0;
      var edge := if now != from then [now] else [];
      StepAvailabilityIsEdge(s, queue[0], enumValue);
      var trace := CountTrace(s, queue, enumValue);
      var tail := if step.thrown then [] else CountTrace(step.state, queue[1..], enumValue);
      assert trace == [step.state.gamepadCount] + tail;
      assert trace[0] == step.state.gamepadCount && trace[1..] == tail;
      assert Changes(from, trace) == edge + Changes(now, tail);
      if step.thrown {
        assert Run(s, queue, enumValue).callbacks == step.callbacks;
        assert Changes(now, tail) == [];
        assert Availability(step.callbacks) == edge + [];
      } else {
        var rest := Run(step.state, queue[1..], enumValue);
        assert Run(s, queue, enumValue).callbacks == step.callbacks + rest.callbacks;
        RunAvailabilityIsChanges(step.state, queue[1..], enumValue);
        AvailabilityAppend(step.callbacks, rest.callbacks);
      }
    }
  }

  /** Two controllers added and then both removed: exactly one "connected" and then one "disconnected". */
  lemma AddAddRemoveRemove(captured: bool, which: seq<Int32>, enumValue: KeyTable.KeyCode -> int)
    requires |which| == 4
    ensures var queue := [ControllerDeviceEvent(DeviceAdded, which[0]), ControllerDeviceEvent(DeviceAdded, which[1]),
                          ControllerDeviceEvent(DeviceRemoved, which[2]), ControllerDeviceEvent(DeviceRemoved, which[3])];
      var r := Run(InputState(0, captured), queue, enumValue);
      r.callbacks == [GamepadState(0, true), GamepadState(0, false)] && r.state.gamepadCount == 0 && r.completed
  {
    var queue := [ControllerDeviceEvent(DeviceAdded, which[0]), ControllerDeviceEvent(DeviceAdded, which[1]),
                  ControllerDeviceEvent(DeviceRemoved, which[2]), ControllerDeviceEvent(DeviceRemoved, which[3])];
    var s0 := InputState(0, captured);
    var s1 := s0.(gamepadCount := 1);
    var s2 := s0.(gamepadCount := 2);
    assert Step(s0, queue[0], enumValue) == StepResult(s1, [GamepadState(0, true)], false);
    assert Step(s1, queue[1], enumValue) == StepResult(s2, [], false);
    assert Step(s2, queue[2], enumValue) == StepResult(s1, [], false);
    assert Step(s1, queue[3], enumValue) == StepResult(s0, [GamepadState(0, false)], false);
    assert Run(s0, queue[4..], enumValue) == RunResult(s0, [], 0, true);
    assert Run(s1, queue[3..], enumValue) == RunResult(s0, [GamepadState(0, false)], 1, true) by {
      assert queue[3..][0] == queue[3] && queue[3..][1..] == queue[4..];
    }
    assert Run(s2, queue[2..], enumValue) == RunResult(s0, [GamepadState(0, false)], 2, true) by {
      assert queue[2..][0] == queue[2] && queue[2..][1..] == queue[3..];
    }
    assert Run(s1, queue[1..], enumValue) == RunResult(s0, [GamepadState(0, false)], 3, true) by {
      assert queue[1..][0] == queue[1] && queue[1..][1..] == queue[2..];
    }
  }

  /** A quit event is consumed with no effect and the pump carries on with the rest of the queue. */
  lemma QuitDoesNotStopThePump(s: InputState, rest: seq<RawEvent>, enumValue: KeyTable.KeyCode -> int)
    ensures Run(s, [QuitEvent] + rest, enumValue) == After([], 1, Run(s, rest, enumValue))
  {
    assert ([QuitEvent] + rest)[1..] == rest;
  }

  /**
   A non-repeat press of a key whose value is negative (and so wraps past
   every code point on its way to `char32_t`) leaves the pump at that event:
   the texts of the switch before the failed conversion are all the
   callbacks, the state is untouched and the rest of the queue is not taken.
   */
  lemma NegativeKeyValueStopsThePump(s: InputState, keyType: KeyEventType, scancode: int, rest: seq<RawEvent>,
                                     enumValue: KeyTable.KeyCode -> int)
    requires -0x8000_0000 <= KeyTable.Ordinal(KeyTable.GetKeyMinecraft(scancode), enumValue) < 0
    ensures var r := Run(s, [KeyboardEvent(keyType, Pressed, 0, scancode)] + rest, enumValue);
      && !r.completed && r.consumed == 1 && r.state == s
      && r.callbacks == TextCallbacks(CaseTexts[CaseEntry(KeyTable.GetKeyMinecraft(scancode))..])
  {
  }

  /**
   The SDL2 window's input half. `enumValue` stands for the values of the
   `KeyCode` enumerators declared in `game_window.h`; `log` is the sequence
   of callbacks the window has made to the application so far.
   */
  class SdlGameWindow {
    var gamepadCount: int
    var captured: bool
    var log: seq<Callback>
    const enumValue: KeyTable.KeyCode -> int

    ghost predicate Valid()
      reads this
    {
      gamepadCount >= 0
    }

    function State(): InputState
      reads this
    {
      InputState(gamepadCount, captured)
    }

    /** The constructor clears `captured` and `initSDL` sets the gamepad count to 0. */
    constructor (enumValue: KeyTable.KeyCode -> int)
      ensures Valid()
      ensures gamepadCount == 0 && !captured && log == [] && this.enumValue == enumValue
    {
      this.enumValue := enumValue;
      captured := false;
      gamepadCount := 0;
      log := [];
    }

    /** `setCursorDisabled`: the only writer of `captured`. */
    method SetCursorDisabled(disabled: bool)
      requires Valid()
      modifies this
      ensures Valid()
      ensures captured == disabled
      ensures gamepadCount == old(gamepadCount) && log == old(log)
    {
      captured := disabled;
    }

    method HandleControllerDeviceEvent(deviceType: DeviceEventType, which: Int32)
      requires Valid()
      modifies this
      ensures Valid()
      ensures var d := DeviceTransition(old(gamepadCount), deviceType);
        gamepadCount == d.count && log == old(log) + d.callbacks
      ensures captured == old(captured)
    {
      if deviceType == DeviceAdded {
        gamepadCount := gamepadCount + 1;
        if gamepadCount > 1 {
          return;
        }
      } else if deviceType == DeviceRemoved {
        if gamepadCount < 1 {
          return;
        }
        gamepadCount := gamepadCount - 1;
        if gamepadCount > 0 {
          return;
        }
      } else {
        return;
      }
      log := log + [GamepadState(0, deviceType == DeviceAdded)];
    }

    method HandleControllerAxisEvent(axis: Uint8, value: Int16)
      modifies this
      ensures log == old(log) + AxisCallbacks(axis, value)
      ensures gamepadCount == old(gamepadCount) && captured == old(captured)
    {
      var id := AxisOf(axis);
      if id.None? {
        return;
      }
      log := log + [GamepadAxis(0, id.value, Deflection(value))];
    }

    method HandleControllerButtonEvent(button: Uint8, state: Uint8)
      modifies this
      ensures log == old(log) + ButtonCallbacks(button, state)
      ensures gamepadCount == old(gamepadCount) && captured == old(captured)
    {
      var id := ButtonOf(button);
      if id.None? {
        return;
      }
      log := log + [GamepadButton(0, id.value, state == Pressed)];
    }

    method HandleMouseWheelEvent(x: Int32, y: Int32)
      modifies this
      ensures log == old(log) + WheelCallbacks(x, y)
      ensures gamepadCount == old(gamepadCount) && captured == old(captured)
    {
      if x < 0 {
        log := log + [MouseScroll(x, y, -1, 0)];
      } else if x > 0 {
        log := log + [MouseScroll(x, y, 1, 0)];
      } else if y < 0 {
        log := log + [MouseScroll(0, 0, 0, -1)];
      } else if y > 0 {
        log := log + [MouseScroll(0, 0, 0, 1)];
      }
    }

    method HandleMouseMotionEvent(x: Int32, y: Int32, xrel: Int32, yrel: Int32)
      modifies this
      ensures log == old(log) + MotionCallbacks(captured, x, y, xrel, yrel)
      ensures gamepadCount == old(gamepadCount) && captured == old(captured)
    {
      if captured {
        log := log + [MouseRelativePosition(xrel, yrel)];
      } else {
        log := log + [MousePosition(x, y)];
      }
    }

    method HandleMouseClickEvent(x: Int32, y: Int32, button: Uint8, state: Uint8)
      modifies this
      ensures log == old(log) + ClickCallbacks(x, y, button, state)
      ensures gamepadCount == old(gamepadCount) && captured == old(captured)
    {
      log := log + [MouseButton(x, y, button, if state == Pressed then MousePress else MouseRelease)];
    }

    /**
     The text switch of the keyboard handler, entered at label `entry`
     (4 is `default`, which emits nothing of its own): every case from
     there to the end emits its text.
     */
    method EmitSwitchTexts(entry: nat)
      requires entry <= |CaseTexts|
      modifies this
      ensures log == old(log) + TextCallbacks(CaseTexts[entry..])
      ensures gamepadCount == old(gamepadCount) && captured == old(captured)
    {
      if entry == 0 {
        log := log + [KeyboardText(CaseTexts[0])];
      }
      if entry <= 1 {
        log := log + [KeyboardText(CaseTexts[1])];
      }
      if entry <= 2 {
        log := log + [KeyboardText(CaseTexts[2])];
      }
      if entry <= 3 {
        log := log + [KeyboardText(CaseTexts[3])];
      }
    }

    /**
     The keyboard handler. The text switch is entered at the key's label
     and runs on to the end; `ok` is false when the conversion of the key's
     value throws, which abandons the handler.
     */
    method HandleKeyboardEvent(state: Uint8, repeat: Uint8, scancode: int) returns (ok: bool)
      modifies this
      ensures var e := KeyboardCallbacks(state, repeat, scancode, enumValue);
        log == old(log) + e.callbacks && ok == !e.thrown
      ensures gamepadCount == old(gamepadCount) && captured == old(captured)
    {
      var key := KeyTable.GetKeyMinecraft(scancode);
      var action: KeyAction;
      ok := true;
      if repeat != 0 {
        action := Repeat;
      } else if state == Pressed {
        action := Press;
        EmitSwitchTexts(CaseEntry(key));
        var text := KeyUtf8(key, enumValue);
        if text.None? {
          ok := false;
          return;
        }
        log := log + [KeyboardText(text.value)];
      } else if state == Released {
        action := Release;
      } else {
        return;
      }
      log := log + [Keyboard(key, action)];
    }

    /**
     The `switch (event.type)` in the loop of `pollEvents`, for one event;
     `ok` is false when a handler threw.
     */
    method DispatchEvent(ev: RawEvent) returns (ok: bool)
      requires Valid()
      modifies this
      ensures Valid()
      ensures var step := Step(old(State()), ev, enumValue);
        State() == step.state && log == old(log) + step.callbacks && ok == !step.thrown
    {
      ok := true;
      match ev {
        case ControllerDeviceEvent(deviceType, which) =>
          if deviceType == DeviceAdded || deviceType == DeviceRemoved {
            HandleControllerDeviceEvent(deviceType, which);
          }
        case ControllerAxisEvent(axis, value) =>
          HandleControllerAxisEvent(axis, value);
        case ControllerButtonEvent(button, state) =>
          HandleControllerButtonEvent(button, state);
        case MouseMotionEvent(x, y, xrel, yrel) =>
          HandleMouseMotionEvent(x, y, xrel, yrel);
        case MouseWheelEvent(x, y) =>
          HandleMouseWheelEvent(x, y);
        case MouseButtonEvent(x, y, button, state) =>
          HandleMouseClickEvent(x, y, button, state);
        case KeyboardEvent(keyType, state, repeat, scancode) =>
          ghost var once := KeyboardCallbacks(state, repeat, scancode, enumValue);
          if keyType == KeyDown {
            ok := HandleKeyboardEvent(state, repeat, scancode);
          }
          if ok {
            ok := HandleKeyboardEvent(state, repeat, scancode);
          }
          assert log == old(log) + (if keyType == KeyUp || once.thrown then once.callbacks else once.callbacks + once.callbacks);
        case QuitEvent =>
        case OtherEvent =>
      }
    }

    /** One turn of the `pollEvents` loop: dispatches `queue[i]` and extends the run over the prefix by one event. */
    method PumpOne(ghost s0: InputState, queue: seq<RawEvent>, ghost emitted: seq<Callback>, i: nat)
      returns (ok: bool, ghost delta: seq<Callback>)
      requires Valid() && i < |queue|
      requires Run(s0, queue[..i], enumValue) == RunResult(State(), emitted, i, true)
      modifies this
      ensures Valid()
      ensures log == old(log) + delta
      ensures Run(s0, queue[..i + 1], enumValue) == RunResult(State(), emitted + delta, i + 1, ok)
    {
      ghost var before := State();
      ghost var step := Step(before, queue[i], enumValue);
      ok := DispatchEvent(queue[i]);
      delta := step.callbacks;
      RunExtend(s0, queue, i, enumValue);
    }

    /**
     `pollEvents`: drains `queue` in order, dispatching each event; stops
     early only when a handler throws. `consumed` is the number of events
     taken from the queue.
     */
    method PollEvents(queue: seq<RawEvent>) returns (consumed: nat, completed: bool)
      requires Valid()
      modifies this
      ensures Valid()
      ensures var r := Run(old(State()), queue, enumValue);
        State() == r.state && log == old(log) + r.callbacks && consumed == r.consumed && completed == r.completed
    {
      ghost var emitted: seq<Callback> := [];
      consumed, completed := 0, true;
      while consumed < |queue| && completed
        invariant Valid()
        invariant consumed <= |queue|
        invariant log == old(log) + emitted
        invariant Run(old(State()), queue[..consumed], enumValue) == RunResult(State(), emitted, consumed, completed)
        decreases |queue| - consumed, completed
      {
        ghost var delta;
        completed, delta := PumpOne(old(State()), queue, emitted, consumed);
        consumed := consumed + 1;
        emitted := emitted + delta;
      }
      RunPrefix(old(State()), queue, consumed, enumValue);
    }
  }
}

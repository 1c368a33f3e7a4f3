# SDL2 game window: input-event normalisation

A Dafny model of how `SDL2GameWindow` turns raw SDL events into the
application's callbacks (`onGamepadState`, `onGamepadAxis`,
`onGamepadButton`, `onMousePosition`, `onMouseRelativePosition`,
`onMouseScroll`, `onMouseButton`, `onKeyboardText`, `onKeyboard`).

- `KeyTable` (key_table.dfy) is `getKeyMinecraft`, the map from an SDL
  scan code to the game's `KeyCode`. Scan codes use the USB HID keyboard
  page numbers that SDL uses.
- `Utf8` (utf8.dfy) is the conversion the keyboard handler applies to a
  key's value. It is the encoder of section 3 of RFC 3629, checked against
  the `UTF8-char` syntax of section 4 and against its decoder.
- `Events` (events.dfy) holds the raw events, the callbacks, and one pure
  function per handler giving the callbacks it emits for one event.
- `Window` (window.dfy) holds the rest:
  - `Step` is the `switch` of `pollEvents` for one event.
  - `Run` is the loop over a queue.
  - The lemmas about whole runs.
  - The class `SdlGameWindow`. It has the window's two state fields
    (`gamepad.count` and `captured`) and the log of callbacks made so
    far. Its methods are proved to follow `Step` and `Run`.

The code is modelled as written:
- An `SDL_KEYDOWN` event falls through into `SDL_KEYUP`, so the keyboard
  handler runs twice for it.
- The text `switch` has no `break`, so BACKSPACE, DELETE and LEFT emit
  several texts.
- `SDL_QUIT` only leaves the `switch`, not the loop.

The conversion of a key's value to UTF-8 can fail: a non-letter key's
value may not be a Unicode scalar value, and then `wstring_convert` throws.
A negative value is always such a case: the cast to `char32_t` wraps it
above 0x10FFFF.
When the conversion fails, the handler is abandoned after the texts it has
already emitted. The exception also leaves `pollEvents`, so the rest of the
queue is not taken (`RunResult.completed` is false).

The numeric values of the `KeyCode` enumerators are declared in
`game_window.h`, which is not part of this model. They are a parameter,
`enumValue`. Only the letters' values are fixed, by the `keyCode + 61`
shift of the table.

Two details of the code are worth stating against what it seems to say:
- The comment at src/window_sdl2.cpp:170 calls the axis deflection
  "normalised -1 to 1 range". The code divides by 32768, so the range is
  [-1, 1): the largest value, 32767, gives slightly less than 1.0.
- The `break` after `SDL_Quit()` at src/window_sdl2.cpp:104-106 leaves only
  the `switch`. The loop goes on taking events, so a quit event does not
  stop the rest of the queue from being dispatched.

The C++ compares key codes by value: in the text `switch` and in the key
it hands to the application. The model compares them as constructors. The
two agree exactly when the enumerators have pairwise distinct values,
which is `KeyTable.DistinctValues`; the model assumes this of
`game_window.h`.

## Model

| member | source | states |
|---|---|---|
| KeyTable.GetKeyMinecraft | src/window_sdl2.cpp:313-431 | A scan code gives a letter exactly when it lies in A..Z. The letter's value is the scan code plus 61. No scan code gives ENTER. HOME comes from exactly two scan codes, HOME and AC_HOME. |
| KeyTable.MappedScancodeIsCanonical | src/window_sdl2.cpp:316-430 | Every scan code that does not give UNKNOWN is its key's listed scan code, or AC_HOME. Any other scan code gives UNKNOWN. |
| KeyTable.CanonicalScancodeIsMapped | src/window_sdl2.cpp:316-428 | Every key except UNKNOWN and ENTER is produced by some scan code. |
| KeyTable.OnlyHomeCollides | src/window_sdl2.cpp:341-342 | Two different scan codes give the same key other than UNKNOWN only if they are HOME and AC_HOME. So the table is injective apart from HOME. |
| KeyTable.LettersAreConsecutive | src/window_sdl2.cpp:337-338 | The 26 letter scan codes map one-to-one onto the consecutive values 'A'..'Z'. |
| KeyTable.ValuesDecideKeys | src/window_sdl2.cpp:266-288 | With distinct enumerator values, two key codes are equal iff their values are, and only letters have values in 'A'..'Z'. So comparing constructors is comparing the values the C++ compares. |
| Utf8.Encode | src/window_sdl2.cpp:265-276 | Gives bytes exactly for the Unicode scalar values. The bytes form one well-formed UTF-8 character. ASCII is encoded as itself. |
| Utf8.DecodeEncode | src/window_sdl2.cpp:276 | Decoding the encoding of a scalar value gives that value back. |
| Utf8.EncodeDecode | src/window_sdl2.cpp:276 | Every well-formed character decodes to a scalar value, and that value encodes to the same bytes. So encoding is onto the well-formed characters. |
| Events.DeviceTransition | src/window_sdl2.cpp:113-143 | ADDED always increments the count. REMOVED with a count below 1 changes nothing. Any other type changes nothing. The count stays non-negative. At most one callback, and only ever a gamepad-state callback for gamepad 0, so an event that is not an edge emits nothing. (0, true) is emitted exactly when ADDED takes the count from 0 to 1. (0, false) is emitted exactly when REMOVED takes it from 1 to 0. |
| Events.AxisCallbacks | src/window_sdl2.cpp:145-172 | One callback exactly for the six listed axes, none for any other id. The callback is for gamepad 0, names the listed axis, and has deflection times 32768 equal to the raw value. |
| Events.Deflection | src/window_sdl2.cpp:170 | The deflection lies in [-1, 1). It times 32768 is the raw value, and it has the raw value's sign. |
| Events.ButtonCallbacks | src/window_sdl2.cpp:174-228 | One callback exactly for the fifteen listed buttons, none for any other id. The callback is for gamepad 0 and names the listed button. `pressed` holds iff the state is SDL_PRESSED. |
| Events.AxisAndButtonTablesInvert | src/window_sdl2.cpp:147-168 | The axis and button switches are one-to-one: mapping a listed id and back gives the id. |
| Events.WheelCallbacks | src/window_sdl2.cpp:230-239 | At most one callback, and none iff both amounts are 0. x ≠ 0 gives (x, y, sign x, 0), so horizontal wins. Otherwise y ≠ 0 gives (0, 0, 0, sign y). The direction is a unit step along one axis. |
| Events.MotionCallbacks | src/window_sdl2.cpp:241-248 | Exactly one callback. It is relative (xrel, yrel) iff the cursor is captured, and otherwise absolute (x, y). |
| Events.ClickCallbacks | src/window_sdl2.cpp:250-252 | Exactly one callback. It passes the position and button through, with PRESS iff the state is SDL_PRESSED. |
| Events.KeyboardCallbacks | src/window_sdl2.cpp:254-289 | A repeat emits only (key, REPEAT). A RELEASED emits only (key, RELEASE). Any other state emits nothing. The handler throws iff it is a non-repeat press whose key value cannot be converted; it has then emitted exactly the fall-through texts from its key's case label on, and no key callback. A completed press emits texts only, then (key, PRESS) last. Only text and key callbacks are emitted. |
| Events.Char32 | src/window_sdl2.cpp:276 | The conversion of `(int)key` to `char32_t`: the result is an unsigned 32-bit value, a non-negative value is kept, and a negative `int` becomes 2^32 plus it. |
| Events.KeyUtf8 | src/window_sdl2.cpp:276 | `cvt.to_bytes((int)key)`: a key whose value is negative cannot be converted, so it throws. A non-negative value converts iff it is a Unicode scalar value, and the bytes then decode back to that value. |
| Events.PressTexts | src/window_sdl2.cpp:266-277 | The texts of a press, fall-through included: BACKSPACE gives 08 7F 0A 1B and its own text. DELETE gives 7F 0A 1B and its own text. LEFT gives 1B and its own text. Every other key gives only its own text. |
| Events.PressTextsFallThrough | src/window_sdl2.cpp:266-277 | A press emits the texts of every case label from its key's label to the end of the switch, then its own text. |
| Events.LetterText | src/window_sdl2.cpp:276 | A letter key's own text is its capital letter as one ASCII byte. |
| Events.SynthesizedTextIsFirstText | src/window_sdl2.cpp:266-277 | The single-choice text (08, 7F, 0A, 1B or the key's own text) is the first callback of a press. When the single choice has no text, the handler throws before emitting anything. |
| Events.TextsAppend | src/window_sdl2.cpp:268-276 | The texts of two logs put together are the texts of each, in order. |
| Window.Step | src/window_sdl2.cpp:77-109 | One dispatch never changes `captured`. Only device events change the count. Only keyboard events throw. QUIT and unlisted types emit nothing. Motion emits exactly one callback and wheel at most one. A key event is the keyboard handler run once for KEYUP and twice for KEYDOWN, unless the first run throws. |
| Window.Run | src/window_sdl2.cpp:73-111 | The loop takes at most the whole queue. When it is not left by an exception, it takes all of it. |
| Window.RunAppend | src/window_sdl2.cpp:76-110 | Draining two queues one after the other is draining their concatenation. Events are handled in arrival order and the log is the concatenation of each event's callbacks. |
| Window.RunExtend | src/window_sdl2.cpp:76-110 | One more event extends a completed run by exactly that event's dispatch. |
| Window.RunPrefix | src/window_sdl2.cpp:76-110 | A run over a prefix that ended by an exception, or that covers the whole queue, is the run over the whole queue. |
| Window.RunKeepsCapture | src/window_sdl2.cpp:73-111 | No run of the pump changes `captured`. |
| Window.RunKeepsCountNonNegative | src/window_sdl2.cpp:113-143 | From a non-negative count, every run leaves the count non-negative. |
| Window.StepAvailabilityIsEdge | src/window_sdl2.cpp:113-143 | One dispatch emits exactly one gamepad-state callback when it changes whether some gamepad is connected, giving the new answer, and none when it does not. |
| Window.RunAvailabilityIsEdges | src/window_sdl2.cpp:113-143 | Over any run, the gamepad-state callbacks alternate. The first one reverses the state at the start and the last one agrees with the final count. |
| Window.RunAvailabilityIsChanges | src/window_sdl2.cpp:113-143 | Over any run, the gamepad-state callbacks are, in order, one per event that takes the count from 0 to positive or from positive to 0, each giving the new answer. Events that leave the answer alone notify nothing. |
| Window.AddAddRemoveRemove | src/window_sdl2.cpp:113-143 | Add, add, remove, remove from no gamepad emits exactly [(0, true), (0, false)] and ends with a count of 0. |
| Window.QuitDoesNotStopThePump | src/window_sdl2.cpp:104-106 | A quit event is taken with no callback and no state change, and the loop goes on with the rest of the queue. |
| Window.NegativeKeyValueStopsThePump | src/window_sdl2.cpp:276 | A non-repeat press of a key with a negative value (for example `UNKNOWN`, if its enumerator is negative) leaves `pollEvents` at that event. It emits only the switch texts before the conversion, leaves the state alone, and does not take the rest of the queue. |
| Window.SdlGameWindow.constructor | src/window_sdl2.cpp:18-50 | A new window is not captured, knows of no gamepad, and has made no callback. |
| Window.SdlGameWindow.SetCursorDisabled | src/window_sdl2.cpp:291-294 | Sets `captured` to the argument and changes nothing else. |
| Window.SdlGameWindow.HandleControllerDeviceEvent | src/window_sdl2.cpp:113-143 | The new count and the appended callbacks are those of `DeviceTransition`. `captured` is unchanged. |
| Window.SdlGameWindow.HandleControllerAxisEvent | src/window_sdl2.cpp:145-172 | Appends exactly `AxisCallbacks` and leaves the state alone. |
| Window.SdlGameWindow.HandleControllerButtonEvent | src/window_sdl2.cpp:174-228 | Appends exactly `ButtonCallbacks` and leaves the state alone. |
| Window.SdlGameWindow.HandleMouseWheelEvent | src/window_sdl2.cpp:230-239 | Appends exactly `WheelCallbacks` and leaves the state alone. |
| Window.SdlGameWindow.HandleMouseMotionEvent | src/window_sdl2.cpp:241-248 | Appends exactly `MotionCallbacks` for the current `captured` and leaves the state alone. |
| Window.SdlGameWindow.HandleMouseClickEvent | src/window_sdl2.cpp:250-252 | Appends exactly `ClickCallbacks` and leaves the state alone. |
| Window.SdlGameWindow.EmitSwitchTexts | src/window_sdl2.cpp:266-277 | Entered at a case label, the switch appends the texts of that label and of every later label. |
| Window.SdlGameWindow.HandleKeyboardEvent | src/window_sdl2.cpp:254-289 | Appends exactly the callbacks of `KeyboardCallbacks` and reports whether the handler threw. The state is unchanged. |
| Window.SdlGameWindow.DispatchEvent | src/window_sdl2.cpp:77-109 | The new state, the appended callbacks and the exception are those of `Step`. |
| Window.SdlGameWindow.PumpOne | src/window_sdl2.cpp:76-110 | One turn of the loop extends the run over the consumed prefix by the next event. |
| Window.SdlGameWindow.PollEvents | src/window_sdl2.cpp:73-111 | The final state, the appended log, the number of events taken and whether the loop was left by an exception are those of `Run` over the queue. |

## Left out

- Window and GL context lifecycle (creating the window and context, `makeCurrent`, `show`, `close`, `setFullscreen`, `swapBuffers`, `setSwapInterval`, `getWindowSize`): these are calls into SDL with no logic of their own.
- `abortMsg` and the fatal path of `initSDL`: process exit and output to stderr.
- `SDL_GameControllerOpen`, `SDL_NumJoysticks`, `SDL_CaptureMouse`, `SDL_Quit` and the `printf` logging: these are effects outside the window's state. Only the updates of the count and of `captured` around them are modelled. In particular, `SDL_Quit` is not modelled as emptying the event queue.
- `setIcon` and `setClipboardText`: they do nothing.
- src/window_manager_sdl2.cpp, src/window_manager_glfw.cpp, src/window_manager_glfw.h and src/window_manager_eglut.h: window-manager factories and declarations, with no input logic.
- `game_window.h` is not part of this model. The values of the `KeyCode` enumerators other than the letters are the parameter `enumValue`, and the `on*` callbacks are entries appended to a log.
- The queue is the sequence of events present when `pollEvents` is called. Events arriving while it runs are not modelled.
- Events.Deflection: the C++ divides in `double`. The model divides exactly, as a real, so rounding is not modelled.
- Window.SdlGameWindow.HandleControllerDeviceEvent: the count is an unbounded integer, so a C++ `int` overflow after 2^31 additions is not modelled.
- Window.RunKeepsCapture: the `on*` calls are virtual calls into application code that run inside the loop. The model assumes that this code neither calls back into the window (for example `setCursorDisabled`, which would switch later motion events to the other branch at src/window_sdl2.cpp:242) nor throws. Only an exception from the UTF-8 conversion is modelled.
- Utf8.Encode: whether a surrogate value (U+D800..U+DFFF) makes `wstring_convert` throw depends on the C++ library's `codecvt_utf8`. The model follows RFC 3629, which gives surrogates no encoding, so it treats them as a failed conversion; an implementation that encodes them anyway would emit three bytes instead of throwing.
- The DOWN/UP type of controller-button and mouse-button events is not recorded: the handlers read only the `state` field.

/**
 The key table of the SDL2 window: `SDL2GameWindow::getKeyMinecraft`, a total,
 side-effect-free map from an SDL scan code to the application's `KeyCode`.

 SDL scan codes are the usage ids of the Keyboard/Keypad page (0x07) of the
 USB HID Usage Tables 1.12, section 10; `AC Home` and `AC Back` are SDL's own
 numbers for two keys of the Consumer page.
 */
module KeyTable {
  import opened Wrappers

  type LetterIndex = i: int | 0 <= i < 26
  type Digit = d: int | 0 <= d < 10

  /**
   The application's key codes that the table can produce, plus `Enter`,
   which the keyboard handler tests for but the table never yields.
   The enumerators are distinct values of the C++ `enum class KeyCode`;
   the ten digits and the ten keypad digits are indexed, and so are the
   26 letters, which the table reaches by arithmetic.
   */
  datatype KeyCode =
    | Unknown
    | Num(digit: Digit)
    | Letter(index: LetterIndex)
    | Numpad(digit: Digit)
    | Backslash | Home | Back | Backspace | CapsLock | Comma | Delete | Down | End
    | Equal | Escape | Insert | NumpadSubtract | NumpadAdd | LeftAlt | LeftCtrl
    | Left | LeftBracket | LeftShift | Menu | Minus | PageDown | PageUp | Period
    | RightAlt | RightCtrl | Right | RightBracket | RightShift | Semicolon | Slash
    | Space | Tab
    | Enter

  // Scan codes (usage ids of HID page 0x07, and SDL's AC_HOME / AC_BACK)
  const ScancodeA := 4
  const ScancodeZ := 29
  const Scancode1 := 30
  const Scancode9 := 38
  const Scancode0 := 39
  const ScancodeReturn := 40
  const ScancodeEscape := 41
  const ScancodeBackspace := 42
  const ScancodeTab := 43
  const ScancodeSpace := 44
  const ScancodeMinus := 45
  const ScancodeEquals := 46
  const ScancodeLeftBracket := 47
  const ScancodeRightBracket := 48
  const ScancodeBackslash := 49
  const ScancodeSemicolon := 51
  const ScancodeComma := 54
  const ScancodePeriod := 55
  const ScancodeSlash := 56
  const ScancodeCapsLock := 57
  const ScancodeInsert := 73
  const ScancodeHome := 74
  const ScancodePageUp := 75
  const ScancodeDelete := 76
  const ScancodeEnd := 77
  const ScancodePageDown := 78
  const ScancodeRight := 79
  const ScancodeLeft := 80
  const ScancodeDown := 81
  const ScancodeUp := 82
  const ScancodeKpMinus := 86
  const ScancodeKpPlus := 87
  const ScancodeKpEnter := 88
  const ScancodeKp1 := 89
  const ScancodeKp9 := 97
  const ScancodeKp0 := 98
  const ScancodeMenu := 118
  const ScancodeLCtrl := 224
  const ScancodeLShift := 225
  const ScancodeLAlt := 226
  const ScancodeRCtrl := 228
  const ScancodeRShift := 229
  const ScancodeRAlt := 230
  const ScancodeAcHome := 269
  const ScancodeAcBack := 270

  /** The letters are reached by `(KeyCode)(keyCode + 61)`. */
  const LetterShift := 61

  /**
   The integer value of a key code. For a letter it is fixed by the shift
   above (scan code A, 4, becomes 65, the code of 'A'); the values of the
   other enumerators are declared in `game_window.h`, which is not part of
   this model, and are supplied as `enumValue`.
   */
  function Ordinal(key: KeyCode, enumValue: KeyCode -> int): int {
    if key.Letter? then 'A' as int + key.index else enumValue(key)
  }

  /**
   The enumerators of `KeyCode` have pairwise distinct values. The C++
   compares key codes by value (the text switch, and the key handed to the
   application); the model compares them as constructors, which agrees
   exactly when this holds.
   */
  ghost predicate DistinctValues(enumValue: KeyCode -> int) {
    forall a: KeyCode, b: KeyCode :: a != b ==> Ordinal(a, enumValue) != Ordinal(b, enumValue)
  }

  /**
   With distinct values, comparing key codes by value is comparing them as
   constructors, and no key other than a letter has a value in 'A'..'Z'.
   */
  lemma ValuesDecideKeys(a: KeyCode, b: KeyCode, enumValue: KeyCode -> int)
    requires DistinctValues(enumValue)
    ensures a == b <==> Ordinal(a, enumValue) == Ordinal(b, enumValue)
    ensures 'A' as int <= Ordinal(a, enumValue) <= 'Z' as int ==> a.Letter?
  {
    var n := Ordinal(a, enumValue);
    if 'A' as int <= n <= 'Z' as int {
      var letter := Letter(n - 'A' as int);
      assert Ordinal(letter, enumValue) == n;
    }
  }

  /**
   `getKeyMinecraft`: total; letters by one arithmetic shift; every scan
   code the switch does not list yields `Unknown`; no scan code yields
   `Enter` (Return and keypad Enter are not listed); `Home` has two scan
   codes and every other listed key exactly one.
   */
  function GetKeyMinecraft(scancode: int): (key: KeyCode)
    ensures ScancodeA <= scancode <= ScancodeZ <==> key.Letter?
    ensures key.Letter? ==> 'A' as int + key.index == scancode + LetterShift
    ensures key != Enter
    ensures key == Home <==> scancode == ScancodeHome || scancode == ScancodeAcHome
  {
    if ScancodeA <= scancode <= ScancodeZ then Letter(scancode + LetterShift - 'A' as int)
    else if Scancode1 <= scancode <= Scancode9 then Num(scancode - Scancode1 + 1)
    else if scancode == Scancode0 then Num(0)
    else if scancode == ScancodeBackslash then Backslash
    else if scancode == ScancodeAcHome then Home
    else if scancode == ScancodeAcBack then Back
    else if scancode == ScancodeBackspace then Backspace
    else if scancode == ScancodeCapsLock then CapsLock
    else if scancode == ScancodeComma then Comma
    else if scancode == ScancodeDelete then Delete
    else if scancode == ScancodeDown then Down
    else if scancode == ScancodeEnd then End
    else if scancode == ScancodeEquals then Equal
    else if scancode == ScancodeEscape then Escape
    else if scancode == ScancodeHome then Home
    else if scancode == ScancodeInsert then Insert
    else if scancode == ScancodeKp0 then Numpad(0)
    else if ScancodeKp1 <= scancode <= ScancodeKp9 then Numpad(scancode - ScancodeKp1 + 1)
    else if scancode == ScancodeKpMinus then NumpadSubtract
    else if scancode == ScancodeKpPlus then NumpadAdd
    else if scancode == ScancodeLAlt then LeftAlt
    else if scancode == ScancodeLCtrl then LeftCtrl
    else if scancode == ScancodeLeft then Left
    else if scancode == ScancodeLeftBracket then LeftBracket
    else if scancode == ScancodeLShift then LeftShift
    else if scancode == ScancodeMenu then Menu
    else if scancode == ScancodeMinus then Minus
    else if scancode == ScancodePageDown then PageDown
    else if scancode == ScancodePageUp then PageUp
    else if scancode == ScancodePeriod then Period
    else if scancode == ScancodeRAlt then RightAlt
    else if scancode == ScancodeRCtrl then RightCtrl
    else if scancode == ScancodeRight then Right
    else if scancode == ScancodeRightBracket then RightBracket
    else if scancode == ScancodeRShift then RightShift
    else if scancode == ScancodeSemicolon then Semicolon
    else if scancode == ScancodeSlash then Slash
    else if scancode == ScancodeSpace then Space
    else if scancode == ScancodeTab then Tab
    else Unknown
  }

  /**
   The scan code the table assigns to a key: the inverse of the table on
   every key it produces (for `Home`, the navigation-cluster key rather than
   `AC Home`); `None` for `Unknown` and `Enter`.
   */
  function CanonicalScancode(key: KeyCode): Option<int> {
    match key
    case Unknown => None
    case Enter => None
    case Letter(i) => Some(ScancodeA + i)
    case Num(d) => Some(if d == 0 then Scancode0 else Scancode1 + d - 1)
    case Numpad(d) => Some(if d == 0 then ScancodeKp0 else ScancodeKp1 + d - 1)
    case Backslash => Some(ScancodeBackslash)
    case Home => Some(ScancodeHome)
    case Back => Some(ScancodeAcBack)
    case Backspace => Some(ScancodeBackspace)
    case CapsLock => Some(ScancodeCapsLock)
    case Comma => Some(ScancodeComma)
    case Delete => Some(ScancodeDelete)
    case Down => Some(ScancodeDown)
    case End => Some(ScancodeEnd)
    case Equal => Some(ScancodeEquals)
    case Escape => Some(ScancodeEscape)
    case Insert => Some(ScancodeInsert)
    case NumpadSubtract => Some(ScancodeKpMinus)
    case NumpadAdd => Some(ScancodeKpPlus)
    case LeftAlt => Some(ScancodeLAlt)
    case LeftCtrl => Some(ScancodeLCtrl)
    case Left => Some(ScancodeLeft)
    case LeftBracket => Some(ScancodeLeftBracket)
    case LeftShift => Some(ScancodeLShift)
    case Menu => Some(ScancodeMenu)
    case Minus => Some(ScancodeMinus)
    case PageDown => Some(ScancodePageDown)
    case PageUp => Some(ScancodePageUp)
    case Period => Some(ScancodePeriod)
    case RightAlt => Some(ScancodeRAlt)
    case RightCtrl => Some(ScancodeRCtrl)
    case Right => Some(ScancodeRight)
    case RightBracket => Some(ScancodeRightBracket)
    case RightShift => Some(ScancodeRShift)
    case Semicolon => Some(ScancodeSemicolon)
    case Slash => Some(ScancodeSlash)
    case Space => Some(ScancodeSpace)
    case Tab => Some(ScancodeTab)
  }

  /** Every key except `Unknown` and `Enter` is produced, by its canonical scan code. */
  lemma CanonicalScancodeIsMapped(key: KeyCode)
    requires key != Unknown && key != Enter
    ensures CanonicalScancode(key).Some?
    ensures GetKeyMinecraft(CanonicalScancode(key).value) == key
  {
  }

  /**
   Every scan code the table maps to a key is that key's canonical scan
   code, or `AC Home`: the table lists nothing else, so any other scan code
   yields `Unknown`.
   */
  lemma MappedScancodeIsCanonical(scancode: int)
    ensures GetKeyMinecraft(scancode) != Unknown ==>
      CanonicalScancode(GetKeyMinecraft(scancode)) == Some(scancode) || scancode == ScancodeAcHome
  {
  }

  /**
   The table is injective on the scan codes it lists, with one exception:
   `Home` and `AC Home` both yield `Home`.
   */
  lemma OnlyHomeCollides(a: int, b: int)
    requires a != b && GetKeyMinecraft(a) == GetKeyMinecraft(b) != Unknown
    ensures {a, b} == {ScancodeHome, ScancodeAcHome}
  {
    MappedScancodeIsCanonical(a);
    MappedScancodeIsCanonical(b);
  }

  /** The 26 letter scan codes map one-to-one onto the 26 consecutive values 65..90. */
  lemma LettersAreConsecutive(a: int, b: int, enumValue: KeyCode -> int)
    requires ScancodeA <= a <= ScancodeZ && ScancodeA <= b <= ScancodeZ
    ensures Ordinal(GetKeyMinecraft(a), enumValue) == a + LetterShift
    ensures 'A' as int <= Ordinal(GetKeyMinecraft(a), enumValue) <= 'Z' as int
    ensures a != b ==> GetKeyMinecraft(a) != GetKeyMinecraft(b)
  {
  }
}

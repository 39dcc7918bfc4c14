/** The background-colour selector of the App component (src/App.js): four
    pieces of component state and the handlers that change them. The handlers
    are first given as transitions on a value (`Settings`), which the lemmas
    talk about, and then as the methods of a class with the four fields,
    each proved to perform its transition. */
module BackgroundColor {
  import opened JsText

  /** The sentinel the selector uses for "no fill". */
  const Transparent: string := "transparent"
  /** The colour the Transparent checkbox falls back to when unchecked, and
      the initial text of the hex field. */
  const White: string := "#ffffff"

  /** `colorPickerType`: which picker and which text fields the popover shows. */
  datatype PickerType = Hex | Rgb

  /** The four state variables of the selector. */
  datatype Settings = Settings(
    backgroundColor: string,
    hexInput: string,
    isColorPickerOpen: bool,
    colorPickerType: PickerType)

  /** The values the component starts with. */
  const Initial: Settings := Settings(Transparent, White, false, Hex)

  /** While the background is transparent the popover is closed. */
  predicate PickerClosedWhenTransparent(s: Settings)
  {
    s.backgroundColor == Transparent ==> !s.isColorPickerOpen
  }

  // ---------------------------------------------------------------------
  // The two validators and the RGB rewrite
  // ---------------------------------------------------------------------

  /** `/^#[0-9A-Fa-f]{6}$/.test(s)`: a '#' and exactly six hex digits, nothing else. */
  predicate IsHexColor(s: string): (b: bool)
    ensures b <==> |s| == 7 && s[0] == '#' &&
                   forall i :: 1 <= i < 7 ==> '0' <= s[i] <= '9' || 'A' <= s[i] <= 'F' || 'a' <= s[i] <= 'f'
  {
    |s| == 7 && s[0] == '#' && AllDigitsIn(s[1..], 16)
  }

  /** `color.match(/\d+/g).map(Number)`: the numbers written in the colour
      string, the empty sequence standing for the failed (null) match. */
  function Channels(color: string): (a: seq<Slot>)
    ensures |a| == |DigitRuns(color)| && NoHoles(a)
    ensures forall k :: 0 <= k < |a| ==> a[k] == Num(Value(DigitRuns(color)[k], 10))
  {
    MapNumber(DigitRuns(color))
  }

  /** The values of `Channels(color)`. */
  function ChannelValues(color: string): seq<nat>
  {
    Present(Channels(color))
  }

  /** `rgb(${a.join(", ")})` */
  function RgbString(a: seq<Slot>): (r: string)
    ensures |r| >= 5 && r[..4] == "rgb(" && r[|r| - 1] == ')'
    ensures |r| == 5 + SumLengths(RenderAll(a)) + (if |a| == 0 then 0 else 2 * (|a| - 1))
  {
    var body := Join(RenderAll(a), ", ");
    JoinLength(RenderAll(a), ", ");
    var r := "rgb(" + body + ")";
    assert r[..4] == "rgb(";
    r
  }

  /** What one edit of an R, G or B field does to the colour. */
  datatype ChannelEdit =
    | Rejected              // the text is NaN or outside 0..255: nothing happens
    | NoChannels            // the colour has no digits: `match` is null and `.map` throws
    | Recolored(color: string)

  /** The body of `handleRgbInputChange(e, index)` for field text `text`. */
  function EditChannel(color: string, text: string, index: nat): (e: ChannelEdit)
    ensures e.Rejected? <==> ParseInt(text).None? || ParseInt(text).value < 0 || ParseInt(text).value > 255
    ensures e.NoChannels? <==> !e.Rejected? && NoDigits(color)
  {
    var value := ParseInt(text);
    if value.None? || value.value < 0 || value.value > 255 then Rejected
    else
      var rgbArray := Channels(color);
      NoDigitRunsIffNoDigits(color);
      if rgbArray == [] then NoChannels
      else Recolored(RgbString(Assign(rgbArray, index, value.value)))
  }

  /** What `rgb(${a.join(", ")})` writes, `match(/\d+/g).map(Number)` reads
      back: the numbers of `a`, holes dropped. */
  lemma RgbStringReadBack(a: seq<Slot>)
    ensures ChannelValues(RgbString(a)) == Present(a)
  {
    var body := Join(RenderAll(a), ", ") + ")";
    assert RgbString(a) == "rgb(" + body;
    DigitRunsSkipNonDigits("rgb(", body);
    DigitRunsOfJoin(a, ", ", ")");
    MapNumberOfRendered(a);
    PresentOfNumsOnly(a);
  }

  /** The written colour is read back by the next `match(/\d+/g)` (the one the
      R, G and B fields display): channel `index` now holds the typed value and
      every other channel keeps its number. An index past the last channel
      appends the value (the holes the assignment leaves are written as empty
      strings, which hold no digit). */
  lemma EditChannelReadBack(color: string, text: string, index: nat)
    requires EditChannel(color, text, index).Recolored?
    ensures |ChannelValues(color)| == |DigitRuns(color)|
    ensures var before := ChannelValues(color);
            var v: nat := ParseInt(text).value;
            ChannelValues(EditChannel(color, text, index).color)
              == if index < |before| then before[index := v] else before + [v]
  {
    var v: nat := ParseInt(text).value;
    var a := Channels(color);
    assert EditChannel(color, text, index).color == RgbString(Assign(a, index, v));
    RgbStringReadBack(Assign(a, index, v));
    PresentAssign(a, index, v);
  }

  /** Every colour the RGB fields write is an `rgb(...)` string, never the
      transparent sentinel. */
  lemma EditChannelWritesRgb(color: string, text: string, index: nat)
    requires EditChannel(color, text, index).Recolored?
    ensures var c := EditChannel(color, text, index).color;
            |c| >= 5 && c[..4] == "rgb(" && c[|c| - 1] == ')' && c != Transparent
  {
  }

  // ---------------------------------------------------------------------
  // Transitions, one per handler
  // ---------------------------------------------------------------------

  /** `handleColorChange(color)`: a picker gesture sets both the colour and the hex text. */
  function ColorChange(s: Settings, color: string): (r: Settings)
    ensures r.backgroundColor == color && r.hexInput == color
    ensures r.isColorPickerOpen == s.isColorPickerOpen && r.colorPickerType == s.colorPickerType
  {
    s.(backgroundColor := color, hexInput := color)
  }

  /** `handleHexInputChange`: the text is always kept; it becomes the colour
      only when it passes the hex pattern. */
  function HexInputChange(s: Settings, text: string): (r: Settings)
    ensures r.hexInput == text
    ensures IsHexColor(text) ==> r.backgroundColor == text
    ensures r.backgroundColor != s.backgroundColor ==> IsHexColor(text)
    ensures r.isColorPickerOpen == s.isColorPickerOpen && r.colorPickerType == s.colorPickerType
  {
    var s' := s.(hexInput := text);
    if IsHexColor(text) then s'.(backgroundColor := text) else s'
  }

  /** `handleRgbInputChange(e, index)`: only the colour can change, and only
      through an accepted edit; a rejected edit, and one that throws, leave
      every field as it was. */
  function RgbInputChange(s: Settings, text: string, index: nat): (r: Settings)
    ensures r.hexInput == s.hexInput && r.isColorPickerOpen == s.isColorPickerOpen
    ensures r.colorPickerType == s.colorPickerType
    ensures !EditChannel(s.backgroundColor, text, index).Recolored? ==> r == s
    ensures EditChannel(s.backgroundColor, text, index).Recolored? ==>
              r.backgroundColor == EditChannel(s.backgroundColor, text, index).color
  {
    match EditChannel(s.backgroundColor, text, index)
    case Recolored(c) => s.(backgroundColor := c)
    case _ => s
  }

  /** `toggleColorPicker`: flips the popover unless the colour is transparent. */
  function TogglePicker(s: Settings): (r: Settings)
    ensures r.backgroundColor == s.backgroundColor && r.hexInput == s.hexInput
    ensures r.colorPickerType == s.colorPickerType
    ensures r.isColorPickerOpen != s.isColorPickerOpen <==> s.backgroundColor != Transparent
  {
    if s.backgroundColor != Transparent then s.(isColorPickerOpen := !s.isColorPickerOpen) else s
  }

  /** The Transparent checkbox's `onChange`: checking selects the sentinel,
      unchecking selects white; either way the popover closes. */
  function TransparentChange(s: Settings, checked: bool): (r: Settings)
    ensures r.backgroundColor == Transparent <==> checked
    ensures !checked ==> r.backgroundColor == White
    ensures !r.isColorPickerOpen
    ensures r.hexInput == s.hexInput && r.colorPickerType == s.colorPickerType
  {
    s.(backgroundColor := if checked then Transparent else White, isColorPickerOpen := false)
  }

  /** The "Switch to RGB/HEX" button: flips the picker type; when it leaves
      RGB mode the hex text takes the current colour. The colour never changes. */
  function SwitchMode(s: Settings): (r: Settings)
    ensures r.colorPickerType != s.colorPickerType
    ensures r.backgroundColor == s.backgroundColor && r.isColorPickerOpen == s.isColorPickerOpen
    ensures s.colorPickerType == Rgb ==> r.hexInput == s.backgroundColor
    ensures s.colorPickerType == Hex ==> r.hexInput == s.hexInput
  {
    var r := s.(colorPickerType := if s.colorPickerType == Hex then Rgb else Hex);
    if s.colorPickerType == Rgb then r.(hexInput := s.backgroundColor) else r
  }

  // ---------------------------------------------------------------------
  // Properties of single transitions and of pairs
  // ---------------------------------------------------------------------

  /** Two clicks on the swatch restore the state. */
  lemma ToggleTwice(s: Settings)
    ensures TogglePicker(TogglePicker(s)) == s
  {
  }

  /** Once Transparent is checked the popover is closed and the swatch cannot reopen it. */
  lemma TransparentLocksPicker(s: Settings)
    ensures !TransparentChange(s, true).isColorPickerOpen
    ensures TogglePicker(TransparentChange(s, true)) == TransparentChange(s, true)
  {
  }

  /** Switching to the other mode and back keeps the colour, and leaves the
      hex text showing that colour (so a hex colour survives hex -> RGB -> hex). */
  lemma SwitchModeTwice(s: Settings)
    ensures var r := SwitchMode(SwitchMode(s));
            r.colorPickerType == s.colorPickerType && r.backgroundColor == s.backgroundColor &&
            r.isColorPickerOpen == s.isColorPickerOpen && r.hexInput == s.backgroundColor
  {
  }

  // ---------------------------------------------------------------------
  // Traces of user events
  // ---------------------------------------------------------------------

  /** The user gestures that reach the handlers. */
  datatype Event =
    | ColorPicked(color: string)        // HexColorPicker / RgbaStringColorPicker onChange
    | HexTyped(text: string)            // the Hex text field
    | RgbTyped(text: string, index: nat) // the R, G or B text field
    | SwatchClicked                     // the colour swatch
    | TransparentClicked(checked: bool) // the Transparent checkbox
    | ModeSwitched                      // the "Switch to RGB/HEX" button

  /** Whether the screen offers the event: the pickers, the mode button and
      the text fields live in the popover, so they need it open; the hex field
      is shown in hex mode and the R, G, B fields in RGB mode; the pickers emit
      colour strings, never the transparent sentinel; the checkbox is checked
      exactly when the colour is transparent, so a click reports the opposite. */
  predicate Enabled(s: Settings, e: Event): (b: bool)
    ensures b && !s.isColorPickerOpen ==> e.SwatchClicked? || e.TransparentClicked?
    ensures b && e.TransparentClicked? ==> (e.checked <==> s.backgroundColor != Transparent)
    ensures b && e.ColorPicked? ==> e.color != Transparent
  {
    match e
    case ColorPicked(c) => s.isColorPickerOpen && c != Transparent
    case HexTyped(_) => s.isColorPickerOpen && s.colorPickerType == Hex
    case RgbTyped(_, _) => s.isColorPickerOpen && s.colorPickerType == Rgb
    case ModeSwitched => s.isColorPickerOpen
    case SwatchClicked => true
    case TransparentClicked(checked) => checked == (s.backgroundColor != Transparent)
  }

  /** The state after one event. */
  function Step(s: Settings, e: Event): Settings
  {
    match e
    case ColorPicked(c) => ColorChange(s, c)
    case HexTyped(t) => HexInputChange(s, t)
    case RgbTyped(t, i) => RgbInputChange(s, t, i)
    case SwatchClicked => TogglePicker(s)
    case TransparentClicked(checked) => TransparentChange(s, checked)
    case ModeSwitched => SwitchMode(s)
  }

  /** Every event of the trace is offered in the state it meets. */
  predicate EnabledTrace(s: Settings, events: seq<Event>)
    decreases |events|
  {
    events == [] || (Enabled(s, events[0]) && EnabledTrace(Step(s, events[0]), events[1..]))
  }

  /** The state after a trace of events. */
  function Run(s: Settings, events: seq<Event>): Settings
    decreases |events|
  {
    if events == [] then s else Run(Step(s, events[0]), events[1..])
  }

  /** Each offered event keeps the popover closed while the colour is transparent. */
  lemma StepKeepsPickerClosed(s: Settings, e: Event)
    requires PickerClosedWhenTransparent(s) && Enabled(s, e)
    ensures PickerClosedWhenTransparent(Step(s, e))
  {
    match e
    case RgbTyped(t, i) =>
      if EditChannel(s.backgroundColor, t, i).Recolored? {
        EditChannelWritesRgb(s.backgroundColor, t, i);
      }
    case _ =>
  }

  /** From any state where the popover is closed on a transparent
      background, no sequence of offered events ever opens it on one. */
  lemma {:induction false} PickerNeverOpenWhileTransparent(s: Settings, events: seq<Event>)
    requires PickerClosedWhenTransparent(s) && EnabledTrace(s, events)
    ensures PickerClosedWhenTransparent(Run(s, events))
    decreases |events|
  {
    if events != [] {
      StepKeepsPickerClosed(s, events[0]);
      PickerNeverOpenWhileTransparent(Step(s, events[0]), events[1..]);
    }
  }

  /** In particular, starting from the component's initial values. */
  lemma PickerNeverOpenFromStart(events: seq<Event>)
    requires EnabledTrace(Initial, events)
    ensures PickerClosedWhenTransparent(Run(Initial, events))
  {
    PickerNeverOpenWhileTransparent(Initial, events);
  }

  /** With Transparent checked, whatever the user does short of unchecking it
      leaves the background transparent and the popover closed. */
  lemma {:induction false} TransparentHoldsUntilUnchecked(s: Settings, events: seq<Event>)
    requires s.backgroundColor == Transparent && !s.isColorPickerOpen
    requires EnabledTrace(s, events)
    requires forall k :: 0 <= k < |events| ==> events[k] != TransparentClicked(false)
    ensures Run(s, events).backgroundColor == Transparent && !Run(s, events).isColorPickerOpen
    decreases |events|
  {
    if events != [] {
      var e := events[0];
      assert e != TransparentClicked(false);
      assert e.SwatchClicked? || e.TransparentClicked?;
      TransparentHoldsUntilUnchecked(Step(s, e), events[1..]);
    }
  }

  // ---------------------------------------------------------------------
  // The component state
  // ---------------------------------------------------------------------

  /** The selector's four `useState` variables; each method is one handler.
      A handler reads the values of the render it was created in, so every
      read below happens before the first write. */
  class Selector {
    var backgroundColor: string
    var hexInput: string
    var isColorPickerOpen: bool
    var colorPickerType: PickerType

    function State(): Settings
      reads this
    {
      Settings(backgroundColor, hexInput, isColorPickerOpen, colorPickerType)
    }

    constructor ()
      ensures State() == Initial
    {
      backgroundColor := Transparent;
      isColorPickerOpen := false;
      colorPickerType := Hex;
      hexInput := White;
    }

    method HandleColorChange(color: string)
      modifies this
      ensures State() == ColorChange(old(State()), color)
    {
      backgroundColor := color;
      hexInput := color;
    }

    method HandleHexInputChange(text: string)
      modifies this
      ensures State() == HexInputChange(old(State()), text)
    {
      hexInput := text;
      if IsHexColor(text) {
        backgroundColor := text;
      }
    }

    /** Returns whether the handler threw (the colour held no digits). */
    method HandleRgbInputChange(text: string, index: nat) returns (threw: bool)
      modifies this
      ensures threw <==> EditChannel(old(backgroundColor), text, index).NoChannels?
      ensures State() == RgbInputChange(old(State()), text, index)
    {
      threw := false;
      var value := ParseInt(text);
      if value.Some? && value.value >= 0 && value.value <= 255 {
        var rgbArray := Channels(backgroundColor);
        if rgbArray == [] {
          threw := true;
          return;
        }
        rgbArray := Assign(rgbArray, index, value.value);
        backgroundColor := RgbString(rgbArray);
      }
    }

    method ToggleColorPicker()
      modifies this
      ensures State() == TogglePicker(old(State()))
    {
      if backgroundColor != Transparent {
        isColorPickerOpen := !isColorPickerOpen;
      }
    }

    method OnTransparentChange(checked: bool)
      modifies this
      ensures State() == TransparentChange(old(State()), checked)
    {
      backgroundColor := if checked then Transparent else White;
      isColorPickerOpen := false;
    }

    method OnSwitchMode()
      modifies this
      ensures State() == SwitchMode(old(State()))
    {
      var leavingRgb := colorPickerType == Rgb;
      var current := backgroundColor;
      colorPickerType := if colorPickerType == Hex then Rgb else Hex;
      if leavingRgb {
        hexInput := current;
      }
    }
  }
}

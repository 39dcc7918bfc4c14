# Logo-Icon-generator: the colour selector and the icon export plan

The app is a single React component, `App` in `src/App.js`. It crops an uploaded
image and exports it as a zip of square PNG icons. This project models the two parts of the
component that hold logic of their own and proves what they promise.

- **The background-colour selector** has four pieces of state: `backgroundColor`,
  `hexInput`, `isColorPickerOpen` and `colorPickerType`. Six handlers change that state: the
  picker's `handleColorChange`, the hex field's `handleHexInputChange`, the R/G/B
  fields' `handleRgbInputChange`, the swatch's `toggleColorPicker`, the
  Transparent checkbox, and the "Switch to RGB/HEX" button. Module `BackgroundColor`
  gives each handler as a pure transition on a `Settings` value, and class
  `Selector` holds the four fields as mutable state. Each of its methods is proved to
  perform its transition. On top of that, traces of user events are proved to keep the popover closed
  whenever the background is transparent.
- **The JavaScript built-ins the handlers rely on** are in module `JsText`:
  - the global match `/\d+/g`, as the maximal runs of ASCII digits, with a null
    match when there are none;
  - `Number` of such a run;
  - `parseInt` with one argument: leading white space, a sign, the `0x` prefix,
    the longest digit prefix, and NaN as `None`;
  - assignment past the end of an array, which leaves holes;
  - `Array.prototype.join`, which renders holes as empty strings.
- **The export plan of `onCropAndDownload`** is in module `IconExport`. It covers the size
  manifest, the entry names `icon_{S}x{S}.png`, and whether the S x S canvas is
  filled. It also covers where the cropped image is drawn: aspect preserved, fitted and
  centred, exact over the reals. The loop is a method that builds the sequence of
  entries.

Despite its label, the "Switch to RGB/HEX" button converts nothing. It flips the
picker type, and only when leaving RGB mode does it copy `backgroundColor`
(which may then be an `rgb(...)` string) into `hexInput`.

## Model

| member | source | states |
|---|---|---|
| JsText.DigitRuns | src/App.js:50 | `match(/\d+/g)`: every run is non-empty and made only of decimal digits |
| JsText.DigitRunsCoverDigits | src/App.js:50 | the runs, concatenated, are exactly the digits of the string in order: no digit is lost or invented |
| JsText.NoDigitRunsIffNoDigits | src/App.js:50 | the match is empty (null in JavaScript) exactly when the string holds no digit |
| JsText.MapNumber | src/App.js:50 | `.map(Number)` gives one number per run, the decimal value of that run, with no holes |
| JsText.ParseIntReadsDecimal | src/App.js:48 | `parseInt` of a decimal numeral followed by a non-digit reads back exactly that number |
| JsText.ParseIntSign | src/App.js:48 | a leading `-` negates what `parseInt` reads, and no sign reads the magnitude |
| JsText.ParseInt | src/App.js:48 | `parseInt(text)`: text with no decimal digit at all is NaN; text whose first non-blank character is a decimal digit (and not the start of a `0x` prefix) is a non-negative number |
| JsText.ToDecimal | src/App.js:52 | the decimal text of a number: non-empty, only digits, no leading zero, and its decimal value is the number |
| JsText.JoinLength | src/App.js:52 | `join(sep)`: the length is the parts' total length plus one separator between each pair of neighbours |
| JsText.RenderAll | src/App.js:52 | how `join` writes each element: a number as its decimal digits, a hole as the empty string |
| JsText.Assign | src/App.js:51 | `rgbArray[index] = value`: the slot holds the value, other slots keep theirs, and slots between the old end and `index` are holes |
| JsText.PresentAssign | src/App.js:51 | on a hole-free array the assignment replaces value `index`, or appends when `index` is past the end |
| JsText.DigitRunsOfJoin | src/App.js:52 | the digit runs of `join(", ")` are the rendered numbers of the array, holes dropped |
| BackgroundColor.IsHexColor | src/App.js:42 | `/^#[0-9A-Fa-f]{6}$/`: exactly seven characters, a `#` and then six characters from 0-9, A-F, a-f |
| BackgroundColor.Channels | src/App.js:50 | `match(/\d+/g).map(Number)`: one number per digit run, the decimal value of that run, no holes |
| BackgroundColor.RgbString | src/App.js:52 | `rgb(${a.join(", ")})`: starts with `rgb(` and ends with `)`; its length is those five characters, plus the rendered numbers, plus two for each `, ` between neighbours |
| BackgroundColor.EditChannel | src/App.js:47-54 | the edit is rejected exactly when `parseInt` gives NaN or a value outside 0..255; it throws exactly when it is accepted and the colour holds no digit |
| BackgroundColor.RgbStringReadBack | src/App.js:50-52 | what `rgb(${a.join(", ")})` writes, the next `match(/\d+/g).map(Number)` reads back as the numbers of `a` |
| BackgroundColor.EditChannelReadBack | src/App.js:47-54 | after an accepted edit, channel `index` of the new colour is the typed value and every other channel keeps its number (appended when `index` is past the last channel) |
| BackgroundColor.EditChannelWritesRgb | src/App.js:52 | an accepted edit writes an `rgb(...)` string, never the transparent sentinel |
| BackgroundColor.ColorChange | src/App.js:34-37 | the colour and the hex text both become the picked colour; the popover and the mode are untouched |
| BackgroundColor.HexInputChange | src/App.js:39-45 | the hex text always becomes the typed text; the colour becomes it when it is `#` and six hex digits, and otherwise does not change |
| BackgroundColor.RgbInputChange | src/App.js:47-54 | a rejected or throwing edit changes no field; an accepted one changes only the colour, to the edited colour |
| BackgroundColor.TogglePicker | src/App.js:56-60 | the popover flips exactly when the colour is not transparent; nothing else changes |
| BackgroundColor.TransparentChange | src/App.js:191-194 | the colour is transparent exactly when checked, white when unchecked, and the popover is closed either way |
| BackgroundColor.SwitchMode | src/App.js:239-244 | the mode flips; the hex text takes the colour only when leaving RGB mode; the colour and the popover do not change |
| BackgroundColor.ToggleTwice | src/App.js:56-60 | two clicks on the swatch restore the state |
| BackgroundColor.TransparentLocksPicker | src/App.js:191-194 | after checking Transparent the popover is closed and the swatch cannot reopen it |
| BackgroundColor.SwitchModeTwice | src/App.js:239-244 | switching there and back keeps the mode, the colour and the popover, and the hex text shows the colour |
| BackgroundColor.Enabled | src/App.js:186-275 | with the popover closed only the swatch and the checkbox are offered; a checkbox click reports the opposite of its current state (checked exactly when the colour is transparent); the pickers never emit the transparent sentinel |
| BackgroundColor.StepKeepsPickerClosed | src/App.js:34-244 | every event the screen offers keeps the popover closed while the colour is transparent |
| BackgroundColor.PickerNeverOpenWhileTransparent | src/App.js:28-60 | from a state where the popover is closed on a transparent colour, no trace of offered events opens it on a transparent colour |
| BackgroundColor.PickerNeverOpenFromStart | src/App.js:28-60 | from the component's initial values, no trace of offered events opens the popover on a transparent colour |
| BackgroundColor.TransparentHoldsUntilUnchecked | src/App.js:191-194 | with Transparent checked, every trace that does not uncheck it keeps the colour transparent and the popover closed |
| BackgroundColor.Selector.constructor | src/App.js:28-32 | the component starts transparent, with hex text `#ffffff`, the popover closed and hex mode |
| BackgroundColor.Selector.HandleColorChange | src/App.js:34-37 | the new state is `ColorChange` of the old |
| BackgroundColor.Selector.HandleHexInputChange | src/App.js:39-45 | the new state is `HexInputChange` of the old |
| BackgroundColor.Selector.HandleRgbInputChange | src/App.js:47-54 | the new state is `RgbInputChange` of the old, and the handler reports a throw exactly when the colour held no digit |
| BackgroundColor.Selector.ToggleColorPicker | src/App.js:56-60 | the new state is `TogglePicker` of the old |
| BackgroundColor.Selector.OnTransparentChange | src/App.js:191-194 | the new state is `TransparentChange` of the old |
| BackgroundColor.Selector.OnSwitchMode | src/App.js:239-244 | the new state is `SwitchMode` of the old, reading the mode before it is overwritten |
| IconExport.EntryName | src/App.js:117 | the entry name starts with `icon_` |
| IconExport.EntryNameReadBack | src/App.js:117 | the entry name ends in `.png`, and the size can be read back from it as the digits right after `icon_` |
| IconExport.EntryNameInjective | src/App.js:117 | different sizes give different entry names |
| IconExport.ManifestNames | src/App.js:82-117 | the seven entries are named `icon_16x16.png` through `icon_512x512.png` |
| IconExport.Scale | src/App.js:106 | `min(S/w, S/h)` fits both sides within S and makes one of them exactly S |
| IconExport.ScaleIsLargestFit | src/App.js:106 | no larger uniform scale fits the square |
| IconExport.Place | src/App.js:106-113 | the drawn rectangle keeps the image's proportions, lies within S x S with one side exactly S, and has equal left/right and top/bottom margins |
| IconExport.PlanEntry | src/App.js:99-117 | the entry carries the name and size, and the whole S x S square is filled with the colour exactly when the colour is not transparent; the image is drawn where `Place` puts it |
| IconExport.PlanExport | src/App.js:76-124 | no entries without a cropped canvas or with an empty one; otherwise one entry per manifest size in order, sizes strictly increasing and names distinct |

## Left out

- JSX rendering, MUI styling, the hidden file input and the popover layout: these are presentation only.
- Image upload through `FileReader`: this is asynchronous browser I/O.
- The `react-cropper` widget: the cropped canvas is a parameter that is absent or has a pixel width and height.
- Canvas drawing, the smoothing flags, PNG encoding through `toDataURL` and the base64 prefix stripping: these are browser graphics. An entry records what would be drawn, not pixels.
- JSZip packaging and the `icons.zip` download through `file-saver`: these are foreign calls and async I/O.
- Conversion between hex and RGB inside `react-colorful`'s pickers: `ColorChange` takes whatever string the picker emits.
- The value the R/G/B fields display, `backgroundColor.match(/\d+/g)[index]`, which throws at render time on a colour with no digits. That is rendering and is not part of this model. Only the handler's own throw is modelled.
- How a canvas treats a `fillStyle` it cannot parse: the fill records the colour string as given.
- The export with a cropped canvas of zero width or height: `toDataURL` then gives `data:,`, the image never loads, and the awaited `onload` never fires, so the export hangs. `PlanExport` returns the empty plan for it instead.
- Races between overlapping exports around `await` and `generateAsync`: these are concurrency.
- IconExport.Scale: the arithmetic is over exact reals, not IEEE doubles, so rounding of the scale and offsets is not modelled.
- JsText.ToDecimal: writes every number in plain decimal. JavaScript writes numbers from 10^21 up in exponent notation, which no colour the selector produces can reach.
- JsText.MapNumber: `Number` of a digit run is its exact integer value. Runs beyond 2^53 are not rounded as JavaScript numbers are.
- JsText.ParseIntReadsDecimal: only states the unsigned read-back; the negative case is stated by `ParseIntSign`.

# Day picker core, modelled in Dafny

This project models the logic of a time picker. The picker is a drum made of
rotating cylinders: one each for weekdays, hours and minutes. The parts
modelled here are:

- **Colours and gradients** (`ColorUtilities`, `colors.dfy`). Colour strings
  are read into channel levels (`#rgb`, `#rgba`, `#rrggbb`, `#rrggbbaa`,
  `rgb(…)`, `rgba(…)`). The shading gradients are then chosen: defaults, the
  face count, and the hex text of each stop, built by two loops.
- **The cylinder** (`Cylinder`, `cylinder.dfy`):
  - the CSS-length validator;
  - the offset sanitizer, a loop that adds the list length while the offset
    is negative;
  - the sanitizer of the other props;
  - the window of items that may be visible for a given offset and spacing.
- **The press-and-hold controls** (`Hilite`, `hilite.dfy`). These are
  classes:
  - the parent's offset cell;
  - a control's hover and pressed state;
  - one render's closure, with its offset, rate, pending timer and
    listeners.

  Events and timer firings are methods.
- **The minute and hour lists** (`TimeLists`, `time_lists.dfy`). These are
  `hours` and both versions of `getMinutes`.
- **The two props sanitizers**:
  - the shared display rules (`Display`, `DisplayReview`);
  - the interval rules and `nearestDivisorOf60` (`Intervals`);
  - `sanitize` of the picker with `minutesInterval` (`ComponentProps`);
  - `sanitize` of the compact picker with `everyNMinutes` (`PickerProps`).

JavaScript values are a datatype `Js.Value`. `Js` also models:

- truthiness, `typeof` and `Number(…)`;
- `parseInt` for radix 10 and 16;
- the truncating `%`;
- `slice`, `toLowerCase`, `indexOf` and `lastIndexOf`.

Numbers are reals, and NaN is a separate value.

Where a rule of the source has a defect, the model keeps two readings,
chosen by `Display.Variant`:

- `AsWritten` follows the code.
- `Corrected` is what the surrounding code evidently intends.

The guarantees are proved about `Corrected`. The defects are shown on
`AsWritten` (see "## Findings").

Three points about what the code does, as the model follows it:

- **No busy guard, no animation.** The cylinder keeps a `busy` flag "to
  prevent a double-click on a control from scrolling twice"
  (src/TimePicker/Cylinder.jsx:64-65). It passes the flag to the controls,
  which never read it. `ANIMATION` is declared and never used. So:
  - a press moves the offset by one whole step;
  - auto-repeat adds further whole steps;
  - nothing stops a second press.
- **Window size.** The window has `ceil(spacing/2)+1` items only for offsets
  that went through `sanitizeOffset`. The controls store their offsets
  without it (see "## Findings").
- **Wrap equivalence.** The windows of offsets `o` and `o + L` are proved
  equal for `o >= -1/2` (`Cylinder.WindowPeriodic`). That range holds every
  sanitized offset. Below it the truncating `%` gives a negative fraction,
  which the model does not reason about.

## Model

| member | source | states |
|---|---|---|
| ColorUtilities.ColorToRGBArray | src/TimePicker/ColorUtilities.js:167-176 | the first three characters, lowered, pick the parser: "rgb" gives the rgb parser, "hsl" the HSL converter, anything else the hex parser |
| ColorUtilities.RgbDispatch | src/TimePicker/ColorUtilities.js:167-170 | every string starting with `rgb` is read by the rgb parser |
| ColorUtilities.HashIsHex | src/TimePicker/ColorUtilities.js:167-176 | every string starting with `#` is read by the hex parser |
| ColorUtilities.ColorLevelsAreBytes | src/TimePicker/ColorUtilities.js:167-176 | a colour that is not HSL gives 3 or 4 levels, each a byte or NaN, and NaN only as the fourth level of an `rgb` colour |
| ColorUtilities.UpperCaseRgbIsTransparentBlack | src/TimePicker/ColorUtilities.js:168-170 | `RGB(1,2,3)` goes to the rgb parser, whose pattern is case-sensitive, and so reads as transparent black |
| ColorUtilities.HexToArray | src/TimePicker/ColorUtilities.js:180-235 | after one `#` is stripped, a length other than 3, 4, 6 or 8 gives [0,0,0,0]; 3 and 6 digits give three levels, 4 and 8 give four; every level is a byte |
| ColorUtilities.HexDigitsToArray | src/TimePicker/ColorUtilities.js:186-234 | the same contract, for digits without `#` |
| ColorUtilities.HexEightDigits | src/TimePicker/ColorUtilities.js:194-195 | eight hex digits give the four bytes their digit pairs write, in order |
| ColorUtilities.HexSixDigits | src/TimePicker/ColorUtilities.js:203-232 | six hex digits give the three bytes their pairs write; the padded alpha byte is dropped |
| ColorUtilities.HexShorthand | src/TimePicker/ColorUtilities.js:187-201 | each digit d of a 3- or 4-digit shorthand gives the byte 17·d |
| ColorUtilities.ShorthandIsDoubled | src/TimePicker/ColorUtilities.js:187-201 | a shorthand reads as the same colour as the notation with each digit doubled |
| ColorUtilities.HexWordOf | src/TimePicker/ColorUtilities.js:216 | `parseInt(…, 16)` of eight hex digits is the 32-bit word of its four digit pairs |
| ColorUtilities.BytesOf | src/TimePicker/ColorUtilities.js:223-228 | the shifts and masks recover the four bytes of a 32-bit word |
| ColorUtilities.MatchRgb | src/TimePicker/ColorUtilities.js:240-242 | a match of the rgb pattern captures digit strings only |
| ColorUtilities.RgbToArray | src/TimePicker/ColorUtilities.js:239-258 | the result always has four entries; the first three are bytes; the fourth is NaN or a byte |
| ColorUtilities.RgbRoundTrip | src/TimePicker/ColorUtilities.js:239-258 | `rgb(r,g,b)` reads back as min(r,255), min(g,255), min(b,255) and a NaN fourth entry |
| ColorUtilities.RgbaRoundTrip | src/TimePicker/ColorUtilities.js:239-258 | `rgba(r,g,b,a)` reads back as its four channels, each capped at 255 |
| ColorUtilities.NoRgbIsTransparentBlack | src/TimePicker/ColorUtilities.js:257 | a string with no match anywhere gives [0,0,0,0] |
| ColorUtilities.ByteHex | src/TimePicker/ColorUtilities.js:92-97 | a byte is written as exactly two hex digits that read back as it |
| ColorUtilities.GetColorRoundTrip3 | src/TimePicker/ColorUtilities.js:85-103 | for sin in [0,1], the text of three byte levels reads back, through the hex parser, as floor(sin·level) for each |
| ColorUtilities.GetColorRoundTrip4 | src/TimePicker/ColorUtilities.js:85-103 | with four levels the fourth reads back inverted, as 255 − floor(sin·level) |
| ColorUtilities.BaseLevels | src/TimePicker/ColorUtilities.js:27-34 | the barrel uses the parsed background when it is a string whose largest level is neither 0 nor NaN, else mid grey; the result is never falsy |
| ColorUtilities.HexBackground | src/TimePicker/ColorUtilities.js:27-34 | a `#rrggbb` background that is not black is used as it is |
| ColorUtilities.RgbBackgroundIsGrey | src/TimePicker/ColorUtilities.js:27-34 | an `rgb(r,g,b)` background is always replaced by grey, because its fourth entry is NaN |
| ColorUtilities.OverlayLevels | src/TimePicker/ColorUtilities.js:36-61 | a shadow, hover or press colour is used when it has four levels and a non-zero alpha, else its default; the result always has a non-zero alpha |
| ColorUtilities.FaceCount | src/TimePicker/ColorUtilities.js:63-69 | a falsy or NaN face count becomes 2; any other is clamped to [2,20] |
| ColorUtilities.FacesClamp | src/TimePicker/ColorUtilities.js:63-69 | face counts at or below 2 act like 2 and like a missing value; counts at or above 20 act like 20 |
| ColorUtilities.HighlightFaces | src/TimePicker/ColorUtilities.js:134 | the highlight loop runs max(2, round(faces/4)) times, which lies in [2,5] |
| ColorUtilities.GetGradients | src/TimePicker/ColorUtilities.js:13-161 | the six gradients built by the two loops are those of the specification function `GradientsFor` |
| ColorUtilities.FaceLoop | src/TimePicker/ColorUtilities.js:121-132 | the first loop adds one barrel stop and one shadow stop per face, ceil(faces) of each |
| ColorUtilities.LiteLoop | src/TimePicker/ColorUtilities.js:136-151 | the second loop adds one stop per step to the hover and press highlights |
| ColorUtilities.GradientShape | src/TimePicker/ColorUtilities.js:74-159 | barrel and shadow have ceil(faces)+1 stops (3 to 21); highlights have 3 to 6; barrel, `topLite` and `topPress` close on `#000000`, shadow, `lowLite` and `lowPress` on `#000000ff`; top and bottom highlights share their other stops; the directions are 0 and 180 degrees |
| ColorUtilities.BarrelStop | src/TimePicker/ColorUtilities.js:121-130 | stop ii of the barrel is the face stop of the barrel levels for face ii |
| ColorUtilities.BarrelColours | src/TimePicker/ColorUtilities.js:121-130 | with a `#rrggbb` background, face ii reads back as the background scaled by the sine of its turn |
| Cylinder.NumberRun | src/TimePicker/Cylinder.jsx:225 | the leading `[0-9.]+` run: all digits or dots, and followed by neither |
| Cylinder.ValidLengthIff | src/TimePicker/Cylinder.jsx:221-253 | a value is a valid CSS length exactly when it is a string that splits into digits and dots (at least one, at most one dot, not a lone dot) and one of the 14 units in any case |
| Cylinder.ValidLengthSplits | src/TimePicker/Cylinder.jsx:233-252 | a valid length splits right after its leading run of digits and dots |
| Cylinder.SplitIsValid | src/TimePicker/Cylinder.jsx:233-252 | every such split makes the string valid |
| Cylinder.SameDot | src/TimePicker/Cylinder.jsx:238 | the first and last dots coincide exactly when no two dots occur |
| Cylinder.UnitStartsWithLetter | src/TimePicker/Cylinder.jsx:221 | every unit starts with a letter, so the run of digits and dots cannot swallow it |
| Cylinder.UpperCaseUnitExample | src/TimePicker/Cylinder.jsx:225 | `1.5EM` is valid: units match in any case |
| Cylinder.LeadingDotExample | src/TimePicker/Cylinder.jsx:233-252 | `.5rem` is valid |
| Cylinder.TwoDotsExample | src/TimePicker/Cylinder.jsx:238-240 | `1.2.3em` is refused: more than one dot |
| Cylinder.LoneDotExample | src/TimePicker/Cylinder.jsx:242-244 | `.em` is refused: no actual number |
| Cylinder.SeparatedUnitExample | src/TimePicker/Cylinder.jsx:225 | `2 em` is refused: the pattern is anchored and admits no space |
| Cylinder.SanitizeOffset | src/TimePicker/Cylinder.jsx:257-281 | for an offset that is a JavaScript number, the loop's result is the specification `SanitizedOffset`: 0 for NaN and for lists of at most one item, else the offset moved on by whole turns until it is not negative |
| Cylinder.SettleStep | src/TimePicker/Cylinder.jsx:269-272 | one pass of the loop keeps the settled value and shrinks the number of turns left |
| Cylinder.SettleProperties | src/TimePicker/Cylinder.jsx:269-272 | the settled offset is at least 0; a non-negative offset is unchanged; a negative one lands below the length; it differs from the input by a whole number of lengths |
| Cylinder.TurnsUnique | src/TimePicker/Cylinder.jsx:269-272 | exactly one number of turns brings a negative offset into [0, L) |
| Cylinder.SanitizedOffsetProperties | src/TimePicker/Cylinder.jsx:263-280 | for a numeric offset, the sanitized offset is at least 0; it is 0 for NaN or at most one item; with several items it is the offset itself when that is not negative, and below the length when it was negative |
| Cylinder.SanitizeOthers | src/TimePicker/Cylinder.jsx:285-362 | the result has the given props plus the five cleaned entries; other props are unchanged; each cleaned entry follows its rule |
| Cylinder.SpacingRules | src/TimePicker/Cylinder.jsx:315-335 | a missing or empty list gives spacing 6; NaN gives max(2, min(8.5, 2L)); one item gives 2; otherwise [3, 2L]; always in [2, 2L] for the cleaned list |
| Cylinder.RadiusRule | src/TimePicker/Cylinder.jsx:337-340 | the cleaned radius is never NaN and its numeric value is at least 1 |
| Cylinder.DefaultFontSizeIsValid | src/TimePicker/Cylinder.jsx:303 | the default font size `1em` passes the validator |
| Cylinder.SanitizedPropsAreClean | src/TimePicker/Cylinder.jsx:315-362 | the cleaned props have a non-empty list, a spacing in [2, 2L], a radius of at least 1, gradients of type object and a valid font size |
| Cylinder.SanitizeOthersIdempotent | src/TimePicker/Cylinder.jsx:285-362 | cleaning twice is cleaning once |
| Cylinder.CleanEntriesStay | src/TimePicker/Cylinder.jsx:315-350 | each cleaned entry passes its own check unchanged |
| Cylinder.Total | src/TimePicker/Cylinder.jsx:85 | a non-negative spacing gives a window of at least one entry |
| Cylinder.Cyclic | src/TimePicker/Cylinder.jsx:89-106 | the reference window: n consecutive items of the circular list, with exactly n entries |
| Cylinder.ComputeWindow | src/TimePicker/Cylinder.jsx:72-106 | the counter, phase, total, before and seen items, computed step by step, are the specification functions of the offset and spacing |
| Cylinder.GatherSeen | src/TimePicker/Cylinder.jsx:89-106 | the three-part construction of `seen` is the slice-based `Wrapped` |
| Cylinder.WrappedIsCyclic | src/TimePicker/Cylinder.jsx:89-106 | when the window starts at most one turn before the list and ends at most one turn after it, the slices give exactly the circular window |
| Cylinder.CyclicSplit | src/TimePicker/Cylinder.jsx:100-105 | a circular window is its first part followed by the rest |
| Cylinder.CyclicIsSlice | src/TimePicker/Cylinder.jsx:99 | a circular window inside the list is a plain slice |
| Cylinder.CyclicTurn | src/TimePicker/Cylinder.jsx:89-106 | moving the start by a whole turn does not change the circular window |
| Cylinder.FractionRange | src/TimePicker/Cylinder.jsx:72 | for an offset of at least −1/2, the fraction lies in [−1/2, L − 1/2) and differs from the offset by whole turns |
| Cylinder.CounterAndPhase | src/TimePicker/Cylinder.jsx:72-82 | for an offset of at least −1/2, the counter lies in [−1, L−1] and the phase in [0, 6.3/spacing) |
| Cylinder.PhaseBound | src/TimePicker/Cylinder.jsx:82 | the rescaled phase of a fractional part lies in [0, 6.3/spacing) |
| Cylinder.SanitizedWindow | src/TimePicker/Cylinder.jsx:85-106 | with a sanitized offset and a spacing in [2, 2L], `seen` has exactly ceil(spacing/2)+1 entries, and entry i is item (counter − before + i) mod L |
| Cylinder.FractionOfZero | src/TimePicker/Cylinder.jsx:72-73 | with one item the offset 0 points at it |
| Cylinder.WindowBounds | src/TimePicker/Cylinder.jsx:85-90 | a half-window in [1, L] and a counter in [−1, L−1] keep the window within one turn on either side |
| Cylinder.WindowPeriodic | src/TimePicker/Cylinder.jsx:72-106 | for offsets of at least −1/2, adding the length of the list does not change the window |
| Cylinder.FractionTurn | src/TimePicker/Cylinder.jsx:72 | adding the length of the list does not change the fraction |
| Cylinder.NegativeOffsetWindow | src/TimePicker/Cylinder.jsx:89-106 | 24 items, offset −4 and spacing 8.5 give a window of 30 items where 6 are meant |
| Cylinder.SanitizedNegativeOffsetWindow | src/TimePicker/Cylinder.jsx:263-272 | the same offset once sanitized is 20, and its window has 6 items |
| Hilite.Direction | src/TimePicker/Hilite.jsx:33 | −1 for the top edge, +1 for any other |
| Hilite.RateBounds | src/TimePicker/Hilite.jsx:80 | the delays between automatic steps never grow and stay within [100, 500] |
| Hilite.RateSettles | src/TimePicker/Hilite.jsx:80 | the delay is 100 exactly from the eighth automatic step on |
| Hilite.PressEnd | src/TimePicker/Hilite.jsx:66 | a `mousedown` press ends on `mouseup`; any other on `touchend` |
| Hilite.OffsetCell.constructor | src/TimePicker/Cylinder.jsx:19-25 | the cell starts with the given offset |
| Hilite.OffsetCell.SanitizedStore | src/TimePicker/Cylinder.jsx:263-280 | a sanitizing setter stores an offset of at least 0, and a non-negative offset unchanged when the list has more than one item |
| Hilite.OffsetCell.Set | src/TimePicker/Cylinder.jsx:198 | the setter stores the raw value as written, or the sanitized one when sanitizing |
| Hilite.Control.constructor | src/TimePicker/Hilite.jsx:30-31 | a control starts neither hovered nor pressed |
| Hilite.Control.TreatHover | src/TimePicker/Hilite.jsx:47-49 | `mouseenter` sets hover, any other event clears it; `pressed` is unchanged |
| Hilite.Control.Background | src/TimePicker/Hilite.jsx:99-107 | hovered and pressed gives the press gradient; hovered only gives the highlight; not hovered gives undefined |
| Hilite.Render.constructor | src/TimePicker/Hilite.jsx:33-44 | a render captures the direction, the hover state and the offset of its moment, with no timer and no listener |
| Hilite.Render.TreatPress | src/TimePicker/Hilite.jsx:61-96 | sets `pressed` for a press; listens for the matching end event; a press steps the offset by the direction, stores it in the cell, sets the rate to 500 and schedules a timer; a non-press cancels the timer |
| Hilite.Render.TimerFires | src/TimePicker/Hilite.jsx:76-83 | while the captured `pressed` and `hover` are both true, a firing steps the offset, stores it, lowers the rate to max(0.8·rate, 100) and reschedules; otherwise nothing changes and no timer is left |
| Hilite.Render.Release | src/TimePicker/Hilite.jsx:52-58 | clears `pressed`, cancels the timer and stops listening for the event; the offset and rate are unchanged |
| Hilite.PressAndHold | src/TimePicker/Hilite.jsx:44-90 | one press and n firings move the offset by (n+1)·direction when hovered (else by one step); the rate is then the delay after n steps |
| Hilite.HoldThenRelease | src/TimePicker/Hilite.jsx:52-58 | after the release, further firings change neither the offset nor the cell |
| Hilite.TopHoldWindow | src/TimePicker/Hilite.jsx:76-90 | holding the top control over 24 items from offset 0 for four steps stores −4 as written (window of 30) and 20 when sanitizing (window of 6) |
| TimeLists.Hours | src/TimePicker/TimeUtilities.js:28-30 | 24 entries; entry i is i, padded with "0" below 10 |
| TimeLists.ArrayLength | src/TimePicker/TimeUtilities.js:37 | `Array(t)` accepts exactly the whole t in [0, 2^32 − 1] |
| TimeLists.GetMinutes | src/TimePicker/TimeUtilities.js:34-47 | a list comes only from a missing interval or a numeric one, and is a valid array length |
| TimeLists.Marks | src/TimePicker/TimeUtilities.js:37-44 | `total` entries; entry i is i·x, padded below 10 |
| TimeLists.GetMinutesOrPlaceholder | src/components/TimePicker/TimeUtilities.js:40-58 | a falsy interval other than undefined gives ["nothing to see"]; any other value is the list of the compact picker |
| TimeLists.MinutesOfDivisor | src/TimePicker/TimeUtilities.js:34-47 | for a whole divisor n of 60 the list is the 60/n marks of n |
| TimeLists.MinutesOfNumber | src/TimePicker/TimeUtilities.js:35-44 | for a number x whose quotient 60/x is a valid length, the list is the marks of x |
| TimeLists.MarksCoverHour | src/TimePicker/TimeUtilities.js:37-44 | the marks of a divisor of 60 are i·n, padded, each in [0,60), and every multiple of n below 60 is one of them |
| TimeLists.DefaultMinutes | src/TimePicker/TimeUtilities.js:34 | without an interval the list has the twelve five-minute marks |
| TimeLists.NonDivisorFails | src/TimePicker/TimeUtilities.js:35-37 | an interval of 7 makes `Array` throw a RangeError |
| TimeLists.ZeroStringFails | src/components/TimePicker/TimeUtilities.js:41-48 | the string "0" is truthy, so it passes the falsy check and then throws |
| TimeLists.NegativeFails | src/TimePicker/TimeUtilities.js:35-37 | an interval of −5 makes `Array` throw |
| TimeLists.NullFails | src/components/TimePicker/TimeUtilities.js:40-44 | null throws in the compact picker's list, and gives the placeholder in the other |
| Intervals.Clamp | src/components/TimePicker/index.jsx:264 | `max(1, min(p, 60))` lies in [1,60] |
| Intervals.DivisorAtMost | src/components/TimePicker/index.jsx:266-268 | the largest divisor of 60 not above n |
| Intervals.NearestDivisor | src/components/TimePicker/index.jsx:254-274 | always a divisor of 60; 1 when `parseInt` gives 0 or NaN; else the largest divisor of 60 not above the parsed value clamped to [1,60] |
| Intervals.ExponentFormIntervals | src/components/TimePicker/index.jsx:259 | `parseInt` reads a number through its string form, so 5e-7 gives 5, −5e-7 and 1e21 give 1, and 12.5 gives 12 |
| Intervals.NearestDivisorOf60 | src/components/TimePicker/index.jsx:254-274 | the decrement loop returns `NearestDivisor` |
| Intervals.SettleInterval | src/components/TimePicker/index.jsx:400-404 | the branching assignment gives `CleanInterval`: a falsy or NaN value becomes the fallback; one the check refuses goes through `nearestDivisorOf60`; any other is kept |
| Intervals.KeepsExactlyDivisors | src/components/TimePicker/index.jsx:402 | the corrected check keeps exactly the whole divisors of 60 |
| Intervals.KeptIsDivisor | src/components/TimePicker/index.jsx:402 | what the corrected check keeps is a whole divisor of 60 |
| Intervals.DivisorIsKept | src/components/TimePicker/index.jsx:402 | every divisor of 60 is kept |
| Intervals.CleanIntervalIsDivisor | src/components/TimePicker/index.jsx:400-404 | with a whole divisor of 60 as fallback, the corrected rule always gives a whole divisor of 60 |
| Intervals.ZeroStringKept | src/components/TimePicker/index.jsx:400-404 | as written, "0" passes the check and its minutes list throws |
| Intervals.ZeroKept | src/components/TimePicker/index.jsx:400-404 | as written, any truthy value whose number is 0 passes the check and its list throws |
| Intervals.EmptyArrayKept | src/components/TimePicker/index.jsx:400-404 | as written, an empty array passes the check and its list throws |
| Intervals.NegativeKept | src/components/TimePicker/index.jsx:400-404 | as written, −5 passes the check and its list throws |
| Intervals.CleanEvery | src/TimePicker/index.jsx:313-330 | a minutes item keeps its own valid interval, else a valid top-level one, else 1; corrected, always a whole divisor of 60 |
| Intervals.TopEvery | src/TimePicker/index.jsx:398-405 | as written the top-level `everyNMinutes` is returned as given; corrected it is a whole divisor of 60 |
| Intervals.ValidEveryIsDivisor | src/TimePicker/index.jsx:314 | the corrected check accepts exactly the whole divisors of 60 |
| Intervals.ZeroEvery | src/TimePicker/index.jsx:314-318 | as written, a truthy value whose number is 0 passes the check, and its list throws |
| Intervals.NegativeEvery | src/TimePicker/index.jsx:314-318 | as written, −5 passes the check, and its list throws |
| Intervals.ZeroStringEvery | src/TimePicker/index.jsx:314-318 | as written, "0" passes the check, and its list throws |
| Intervals.TopEveryUnchecked | src/TimePicker/index.jsx:398-405 | as written, a top-level 7 is returned unchanged and its list throws; corrected it becomes 1 |
| Intervals.OneIsDivisor | src/TimePicker/index.jsx:239 | the default interval 1 is a whole divisor of 60 |
| Display.Entry | src/components/TimePicker/index.jsx:415-427 | a string is lowered and becomes `{role}` exactly when it names a role; an object other than null is kept; anything else is dropped |
| Display.Entries | src/components/TimePicker/index.jsx:415-428 | the first pass keeps at most as many entries, all objects and none null |
| Display.EntriesSplit | src/components/TimePicker/index.jsx:415-428 | the first pass works entry by entry, keeping the order |
| Display.RoleNamesBecomeObjects | src/TimePicker/index.jsx:286-292 | role names in any case each become their role object |
| Display.DefaultDisplayEntries | src/TimePicker/index.jsx:281-299 | the default list becomes the three role objects |
| Display.ObjectsKept | src/TimePicker/index.jsx:294-295 | objects pass the first pass unchanged |
| Display.OthersDropped | src/TimePicker/index.jsx:298-299 | values that are neither strings nor objects leave nothing |
| Display.Restrict | src/components/TimePicker/index.jsx:510-514 | exactly the allowed keys of the item remain, with their values |
| Display.WeekdayAlignIsValid | src/components/TimePicker/index.jsx:454-486 | corrected, a weekdays item always gets an alignment: its own, lowered, when valid, else a valid `weekAlign`, else "center" |
| Display.WeekdayAlignDiffers | src/components/TimePicker/index.jsx:460-486 | the two readings differ exactly when the item's own alignment is a truthy non-string and `weekAlign` is valid |
| Display.NonStringAlignKept | src/TimePicker/index.jsx:338-360 | as written, `textAlign: 5` with `weekAlign: "left"` stays 5, which is no alignment |
| Display.DefaultAlign | src/components/TimePicker/index.jsx:488-504 | hours and minutes items without a valid alignment get "right" and "left"; a valid one is kept; hours and minutes always end with an alignment |
| Display.CleanWeekday | src/components/TimePicker/index.jsx:382-396 | a string whose lowered form is long, short or narrow is kept lowered; anything else becomes the default |
| Display.CleanLocale | src/TimePicker/index.jsx:256-261 | a string whose first two characters, lowered, are an ISO code is kept; anything else becomes the default |
| Display.LocaleByLanguage | src/components/TimePicker/index.jsx:371-374 | a code followed by a region is accepted by its language |
| DisplayReview.KeysAllowed | src/components/TimePicker/index.jsx:325-334 | the role, alignment and interval keys survive the key filter of either picker |
| DisplayReview.ReviewItem | src/components/TimePicker/index.jsx:431-516 | an item is dropped exactly when its role is not valid; a kept item keeps its role; a minutes item promotes its interval and a weekdays item its alignment |
| DisplayReview.ReviewOne | src/TimePicker/index.jsx:302-390 | the arrow function, statement by statement, gives `ReviewItem` |
| DisplayReview.ReviewDisplay | src/components/TimePicker/index.jsx:431-518 | the map and filter, with the closure updating the top-level values, gives `Review` |
| DisplayReview.ReviewAdvance | src/components/TimePicker/index.jsx:431-518 | one item of the loop keeps the loop's invariant |
| DisplayReview.ReviewStep | src/components/TimePicker/index.jsx:431-518 | the pass over a list is the first item's review followed by the rest |
| DisplayReview.ReviewItemIsClean | src/components/TimePicker/index.jsx:431-516 | corrected, a kept item is clean (valid role, allowed keys, valid alignment, whole-divisor interval for minutes); the promoted interval stays a whole divisor of 60; `weekAlign` is unchanged or an alignment |
| DisplayReview.ReviewIsClean | src/TimePicker/index.jsx:302-392 | the same, over the whole list |
| DisplayReview.ReviewPromotes | src/components/TimePicker/index.jsx:451-486 | the top-level interval and `weekAlign` are those of the last minutes and weekdays items kept, else the starting values |
| DisplayReview.ReviewKeepsValidRoles | src/components/TimePicker/index.jsx:437-439 | the second pass keeps exactly the items with a valid role, in order |
| DisplayReview.RolesOf | src/components/TimePicker/index.jsx:437-439 | one role per kept item |
| DisplayReview.Objects | src/components/TimePicker/index.jsx:518 | the kept items as objects, one each, in order |
| DisplayReview.ReviewBoth | src/components/TimePicker/index.jsx:410-522 | both passes as the source runs them give `Reviewed` |
| DisplayReview.DefaultsKept | src/components/TimePicker/index.jsx:520-522 | the default list survives the second pass whole (3 items) |
| DisplayReview.RoleNamesKept | src/TimePicker/index.jsx:286-310 | role names in any case all reach the result of the second pass |
| DisplayReview.ReviewedIsClean | src/components/TimePicker/index.jsx:410-522 | corrected, both passes give at least one item, every item clean, the promoted interval a whole divisor of 60, and `weekAlign` unchanged or an alignment |
| ComponentProps.Spread | src/components/TimePicker/index.jsx:524-533 | the result carries the settled values, keeps every other prop (and, as written, the given time zone), and corrected carries the checked time zone |
| ComponentProps.Sanitize | src/components/TimePicker/index.jsx:281-537 | the sanitizer, step by step, returns `Sanitized` |
| ComponentProps.SanitizedIsClean | src/components/TimePicker/index.jsx:281-537 | corrected, the result has a whole-divisor interval whose minutes list exists, a non-empty display of clean role objects, a valid weekday format, a listed or resolved time zone, and `weekAlign` as given or valid |
| ComponentProps.SettledIsClean | src/components/TimePicker/index.jsx:337-522 | the same for the settled values before they are spread |
| ComponentProps.TimeZoneUnchecked | src/components/TimePicker/index.jsx:524-533 | as written, the result keeps a time zone the check refused; corrected, it carries the resolved zone |
| ComponentProps.ZeroIntervalSurvives | src/components/TimePicker/index.jsx:400-404 | as written, `minutesInterval: "0"` comes back unchanged and its minutes list throws |
| ComponentProps.EmptyDisplayGivesNames | src/components/TimePicker/index.jsx:520-522 | as written, when nothing survives, `display` becomes the role names as strings, none of them an object |
| PickerProps.Spread | src/TimePicker/index.jsx:398-405 | the result carries the five settled values and keeps every other prop |
| PickerProps.Sanitize | src/TimePicker/index.jsx:214-409 | the sanitizer, step by step, returns `Sanitized` |
| PickerProps.SanitizedIsClean | src/TimePicker/index.jsx:214-409 | corrected, `everyNMinutes` is a whole divisor of 60 and its minutes list exists; the display is a non-empty list of clean role objects; the locale is "en" or starts with a listed code; the weekday format is valid; `weekAlign` is as given or valid |
| PickerProps.SettledIsClean | src/TimePicker/index.jsx:255-396 | the same for the settled values, for any code list |
| PickerProps.UncheckedEvery | src/TimePicker/index.jsx:398-405 | as written, `everyNMinutes: 7` with no minutes item comes back as 7, and its minutes list throws |

## Left out

- Numbers are reals. IEEE rounding, infinities and −0 are not modelled. `Number(…)` reads decimal literals only; exponent notation, hex literals and `Infinity` strings are not modelled.
- `toLowerCase` is modelled on ASCII letters and the Kelvin sign (the one non-ASCII character that lowers into ASCII). Every comparison in the core is against ASCII words, so that is all the result depends on.
- `HSLtoRGB` and `hsl2rgb` are a function parameter of `ColorToRGBArray`. They use trigonometry and floating point.
- ColorUtilities.GetGradients: `Math.sin` is a parameter `sinPi`. Each stop's percentage text (`cos`, `toFixed`) is replaced by its position: the turn and the past-halfway flag. The stop texts are therefore not compared as strings.
- The render angles, the `hidden` flag, `sliceOfPI` and the item width (`getWidthOf`) are not modelled. They are floating-point geometry or DOM measurement.
- React state, `useEffect`, real timers and `document.body` listeners are not modelled:
  - a pending timer is a flag, and its firing is a method;
  - listeners are a set of event names.
- In `Render`, `rate` starts at 0, where the source leaves it undefined. It is read only after a press sets it.
- `busy`, `setBusy` and `ANIMATION` are passed or declared but never used, so they are not modelled.
- `getWeekdayNames`, `getTimeChunks`, `adjustTime`, the ambient rotation, `Intl`, `toLocaleString` and `Date` arithmetic are not modelled:
  - a date is its time value, and cloning keeps it;
  - `new Date()` is `Env.now`.
- The time-zone list, the ISO-code list and the resolved time zone of the picker with `minutesInterval`, and `navigator.language`, are parameters (`ComponentProps.Env`).
- The compact picker's ISO list is modelled as written, including its capitalised "Yi". Lowered input never equals "Yi", so that entry cannot match.
- `verbose` and every `console.log` are not modelled. They only write diagnostics.
- TimeLists.GetMinutes: a cell is the number, padded or not, rather than the text `"0" + value`.
- `{...item}` on an array or a date copies index keys or nothing. The model treats both as objects without a role, which the second pass drops.
- Strings are sequences of Unicode code points, where JavaScript counts UTF-16 code units. `length`, `slice` and indexing agree on text made of characters from the Basic Multilingual Plane, which every colour, role, alignment, weekday and locale word in the core is. For a string holding a character outside it (an emoji, say), JavaScript sees a greater length and other slices. The model then differs in the hex length switch, in `locale.slice(0, 2)` and in the validator's match length.
- ColorUtilities.HexToArray: the length switch counts code points. A string with a character outside the Basic Multilingual Plane, such as `#😀a`, has a length in JavaScript that the model does not give it, and so may be read as a different number of digits.
- Cylinder.SanitizeOffset: the offset is a JavaScript number, finite or NaN, as every caller passes (src/TimePicker/index.jsx:138-172 and the control's numeric steps). For a string or array offset `+=` joins text instead of adding. A negative one such as `"-1"` then grows as `"-124"`, `"-12424"`, … and the loop does not end; a non-negative one comes back as the string. Neither case is modelled. The list is modelled by its length, so a missing list is not modelled either: for `items` undefined or null, `items.length` (src/TimePicker/Cylinder.jsx:263) throws a TypeError in the first `useState` (Cylinder.jsx:19-21), before `sanitizeOthers` runs, so the placeholder list of `sanitizeOthers` is reached only for an empty array or a non-array with a `length`.
- Cylinder.SanitizedOffsetProperties: states its guarantees for numeric offsets only, for the reason given for `Cylinder.SanitizeOffset`.
- The App files, the toolbar, `src/ui/components/Cylinder.jsx` and `src/api/gradients.js` are not part of this model.

## Findings

| source | as written | input that shows it | evidently intended | confidence | as-written member | corrected member |
|---|---|---|---|---|---|---|
| src/components/TimePicker/index.jsx:400-404, 442-448 | `minInt % 1 \|\| 60 % minInt` is falsy for 0 given as a truthy value and for negative divisors, so the interval is kept | `minutesInterval: "0"` (or −5, or `[]`): kept, and `getMinutes` then throws a RangeError | only positive whole divisors of 60 are kept | high (not executed) | Intervals.ZeroStringKept, Intervals.NegativeKept, Intervals.EmptyArrayKept, ComponentProps.ZeroIntervalSurvives | Intervals.CleanIntervalIsDivisor, ComponentProps.SanitizedIsClean |
| src/TimePicker/index.jsx:314-318 | `!n \|\| isNaN(n) \|\| 60 % n` accepts "0" (`60 % "0"` is NaN) and −5 | `everyNMinutes: -5` on a minutes item: kept, and the minutes list throws | only whole divisors of 60 are kept | high (not executed) | Intervals.NegativeEvery, Intervals.ZeroStringEvery, Intervals.ZeroEvery | Intervals.ValidEveryIsDivisor, Intervals.CleanEvery |
| src/TimePicker/index.jsx:313-330, 398-405 | the top-level `everyNMinutes` is checked only inside the minutes branch, so without a minutes item it is returned unchecked | `{everyNMinutes: 7, display: ["hours"]}` returns 7, and `getMinutes(7)` throws | the top-level value is checked like the item's | high (not executed) | PickerProps.UncheckedEvery, Intervals.TopEveryUnchecked | PickerProps.SanitizedIsClean, Intervals.TopEvery |
| src/components/TimePicker/index.jsx:486 | `textAlign \|\| weekAlign` keeps a truthy non-string `textAlign` whenever `weekAlign` is valid | `display: [{role: "weekdays", textAlign: 5}]`, `weekAlign: "left"` gives alignment 5, also at the top level | the alignment is always one of left, right, center | high (not executed) | Display.NonStringAlignKept, Display.WeekdayAlignDiffers | Display.WeekdayAlignIsValid |
| src/TimePicker/Hilite.jsx:78-79, 87-88 | the controls store `closureOffset` with the raw setter, so a negative offset skips `sanitizeOffset` | 24 items, spacing 8.5, top control held from 0 for four steps: offset −4, window of 30 items where 6 are meant | the stored offset is sanitized | high (not executed) | Cylinder.NegativeOffsetWindow, Hilite.TopHoldWindow | Hilite.OffsetCell.SanitizedStore, Cylinder.SanitizedWindow |
| src/components/TimePicker/index.jsx:520-522 | when no item survives, `display` becomes the role names as strings, which the picker expects to be objects with a role | `display: [5]` gives `["weekdays", "hours", "minutes"]` as strings; the compact picker has the same fallback (src/TimePicker/index.jsx:394-396), where `display: [{role: "HOURS"}]` leaves nothing, each string entry then has no `role` and so no `items`, and the Cylinder throws a TypeError at `items.length` (src/TimePicker/Cylinder.jsx:263) on its first render | the defaults go through the same normalisation as any display | high (not executed) | ComponentProps.EmptyDisplayGivesNames | DisplayReview.ReviewedIsClean, ComponentProps.SanitizedIsClean |
| src/components/TimePicker/index.jsx:360-367, 524-533 | the checked `timeZone` is not part of the returned props, so the one given survives | `timeZone: "Mars/Base"` (not listed) is returned unchanged | the result carries the checked time zone | high (not executed) | ComponentProps.TimeZoneUnchecked | ComponentProps.SanitizedIsClean |

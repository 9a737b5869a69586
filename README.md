# logic-serial firmware, modelled in Dafny

The logic-serial firmware runs on an ESP32 "Logic" board. It reads
newline-terminated text commands from a serial port and drives the board's
hardware with them: a 10×10 LED matrix, a 5-LED status strip and a buzzer.
It also watches nine push buttons and writes `pressed <i>` / `released <i>`
lines back to the same port when a button changes state.

This project models the firmware's core and proves properties of the model:

- **Text** (`text.dfy`): the C-locale character classes (`isspace`,
  `isalnum`, `iscmdchar`) and `is_number`. It also has what the firmware
  uses from the C++ library:
  - `std::stoi` on the strings that reach it, as `ParseInt`;
  - `std::to_string`, as `FormatInt`;
  - integer division, which truncates toward zero, as `TruncDiv`.
- **CommandLine** (`command.dfy`): the `Command` record, `to_string`,
  `check_args`, `arg<Int>` / `arg<String>`, and the tokeniser.
  - The tokeniser is given twice. `Tokens` / `ParseLine` are functions of
    the line. `ParseArg` / `ParseCommand` are iterator loops as in the
    firmware, each proved equal to the function. The two loops of
    `parse_arg` are the helper methods `SkipSpace` and `ReadRun`.
  - Lemmas cover what the parser accepts and rejects, and the round trip
    `ParseLine(ToString(c)) == Parsed(c)`.
- **Dispatch** (`dispatch.dfy`): the table of seven commands and each
  command's effect.
  - The state is a `Hardware` value: the two frame buffers, the buzzer level
    and a trace of LED driver calls.
  - `Execute` describes the whole tail of `loop()`: parse, look up, check
    the arguments, run the effect.
  - The class `Panel` holds the frame buffers as arrays. Its methods perform
    the effects in place, and each is proved to match the corresponding
    function.
- **ButtonMonitor** (`buttons.dfy`): the class `Buttons`, with its four
  index-aligned vectors, `update` and `set_callback`, and the accessors
  `count`, `is_pressed` and `changed`.
  - The `update` method is proved equal to `Poll`, a function on a
    `Monitor` value.
  - Lemmas about `Poll` cover the states, the sticky change flags, and which
    callbacks fire and in what order.
- **Firmware** (`firmware.dfy`): the `Board`. Its constructor is the global
  objects plus `setup()`, which registers the notifier on every button.
  `Loop` is one call of `loop()`:
  1. poll the buttons;
  2. collect the bytes that are available, up to a newline;
  3. repeat until a newline arrives;
  4. then parse and dispatch the line once.

Inputs and outputs are parameters and fields:
- The serial bytes arrive as a sequence of bursts, one per pass of the outer
  loop.
- The sampled button levels are a sequence of level vectors, one per poll.
- The lines the button callbacks print are collected in `Board.sent`.
- LED `wait()` and `show()` are recorded as `Wait` and `Shown` trace events.

`arg<Int>` calls `std::stoi`, which throws on an argument that `is_number`
lets through but that holds no digit (`-`). This exception is modelled as
the outcome `Unconvertible`. It occurs at the point in the effect where the
firmware reads that argument: a pixel command whose colour is unconvertible
has already waited for the strip.

The model follows the code, including these behaviours:
- A button's change flag is set on every transition and never cleared
  (`RepeatedPollIsQuiet` shows it stays set across a quiet poll).
- `is_number` accepts the empty string and a lone `-`
  (`BareMinusReachesEffect`).
- `parse_arg` can only report `true` at the end of the line, so the
  early-failure branch in `parse_command` is dead. `ParseArg` proves this,
  and `ParseCommand` asserts it there.

## Model

| member | source | states |
|---|---|---|
| Text.IsNumber | src/main.cpp:77-89 | true exactly when every character is a digit, except that the first may be '-'; so "" and "-" pass |
| Text.ParseInt | src/main.cpp:120-127 | the decimal value of a numeral: negative only after a leading '-', and at most zero after one |
| Text.FormatNat | src/main.cpp:66-68 | std::to_string of a non-negative index is a non-empty string of digits |
| Text.ParseFormatInt | src/main.cpp:66-68 | std::stoi reads back every value std::to_string writes: every formatted int is a numeral that parses to itself |
| Text.TruncDiv | src/main.cpp:190-194 | C++ division by a positive divisor: the remainder lies in [0, d) for a non-negative dividend and in (-d, 0] for a negative one, i.e. the quotient truncates toward zero |
| Dispatch.DimTruncates | src/main.cpp:190-194 | halving a channel truncates toward zero: -3 becomes -1 and -1 becomes 0, unlike floor division |
| CommandLine.CheckArgs | src/main.cpp:108-118 | the loop accepts exactly when the argument count equals the expected count and every Int position passes is_number |
| CommandLine.TextArg | src/main.cpp:120-127 | arg<String> of a parsed command is a non-empty, whitespace-free token |
| CommandLine.RunLength | src/main.cpp:141-145 | the length of the longest whitespace-free prefix: no whitespace before it and whitespace (or the end) at it |
| CommandLine.TokensAreTokens | src/main.cpp:133-148 | every token the tokeniser yields is non-empty and free of whitespace |
| CommandLine.TokensEmptyIff | src/main.cpp:134-139 | a line yields no token exactly when it is all whitespace |
| CommandLine.TokensAfterSpaces | src/main.cpp:134-136 | leading whitespace does not change the tokens |
| CommandLine.TokensSplit | src/main.cpp:133-148 | a whitespace character separates: the tokens of a + [w] + b are those of a followed by those of b |
| CommandLine.TokensOfToken | src/main.cpp:141-147 | a token on its own is read back as itself |
| CommandLine.TokensOfArgsText | src/main.cpp:100-106 | the tokens of a name followed by to_string's " " + arg pieces are the name and the arguments |
| CommandLine.SkipSpace | src/main.cpp:134-136 | the first loop stops at the first non-whitespace character at or after begin, or at the end; it skips only whitespace, and neither the tokens nor the end of the next token move |
| CommandLine.ReadRun | src/main.cpp:141-145 | the second loop collects exactly the characters from its start up to the next whitespace or the end |
| CommandLine.TokenEndFollowsToken | src/main.cpp:133-148 | TokenEnd, the position parse_arg returns, comes right after the next token, with only whitespace between the start and that token |
| CommandLine.ParseArg | src/main.cpp:133-148 | parse_arg reports the end (and only ever with true) exactly when no token is left; otherwise it returns the next token and the position TokenEnd just past it, which is whitespace or the end |
| CommandLine.ParseCommand | src/main.cpp:150-177 | parse_command equals ParseLine: the first token is the name, rejected unless made of command characters, and the remaining tokens are the arguments in order |
| CommandLine.ParsedIsWellFormed | src/main.cpp:150-177 | a parsed command has a token name of command characters and token arguments, and name plus arguments are the line's tokens |
| CommandLine.ParseFailsIff | src/main.cpp:150-161 | parsing fails exactly when the line is all whitespace or its first token holds a character that is neither alphanumeric nor '_' |
| CommandLine.ParseLeadingToken | src/main.cpp:150-161 | for whitespace, a token and a rest starting at whitespace, the line fails exactly when the token is not a command name, and otherwise names that command |
| CommandLine.RoundTrip | src/main.cpp:100-106 | parsing the to_string text of a well-formed command gives the command back |
| CommandLine.ReparseParsed | src/main.cpp:150-177 | re-parsing the text of whatever parse_command produced gives the same result |
| CommandLine.ParseBlankLines | src/main.cpp:133-155 | the empty line and a line of blanks are not commands |
| CommandLine.ParseBadNameExample | src/main.cpp:159-161 | a name containing '!' is rejected |
| CommandLine.ParseCarriageReturnExample | src/main.cpp:134-136 | a trailing carriage return is whitespace, so "show\r" is the command show |
| Dispatch.ExecuteText | src/main.cpp:253-270 | executing the text of a well-formed command executes that command |
| Dispatch.DispatchGated | src/main.cpp:253-270 | each rejection outcome occurs exactly when its gate fails (no parse, unknown name, arguments refused), a rejected line changes no buffer, level or driver call, and any change implies all three gates passed |
| Dispatch.SetWritesOnePixel | src/main.cpp:182-195 | set: an x or y outside [0, 10) changes nothing; otherwise a wait on the matrix, then only pixel x + 10*y changes, to the halved channels |
| Dispatch.SetStatusWritesOnePixel | src/main.cpp:207-219 | set_status: an index outside [0, 5) changes nothing; otherwise a wait on the status strip, then only pixel index changes, to the halved channels |
| Dispatch.ClearBlanksStrip | src/main.cpp:196-202 | clear and clear_status: every pixel of that strip is black, the other strip and the buzzer are untouched, and the black frame is shown after a wait |
| Dispatch.ShowKeepsBuffers | src/main.cpp:203-206 | show and show_status: nothing changes but the trace, which gains a wait and the showing of the current frame |
| Dispatch.BuzzerFollowsValue | src/main.cpp:231-235 | set_buzzer v: the buzzer level becomes v != 0 and nothing else changes |
| Dispatch.SetExample | src/main.cpp:182-195 | "set 1 2 8 6 4" waits for the matrix and sets pixel 1 + 2*10 = 21 to the halved (4, 3, 2), nothing else |
| Dispatch.SetExampleText | src/main.cpp:100-106 | the text of set 1 2 8 6 4 as to_string writes it |
| Dispatch.SetExampleCommand | src/main.cpp:182-195 | the command set 1 2 8 6 4 writes pixel 21 after the wait |
| Dispatch.SetOutOfRangeExample | src/main.cpp:185-188 | set 10 0 0 0 0 has x out of range: nothing changes and no driver call is made |
| Dispatch.BuzzerExample | src/main.cpp:231-235 | set_buzzer 0 drives the buzzer low and set_buzzer 5 high, from any state |
| Dispatch.RejectedExamples | src/main.cpp:260-269 | blink is an unknown command and set 1 2 3 has the wrong argument count; neither changes anything |
| Dispatch.BareMinusReachesEffect | src/main.cpp:77-89 | is_number accepts a bare "-", so "set_buzzer -" passes check_args and reaches std::stoi, which cannot convert it |
| Dispatch.BareMinusCommand | src/main.cpp:231-235 | the text of set_buzzer - and that its effect cannot convert the argument |
| Dispatch.Panel.State | src/main.cpp:46-47 | the in-place buffers hold 100 matrix and 5 status pixels |
| Dispatch.Panel.constructor | src/main.cpp:46-59 | both strips start black, the buzzer low, and no driver call has been made |
| Dispatch.Panel.Paint | src/main.cpp:189-194 | waits for the strip and writes one pixel in place, as PaintStep describes |
| Dispatch.Panel.Set | src/main.cpp:182-195 | the in-place set effect equals SetStep |
| Dispatch.Panel.SetStatus | src/main.cpp:207-219 | the in-place set_status effect equals SetStatusStep |
| Dispatch.Panel.Fill | src/main.cpp:198-200 | the loop over a strip leaves every pixel of it black and the rest of the state as it was |
| Dispatch.Panel.Clear | src/main.cpp:196-202 | the in-place clear effect equals ClearStep |
| Dispatch.Panel.Show | src/main.cpp:203-206 | the show effect equals ShowStep |
| Dispatch.Panel.SetBuzzer | src/main.cpp:231-235 | the set_buzzer effect equals BuzzerStep |
| Dispatch.Panel.Run | src/main.cpp:181-236 | running a table entry's effect equals EffectStep |
| Dispatch.Panel.Dispatch | src/main.cpp:253-270 | parse, look up, check, then run: the new state and outcome are those of Execute |
| ButtonMonitor.Poll | src/buttons.cpp:16-27 | an update keeps the vectors aligned and leaves the pins and callbacks as they were |
| ButtonMonitor.PollAll | src/buttons.cpp:16-27 | a sequence of updates keeps the vectors aligned and the pins and callbacks unchanged |
| ButtonMonitor.PollStatesAndFlags | src/buttons.cpp:16-27 | after an update each state is (level == LOW); a flag is raised where the state flipped, stays raised once raised, and an unflipped button keeps its state and flag |
| ButtonMonitor.FiredSound | src/buttons.cpp:19-25 | every callback invocation is for a flipped button that has a callback, with that callback and the new state |
| ButtonMonitor.FiredOrdered | src/buttons.cpp:17 | invocations happen in strictly increasing button order |
| ButtonMonitor.FiredComplete | src/buttons.cpp:19-25 | a button has an invocation exactly when it flipped and has a callback |
| ButtonMonitor.FiredOncePerButton | src/buttons.cpp:16-27 | no button's callback is invoked twice in one update |
| ButtonMonitor.RepeatedPollIsQuiet | src/buttons.cpp:16-27 | a second update with the same levels fires nothing and moves no state, but the flags raised by the first stay raised: changed() is sticky |
| ButtonMonitor.Buttons.constructor | src/buttons.cpp:5-14 | one entry per pin: released, unchanged, no callback; count() is the number of pins and no button reads as pressed or changed |
| ButtonMonitor.Buttons.Count | src/buttons.h:14-18 | count() is the length of every per-button vector, so is_pressed and changed can be read at every id below it; the pins are fixed, and Update and SetCallback keep the count |
| ButtonMonitor.Buttons.Update | src/buttons.cpp:16-27 | the new vectors are Poll of the old ones, the invocations returned are Fired, is_pressed(i) is (level == LOW) and changed(i) is the old flag or a flip |
| ButtonMonitor.Buttons.SetCallback | src/buttons.cpp:29-31 | only callback slot id changes; states, flags, the count and what is_pressed and changed read are untouched |
| Firmware.NotifyReporters | src/main.cpp:62-70 | when every callback is the notifier, each event prints exactly one line, its own |
| Firmware.NotificationIsCommandText | src/main.cpp:64-68 | a property beyond what the firmware relies on: the notification words have the form of the to_string text of a well-formed command, pressed/released with the index as its argument |
| Firmware.ParseWithTrailingSpace | src/main.cpp:134-136 | a trailing whitespace character such as '\r' does not change what a command's text parses to |
| Firmware.NotificationParses | src/main.cpp:62-70 | a printed notification is the words + "\r\n", and its index reads back through stoi; as an extra beyond what the firmware relies on (notifications go to the host), the line before the newline would also parse as a command under this tokeniser |
| Firmware.ReadAvailable | src/main.cpp:242-249 | the inner loop stops after the first newline, which it consumes but does not append; without one it appends the whole burst |
| Firmware.ConcatSplit | src/main.cpp:240-251 | the received bytes split at any burst boundary |
| Firmware.Board.constructor | src/main.cpp:46-71 | after setup every button is released, unflagged and has the notifier as its callback; both strips are black, the buzzer low, nothing sent |
| Firmware.Board.PollButtons | src/main.cpp:241 | one buttons.update() with the notifiers registered: the monitor becomes Poll of what it was and the lines sent grow by the notifications of the events fired |
| Firmware.Board.Gather | src/main.cpp:240-251 | after the passes made, the monitor is PollAll over their samples and the notifications of all their events were sent; without a newline every burst was read into the line, with one the line is the earlier bursts plus the newline burst up to its first newline |
| Firmware.Board.Loop | src/main.cpp:238-271 | without a newline, every burst is polled and read and nothing is executed; with one, the line is exactly the bytes before the first newline, the bytes after it stay unread, the execution is that of Execute on the line, the buttons are PollAll over the polls done, and the lines sent are the notifications of their events |

## Left out

- Hardware set-up and I/O are left out: `Serial.begin`, the LED power pin, the pin modes, `digitalRead` and `digitalWrite`. Button levels and serial bytes are parameters, the buzzer level is a state field and notifications are collected as strings.
- `yield()` and the cooperative scheduling around `loop()` are not modelled; one call of `Loop` is one call of `loop()`.
- The `DEBUG_LINE` diagnostics printed on the USB serial port are left out. Three outcome codes replace one diagnostic each: `Unknown` the "Invalid command" line, `BadArguments` the "Invalid arguments" line, and `OutOfRange` the "Invalid coordinates" and "Invalid index" lines. `Unparsed` is the silent return on a line that is not a command, and `Unconvertible` is the exception `std::stoi` throws; neither replaces a diagnostic. The "Command: …" line printed for every parsed command has no counterpart.
- The SmartLeds driver internals are left out; `wait()` and `show()` are recorded as trace events with the frame shown.
- The exception thrown by `std::stoi` on "-" becomes the `Unconvertible` outcome; what an uncaught exception does on the microcontroller (abort and reset) is not modelled.
- Text.ParseInt: the range of `int` is not modelled, so `std::stoi`'s out-of-range exception on very long numerals does not appear.
- Dispatch.SetWritesOnePixel: channel values are kept as whole integers; the narrowing of the LED library's colour type to 8 bits per channel is not modelled.
- Dispatch.SetStatusWritesOnePixel: the same, for the status strip.
- Only the LOGIC 1.1 pin assignment is modelled; the LOGIC 1.2 button pins are not.
- Callbacks are modelled as handlers whose invocation is recorded; a callback that calls back into the monitor while `update` runs is not modelled.
- Characters are those of the C locale; other locales' character classes are not modelled.

/** The command table and its effects: a 10x10 LED matrix, a 5-LED status
    strip and a buzzer, driven by validated commands (src/main.cpp). */
module Dispatch {
  import opened Text
  import opened CommandLine

  const BrightnessDivisor: int := 2
  const MatrixWidth: int := 10
  const MatrixSize: nat := 100
  const StatusSize: nat := 5

  datatype Rgb = Rgb(r: int, g: int, b: int)

  const Black: Rgb := Rgb(0, 0, 0)

  /** The two LED chains: the matrix (`leds`) and the status strip (`status`). */
  datatype Strip = Matrix | Status

  /** The driver calls a frame buffer receives besides pixel writes: wait(),
      which lets the previous transmission finish, and show(), recorded with
      the frame it transmits. */
  datatype StripEvent = Wait(strip: Strip) | Shown(strip: Strip, frame: seq<Rgb>)

  /** The effects the command table binds. */
  datatype Effect = SetMatrixPixel | SetStatusPixel | ClearStrip(strip: Strip) | ShowStrip(strip: Strip) | SetBuzzerLevel

  /** One table entry: the expected argument kinds and the effect. */
  datatype Entry = Entry(kinds: seq<ArgType>, effect: Effect)

  /** The `commands` table (a buzzer pin is configured, so set_buzzer is present). */
  const CommandTable: map<string, Entry> := map[
    "set" := Entry([Int, Int, Int, Int, Int], SetMatrixPixel),
    "clear" := Entry([], ClearStrip(Matrix)),
    "show" := Entry([], ShowStrip(Matrix)),
    "set_status" := Entry([Int, Int, Int, Int], SetStatusPixel),
    "clear_status" := Entry([], ClearStrip(Status)),
    "show_status" := Entry([], ShowStrip(Status)),
    "set_buzzer" := Entry([Int], SetBuzzerLevel)
  ]

  /** How one line ends: not a command, an unknown name, rejected arguments,
      an effect that ran, an effect that returned early on a coordinate or
      index out of range, or an effect stopped because std::stoi could not
      convert an argument (a bare "-" that is_number let through). */
  datatype Outcome = Unparsed | Unknown | BadArguments | Applied | OutOfRange | Unconvertible

  /** The state the effects act on: both frame buffers, the buzzer output
      level and the driver calls issued so far. */
  datatype Hardware = Hardware(leds: seq<Rgb>, status: seq<Rgb>, buzzer: bool, trace: seq<StripEvent>)

  datatype Step = Step(hw: Hardware, outcome: Outcome)

  predicate Sized(hw: Hardware) {
    |hw.leds| == MatrixSize && |hw.status| == StatusSize
  }

  function Blank(n: nat): seq<Rgb> {
    seq(n, _ => Black)
  }

  function Pixels(hw: Hardware, strip: Strip): seq<Rgb> {
    if strip == Matrix then hw.leds else hw.status
  }

  function WithPixels(hw: Hardware, strip: Strip, px: seq<Rgb>): Hardware {
    if strip == Matrix then hw.(leds := px) else hw.(status := px)
  }

  function Issue(hw: Hardware, events: seq<StripEvent>): Hardware {
    hw.(trace := hw.trace + events)
  }

  /** A colour channel as stored: divided by the brightness divisor, truncating. */
  function Dim(v: int): int {
    TruncDiv(v, BrightnessDivisor)
  }

  function Colour(r: int, g: int, b: int): Rgb {
    Rgb(Dim(r), Dim(g), Dim(b))
  }

  /** How many arguments an effect reads. */
  function Arity(e: Effect): nat {
    match e
    case SetMatrixPixel => 5
    case SetStatusPixel => 4
    case ClearStrip(_) => 0
    case ShowStrip(_) => 0
    case SetBuzzerLevel => 1
  }

  // ---------------------------------------------------------------------------
  // The effects as functions of the hardware state.

  /** Wait for the strip, then write pixel `index` with the colour given by
      three arguments from `first` on. */
  function PaintStep(hw: Hardware, strip: Strip, index: int, c: Command, first: nat): Step
    requires Sized(hw) && 0 <= index < |Pixels(hw, strip)| && first + 3 <= |c.args|
  {
    var waited := Issue(hw, [Wait(strip)]);
    if !IsNumeral(c.args[first]) || !IsNumeral(c.args[first + 1]) || !IsNumeral(c.args[first + 2]) then
      Step(waited, Unconvertible)
    else
      var colour := Colour(IntArg(c, first), IntArg(c, first + 1), IntArg(c, first + 2));
      Step(WithPixels(waited, strip, Pixels(hw, strip)[index := colour]), Applied)
  }

  /** set x y r g b */
  function SetStep(hw: Hardware, c: Command): Step
    requires Sized(hw) && |c.args| >= 5
  {
    if !IsNumeral(c.args[0]) || !IsNumeral(c.args[1]) then Step(hw, Unconvertible)
    else
      var x, y := IntArg(c, 0), IntArg(c, 1);
      if x < 0 || x >= MatrixWidth || y < 0 || y >= MatrixWidth then Step(hw, OutOfRange)
      else PaintStep(hw, Matrix, x + y * MatrixWidth, c, 2)
  }

  /** set_status index r g b */
  function SetStatusStep(hw: Hardware, c: Command): Step
    requires Sized(hw) && |c.args| >= 4
  {
    if !IsNumeral(c.args[0]) then Step(hw, Unconvertible)
    else
      var index := IntArg(c, 0);
      if index < 0 || index >= StatusSize then Step(hw, OutOfRange)
      else PaintStep(hw, Status, index, c, 1)
  }

  /** clear, clear_status */
  function ClearStep(hw: Hardware, strip: Strip): Step {
    var n := |Pixels(hw, strip)|;
    Step(Issue(WithPixels(hw, strip, Blank(n)), [Wait(strip), Shown(strip, Blank(n))]), Applied)
  }

  /** show, show_status */
  function ShowStep(hw: Hardware, strip: Strip): Step {
    Step(Issue(hw, [Wait(strip), Shown(strip, Pixels(hw, strip))]), Applied)
  }

  /** set_buzzer value */
  function BuzzerStep(hw: Hardware, c: Command): Step
    requires |c.args| >= 1
  {
    if !IsNumeral(c.args[0]) then Step(hw, Unconvertible)
    else Step(hw.(buzzer := IntArg(c, 0) != 0), Applied)
  }

  function EffectStep(hw: Hardware, c: Command, e: Effect): Step
    requires Sized(hw) && |c.args| >= Arity(e)
  {
    match e
    case SetMatrixPixel => SetStep(hw, c)
    case SetStatusPixel => SetStatusStep(hw, c)
    case ClearStrip(strip) => ClearStep(hw, strip)
    case ShowStrip(strip) => ShowStep(hw, strip)
    case SetBuzzerLevel => BuzzerStep(hw, c)
  }

  lemma TableArities(name: string)
    requires name in CommandTable
    ensures |CommandTable[name].kinds| == Arity(CommandTable[name].effect)
  {
  }

  /** What loop() does with a parsed command: look the name up, check the
      arguments against the entry's kinds, run the entry's effect. */
  function ExecuteCommand(hw: Hardware, c: Command): Step
    requires Sized(hw)
  {
    if c.name !in CommandTable then Step(hw, Unknown)
    else if !ArgsMatch(c.args, CommandTable[c.name].kinds) then Step(hw, BadArguments)
    else
      TableArities(c.name);
      EffectStep(hw, c, CommandTable[c.name].effect)
  }

  /** What the tail of loop() does with one line: parse it, then execute the command. */
  function Execute(hw: Hardware, line: string): Step
    requires Sized(hw)
  {
    match ParseLine(line)
    case NotACommand => Step(hw, Unparsed)
    case Parsed(c) => ExecuteCommand(hw, c)
  }

  /** Executing the text of a well-formed command executes that command. */
  lemma ExecuteText(hw: Hardware, c: Command)
    requires Sized(hw) && WellFormed(c)
    ensures Execute(hw, ToString(c)) == ExecuteCommand(hw, c)
  {
    RoundTrip(c);
  }

  // ---------------------------------------------------------------------------
  // Properties of dispatch and of each effect.

  /** An effect runs only when all three gates pass: the line parses, its name
      is a key of the table, and check_args accepts the arguments. A line
      stopped at a gate changes no buffer, no buzzer level and issues no
      driver call. */
  lemma DispatchGated(hw: Hardware, line: string)
    requires Sized(hw)
    ensures Execute(hw, line).outcome == Unparsed <==> ParseLine(line).NotACommand?
    ensures Execute(hw, line).outcome == Unknown <==>
      ParseLine(line).Parsed? && ParseLine(line).command.name !in CommandTable
    ensures Execute(hw, line).outcome == BadArguments <==>
      ParseLine(line).Parsed? && ParseLine(line).command.name in CommandTable &&
      !ArgsMatch(ParseLine(line).command.args, CommandTable[ParseLine(line).command.name].kinds)
    ensures Execute(hw, line).outcome in {Unparsed, Unknown, BadArguments} ==> Execute(hw, line).hw == hw
    ensures Execute(hw, line).hw != hw ==>
      ParseLine(line).Parsed? && ParseLine(line).command.name in CommandTable &&
      ArgsMatch(ParseLine(line).command.args, CommandTable[ParseLine(line).command.name].kinds)
  {
    match ParseLine(line)
    case NotACommand =>
    case Parsed(c) =>
      if c.name in CommandTable && ArgsMatch(c.args, CommandTable[c.name].kinds) {
        TableArities(c.name);
        var e := CommandTable[c.name].effect;
        assert EffectStep(hw, c, e).outcome in {Applied, OutOfRange, Unconvertible};
      }
  }

  /** set x y r g b with convertible arguments: an out-of-range coordinate
      leaves everything as it was; otherwise, after a wait on the matrix, only
      pixel x + 10*y changes, to the channels halved with truncation. */
  lemma SetWritesOnePixel(hw: Hardware, c: Command)
    requires Sized(hw) && |c.args| >= 5
    requires forall i :: 0 <= i < 5 ==> IsNumeral(c.args[i])
    ensures var x, y, s := IntArg(c, 0), IntArg(c, 1), SetStep(hw, c);
      if 0 <= x < MatrixWidth && 0 <= y < MatrixWidth then
        s.outcome == Applied &&
        s.hw.status == hw.status && s.hw.buzzer == hw.buzzer &&
        s.hw.trace == hw.trace + [Wait(Matrix)] &&
        |s.hw.leds| == MatrixSize &&
        s.hw.leds[x + y * MatrixWidth] == Rgb(Dim(IntArg(c, 2)), Dim(IntArg(c, 3)), Dim(IntArg(c, 4))) &&
        forall k :: 0 <= k < MatrixSize && k != x + y * MatrixWidth ==> s.hw.leds[k] == hw.leds[k]
      else
        s == Step(hw, OutOfRange)
  {
  }

  /** set_status i r g b with convertible arguments: the same for the status strip and pixel i. */
  lemma SetStatusWritesOnePixel(hw: Hardware, c: Command)
    requires Sized(hw) && |c.args| >= 4
    requires forall i :: 0 <= i < 4 ==> IsNumeral(c.args[i])
    ensures var i, s := IntArg(c, 0), SetStatusStep(hw, c);
      if 0 <= i < StatusSize then
        s.outcome == Applied &&
        s.hw.leds == hw.leds && s.hw.buzzer == hw.buzzer &&
        s.hw.trace == hw.trace + [Wait(Status)] &&
        |s.hw.status| == StatusSize &&
        s.hw.status[i] == Rgb(Dim(IntArg(c, 1)), Dim(IntArg(c, 2)), Dim(IntArg(c, 3))) &&
        forall k :: 0 <= k < StatusSize && k != i ==> s.hw.status[k] == hw.status[k]
      else
        s == Step(hw, OutOfRange)
  {
  }

  /** clear and clear_status: every pixel of the strip is black, the other
      strip and the buzzer are untouched, and the all-black frame is shown
      after the wait. */
  lemma ClearBlanksStrip(hw: Hardware, strip: Strip)
    requires Sized(hw)
    ensures var s := ClearStep(hw, strip);
      |Pixels(s.hw, strip)| == |Pixels(hw, strip)| &&
      (forall k :: 0 <= k < |Pixels(s.hw, strip)| ==> Pixels(s.hw, strip)[k] == Black) &&
      Pixels(s.hw, if strip == Matrix then Status else Matrix) == Pixels(hw, if strip == Matrix then Status else Matrix) &&
      s.hw.buzzer == hw.buzzer &&
      s.hw.trace == hw.trace + [Wait(strip), Shown(strip, Pixels(s.hw, strip))]
  {
  }

  /** show and show_status: the buffers and the buzzer stay as they are and
      the current frame is shown after the wait. */
  lemma ShowKeepsBuffers(hw: Hardware, strip: Strip)
    requires Sized(hw)
    ensures var s := ShowStep(hw, strip);
      s.hw.leds == hw.leds && s.hw.status == hw.status && s.hw.buzzer == hw.buzzer &&
      s.hw.trace == hw.trace + [Wait(strip), Shown(strip, Pixels(hw, strip))]
  {
  }

  /** set_buzzer v: the output level becomes v != 0 and nothing else changes. */
  lemma BuzzerFollowsValue(hw: Hardware, c: Command)
    requires |c.args| >= 1 && IsNumeral(c.args[0])
    ensures BuzzerStep(hw, c) == Step(hw.(buzzer := IntArg(c, 0) != 0), Applied)
    ensures BuzzerStep(hw, c).hw.buzzer <==> ParseInt(c.args[0]) != 0
  {
  }

  /** Channels are halved with truncation toward zero, as C++ divides: -3
      becomes -1 (floor division would give -2) and -1 becomes 0. */
  lemma DimTruncates()
    ensures Dim(-3) == -1 && Dim(-1) == 0 && Dim(3) == 1 && Dim(30) == 15
  {
  }

  // Concrete lines. Each is split in two: what the command text is and what
  // executing the command does, then the line itself through ExecuteText.

  lemma SetExampleText()
    ensures ToString(Command("set", ["1", "2", "8", "6", "4"])) == "set 1 2 8 6 4"
  {
    var c := Command("set", ["1", "2", "8", "6", "4"]);
    assert ArgsText(["1"]) == " 1";
    assert ArgsText(["1", "2"]) == " 1 2";
    assert ArgsText(["1", "2", "8"]) == " 1 2 8";
    assert ["1", "2", "8", "6"][..3] == ["1", "2", "8"];
    assert ArgsText(["1", "2", "8", "6"]) == " 1 2 8 6";
    assert c.args[..4] == ["1", "2", "8", "6"];
  }

  lemma SetExampleCommand(hw: Hardware)
    requires Sized(hw)
    ensures ExecuteCommand(hw, Command("set", ["1", "2", "8", "6", "4"])) ==
      Step(hw.(leds := hw.leds[21 := Rgb(4, 3, 2)], trace := hw.trace + [Wait(Matrix)]), Applied)
  {
    var c := Command("set", ["1", "2", "8", "6", "4"]);
    assert CommandTable[c.name] == Entry([Int, Int, Int, Int, Int], SetMatrixPixel);
    assert ArgsMatch(c.args, [Int, Int, Int, Int, Int]);
    assert IntArg(c, 0) == 1 && IntArg(c, 1) == 2;
    assert IntArg(c, 2) == 8 && IntArg(c, 3) == 6 && IntArg(c, 4) == 4;
    assert SetStep(hw, c) == PaintStep(hw, Matrix, 21, c, 2);
  }

  /** `set 1 2 8 6 4` waits for the matrix and writes pixel 1 + 2*10 = 21
      with the halved channels (4, 3, 2); nothing else changes. */
  lemma SetExample(hw: Hardware)
    requires Sized(hw)
    ensures Execute(hw, "set 1 2 8 6 4") ==
      Step(hw.(leds := hw.leds[21 := Rgb(4, 3, 2)], trace := hw.trace + [Wait(Matrix)]), Applied)
  {
    SetExampleText();
    SetExampleCommand(hw);
    ExecuteText(hw, Command("set", ["1", "2", "8", "6", "4"]));
  }

  /** set 10 0 0 0 0 has x outside [0, 10): no pixel write and no driver call. */
  lemma SetOutOfRangeExample(hw: Hardware)
    requires Sized(hw)
    ensures ExecuteCommand(hw, Command("set", ["10", "0", "0", "0", "0"])) == Step(hw, OutOfRange)
  {
    var c := Command("set", ["10", "0", "0", "0", "0"]);
    assert "10"[..1] == "1";
    assert DigitsValue("10") == 10;
    assert IntArg(c, 0) == 10;
  }

  /** set_buzzer 0 drives the buzzer low and set_buzzer 5 high, whatever the
      level was. */
  lemma BuzzerExample(hw: Hardware)
    requires Sized(hw)
    ensures ExecuteCommand(hw, Command("set_buzzer", ["0"])) == Step(hw.(buzzer := false), Applied)
    ensures ExecuteCommand(hw, Command("set_buzzer", ["5"])) == Step(hw.(buzzer := true), Applied)
  {
  }

  /** A name that is not in the table and a set with three arguments both
      leave every buffer, the buzzer and the driver untouched. */
  lemma RejectedExamples(hw: Hardware)
    requires Sized(hw)
    ensures ExecuteCommand(hw, Command("blink", [])) == Step(hw, Unknown)
    ensures ExecuteCommand(hw, Command("set", ["1", "2", "3"])) == Step(hw, BadArguments)
  {
  }

  lemma BareMinusCommand(hw: Hardware)
    requires Sized(hw)
    ensures ToString(Command("set_buzzer", ["-"])) == "set_buzzer -"
    ensures ExecuteCommand(hw, Command("set_buzzer", ["-"])) == Step(hw, Unconvertible)
  {
  }

  /** is_number accepts a bare "-", so `set_buzzer -` passes check_args; the
      conversion std::stoi then has to make is impossible, and the effect
      stops there without touching the buzzer. */
  lemma BareMinusReachesEffect(hw: Hardware)
    requires Sized(hw)
    ensures ArgsMatch(["-"], CommandTable["set_buzzer"].kinds)
    ensures Execute(hw, "set_buzzer -") == Step(hw, Unconvertible)
  {
    BareMinusCommand(hw);
    ExecuteText(hw, Command("set_buzzer", ["-"]));
  }

  // ---------------------------------------------------------------------------
  // The firmware's frame buffers and buzzer, updated in place.

  class Panel {
    const leds: array<Rgb>
    const status: array<Rgb>
    var buzzer: bool
    var trace: seq<StripEvent>

    ghost predicate Valid()
      reads this
    {
      leds.Length == MatrixSize && status.Length == StatusSize && leds != status
    }

    ghost function State(): (hw: Hardware)
      reads this, leds, status
      requires Valid()
      ensures Sized(hw)
    {
      Hardware(leds[..], status[..], buzzer, trace)
    }

    function Buffer(strip: Strip): array<Rgb>
      reads this
    {
      if strip == Matrix then leds else status
    }

    /** The two SmartLed buffers start black and the buzzer low (setup()). */
    constructor ()
      ensures Valid() && fresh(leds) && fresh(status)
      ensures State() == Hardware(Blank(MatrixSize), Blank(StatusSize), false, [])
    {
      leds := new Rgb[MatrixSize](_ => Black);
      status := new Rgb[StatusSize](_ => Black);
      buzzer := false;
      trace := [];
    }

    /** Write one pixel after waiting for the strip. */
    method Paint(strip: Strip, index: int, c: Command, first: nat) returns (o: Outcome)
      requires Valid() && 0 <= index < Buffer(strip).Length && first + 3 <= |c.args|
      modifies this, Buffer(strip)
      ensures Valid()
      ensures Step(State(), o) == PaintStep(old(State()), strip, index, c, first)
    {
      trace := trace + [Wait(strip)];
      if !IsNumeral(c.args[first]) || !IsNumeral(c.args[first + 1]) || !IsNumeral(c.args[first + 2]) {
        return Unconvertible;
      }
      var colour := Colour(IntArg(c, first), IntArg(c, first + 1), IntArg(c, first + 2));
      Buffer(strip)[index] := colour;
      o := Applied;
    }

    /** The `set` effect. */
    method Set(c: Command) returns (o: Outcome)
      requires Valid() && |c.args| >= 5
      modifies this, leds
      ensures Valid()
      ensures Step(State(), o) == SetStep(old(State()), c)
    {
      if !IsNumeral(c.args[0]) || !IsNumeral(c.args[1]) {
        return Unconvertible;
      }
      var x := IntArg(c, 0);
      var y := IntArg(c, 1);
      if x < 0 || x >= MatrixWidth || y < 0 || y >= MatrixWidth {
        return OutOfRange;
      }
      o := Paint(Matrix, x + y * MatrixWidth, c, 2);
    }

    /** The `set_status` effect. */
    method SetStatus(c: Command) returns (o: Outcome)
      requires Valid() && |c.args| >= 4
      modifies this, status
      ensures Valid()
      ensures Step(State(), o) == SetStatusStep(old(State()), c)
    {
      if !IsNumeral(c.args[0]) {
        return Unconvertible;
      }
      var index := IntArg(c, 0);
      if index < 0 || index >= StatusSize {
        return OutOfRange;
      }
      o := Paint(Status, index, c, 1);
    }

    /** Set every pixel of one strip to black, one at a time. */
    method Fill(strip: Strip)
      requires Valid()
      modifies Buffer(strip)
      ensures Valid()
      ensures State() == WithPixels(old(State()), strip, Blank(Buffer(strip).Length))
    {
      var a := Buffer(strip);
      var i := 0;
      while i < a.Length
        invariant 0 <= i <= a.Length
        invariant forall k :: 0 <= k < i ==> a[k] == Black
        invariant forall k :: i <= k < a.Length ==> a[k] == old(a[k])
        modifies a
      {
        a[i] := Black;
        i := i + 1;
      }
      assert a[..] == Blank(a.Length);
    }

    /** The `clear` and `clear_status` effects. */
    method Clear(strip: Strip) returns (o: Outcome)
      requires Valid()
      modifies this, Buffer(strip)
      ensures Valid()
      ensures Step(State(), o) == ClearStep(old(State()), strip)
    {
      trace := trace + [Wait(strip)];
      Fill(strip);
      trace := trace + [Shown(strip, Buffer(strip)[..])];
      o := Applied;
    }

    /** The `show` and `show_status` effects. */
    method Show(strip: Strip) returns (o: Outcome)
      requires Valid()
      modifies this
      ensures Valid()
      ensures Step(State(), o) == ShowStep(old(State()), strip)
    {
      trace := trace + [Wait(strip), Shown(strip, Buffer(strip)[..])];
      o := Applied;
    }

    /** The `set_buzzer` effect: the output goes high exactly for a non-zero value. */
    method SetBuzzer(c: Command) returns (o: Outcome)
      requires Valid() && |c.args| >= 1
      modifies this
      ensures Valid()
      ensures Step(State(), o) == BuzzerStep(old(State()), c)
    {
      if !IsNumeral(c.args[0]) {
        return Unconvertible;
      }
      buzzer := IntArg(c, 0) != 0;
      o := Applied;
    }

    /** Invoke the effect a table entry binds. */
    method Run(c: Command, e: Effect) returns (o: Outcome)
      requires Valid() && |c.args| >= Arity(e)
      modifies this, leds, status
      ensures Valid()
      ensures Step(State(), o) == EffectStep(old(State()), c, e)
    {
      match e
      case SetMatrixPixel => o := Set(c);
      case SetStatusPixel => o := SetStatus(c);
      case ClearStrip(strip) => o := Clear(strip);
      case ShowStrip(strip) => o := Show(strip);
      case SetBuzzerLevel => o := SetBuzzer(c);
    }

    /** Parse one line, look the name up, check the arguments and only then
      run the effect. */
    method Dispatch(line: string) returns (o: Outcome)
      requires Valid()
      modifies this, leds, status
      ensures Valid()
      ensures Step(State(), o) == Execute(old(State()), line)
    {
      var parsed := ParseCommand(line);
      if parsed.NotACommand? {
        return Unparsed;
      }
      var command := parsed.command;
      if command.name !in CommandTable {
        return Unknown;
      }
      var entry := CommandTable[command.name];
      var ok := CheckArgs(command, entry.kinds);
      if !ok {
        return BadArguments;
      }
      TableArities(command.name);
      o := Run(command, entry.effect);
    }
  }
}

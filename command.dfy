/** The serial command line: a command value, its textual form, argument
    validation, and the whitespace tokeniser that turns one line into a
    command (src/main.cpp, Command, parse_arg and parse_command). */
module CommandLine {
  import opened Text

  /** The kinds an argument position can be declared with. */
  datatype ArgType = String | Int

  /** One parsed line: the command name and its raw argument tokens in textual order. */
  datatype Command = Command(name: string, args: seq<string>)

  /** A token: a non-empty run of characters none of which is whitespace. */
  predicate IsToken(t: string) {
    t != [] && forall i :: 0 <= i < |t| ==> !IsSpace(t[i])
  }

  /** Every character may appear in a command name (std::all_of with iscmdchar). */
  predicate IsCmdName(s: string) {
    forall i :: 0 <= i < |s| ==> IsCmdChar(s[i])
  }

  predicate AllSpace(s: string) {
    forall i :: 0 <= i < |s| ==> IsSpace(s[i])
  }

  /** The commands parse_command can produce: a name token made of command
      characters and argument tokens free of whitespace. */
  predicate WellFormed(c: Command) {
    IsToken(c.name) && IsCmdName(c.name) &&
    forall k :: 0 <= k < |c.args| ==> IsToken(c.args[k])
  }

  /** The arguments as Command::to_string appends them: " " + arg, in order. */
  function ArgsText(args: seq<string>): string {
    if args == [] then ""
    else ArgsText(args[..|args| - 1]) + " " + args[|args| - 1]
  }

  /** Command::to_string: the name followed by each argument after one space. */
  function ToString(c: Command): string {
    c.name + ArgsText(c.args)
  }

  /** What Command::check_args accepts: as many arguments as expected kinds,
      and every position of kind Int passes is_number. */
  predicate ArgsMatch(args: seq<string>, expected: seq<ArgType>) {
    |args| == |expected| &&
    forall i :: 0 <= i < |args| && expected[i] == Int ==> IsNumber(args[i])
  }

  /** Command::check_args: compare the counts, then scan the positions in order. */
  method CheckArgs(c: Command, expected: seq<ArgType>) returns (ok: bool)
    ensures ok <==> ArgsMatch(c.args, expected)
  {
    if |c.args| != |expected| {
      return false;
    }
    var i := 0;
    while i < |c.args|
      invariant 0 <= i <= |c.args|
      invariant forall k :: 0 <= k < i && expected[k] == Int ==> IsNumber(c.args[k])
    {
      if expected[i] == Int && !IsNumber(c.args[i]) {
        return false;
      }
      i := i + 1;
    }
    return true;
  }

  /** Command::arg<Int>: std::stoi of the argument, defined only where stoi
      does not throw. */
  function IntArg(c: Command, index: nat): (n: int)
    requires index < |c.args| && IsNumeral(c.args[index])
  {
    ParseInt(c.args[index])
  }

  /** Command::arg<String>: the argument as it stands, which in a parsed
      command is always a whitespace-free token. */
  function TextArg(c: Command, index: nat): (s: string)
    requires WellFormed(c) && index < |c.args|
    ensures IsToken(s)
  {
    c.args[index]
  }

  // ---------------------------------------------------------------------------
  // The tokenisation parse_command performs, as a function of the line.

  /** The length of the longest whitespace-free prefix of s. */
  function RunLength(s: string): (n: nat)
    ensures n <= |s|
    ensures forall k :: 0 <= k < n ==> !IsSpace(s[k])
    ensures n == |s| || IsSpace(s[n])
  {
    if s == [] || IsSpace(s[0]) then 0
    else 1 + RunLength(s[1..])
  }

  /** The maximal whitespace-free runs of s, in textual order. */
  function Tokens(s: string): seq<string>
    decreases |s|
  {
    if s == [] then []
    else if IsSpace(s[0]) then Tokens(s[1..])
    else
      var n := RunLength(s);
      [s[..n]] + Tokens(s[n..])
  }

  /** The outcome of parse_command: no command, or the command. */
  datatype Parsed = NotACommand | Parsed(command: Command)

  /** What parse_command computes: the first token is the name, provided it is
      made of command characters; the remaining tokens are the arguments. */
  function ParseLine(line: string): Parsed {
    var toks := Tokens(line);
    if toks == [] || !IsCmdName(toks[0]) then NotACommand
    else Parsed(Command(toks[0], toks[1..]))
  }

  lemma RunLengthUnique(s: string, n: nat)
    requires n <= |s|
    requires forall k :: 0 <= k < n ==> !IsSpace(s[k])
    requires n == |s| || IsSpace(s[n])
    ensures RunLength(s) == n
  {
  }

  lemma TokensSkip(s: string, i: nat)
    requires i < |s| && IsSpace(s[i])
    ensures Tokens(s[i..]) == Tokens(s[i + 1..])
  {
    assert s[i..][1..] == s[i + 1..];
  }

  /** A whitespace-free prefix that ends at whitespace or at the end is the first token. */
  lemma TokensConsume(s: string, n: nat)
    requires 0 < n <= |s|
    requires forall k :: 0 <= k < n ==> !IsSpace(s[k])
    requires n == |s| || IsSpace(s[n])
    ensures Tokens(s) == [s[..n]] + Tokens(s[n..])
  {
    RunLengthUnique(s, n);
  }

  lemma AppendAssociates<T>(a: seq<T>, b: seq<T>, c: seq<T>)
    ensures (a + b) + c == a + (b + c)
  {
  }

  /** The same, for a run line[i..j] inside a line. */
  lemma TokenAt(line: string, i: nat, j: nat)
    requires i < j <= |line|
    requires forall k :: i <= k < j ==> !IsSpace(line[k])
    requires j == |line| || IsSpace(line[j])
    ensures Tokens(line[i..]) == [line[i..j]] + Tokens(line[j..])
  {
    TokensConsume(line[i..], j - i);
    assert line[i..][..j - i] == line[i..j];
    assert line[i..][j - i..] == line[j..];
  }

  /** Every token is non-empty and contains no whitespace. */
  lemma {:induction false} TokensAreTokens(s: string)
    ensures forall k :: 0 <= k < |Tokens(s)| ==> IsToken(Tokens(s)[k])
    decreases |s|
  {
    if s == [] {
    } else if IsSpace(s[0]) {
      TokensAreTokens(s[1..]);
    } else {
      var n := RunLength(s);
      TokensAreTokens(s[n..]);
      assert Tokens(s) == [s[..n]] + Tokens(s[n..]);
      assert IsToken(s[..n]);
    }
  }

  /** A line has no token exactly when it is all whitespace. */
  lemma {:induction false} TokensEmptyIff(s: string)
    ensures Tokens(s) == [] <==> AllSpace(s)
    decreases |s|
  {
    if s == [] {
    } else if IsSpace(s[0]) {
      TokensEmptyIff(s[1..]);
      assert AllSpace(s) <==> AllSpace(s[1..]) by {
        if AllSpace(s[1..]) {
          forall i | 0 < i < |s| ensures IsSpace(s[i]) { assert s[i] == s[1..][i - 1]; }
        }
        if AllSpace(s) {
          forall i | 0 <= i < |s| - 1 ensures IsSpace(s[1..][i]) { assert s[1..][i] == s[i + 1]; }
        }
      }
    } else {
      assert !AllSpace(s);
    }
  }

  /** Leading whitespace does not change the tokens. */
  lemma {:induction false} TokensAfterSpaces(ws: string, s: string)
    requires AllSpace(ws)
    ensures Tokens(ws + s) == Tokens(s)
    decreases |ws|
  {
    if ws == [] {
      assert ws + s == s;
    } else {
      assert (ws + s)[0] == ws[0] && IsSpace(ws[0]);
      assert (ws + s)[1..] == ws[1..] + s;
      assert Tokens(ws + s) == Tokens(ws[1..] + s);
      assert AllSpace(ws[1..]) by {
        forall i | 0 <= i < |ws| - 1 ensures IsSpace(ws[1..][i]) { assert ws[1..][i] == ws[i + 1]; }
      }
      TokensAfterSpaces(ws[1..], s);
    }
  }

  /** Whitespace separates: the tokens of a + [w] + b are those of a followed by those of b. */
  lemma {:induction false} TokensSplit(a: string, w: char, b: string)
    requires IsSpace(w)
    ensures Tokens(a + [w] + b) == Tokens(a) + Tokens(b)
    decreases |a|
  {
    var s := a + [w] + b;
    if a == [] {
      assert s[1..] == b;
    } else if IsSpace(a[0]) {
      assert s[1..] == a[1..] + [w] + b;
      TokensSplit(a[1..], w, b);
    } else {
      var n := RunLength(a);
      RunLengthUnique(s, n);
      assert s[..n] == a[..n];
      assert s[n..] == a[n..] + [w] + b;
      TokensSplit(a[n..], w, b);
      assert Tokens(s) == [s[..n]] + Tokens(s[n..]);
      assert Tokens(a) == [a[..n]] + Tokens(a[n..]);
    }
  }

  /** A token read on its own is the single token. */
  lemma TokensOfToken(t: string)
    requires IsToken(t)
    ensures Tokens(t) == [t]
  {
    TokensConsume(t, |t|);
    assert t[..|t|] == t;
    assert t[|t|..] == [];
  }

  lemma {:induction false} TokensOfArgsText(w: string, args: seq<string>)
    requires IsToken(w)
    requires forall k :: 0 <= k < |args| ==> IsToken(args[k])
    ensures Tokens(w + ArgsText(args)) == [w] + args
    decreases |args|
  {
    if args == [] {
      assert w + ArgsText(args) == w;
      TokensOfToken(w);
    } else {
      var init, last := args[..|args| - 1], args[|args| - 1];
      assert w + ArgsText(args) == (w + ArgsText(init)) + [' '] + last;
      TokensSplit(w + ArgsText(init), ' ', last);
      TokensOfArgsText(w, init);
      TokensOfToken(last);
      assert init + [last] == args;
    }
  }

  // ---------------------------------------------------------------------------
  // Properties of the parse.

  /** A parsed command is well formed, and its name and arguments are the
      tokens of the line in order. */
  lemma ParsedIsWellFormed(line: string)
    requires ParseLine(line).Parsed?
    ensures WellFormed(ParseLine(line).command)
    ensures [ParseLine(line).command.name] + ParseLine(line).command.args == Tokens(line)
  {
    TokensAreTokens(line);
    var toks := Tokens(line);
    assert [toks[0]] + toks[1..] == toks;
  }

  /** parse_command fails exactly when the line is all whitespace or its first
      token holds a character that is neither alphanumeric nor '_'. */
  lemma ParseFailsIff(line: string)
    ensures ParseLine(line).NotACommand? <==>
      AllSpace(line) || (Tokens(line) != [] && exists i :: 0 <= i < |Tokens(line)[0]| && !IsCmdChar(Tokens(line)[0][i]))
  {
    TokensEmptyIff(line);
  }

  /** The first token is the run after the leading whitespace: the line is
      rejected exactly when that run is not a command name, and otherwise the
      arguments are the tokens of what follows. */
  lemma ParseLeadingToken(ws: string, t: string, rest: string)
    requires AllSpace(ws) && IsToken(t)
    requires rest == [] || IsSpace(rest[0])
    ensures ParseLine(ws + t + rest).NotACommand? <==> !IsCmdName(t)
    ensures ParseLine(ws + t + rest).Parsed? ==>
      ParseLine(ws + t + rest).command == Command(t, Tokens(rest))
  {
    assert ws + t + rest == ws + (t + rest);
    TokensAfterSpaces(ws, t + rest);
    TokensConsume(t + rest, |t|);
    assert (t + rest)[..|t|] == t;
    assert (t + rest)[|t|..] == rest;
  }

  /** Round trip: parsing the text of a well-formed command gives it back. */
  lemma RoundTrip(c: Command)
    requires WellFormed(c)
    ensures ParseLine(ToString(c)) == Parsed(c)
  {
    TokensOfArgsText(c.name, c.args);
  }

  /** Round trip for whatever parse_command produced. */
  lemma ReparseParsed(line: string)
    requires ParseLine(line).Parsed?
    ensures ParseLine(ToString(ParseLine(line).command)) == ParseLine(line)
  {
    ParsedIsWellFormed(line);
    RoundTrip(ParseLine(line).command);
  }

  /** Empty and blank lines are not commands. */
  lemma ParseBlankLines()
    ensures ParseLine("") == NotACommand
    ensures ParseLine("   ") == NotACommand
  {
    TokensEmptyIff("   ");
  }

  /** '!' is not a command character, so the line is rejected. */
  lemma ParseBadNameExample()
    ensures ParseLine("bad!cmd 1") == NotACommand
  {
    assert "" + "bad!cmd" + " 1" == "bad!cmd 1";
    assert !IsCmdChar("bad!cmd"[3]);
    ParseLeadingToken("", "bad!cmd", " 1");
  }

  /** A carriage return left before the newline is whitespace. */
  lemma ParseCarriageReturnExample()
    ensures ParseLine("show\r") == Parsed(Command("show", []))
  {
    assert "" + "show" + "\r" == "show\r";
    ParseLeadingToken("", "show", "\r");
    TokensEmptyIff("\r");
  }

  // ---------------------------------------------------------------------------
  // The parser as the firmware runs it: iterators advanced in while loops.

  /** What parse_arg returns: a flag (only ever true) when no token is left,
      or the position after the next token together with that token. */
  datatype ArgResult = Ended(ok: bool) | Arg(next: nat, arg: string)

  /** The position just past the first token of line at or after i, or the
      end of the line when no token is left there. */
  function TokenEnd(line: string, i: nat): (e: nat)
    requires i <= |line|
    ensures i <= e <= |line|
    decreases |line| - i
  {
    if i == |line| then i
    else if IsSpace(line[i]) then TokenEnd(line, i + 1)
    else i + RunLength(line[i..])
  }

  /** TokenEnd is just past the first token: what lies between i and it is
      whitespace followed by exactly that token. */
  lemma {:induction false} TokenEndFollowsToken(line: string, i: nat)
    requires i <= |line| && Tokens(line[i..]) != []
    ensures i + |Tokens(line[i..])[0]| <= TokenEnd(line, i)
    ensures line[TokenEnd(line, i) - |Tokens(line[i..])[0]|..TokenEnd(line, i)] == Tokens(line[i..])[0]
    ensures forall k :: i <= k < TokenEnd(line, i) - |Tokens(line[i..])[0]| ==> IsSpace(line[k])
    decreases |line| - i
  {
    if IsSpace(line[i]) {
      TokensSkip(line, i);
      TokenEndFollowsToken(line, i + 1);
    } else {
      var n := RunLength(line[i..]);
      assert Tokens(line[i..])[0] == line[i..][..n];
      assert line[i..][..n] == line[i..i + n];
    }
  }

  /** Where parse_arg stops: after the whitespace from begin to i and the run
      arg == line[i..j], the run is the next token and j is just past it. */
  lemma ArgFound(line: string, begin: nat, i: nat, j: nat, arg: string)
    requires begin <= i < j <= |line| && arg == line[i..j]
    requires forall k :: i <= k < j ==> !IsSpace(line[k])
    requires j == |line| || IsSpace(line[j])
    requires Tokens(line[i..]) == Tokens(line[begin..])
    requires TokenEnd(line, i) == TokenEnd(line, begin)
    ensures Tokens(line[begin..]) == [arg] + Tokens(line[j..])
    ensures j == TokenEnd(line, begin)
  {
    TokenAt(line, i, j);
    RunLengthUnique(line[i..], j - i);
  }

  /** The first loop of parse_arg: advance past whitespace. */
  method SkipSpace(line: string, begin: nat) returns (i: nat)
    requires begin <= |line|
    ensures begin <= i <= |line| && (i == |line| || !IsSpace(line[i]))
    ensures forall k :: begin <= k < i ==> IsSpace(line[k])
    ensures Tokens(line[i..]) == Tokens(line[begin..])
    ensures TokenEnd(line, i) == TokenEnd(line, begin)
  {
    i := begin;
    while i < |line| && IsSpace(line[i])
      invariant begin <= i <= |line|
      invariant Tokens(line[i..]) == Tokens(line[begin..])
      invariant forall k :: begin <= k < i ==> IsSpace(line[k])
      invariant TokenEnd(line, i) == TokenEnd(line, begin)
    {
      TokensSkip(line, i);
      i := i + 1;
    }
  }

  /** The second loop of parse_arg: collect characters up to the next
      whitespace or the end of the line. */
  method ReadRun(line: string, i: nat) returns (j: nat, arg: string)
    requires i <= |line|
    ensures i <= j <= |line| && (j == |line| || IsSpace(line[j]))
    ensures forall k :: i <= k < j ==> !IsSpace(line[k])
    ensures arg == line[i..j]
  {
    arg := "";
    j := i;
    while j < |line| && !IsSpace(line[j])
      invariant i <= j <= |line|
      invariant arg == line[i..j]
      invariant forall k :: i <= k < j ==> !IsSpace(line[k])
    {
      arg := arg + [line[j]];
      j := j + 1;
    }
  }

  /** parse_arg: skip whitespace from begin; at the end report true; otherwise
      collect characters up to the next whitespace. */
  method ParseArg(line: string, begin: nat) returns (r: ArgResult)
    requires begin <= |line|
    ensures r.Ended? <==> Tokens(line[begin..]) == []
    ensures r.Ended? ==> r.ok
    ensures r.Arg? ==> begin < r.next <= |line| && (r.next == |line| || IsSpace(line[r.next]))
    ensures r.Arg? ==> Tokens(line[begin..]) == [r.arg] + Tokens(line[r.next..])
    ensures r.Arg? ==> r.next == TokenEnd(line, begin)
  {
    var i := SkipSpace(line, begin);
    if i == |line| {
      return Ended(true);
    }
    var j, arg := ReadRun(line, i);
    ArgFound(line, begin, i, j, arg);
    return Arg(j, arg);
  }

  /** parse_command: the first token is the name and must consist of command
      characters; every further token is appended to the arguments. */
  method ParseCommand(line: string) returns (p: Parsed)
    ensures p == ParseLine(line)
  {
    assert line[0..] == line;
    var res := ParseArg(line, 0);
    if res.Ended? {
      return NotACommand;
    }
    var begin, command := res.next, res.arg;
    if !IsCmdName(command) {
      return NotACommand;
    }
    var args: seq<string> := [];
    while begin != |line|
      invariant begin <= |line|
      invariant Tokens(line) == [command] + args + Tokens(line[begin..])
      decreases |line| - begin
    {
      var r := ParseArg(line, begin);
      if r.Ended? {
        // parse_arg never reports false, so the source's early return here is dead.
        assert r.ok;
        break;
      }
      AppendAssociates([command] + args, [r.arg], Tokens(line[r.next..]));
      begin := r.next;
      args := args + [r.arg];
    }
    assert Tokens(line[begin..]) == [];
    assert Tokens(line) == [command] + args;
    return Parsed(Command(command, args));
  }
}

/** The firmware around the parser and the dispatcher (src/main.cpp): the
    global objects, setup() registering a notifier on every button, and one
    call of loop(), which polls the buttons while it gathers serial input up
    to a newline and then executes that line. */
module Firmware {
  import opened Text
  import opened CommandLine
  import opened Dispatch
  import opened ButtonMonitor

  /** The button inputs of the LOGIC 1.1 board, top to bottom, left to right. */
  const ButtonPins: seq<Pin> := [18, 19, 4, 25, 14, 32, 17, 13, 26]

  // ---------------------------------------------------------------------------
  // The notifier setup() registers.

  /** The words the notifier prints for a transition: "pressed <i>" or "released <i>". */
  function NotificationText(e: Event): string {
    (if e.pressed then "pressed " else "released ") + FormatInt(e.index)
  }

  /** What the notifier writes to the serial port: the words and println's "\r\n". */
  function Printed(e: Event): string {
    NotificationText(e) + "\r\n"
  }

  /** The lines written by the notifier callbacks among events, in order;
      other handlers write nothing to the serial port. */
  function Notify(events: seq<Event>): seq<string> {
    if events == [] then []
    else
      var e := events[|events| - 1];
      Notify(events[..|events| - 1]) + if e.handler == Reporter then [Printed(e)] else []
  }

  lemma {:induction false} NotifyAppend(a: seq<Event>, b: seq<Event>)
    ensures Notify(a + b) == Notify(a) + Notify(b)
  {
    if b == [] {
      assert a + b == a;
    } else {
      assert (a + b)[..|a + b| - 1] == a + b[..|b| - 1];
      NotifyAppend(a, b[..|b| - 1]);
    }
  }

  /** When every callback is the notifier, each event prints exactly its own line. */
  lemma {:induction false} NotifyReporters(events: seq<Event>)
    requires forall k :: 0 <= k < |events| ==> events[k].handler == Reporter
    ensures |Notify(events)| == |events|
    ensures forall k :: 0 <= k < |events| ==> Notify(events)[k] == Printed(events[k])
  {
    if events != [] {
      NotifyReporters(events[..|events| - 1]);
    }
  }

  /** A trailing whitespace character, such as println's carriage return,
      does not change what a command's text parses to. */
  lemma ParseWithTrailingSpace(c: Command, w: char)
    requires WellFormed(c) && IsSpace(w)
    ensures ParseLine(ToString(c) + [w]) == Parsed(c)
  {
    RoundTrip(c);
    TokensSplit(ToString(c), w, []);
    assert ToString(c) + [w] == ToString(c) + [w] + [];
    assert Tokens([]) == [];
  }

  /** The command a notification spells. */
  function NotificationCommand(e: Event): Command {
    Command(if e.pressed then "pressed" else "released", [FormatInt(e.index)])
  }

  lemma NotificationIsCommandText(e: Event)
    ensures WellFormed(NotificationCommand(e))
    ensures ToString(NotificationCommand(e)) == NotificationText(e)
  {
    var f := FormatInt(e.index);
    assert IsToken(f);
    assert ArgsText([f]) == ArgsText([]) + " " + f;
  }

  /** The notification a host receives ends in "\r\n" and its index reads
      back through std::stoi. The firmware itself never reads notifications;
      that the line before the newline would also parse, under its own
      tokeniser, as a command named "pressed" or "released" is an extra
      consistency property, not something the firmware relies on. */
  lemma NotificationParses(e: Event)
    ensures Printed(e) == NotificationText(e) + "\r" + "\n"
    ensures ParseLine(NotificationText(e) + "\r") == Parsed(NotificationCommand(e))
    ensures IsNumeral(FormatInt(e.index)) && ParseInt(FormatInt(e.index)) == e.index
  {
    NotificationIsCommandText(e);
    ParseWithTrailingSpace(NotificationCommand(e), '\r');
    ParseFormatInt(e.index);
  }

  // ---------------------------------------------------------------------------
  // Serial input.

  /** The bytes of successive serial bursts, in order of arrival. */
  function Concat(bursts: seq<seq<char>>): seq<char> {
    if bursts == [] then []
    else Concat(bursts[..|bursts| - 1]) + bursts[|bursts| - 1]
  }

  lemma {:induction false} ConcatSplit(bursts: seq<seq<char>>, k: nat)
    requires k <= |bursts|
    ensures Concat(bursts) == Concat(bursts[..k]) + Concat(bursts[k..])
  {
    if k == |bursts| {
      assert bursts[..k] == bursts;
      assert bursts[k..] == [];
    } else {
      var init := bursts[..|bursts| - 1];
      ConcatSplit(init, k);
      assert init[..k] == bursts[..k];
      assert bursts[k..][..|bursts[k..]| - 1] == init[k..];
    }
  }

  /** The inner loop of loop(): read the bytes available now, appending them
      to the line until a newline arrives. The newline itself is consumed and
      not appended; the bytes after it are left unread. */
  method ReadAvailable(line: string, burst: seq<char>) returns (next: string, found: bool, used: nat)
    ensures found <==> '\n' in burst
    ensures found ==>
      0 < used <= |burst| && burst[used - 1] == '\n' && '\n' !in burst[..used - 1] && next == line + burst[..used - 1]
    ensures !found ==> used == |burst| && next == line + burst
  {
    next := line;
    var j := 0;
    while j < |burst|
      invariant 0 <= j <= |burst|
      invariant next == line + burst[..j]
      invariant '\n' !in burst[..j]
    {
      if burst[j] == '\n' {
        return next, true, j + 1;
      }
      next := next + [burst[j]];
      j := j + 1;
      assert burst[..j] == burst[..j - 1] + [burst[j - 1]];
    }
    assert burst[..j] == burst;
    return next, false, |burst|;
  }

  /** One more poll extends the fold over the samples by one step. */
  lemma PollAllStep(m: Monitor, samples: seq<seq<Level>>, k: nat)
    requires AllFit(m, samples) && k < |samples|
    ensures PollAll(m, samples[..k + 1]) == Poll(PollAll(m, samples[..k]), samples[k])
    ensures FiredAll(m, samples[..k + 1]) == FiredAll(m, samples[..k]) + Fired(PollAll(m, samples[..k]), samples[k], |m.pins|)
  {
    assert samples[..k + 1][..k] == samples[..k];
  }

  /** One more burst extends the received bytes by that burst. */
  lemma ConcatStep(bursts: seq<seq<char>>, k: nat)
    requires k < |bursts|
    ensures Concat(bursts[..k + 1]) == Concat(bursts[..k]) + bursts[k]
  {
    assert bursts[..k + 1][..k] == bursts[..k];
  }

  /** Where the newline falls in burst k - 1, the received bytes split into
      the line, the newline and what follows it. */
  lemma SplitAtNewline(bursts: seq<seq<char>>, k: nat, used: nat, before: string)
    requires 0 < k <= |bursts| && 0 < used <= |bursts[k - 1]| && bursts[k - 1][used - 1] == '\n'
    requires Concat(bursts[..k]) == before + bursts[k - 1]
    ensures Concat(bursts) ==
      (before + bursts[k - 1][..used - 1]) + "\n" + (bursts[k - 1][used..] + Concat(bursts[k..]))
  {
    ConcatSplit(bursts, k);
    var b := bursts[k - 1];
    assert b == b[..used - 1] + "\n" + b[used..];
  }

  /** After k passes: the monitor has been polled with the first k sample
      vectors, and the notifications of their events have been sent after sent0. */
  predicate AfterPolls(m0: Monitor, samples: seq<seq<Level>>, k: nat, m: Monitor, sent0: seq<string>, sent: seq<string>) {
    k <= |samples| && AllFit(m0, samples) &&
    m == PollAll(m0, samples[..k]) && sent == sent0 + Notify(FiredAll(m0, samples[..k]))
  }

  lemma AfterPollsStep(m0: Monitor, samples: seq<seq<Level>>, k: nat, m: Monitor, sent0: seq<string>, sent: seq<string>)
    requires AfterPolls(m0, samples, k, m, sent0, sent) && k < |samples|
    ensures Fits(m, samples[k])
    ensures AfterPolls(m0, samples, k + 1, Poll(m, samples[k]), sent0, sent + Notify(Fired(m, samples[k], |m.pins|)))
  {
    PollAllStep(m0, samples, k);
    var fired := Fired(m, samples[k], |m.pins|);
    NotifyAppend(FiredAll(m0, samples[..k]), fired);
    AppendAssociates(sent0, Notify(FiredAll(m0, samples[..k])), Notify(fired));
  }

  /** The pass that read burst k - 1 found the newline at position used - 1;
      the line is what came before it, after the earlier bursts. */
  predicate EndsLine(bursts: seq<seq<char>>, k: nat, used: nat, before: string, line: string) {
    0 < k <= |bursts| && 0 < used <= |bursts[k - 1]| && bursts[k - 1][used - 1] == '\n' &&
    before == Concat(bursts[..k - 1]) && '\n' !in before && line == before + bursts[k - 1][..used - 1]
  }

  /** How one call of loop() ends: still waiting for a newline after every
      burst, or with a line handled after `polls` button polls. */
  datatype LoopResult =
    | Pending(line: string, polls: nat)
    | Handled(line: string, polls: nat, outcome: Outcome, unread: seq<char>)

  // ---------------------------------------------------------------------------
  // The board.

  class Board {
    const buttons: Buttons
    const panel: Panel
    /** Every line the button callbacks have written to the serial port. */
    var sent: seq<string>

    ghost predicate Valid()
      reads this, buttons, panel
    {
      buttons.Valid() && panel.Valid() && |buttons.pins| == |ButtonPins| &&
      forall i :: 0 <= i < |buttons.callbacks| ==> buttons.callbacks[i] == Some(Reporter)
    }

    /** The global objects, then setup(): the buzzer starts low and every
        button gets the notifier as its callback. */
    constructor ()
      ensures Valid() && fresh(buttons) && fresh(panel) && fresh(panel.leds) && fresh(panel.status)
      ensures buttons.Model() == Monitor(ButtonPins, seq(|ButtonPins|, _ => false), seq(|ButtonPins|, _ => false),
                                         seq(|ButtonPins|, _ => Some(Reporter)))
      ensures panel.State() == Hardware(Blank(MatrixSize), Blank(StatusSize), false, [])
      ensures sent == []
    {
      var b := new Buttons(ButtonPins);
      var p := new Panel();
      var i := 0;
      while i < b.Count()
        invariant 0 <= i <= b.Count() && b.Valid() && b.pins == ButtonPins
        invariant b.states == seq(|ButtonPins|, _ => false) && b.changes == seq(|ButtonPins|, _ => false)
        invariant forall k :: 0 <= k < |ButtonPins| ==> b.callbacks[k] == if k < i then Some(Reporter) else None
        modifies b
      {
        b.SetCallback(i, Some(Reporter));
        i := i + 1;
      }
      assert b.callbacks == seq(|ButtonPins|, _ => Some(Reporter));
      buttons := b;
      panel := p;
      sent := [];
    }

    /** buttons.update() with the notifiers registered: every callback that
        fires writes its line to the serial port. */
    method PollButtons(levels: seq<Level>)
      requires Valid() && |levels| == |ButtonPins|
      modifies this, buttons
      ensures Valid()
      ensures buttons.Model() == Poll(old(buttons.Model()), levels)
      ensures sent == old(sent) + Notify(Fired(old(buttons.Model()), levels, |ButtonPins|))
    {
      var fired := buttons.Update(levels);
      sent := sent + Notify(fired);
    }

    /** The outer loop of loop(): poll the buttons, then read what is
        available, pass after pass, until a newline arrives or the bursts run
        out. Burst k is what becomes available in pass k, which first polls
        the buttons with the levels samples[k]. */
    method Gather(bursts: seq<seq<char>>, samples: seq<seq<Level>>)
      returns (line: string, found: bool, polls: nat, used: nat, ghost before: string)
      requires Valid() && |samples| == |bursts|
      requires forall k :: 0 <= k < |samples| ==> |samples[k]| == |ButtonPins|
      modifies this, buttons
      ensures Valid() && polls <= |bursts|
      ensures buttons.Model() == PollAll(old(buttons.Model()), samples[..polls])
      ensures sent == old(sent) + Notify(FiredAll(old(buttons.Model()), samples[..polls]))
      ensures '\n' !in line
      ensures !found ==> polls == |bursts| && line == Concat(bursts)
      ensures found ==> EndsLine(bursts, polls, used, before, line)
    {
      ghost var m0 := buttons.Model();
      line := "";
      polls := 0;
      found := false;
      used := 0;
      before := "";
      while polls < |bursts| && !found
        invariant 0 <= polls <= |bursts| && Valid()
        invariant AfterPolls(m0, samples, polls, buttons.Model(), old(sent), sent)
        invariant '\n' !in line
        invariant !found ==> line == Concat(bursts[..polls])
        invariant found ==> EndsLine(bursts, polls, used, before, line)
      {
        AfterPollsStep(m0, samples, polls, buttons.Model(), old(sent), sent);
        PollButtons(samples[polls]);
        before := line;
        line, found, used := ReadAvailable(line, bursts[polls]);
        ConcatStep(bursts, polls);
        polls := polls + 1;
      }
      if !found {
        assert bursts[..polls] == bursts;
      }
    }

    /** One call of loop(): gather a line, then parse and execute it. Without
        a newline every burst is consumed and nothing is executed; with one,
        the line is the bytes before the first newline and the bytes after it
        stay unread. */
    method Loop(bursts: seq<seq<char>>, samples: seq<seq<Level>>) returns (r: LoopResult)
      requires Valid() && |samples| == |bursts|
      requires forall k :: 0 <= k < |samples| ==> |samples[k]| == |ButtonPins|
      modifies this, buttons, panel, panel.leds, panel.status
      ensures Valid() && r.polls <= |bursts|
      ensures buttons.Model() == PollAll(old(buttons.Model()), samples[..r.polls])
      ensures sent == old(sent) + Notify(FiredAll(old(buttons.Model()), samples[..r.polls]))
      ensures '\n' !in r.line
      ensures r.Pending? ==>
        r.polls == |bursts| && r.line == Concat(bursts) && panel.State() == old(panel.State())
      ensures r.Handled? ==>
        0 < r.polls && '\n' in bursts[r.polls - 1] && '\n' !in Concat(bursts[..r.polls - 1]) &&
        Concat(bursts) == r.line + "\n" + r.unread &&
        Step(panel.State(), r.outcome) == Execute(old(panel.State()), r.line)
    {
      var line, found, polls, used, before := Gather(bursts, samples);
      if !found {
        return Pending(line, polls);
      }
      ConcatStep(bursts, polls - 1);
      assert bursts[..polls - 1 + 1] == bursts[..polls];
      SplitAtNewline(bursts, polls, used, before);
      var outcome := panel.Dispatch(line);
      return Handled(line, polls, outcome, bursts[polls - 1][used..] + Concat(bursts[polls..]));
    }
  }
}

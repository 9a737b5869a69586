/** The button monitor: one entry per configured input pin in four
    index-aligned vectors, polled in index order (src/buttons.h, src/buttons.cpp). */
module ButtonMonitor {

  /** A GPIO number as the monitor stores it (uint8_t). */
  type Pin = x: int | 0 <= x < 256

  /** A sampled input level. The inputs are pulled up, so Low means pressed. */
  datatype Level = Low | High

  /** A registered callback: the notifier setup() installs, or some other
      handler, told apart by an id. */
  datatype Handler = Reporter | Custom(id: nat)

  /** A callback slot; None is an empty std::function. */
  datatype Option<T> = None | Some(value: T)

  /** One callback invocation: the handler, the button index and the new state. */
  datatype Event = Event(handler: Handler, index: nat, pressed: bool)

  /** The monitor's four vectors as a value: entry i of each describes button i. */
  datatype Monitor = Monitor(pins: seq<Pin>, states: seq<bool>, changes: seq<bool>, callbacks: seq<Option<Handler>>)

  predicate Aligned(m: Monitor) {
    |m.states| == |m.pins| && |m.changes| == |m.pins| && |m.callbacks| == |m.pins|
  }

  /** A sample vector that covers every button of m. */
  predicate Fits(m: Monitor, levels: seq<Level>) {
    Aligned(m) && |levels| == |m.pins|
  }

  /** The state update() computes for button i: pressed when the level is Low. */
  function NewState(levels: seq<Level>, i: nat): bool
    requires i < |levels|
  {
    levels[i] == Low
  }

  /** Whether button i's sample differs from its stored state. */
  function Flipped(m: Monitor, levels: seq<Level>, i: nat): bool
    requires Fits(m, levels) && i < |m.pins|
  {
    NewState(levels, i) != m.states[i]
  }

  /** The callback invocations update() makes on the first n buttons, in index order. */
  function Fired(m: Monitor, levels: seq<Level>, n: nat): seq<Event>
    requires Fits(m, levels) && n <= |m.pins|
  {
    if n == 0 then []
    else
      var i := n - 1;
      Fired(m, levels, i) +
        if Flipped(m, levels, i) && m.callbacks[i].Some? then [Event(m.callbacks[i].value, i, NewState(levels, i))] else []
  }

  /** The vectors after update(): every state follows its sample, a flag is
      raised where the state flipped and never lowered, and the pins and
      callbacks stay as they were. */
  function Poll(m: Monitor, levels: seq<Level>): (r: Monitor)
    requires Fits(m, levels)
    ensures Aligned(r) && r.pins == m.pins && r.callbacks == m.callbacks
  {
    m.(states := seq(|m.pins|, i requires 0 <= i < |m.pins| => NewState(levels, i)),
       changes := seq(|m.pins|, i requires 0 <= i < |m.pins| => m.changes[i] || Flipped(m, levels, i)))
  }

  /** The vectors part-way through update(): the first n buttons polled, the rest as before. */
  function Polled(m: Monitor, levels: seq<Level>, n: nat): (r: Monitor)
    requires Fits(m, levels) && n <= |m.pins|
    ensures Aligned(r) && r.pins == m.pins && r.callbacks == m.callbacks
  {
    m.(states := seq(|m.pins|, i requires 0 <= i < |m.pins| => if i < n then NewState(levels, i) else m.states[i]),
       changes := seq(|m.pins|, i requires 0 <= i < |m.pins| => if i < n then m.changes[i] || Flipped(m, levels, i) else m.changes[i]))
  }

  lemma PolledNone(m: Monitor, levels: seq<Level>)
    requires Fits(m, levels)
    ensures Polled(m, levels, 0) == m
  {
    assert Polled(m, levels, 0).states == m.states;
    assert Polled(m, levels, 0).changes == m.changes;
  }

  /** Polling button n: it is untouched so far, and it changes only if it flipped. */
  lemma PolledStep(m: Monitor, levels: seq<Level>, n: nat)
    requires Fits(m, levels) && n < |m.pins|
    ensures Polled(m, levels, n).states[n] == m.states[n]
    ensures Flipped(m, levels, n) ==>
      Polled(m, levels, n + 1) ==
        Polled(m, levels, n).(states := Polled(m, levels, n).states[n := NewState(levels, n)],
                              changes := Polled(m, levels, n).changes[n := true])
    ensures !Flipped(m, levels, n) ==> Polled(m, levels, n + 1) == Polled(m, levels, n)
  {
    var p, q := Polled(m, levels, n), Polled(m, levels, n + 1);
    if Flipped(m, levels, n) {
      assert q.states == p.states[n := NewState(levels, n)];
      assert q.changes == p.changes[n := true];
    } else {
      assert q.states == p.states;
      assert q.changes == p.changes;
    }
  }

  lemma PolledAll(m: Monitor, levels: seq<Level>)
    requires Fits(m, levels)
    ensures Polled(m, levels, |m.pins|) == Poll(m, levels)
  {
    assert Polled(m, levels, |m.pins|).states == Poll(m, levels).states;
    assert Polled(m, levels, |m.pins|).changes == Poll(m, levels).changes;
  }

  /** Sample vectors that all cover the buttons of m. */
  predicate AllFit(m: Monitor, samples: seq<seq<Level>>) {
    Aligned(m) && forall k :: 0 <= k < |samples| ==> |samples[k]| == |m.pins|
  }

  /** The monitor after one update() per sample vector, in order. */
  function PollAll(m: Monitor, samples: seq<seq<Level>>): (r: Monitor)
    requires AllFit(m, samples)
    ensures Aligned(r) && r.pins == m.pins && r.callbacks == m.callbacks
  {
    if samples == [] then m
    else Poll(PollAll(m, samples[..|samples| - 1]), samples[|samples| - 1])
  }

  /** The callback invocations of those updates, in order. */
  function FiredAll(m: Monitor, samples: seq<seq<Level>>): seq<Event>
    requires AllFit(m, samples)
  {
    if samples == [] then []
    else
      var before := PollAll(m, samples[..|samples| - 1]);
      FiredAll(m, samples[..|samples| - 1]) + Fired(before, samples[|samples| - 1], |m.pins|)
  }

  // ---------------------------------------------------------------------------
  // Properties of one poll.

  /** After a poll each state is its sample, and the change flags are sticky:
      raised where the state flipped, kept where they were raised, and
      otherwise left as they were. */
  lemma PollStatesAndFlags(m: Monitor, levels: seq<Level>)
    requires Fits(m, levels)
    ensures forall i :: 0 <= i < |m.pins| ==> Poll(m, levels).states[i] == (levels[i] == Low)
    ensures forall i :: 0 <= i < |m.pins| && Flipped(m, levels, i) ==> Poll(m, levels).changes[i]
    ensures forall i :: 0 <= i < |m.pins| && m.changes[i] ==> Poll(m, levels).changes[i]
    ensures forall i :: 0 <= i < |m.pins| && !Flipped(m, levels, i) ==>
      Poll(m, levels).states[i] == m.states[i] && Poll(m, levels).changes[i] == m.changes[i]
    ensures Poll(m, levels).callbacks == m.callbacks
  {
  }

  /** Every invocation in Fired(m, levels, n) is for a button below n whose
      state flipped and that has a callback, and carries that callback and the
      new state. */
  lemma {:induction false} FiredSound(m: Monitor, levels: seq<Level>, n: nat)
    requires Fits(m, levels) && n <= |m.pins|
    ensures forall k :: 0 <= k < |Fired(m, levels, n)| ==>
      var e := Fired(m, levels, n)[k];
      e.index < n && Flipped(m, levels, e.index) &&
      m.callbacks[e.index] == Some(e.handler) && e.pressed == NewState(levels, e.index)
  {
    if n > 0 {
      FiredSound(m, levels, n - 1);
    }
  }

  /** The invocations come in strictly increasing button order. */
  lemma {:induction false} FiredOrdered(m: Monitor, levels: seq<Level>, n: nat)
    requires Fits(m, levels) && n <= |m.pins|
    ensures forall j, k :: 0 <= j < k < |Fired(m, levels, n)| ==>
      Fired(m, levels, n)[j].index < Fired(m, levels, n)[k].index
  {
    if n > 0 {
      FiredOrdered(m, levels, n - 1);
      FiredSound(m, levels, n - 1);
    }
  }

  /** Whether some invocation in es is for button i. */
  predicate HasEventFor(es: seq<Event>, i: nat) {
    exists k :: 0 <= k < |es| && es[k].index == i
  }

  lemma HasEventForAppend(a: seq<Event>, b: seq<Event>, i: nat)
    ensures HasEventFor(a + b, i) <==> HasEventFor(a, i) || HasEventFor(b, i)
  {
    if HasEventFor(a + b, i) {
      var k :| 0 <= k < |a + b| && (a + b)[k].index == i;
      if k >= |a| {
        assert b[k - |a|].index == i;
      }
    }
    if HasEventFor(a, i) {
      var k :| 0 <= k < |a| && a[k].index == i;
      assert (a + b)[k].index == i;
    }
    if HasEventFor(b, i) {
      var k :| 0 <= k < |b| && b[k].index == i;
      assert (a + b)[k + |a|].index == i;
    }
  }

  /** A button below n has an invocation exactly when it flipped and has a callback. */
  lemma {:induction false} FiredComplete(m: Monitor, levels: seq<Level>, n: nat)
    requires Fits(m, levels) && n <= |m.pins|
    ensures forall i :: 0 <= i < n ==>
      (HasEventFor(Fired(m, levels, n), i) <==> Flipped(m, levels, i) && m.callbacks[i].Some?)
  {
    if n > 0 {
      var i := n - 1;
      FiredComplete(m, levels, i);
      FiredSound(m, levels, i);
      var before := Fired(m, levels, i);
      var last := if Flipped(m, levels, i) && m.callbacks[i].Some? then [Event(m.callbacks[i].value, i, NewState(levels, i))] else [];
      assert Fired(m, levels, n) == before + last;
      forall j | 0 <= j < n
        ensures HasEventFor(Fired(m, levels, n), j) <==> Flipped(m, levels, j) && m.callbacks[j].Some?
      {
        HasEventForAppend(before, last, j);
        if j == i && Flipped(m, levels, i) && m.callbacks[i].Some? {
          assert last[0].index == j;
        }
      }
    }
  }

  /** No callback fires twice in one poll. */
  lemma FiredOncePerButton(m: Monitor, levels: seq<Level>)
    requires Fits(m, levels)
    ensures forall j, k ::
      (0 <= j < |Fired(m, levels, |m.pins|)| && 0 <= k < |Fired(m, levels, |m.pins|)| &&
       Fired(m, levels, |m.pins|)[j].index == Fired(m, levels, |m.pins|)[k].index) ==> j == k
  {
    FiredOrdered(m, levels, |m.pins|);
  }

  /** Polling again with the same samples fires nothing and moves no state,
      yet every flag the first poll raised is still raised: the flags only
      ever go up, so `changed` is not cleared by a quiet poll. */
  lemma {:induction false} RepeatedPollIsQuiet(m: Monitor, levels: seq<Level>)
    requires Fits(m, levels)
    ensures Fired(Poll(m, levels), levels, |m.pins|) == []
    ensures Poll(Poll(m, levels), levels).states == Poll(m, levels).states
    ensures forall i :: 0 <= i < |m.pins| && Flipped(m, levels, i) ==> Poll(Poll(m, levels), levels).changes[i]
  {
    var p := Poll(m, levels);
    QuietPrefix(p, levels, |m.pins|);
  }

  lemma {:induction false} QuietPrefix(p: Monitor, levels: seq<Level>, n: nat)
    requires Fits(p, levels) && n <= |p.pins|
    requires forall i :: 0 <= i < |p.pins| ==> p.states[i] == NewState(levels, i)
    ensures Fired(p, levels, n) == []
  {
    if n > 0 {
      QuietPrefix(p, levels, n - 1);
    }
  }

  // ---------------------------------------------------------------------------
  // The monitor as the firmware holds it.

  class Buttons {
    const pins: seq<Pin>
    var states: seq<bool>
    var changes: seq<bool>
    var callbacks: seq<Option<Handler>>

    ghost predicate Valid()
      reads this
    {
      Aligned(Model())
    }

    ghost function Model(): Monitor
      reads this
    {
      Monitor(pins, states, changes, callbacks)
    }

    /** One button per pin, released, unchanged, with no callback. Configuring
        the pins as pulled-up inputs is hardware set-up, left out. */
    constructor (pins: seq<Pin>)
      ensures Valid() && this.pins == pins
      ensures states == seq(|pins|, _ => false)
      ensures changes == seq(|pins|, _ => false)
      ensures callbacks == seq(|pins|, _ => None)
      ensures Count() == |pins|
      ensures forall i :: 0 <= i < Count() ==> !IsPressed(i) && !Changed(i)
    {
      this.pins := pins;
      states := seq(|pins|, _ => false);
      changes := seq(|pins|, _ => false);
      callbacks := seq(|pins|, _ => None);
    }

    /** count(): the number of pins, fixed at construction. In a valid
        monitor it is the length of every per-button vector, so is_pressed
        and changed can be read at every id below it. */
    function Count(): (n: nat)
      reads this
      ensures Valid() ==> n == |states| == |changes| == |callbacks|
    {
      |pins|
    }

    /** is_pressed(id) */
    function IsPressed(id: int): bool
      reads this
      requires Valid() && 0 <= id < Count()
    {
      states[id]
    }

    /** changed(id) */
    function Changed(id: int): bool
      reads this
      requires Valid() && 0 <= id < Count()
    {
      changes[id]
    }

    /** update(): sample every button in index order; where the state flipped,
        raise its flag, store the new state and invoke its callback. The
        invocations are returned in the order they happen. */
    method Update(levels: seq<Level>) returns (fired: seq<Event>)
      requires Valid() && |levels| == Count()
      modifies this
      ensures Valid() && Count() == old(Count())
      ensures Model() == Poll(old(Model()), levels)
      ensures fired == Fired(old(Model()), levels, Count())
      ensures forall i :: 0 <= i < Count() ==> IsPressed(i) == (levels[i] == Low)
      ensures forall i :: 0 <= i < Count() ==> Changed(i) == (old(Changed(i)) || (levels[i] == Low) != old(IsPressed(i)))
    {
      ghost var m := Model();
      PolledNone(m, levels);
      fired := [];
      var i := 0;
      while i < |pins|
        invariant 0 <= i <= |pins|
        invariant Model() == Polled(m, levels, i)
        invariant fired == Fired(m, levels, i)
      {
        PolledStep(m, levels, i);
        var newState := levels[i] == Low;
        if newState != states[i] {
          changes := changes[i := true];
          states := states[i := newState];
          if callbacks[i].Some? {
            fired := fired + [Event(callbacks[i].value, i, newState)];
          }
        }
        i := i + 1;
      }
      PolledAll(m, levels);
    }

    /** set_callback(id, cb): replace one callback slot. */
    method SetCallback(id: int, cb: Option<Handler>)
      requires Valid() && 0 <= id < Count()
      modifies this
      ensures Valid()
      ensures states == old(states) && changes == old(changes)
      ensures callbacks == old(callbacks)[id := cb]
      ensures Count() == old(Count())
      ensures forall i :: 0 <= i < Count() ==> IsPressed(i) == old(IsPressed(i)) && Changed(i) == old(Changed(i))
    {
      callbacks := callbacks[id := cb];
    }
  }
}

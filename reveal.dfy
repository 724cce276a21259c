/**
 The egg reveal sequencer (index.js, `revealedEggs` and revealEggsOneByOne).

 Starting creates a periodic interval; every tick of every live interval shows
 egg number `revealed` and advances the counter, and a tick that finds every egg
 shown clears its own interval. Nothing resets the counter, and nothing stops a
 second start while intervals are still live: each start adds one more interval
 advancing the same counter. Ticks are atomic steps of the single-threaded event
 loop; their timing is not modelled.

 `State` is the abstract value of the sequencer, `AfterStart` and `AfterTick`
 the two transitions, `Run` any interleaving of them, and `Sequencer` the
 in-place object the source mutates.
 */
module Reveal {
  import EggField

  /** Handle returned by setInterval. */
  type IntervalId = nat

  /**
   visible[i] is eggs[i].visible, revealed is revealedEggs, intervals the live
   intervals and nextInterval the handle the next setInterval returns.
   */
  datatype State = State(visible: seq<bool>, revealed: nat, intervals: set<IntervalId>, nextInterval: IntervalId)

  /** The sequencer invariant: exactly the eggs below the counter are shown, and handles are fresh. */
  predicate Inv(s: State)
  {
    s.revealed <= |s.visible| &&
    (forall i :: 0 <= i < |s.visible| ==> s.visible[i] == (i < s.revealed)) &&
    (forall t :: t in s.intervals ==> t < s.nextInterval)
  }

  predicate AllShown(s: State)
  {
    forall i :: 0 <= i < |s.visible| ==> s.visible[i]
  }

  /** The state right after setup: n hidden eggs, counter 0, no interval. */
  function Initial(n: nat): (s: State)
    ensures Inv(s) && |s.visible| == n && s.revealed == 0 && s.intervals == {}
    ensures forall i :: 0 <= i < n ==> !s.visible[i]
  {
    State(seq(n, _ => false), 0, {}, 0)
  }

  /** revealEggsOneByOne: refused only when every egg is shown, otherwise one more interval. */
  function AfterStart(s: State): (r: State)
    ensures r.visible == s.visible && r.revealed == s.revealed
    ensures s.revealed >= |s.visible| ==> r == s
    ensures Inv(s) && s.revealed < |s.visible| ==>
              s.nextInterval !in s.intervals && r.intervals == s.intervals + {s.nextInterval} &&
              |r.intervals| == |s.intervals| + 1
    ensures Inv(s) ==> Inv(r)
  {
    if s.revealed >= |s.visible| then s
    else s.(intervals := s.intervals + {s.nextInterval}, nextInterval := s.nextInterval + 1)
  }

  /** One tick of interval t: show the next egg, or, when all are shown, clear t. */
  function AfterTick(s: State, t: IntervalId): (r: State)
    ensures |r.visible| == |s.visible| && r.nextInterval == s.nextInterval
    ensures s.revealed < |s.visible| ==>
              r.revealed == s.revealed + 1 && r.visible[s.revealed] && r.intervals == s.intervals
    ensures s.revealed >= |s.visible| ==>
              r.revealed == s.revealed && r.visible == s.visible && r.intervals == s.intervals - {t}
    ensures forall i :: 0 <= i < |s.visible| && i != s.revealed ==> r.visible[i] == s.visible[i]
    ensures Inv(s) ==> Inv(r)
  {
    if s.revealed >= |s.visible| then s.(intervals := s.intervals - {t})
    else s.(visible := s.visible[s.revealed := true], revealed := s.revealed + 1)
  }

  /** What the event loop may do next: a start (a click that hit the chicken) or a tick of an interval. */
  datatype Event = Start | Fire(interval: IntervalId)

  /** A cleared interval never fires again, so firing a handle that is not live changes nothing. */
  function Step(s: State, e: Event): (r: State)
  {
    match e
    case Start => AfterStart(s)
    case Fire(t) => if t in s.intervals then AfterTick(s, t) else s
  }

  function Run(s: State, events: seq<Event>): (r: State)
    decreases |events|
  {
    if events == [] then s else Run(Step(s, events[0]), events[1..])
  }

  function CountFires(events: seq<Event>): (n: nat)
  {
    if events == [] then 0 else (if events[0].Fire? then 1 else 0) + CountFires(events[1..])
  }

  /** n ticks of interval t. */
  function Fires(t: IntervalId, n: nat): (events: seq<Event>)
  {
    seq(n, _ => Fire(t))
  }

  /**
   Whatever the interleaving of starts and ticks, however many intervals are
   live: the invariant holds, the counter never decreases and never moves by
   more than one per tick, and the egg array keeps its length.
   */
  lemma {:induction false} RunPreservesInv(s: State, events: seq<Event>)
    requires Inv(s)
    ensures Inv(Run(s, events))
    ensures |Run(s, events).visible| == |s.visible|
    ensures s.revealed <= Run(s, events).revealed <= s.revealed + CountFires(events)
    decreases |events|
  {
    if events != [] {
      RunPreservesInv(Step(s, events[0]), events[1..]);
    }
  }

  /** Once every egg is shown nothing reveals or hides anything again, and no interval is created. */
  lemma {:induction false} CompletionIsFinal(s: State, events: seq<Event>)
    requires Inv(s) && s.revealed == |s.visible|
    ensures Run(s, events).visible == s.visible && Run(s, events).revealed == s.revealed
    ensures Run(s, events).intervals <= s.intervals
    decreases |events|
  {
    if events != [] {
      CompletionIsFinal(Step(s, events[0]), events[1..]);
    }
  }

  /**
   A single live interval alone reveals every remaining egg, one per tick, and
   the tick after that clears it and no other interval.
   */
  lemma {:induction false} OneIntervalRevealsAll(s: State, t: IntervalId)
    requires Inv(s) && t in s.intervals
    ensures var done := Run(s, Fires(t, |s.visible| - s.revealed));
            done.revealed == |done.visible| == |s.visible| && AllShown(done) &&
            done.intervals == s.intervals
    ensures Run(s, Fires(t, |s.visible| - s.revealed + 1)).intervals == s.intervals - {t}
    decreases |s.visible| - s.revealed
  {
    var n := |s.visible| - s.revealed;
    assert Fires(t, n + 1)[1..] == Fires(t, n);
    if n == 0 {
      assert Fires(t, 0) == [];
    } else {
      var s' := AfterTick(s, t);
      assert Fires(t, n)[1..] == Fires(t, n - 1);
      OneIntervalRevealsAll(s', t);
    }
  }

  /**
   From setup, one start and 30 ticks of its interval show all 30 eggs, and a
   31st tick leaves no live interval.
   */
  lemma FullRevealFromSetup()
    ensures var s := Run(Initial(EggField.EggCount), [Start]);
            AllShown(Run(s, Fires(0, EggField.EggCount))) &&
            Run(s, Fires(0, EggField.EggCount + 1)).intervals == {}
  {
    var s := Run(Initial(EggField.EggCount), [Start]);
    assert s == AfterStart(Initial(EggField.EggCount));
    OneIntervalRevealsAll(s, 0);
  }

  /**
   There is no re-entry guard: two starts while eggs remain give two live
   intervals, and one tick of each reveals two eggs.
   */
  lemma TwoStartsTwoIntervals(s: State)
    requires Inv(s) && s.revealed + 2 <= |s.visible|
    ensures |Run(s, [Start, Start]).intervals| == |s.intervals| + 2
    ensures Run(s, [Start, Start, Fire(s.nextInterval), Fire(s.nextInterval + 1)]).revealed == s.revealed + 2
  {
    var a := AfterStart(s);
    var b := AfterStart(a);
    assert Run(s, [Start, Start]) == Run(b, []);
    var events := [Start, Start, Fire(s.nextInterval), Fire(s.nextInterval + 1)];
    var c := AfterTick(b, s.nextInterval);
    var d := AfterTick(c, s.nextInterval + 1);
    assert events[1..][1..] == [Fire(s.nextInterval), Fire(s.nextInterval + 1)];
    assert Run(s, events) == Run(b, [Fire(s.nextInterval), Fire(s.nextInterval + 1)]);
    assert Run(b, [Fire(s.nextInterval), Fire(s.nextInterval + 1)]) == Run(c, [Fire(s.nextInterval + 1)]);
    assert Run(c, [Fire(s.nextInterval + 1)]) == Run(d, []);
  }

  /**
   The object the source mutates: the eggs, their visibility flags in an array
   and the counter, plus the set of live intervals.
   */
  class Sequencer {
    const eggs: seq<EggField.Egg>
    const visible: array<bool>
    var revealedEggs: nat
    var intervals: set<IntervalId>
    var nextInterval: IntervalId

    function Snapshot(): State
      reads this, visible
    {
      State(visible[..], revealedEggs, intervals, nextInterval)
    }

    ghost predicate Valid()
      reads this, visible
    {
      |eggs| == visible.Length && Inv(Snapshot())
    }

    /** Setup: create the 30 eggs, all hidden, with the counter at 0. */
    constructor (draws: seq<EggField.Draw>)
      requires |draws| == EggField.EggCount
      ensures |eggs| == EggField.EggCount
      ensures forall i :: 0 <= i < EggField.EggCount ==> eggs[i] == EggField.PlaceEgg(draws[i])
      ensures fresh(visible) && Snapshot() == Initial(EggField.EggCount) && Valid()
    {
      var created := EggField.CreateEggs(draws);
      eggs := created;
      visible := new bool[EggField.EggCount](_ => false);
      revealedEggs := 0;
      intervals := {};
      nextInterval := 0;
      new;
      assert visible[..] == seq(EggField.EggCount, _ => false);
    }

    /** revealEggsOneByOne. */
    method RevealEggsOneByOne()
      modifies this
      ensures Snapshot() == AfterStart(old(Snapshot()))
      ensures old(Valid()) ==> Valid()
    {
      if revealedEggs >= visible.Length {
        return;
      }
      intervals := intervals + {nextInterval};
      nextInterval := nextInterval + 1;
    }

    /** The callback of a live interval. */
    method Tick(interval: IntervalId)
      requires interval in intervals
      modifies this, visible
      ensures Snapshot() == AfterTick(old(Snapshot()), interval)
      ensures old(Valid()) ==> Valid()
    {
      if revealedEggs >= visible.Length {
        intervals := intervals - {interval};
        return;
      }
      visible[revealedEggs] := true;
      revealedEggs := revealedEggs + 1;
    }
  }
}

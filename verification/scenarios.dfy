/**
 Whole runs of the timer screen: a started countdown fed by its timer's
 ticks ends in exactly one alarm, pausing and resuming continues from the
 seconds left, and a sound picked from the menu after an alarm is the one
 the next alarm plays.
 */
module Scenarios {
  import opened Clock
  import opened MainActivity
  import opened Invariants

  /** The tick events reporting the given remaining milliseconds, in order. */
  function Ticks(ms: seq<nat>): (events: seq<Event>)
    ensures |events| == |ms|
    ensures forall i :: 0 <= i < |ms| ==> events[i] == Tick(ms[i])
  {
    seq(|ms|, i requires 0 <= i < |ms| => Tick(ms[i]))
  }

  /**
   One tick per whole second of an `n`-second countdown, each half a second
   into its second: (n-1)*1000+500, ..., 1500, 500 ms left. Every tick
   reports time still left, as the platform's ticks do.
   */
  function SecondTicks(n: nat): (ms: seq<nat>)
    ensures |ms| == n
    ensures forall i :: 0 <= i < n ==> ms[i] == (n - 1 - i) * 1000 + 500
    ensures forall i :: 0 <= i < n ==> WholeSeconds(ms[i]) == n - 1 - i
  {
    seq(n, i requires 0 <= i < n => (n - 1 - i) * 1000 + 500)
  }

  /** How many times the player is started along a run. */
  function AlarmStarts(s: Activity, events: seq<Event>): nat
    decreases |events|
  {
    if |events| == 0 then 0
    else match Step(s, events[0])
      case Crashed(_) => 0
      case Ok(t) => (if !s.PlayerPlaying() && t.PlayerPlaying() then 1 else 0) + AlarmStarts(t, events[1..])
  }

  /** Running `e` and then `rest` is running `rest` from the screen `e` leads to. */
  lemma RunCons(s: Activity, e: Event, rest: seq<Event>)
    requires Step(s, e).Ok?
    ensures Run(s, [e] + rest) == Run(Step(s, e).next, rest)
    ensures Admissible(s, [e] + rest) <==> Deliverable(s, e) && Admissible(Step(s, e).next, rest)
    ensures AlarmStarts(s, [e] + rest)
      == (if !s.PlayerPlaying() && Step(s, e).next.PlayerPlaying() then 1 else 0)
         + AlarmStarts(Step(s, e).next, rest)
  {
  }

  /**
   A started countdown whose timer reports a second or more left on every
   tick but the last, and under a second on the last, completes on that last
   tick, sounding the selected alarm exactly once.
   */
  lemma {:induction false} CountdownCompletes(s: Activity, ms: seq<nat>)
    requires Inv(s) && s.state == Started
    requires |ms| >= 1 && ms[|ms| - 1] < 1000
    requires forall i :: 0 <= i < |ms| - 1 ==> ms[i] >= 1000
    requires forall i :: 0 <= i < |ms| ==> ms[i] <= s.timer.millis
    ensures Admissible(s, Ticks(ms)) && Run(s, Ticks(ms)).Ok?
    ensures var t := Run(s, Ticks(ms)).next;
      && t.state == Completed && t.PlayerPlaying() && !t.TimerRunning()
      && t.player.sound == s.alarmSound && t.shown == 0
    ensures AlarmStarts(s, Ticks(ms)) == 1
    decreases |ms|
  {
    var events := Ticks(ms);
    assert events[0] == Tick(ms[0]);
    if |ms| == 1 {
      ZeroTickPreservesInv(s, ms[0]);
      assert events[1..] == [];
    } else {
      CountingTickPreservesInv(s, ms[0]);
      var t := TickArrived(s, ms[0]).next;
      assert events[1..] == Ticks(ms[1..]);
      CountdownCompletes(t, ms[1..]);
    }
  }

  /**
   Starting a countdown of `n >= 1` seconds from the slider screen and feeding
   it one tick per second completes it on the n-th tick with exactly one
   alarm (for 1:30, after 90 ticks).
   */
  lemma CountdownFromSliders(minutes: nat, seconds: nat)
    requires minutes <= MaxMinutes && seconds <= MaxSeconds
    requires Duration(minutes, seconds) >= 1
    ensures var s := Create(minutes, seconds);
      var events := [ActionPress] + Ticks(SecondTicks(Duration(minutes, seconds)));
      && Admissible(s, events) && Run(s, events).Ok?
      && Run(s, events).next.state == Completed
      && Run(s, events).next.PlayerPlaying()
      && AlarmStarts(s, events) == 1
  {
    var n := Duration(minutes, seconds);
    var s := Create(minutes, seconds);
    var ms := SecondTicks(n);
    CreateEstablishesInv(minutes, seconds);
    ActionPreservesInv(s);
    var started := ActionPressed(s).next;
    assert started.timer.millis == 1000 * n;
    assert ms[n - 1] == 500;
    CountdownCompletes(started, ms);
    RunCons(s, ActionPress, Ticks(ms));
  }

  /** The countdown of 1:30 completes after 90 ticks. */
  lemma NinetySeconds()
    ensures |SecondTicks(90)| == 90
    ensures var s := Create(1, 30);
      var events := [ActionPress] + Ticks(SecondTicks(90));
      && Admissible(s, events)
      && Run(s, events).Ok? && Run(s, events).next.state == Completed
      && AlarmStarts(s, events) == 1
  {
    CountdownFromSliders(1, 30);
  }

  /** Pausing and then resuming restarts the timer from the seconds left, not the selected duration. */
  lemma PauseThenResume(s: Activity)
    requires Inv(s) && s.state == Started
    ensures Admissible(s, [ActionPress, ActionPress])
    ensures Run(s, [ActionPress, ActionPress]).Ok?
    ensures var t := Run(s, [ActionPress, ActionPress]).next;
      && t.state == Started && !t.resetVisible
      && t.timer == CountDown(1000 * s.currentCountdownValue, true)
      && t.currentCountdownValue == s.currentCountdownValue
      && t.countdownValue == s.countdownValue
  {
  }

  /** Paused with 45 s showing, resuming runs the timer for 45 000 ms. */
  lemma PauseAtFortyFive(s: Activity, ms: nat)
    requires Inv(s) && s.state == Started
    requires 45000 <= ms < 46000 && ms <= s.timer.millis
    ensures var events := [Tick(ms), ActionPress, ActionPress];
      && Admissible(s, events) && Run(s, events).Ok?
      && Run(s, events).next.timer == CountDown(45000, true)
  {
    CountingTickPreservesInv(s, ms);
    var t := TickArrived(s, ms).next;
    assert t.currentCountdownValue == 45;
    PauseThenResume(t);
    assert [Tick(ms), ActionPress, ActionPress][1..] == [ActionPress, ActionPress];
  }

  /**
   A sound picked from the menu on the completed screen leaves it completed,
   and after reset and start the next alarm plays the picked sound.
   */
  lemma PickedSoundPlaysNext(s: Activity, item: MenuItem, ms: seq<nat>)
    requires Inv(s) && s.state == Completed && !item.OtherItem?
    requires |ms| >= 1 && ms[|ms| - 1] < 1000
    requires forall i :: 0 <= i < |ms| - 1 ==> ms[i] >= 1000
    requires forall i :: 0 <= i < |ms| ==> ms[i] <= 1000 * s.countdownValue
    ensures MenuSelected(s, item).Handled? && MenuSelected(s, item).next.state == Completed
    ensures var events := [MenuSelect(item), ResetPress, ActionPress] + Ticks(ms);
      && Admissible(s, events) && Run(s, events).Ok?
      && Run(s, events).next.PlayerPlaying()
      && Run(s, events).next.player.sound == Preset(item)
  {
    MenuPreservesInv(s, item);
    var picked := MenuSelected(s, item).next;
    ResetPreservesInv(picked);
    var stopped := ResetPressed(picked).next;
    ActionPreservesInv(stopped);
    var started := ActionPressed(stopped).next;
    assert started.timer.millis == 1000 * s.countdownValue;
    CountdownCompletes(started, ms);
    RunCons(stopped, ActionPress, Ticks(ms));
    RunCons(picked, ResetPress, [ActionPress] + Ticks(ms));
    RunCons(s, MenuSelect(item), [ResetPress] + ([ActionPress] + Ticks(ms)));
    assert [MenuSelect(item), ResetPress, ActionPress] + Ticks(ms)
        == [MenuSelect(item)] + ([ResetPress] + ([ActionPress] + Ticks(ms)));
  }
}
